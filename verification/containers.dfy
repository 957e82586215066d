/**
 * The text rules of src/containers.py: how a `crictl ps` listing is searched
 * for the target container, and how the cgroup path and id are cut out of
 * the output of `find` and `stat`.  Python's `str.split()`, `str.strip()`
 * and `str.splitlines()` are modelled with Python's own whitespace and
 * line-boundary characters.
 */
module Containers {
  import opened Results

  /** Exit status when the cgroup path cannot be found. */
  const LookupFailedExit: int := 1

  /** Python's `str.isspace()` for one character. */
  predicate IsSpace(c: char)
  {
    var n := c as int;
    || 0x09 <= n <= 0x0D || 0x1C <= n <= 0x20 || n == 0x85 || n == 0xA0 || n == 0x1680
    || 0x2000 <= n <= 0x200A || n == 0x2028 || n == 0x2029 || n == 0x202F || n == 0x205F
    || n == 0x3000
  }

  /** A line boundary of `str.splitlines()` (the pair "\r\n" counts as one). */
  predicate IsLineBreak(c: char)
  {
    var n := c as int;
    || n == 0x0A || n == 0x0B || n == 0x0C || n == 0x0D || n == 0x1C || n == 0x1D || n == 0x1E
    || n == 0x85 || n == 0x2028 || n == 0x2029
  }

  predicate AllSpace(s: string)
  {
    forall i :: 0 <= i < |s| ==> IsSpace(s[i])
  }

  predicate NoSpace(s: string)
  {
    forall i :: 0 <= i < |s| ==> !IsSpace(s[i])
  }

  /** Length of the leading run of non-space characters. */
  function TokenEnd(s: string): (n: nat)
    ensures n <= |s| && NoSpace(s[..n]) && (n < |s| ==> IsSpace(s[n]))
  {
    if s == [] || IsSpace(s[0]) then 0
    else
      var m := TokenEnd(s[1..]);
      assert s[..1 + m] == [s[0]] + s[1..][..m];
      1 + m
  }

  /** `s.split()`: the maximal runs of non-space characters, in order. */
  function Fields(s: string): (r: seq<string>)
    ensures forall i :: 0 <= i < |r| ==> r[i] != [] && NoSpace(r[i])
    decreases |s|
  {
    if s == [] then []
    else if IsSpace(s[0]) then Fields(s[1..])
    else
      var n := TokenEnd(s);
      [s[..n]] + Fields(s[n..])
  }

  /** Leading whitespace does not change the fields. */
  lemma FieldsSkipsSpaces(pre: string, s: string)
    requires AllSpace(pre)
    ensures Fields(pre + s) == Fields(s)
    decreases |pre|
  {
    if pre != [] {
      assert (pre + s)[0] == pre[0];
      assert (pre + s)[1..] == pre[1..] + s;
      assert Fields(pre + s) == Fields((pre + s)[1..]);
      FieldsSkipsSpaces(pre[1..], s);
    } else {
      assert pre + s == s;
    }
  }

  /** The token end is the one place where the non-space run stops. */
  lemma TokenEndUnique(s: string, n: nat)
    requires n <= |s| && NoSpace(s[..n]) && (n < |s| ==> IsSpace(s[n]))
    ensures TokenEnd(s) == n
  {
    var m := TokenEnd(s);
    assert forall i :: 0 <= i < n ==> s[..n][i] == s[i];
    assert forall i :: 0 <= i < m ==> s[..m][i] == s[i];
  }

  /** A token that ends inside `a`, or at a space after it, ends at the same
      place whatever follows. */
  lemma TokenEndStops(a: string, rest: string)
    requires TokenEnd(a) < |a| || rest == [] || IsSpace(rest[0])
    ensures TokenEnd(a + rest) == TokenEnd(a)
  {
    var n := TokenEnd(a);
    var s := a + rest;
    assert s[..n] == a[..n];
    assert n < |a| ==> s[n] == a[n];
    assert n == |a| && rest != [] ==> s[n] == rest[0];
    TokenEndUnique(s, n);
  }

  /** A run of whitespace separates the fields before it from those after
      it: `split()` of `a + w + b` is `split()` of `a` followed by `split()`
      of `b`, however long the run. */
  lemma {:induction false} FieldsSplitAtGap(a: string, w: string, b: string)
    requires AllSpace(w) && w != []
    ensures Fields(a + w + b) == Fields(a) + Fields(b)
    decreases |a|
  {
    var s := a + w + b;
    if a == [] {
      assert s == w + b;
      FieldsSkipsSpaces(w, b);
    } else if IsSpace(a[0]) {
      assert s[0] == a[0] && s[1..] == a[1..] + w + b;
      FieldsSplitAtGap(a[1..], w, b);
    } else {
      var n := TokenEnd(a);
      TokenEndStops(a, w + b);
      assert s == a + (w + b);
      assert s[..n] == a[..n];
      assert s[n..] == a[n..] + w + b;
      FieldsSplitAtGap(a[n..], w, b);
    }
  }

  /** A single token is its own only field. */
  lemma FieldsOfToken(c: string)
    requires c != [] && NoSpace(c)
    ensures Fields(c) == [c]
  {
    assert c[..|c|] == c && c[|c|..] == [];
  }

  /** Columns laid out with whitespace runs between them, as `crictl ps`
      pads its table. */
  function JoinGaps(cols: seq<string>, gaps: seq<string>): string
    requires |gaps| + 1 == |cols|
  {
    if |cols| == 1 then cols[0] else cols[0] + gaps[0] + JoinGaps(cols[1..], gaps[1..])
  }

  /** Splitting a padded row gives back its columns. */
  lemma {:induction false} FieldsOfColumns(cols: seq<string>, gaps: seq<string>)
    requires |gaps| + 1 == |cols|
    requires forall i :: 0 <= i < |cols| ==> cols[i] != [] && NoSpace(cols[i])
    requires forall i :: 0 <= i < |gaps| ==> gaps[i] != [] && AllSpace(gaps[i])
    ensures Fields(JoinGaps(cols, gaps)) == cols
  {
    FieldsOfToken(cols[0]);
    if |cols| > 1 {
      FieldsOfColumns(cols[1..], gaps[1..]);
      FieldsSplitAtGap(cols[0], gaps[0], JoinGaps(cols[1..], gaps[1..]));
      assert cols == [cols[0]] + cols[1..];
    }
  }

  /** Index of the first line boundary, or |s|. */
  function LineEnd(s: string): (n: nat)
    ensures n <= |s| && (forall i :: 0 <= i < n ==> !IsLineBreak(s[i])) && (n < |s| ==> IsLineBreak(s[n]))
  {
    if s == [] || IsLineBreak(s[0]) then 0 else 1 + LineEnd(s[1..])
  }

  /** `s.splitlines()`: the lines without their boundaries; no trailing empty
      line for a final boundary, and nothing at all for "". */
  function SplitLines(s: string): (r: seq<string>)
    ensures r == [] <==> s == []
    ensures s != [] ==> r[0] == s[..LineEnd(s)]
    ensures forall i :: 0 <= i < |r| ==> forall j :: 0 <= j < |r[i]| ==> !IsLineBreak(r[i][j])
    decreases |s|
  {
    if s == [] then []
    else
      var n := LineEnd(s);
      if n == |s| then [s]
      else [s[..n]] + SplitLines(s[NextLine(s)..])
  }

  /** Where the text after the first line starts: past its boundary, with
      "\r\n" counted as one boundary. */
  function NextLine(s: string): (k: nat)
    requires LineEnd(s) < |s|
    ensures LineEnd(s) < k <= |s|
    ensures k == LineEnd(s) + 2 <==> s[LineEnd(s)] == '\r' && LineEnd(s) + 1 < |s| && s[LineEnd(s) + 1] == '\n'
  {
    var n := LineEnd(s);
    if s[n] == '\r' && n + 1 < |s| && s[n + 1] == '\n' then n + 2 else n + 1
  }

  /** The lines after the first are the lines of the text after the first
      boundary; text without a boundary is one line. */
  lemma SplitLinesRest(s: string)
    requires s != []
    ensures LineEnd(s) == |s| ==> SplitLines(s) == [s]
    ensures LineEnd(s) < |s| ==> |SplitLines(s)| >= 1 && SplitLines(s)[1..] == SplitLines(s[NextLine(s)..])
  {
  }

  /** Lines each followed by "\n". */
  function Terminated(lines: seq<string>): string
  {
    if lines == [] then [] else lines[0] + "\n" + Terminated(lines[1..])
  }

  /** `splitlines()` gives back lines that were each written with a "\n". */
  lemma {:induction false} SplitTerminated(lines: seq<string>)
    requires forall i :: 0 <= i < |lines| ==> forall j :: 0 <= j < |lines[i]| ==> !IsLineBreak(lines[i][j])
    ensures SplitLines(Terminated(lines)) == lines
  {
    if lines != [] {
      var l := lines[0];
      var rest := Terminated(lines[1..]);
      var s := l + "\n" + rest;
      assert s == Terminated(lines);
      assert s[|l|] == '\n' && IsLineBreak(s[|l|]);
      assert forall i :: 0 <= i < |l| ==> s[i] == l[i];
      assert LineEnd(s) == |l|;
      assert NextLine(s) == |l| + 1;
      assert s[..|l|] == l && s[|l| + 1..] == rest;
      SplitTerminated(lines[1..]);
      assert lines == [l] + lines[1..];
    }
  }

  /** Number of leading whitespace characters. */
  function Leading(s: string): (n: nat)
    ensures n <= |s| && (forall i :: 0 <= i < n ==> IsSpace(s[i])) && (n < |s| ==> !IsSpace(s[n]))
  {
    if s == [] || !IsSpace(s[0]) then 0 else 1 + Leading(s[1..])
  }

  /** Index where the trailing whitespace starts. */
  function TrailStart(s: string): (n: nat)
    ensures n <= |s| && (forall i :: n <= i < |s| ==> IsSpace(s[i])) && (n > 0 ==> !IsSpace(s[n - 1]))
  {
    if s == [] || !IsSpace(s[|s| - 1]) then |s| else TrailStart(s[..|s| - 1])
  }

  /** `s.strip()`: `s` without its leading and trailing whitespace. */
  function Strip(s: string): (r: string)
    ensures r == [] || (!IsSpace(r[0]) && !IsSpace(r[|r| - 1]))
    ensures Leading(s) + |r| <= |s| && r == s[Leading(s)..Leading(s) + |r|]
    ensures forall i :: 0 <= i < Leading(s) || Leading(s) + |r| <= i < |s| ==> IsSpace(s[i])
  {
    var a, b := Leading(s), TrailStart(s);
    if b <= a then [] else s[a..b]
  }

  /** Stripping leaves nothing exactly when the text is all whitespace. */
  lemma StripEmpty(s: string)
    ensures Strip(s) == [] <==> AllSpace(s)
  {
  }

  lemma LineBreakIsSpace(c: char)
    ensures IsLineBreak(c) ==> IsSpace(c)
  {
  }

  /** A row of `crictl ps` names the target: it has at least 11 fields, the
      pod name in field 9 and the container name in field 6. */
  predicate RowMatches(row: string, pod: string, container: string)
  {
    var parts := Fields(row);
    |parts| >= 11 && parts[9] == pod && parts[6] == container
  }

  /** A row of padded columns matches exactly when it has at least 11 columns,
      the pod in column 9 and the container in column 6. */
  lemma RowOfColumns(cols: seq<string>, gaps: seq<string>, pod: string, container: string)
    requires |gaps| + 1 == |cols|
    requires forall i :: 0 <= i < |cols| ==> cols[i] != [] && NoSpace(cols[i])
    requires forall i :: 0 <= i < |gaps| ==> gaps[i] != [] && AllSpace(gaps[i])
    ensures RowMatches(JoinGaps(cols, gaps), pod, container) <==>
      |cols| >= 11 && cols[9] == pod && cols[6] == container
  {
    FieldsOfColumns(cols, gaps);
  }

  /** One pass of the `crictl ps` search: skip the header line, take field 0
      of the first matching row.  None means the poll goes round again. */
  method FindContainerId(stdout: string, pod: string, container: string) returns (id: Option<string>)
    ensures var rows := SplitLines(stdout);
      id.None? <==> forall k :: 1 <= k < |rows| ==> !RowMatches(rows[k], pod, container)
    ensures var rows := SplitLines(stdout);
      id.Some? ==> exists k :: (1 <= k < |rows| && RowMatches(rows[k], pod, container) &&
        id.value == Fields(rows[k])[0] && forall j :: 1 <= j < k ==> !RowMatches(rows[j], pod, container))
    ensures id.Some? ==> id.value != []
  {
    var rows := SplitLines(stdout);
    if |rows| <= 1 {
      return None;
    }
    var i := 1;
    while i < |rows|
      invariant 1 <= i <= |rows|
      invariant forall j :: 1 <= j < i ==> !RowMatches(rows[j], pod, container)
    {
      if RowMatches(rows[i], pod, container) {
        return Some(Fields(rows[i])[0]);
      }
      i := i + 1;
    }
    return None;
  }

  /** The cgroup path: the first line of the stripped `find` output; an output
      of only whitespace makes the indexing raise, and the lookup exits 1. */
  function CgroupPath(findStdout: string): (r: Result<string, int>)
    ensures r.Err? <==> AllSpace(findStdout)
    ensures r.Err? ==> r.error == LookupFailedExit
    ensures r.Ok? ==> r.value != [] && !IsSpace(r.value[0])
    ensures r.Ok? ==> forall j :: 0 <= j < |r.value| ==> !IsLineBreak(r.value[j])
    ensures r.Ok? ==> r.value <= Strip(findStdout)
    ensures r.Ok? ==> var s := Strip(findStdout); r.value == s[..LineEnd(s)]
  {
    var s := Strip(findStdout);
    StripEmpty(findStdout);
    var lines := SplitLines(s);
    if lines == [] then Err(LookupFailedExit)
    else
      LineBreakIsSpace(s[0]);
      Ok(lines[0])
  }

  /** The cgroup id: the `stat` output without surrounding whitespace; empty
      exactly when the output held nothing else. */
  function CgroupId(statStdout: string): (id: string)
    ensures id == [] <==> AllSpace(statStdout)
    ensures id == [] || (!IsSpace(id[0]) && !IsSpace(id[|id| - 1]))
    ensures var k := Leading(statStdout);
      && k + |id| <= |statStdout| && id == statStdout[k..k + |id|]
      && forall i :: 0 <= i < k || k + |id| <= i < |statStdout| ==> IsSpace(statStdout[i])
  {
    StripEmpty(statStdout);
    Strip(statStdout)
  }
}
