/**
 * Path and file-name strings as the tracing tool builds them: POSIX
 * `os.path.join` of two parts, the decimal rendering of a file index, and the
 * name `trace_{tid}_{index}.log` of a tracer's output file.
 */
module PathNames {

  const Sep: char := '/'

  predicate IsAbsolute(s: string) {
    |s| > 0 && s[0] == Sep
  }

  /** `os.path.join(a, b)` on POSIX: an absolute `b` replaces `a`; otherwise a
      separator is inserted unless `a` is empty or already ends with one. */
  function Join(a: string, b: string): (r: string)
    ensures IsAbsolute(b) ==> r == b
    ensures !IsAbsolute(b) ==> |r| >= |a| + |b| && r[..|a|] == a && r[|r| - |b|..] == b
    ensures !IsAbsolute(b) && a != [] && a[|a| - 1] != Sep ==> r == a + [Sep] + b
    ensures !IsAbsolute(b) && (a == [] || a[|a| - 1] == Sep) ==> r == a + b
  {
    if IsAbsolute(b) then b
    else if a == [] || a[|a| - 1] == Sep then a + b
    else a + [Sep] + b
  }

  /** For a fixed first part, different relative second parts give different
      paths: the joined prefix depends only on `a`. */
  lemma JoinInjective(a: string, b1: string, b2: string)
    requires !IsAbsolute(b1) && !IsAbsolute(b2) && b1 != b2
    ensures Join(a, b1) != Join(a, b2)
  {
    var p := if a == [] || a[|a| - 1] == Sep then a else a + [Sep];
    assert Join(a, b1) == p + b1 && Join(a, b2) == p + b2;
    assert b1 == (p + b1)[|p|..];
    assert b2 == (p + b2)[|p|..];
  }

  function Digit(d: nat): (c: char)
    requires d < 10
    ensures '0' <= c <= '9'
  {
    ['0', '1', '2', '3', '4', '5', '6', '7', '8', '9'][d]
  }

  /** Python's `str(n)` for a non-negative integer: no leading zero except
      for 0 itself. */
  function Decimal(n: nat): (s: string)
    ensures |s| > 0 && forall i :: 0 <= i < |s| ==> '0' <= s[i] <= '9'
    ensures n < 10 <==> |s| == 1
    ensures |s| > 1 ==> s[0] != '0'
  {
    if n < 10 then [Digit(n)] else Decimal(n / 10) + [Digit(n % 10)]
  }

  function DigitValue(c: char): (d: nat)
    requires '0' <= c <= '9'
    ensures d < 10
  {
    (c as int) - ('0' as int)
  }

  /** The number a string of decimal digits spells. */
  function DigitsValue(s: string): nat
    requires forall i :: 0 <= i < |s| ==> '0' <= s[i] <= '9'
  {
    if s == [] then 0 else 10 * DigitsValue(s[..|s| - 1]) + DigitValue(s[|s| - 1])
  }

  lemma DigitRoundTrip(d: nat)
    requires d < 10
    ensures DigitValue(Digit(d)) == d
  {
  }

  /** The rendering of `n` reads back as `n`. */
  lemma {:induction false} DecimalValue(n: nat)
    ensures DigitsValue(Decimal(n)) == n
  {
    var s := Decimal(n);
    if n < 10 {
      DigitRoundTrip(n);
      assert s[..0] == [];
    } else {
      DecimalValue(n / 10);
      DigitRoundTrip(n % 10);
      assert s[..|s| - 1] == Decimal(n / 10);
    }
  }

  /** Different numbers are rendered differently. */
  lemma DecimalInjective(n: nat, m: nat)
    requires Decimal(n) == Decimal(m)
    ensures n == m
  {
    DecimalValue(n);
    DecimalValue(m);
  }

  /** The file a tracer with id `tid` writes for file index `index`. */
  function TraceFileName(outputDir: string, tid: string, index: nat): string
  {
    Join(outputDir, "trace_" + tid + "_" + Decimal(index) + ".log")
  }

  /** The file lies inside the output directory and ends with its own name
      `trace_<tid>_<index>.log`; for a plain directory name the two are joined
      by one `/`. */
  lemma TraceFileNameShape(outputDir: string, tid: string, index: nat)
    ensures var path, name := TraceFileName(outputDir, tid, index), "trace_" + tid + "_" + Decimal(index) + ".log";
      && |path| >= |outputDir| + |name| && path[..|outputDir|] == outputDir && path[|path| - |name|..] == name
      && (outputDir != [] && outputDir[|outputDir| - 1] != Sep ==> path == outputDir + [Sep] + name)
  {
    assert !IsAbsolute("trace_" + tid + "_" + Decimal(index) + ".log");
  }

  lemma TraceFileNamesDistinct(outputDir: string, tid: string, i: nat, j: nat)
    requires i != j
    ensures TraceFileName(outputDir, tid, i) != TraceFileName(outputDir, tid, j)
  {
    var p := "trace_" + tid + "_";
    var bi := p + Decimal(i) + ".log";
    var bj := p + Decimal(j) + ".log";
    assert bi[|p|..|bi| - 4] == Decimal(i);
    assert bj[|p|..|bj| - 4] == Decimal(j);
    if Decimal(i) == Decimal(j) {
      DecimalInjective(i, j);
    }
    JoinInjective(outputDir, bi, bj);
  }
}
