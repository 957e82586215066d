/**
 * The size-bounded rotation rule of the rotating tracer, on values: the files
 * written so far are a sequence of files, each a sequence of lines, and the
 * last one is the open file.  A line goes to the open file unless the file's
 * size plus the line's encoded length would exceed the limit, in which case a
 * new file is opened first; the decision is made before the write.
 */
module Rotation {

  type Byte = b: int | 0 <= b < 256

  /** One line of tracer output as its encoded bytes, newline included. */
  type Line = seq<Byte>

  /** The contents of one output file. */
  type Lines = seq<Line>

  /** 100 MiB, the default rotation size. */
  const DefaultRotateSize: int := 100 * 1024 * 1024

  /** Bytes in a file. */
  function Size(f: Lines): nat
  {
    if f == [] then 0 else Size(f[..|f| - 1]) + |f[|f| - 1]|
  }

  /** All lines of the files, in file order. */
  function Flatten(fs: seq<Lines>): Lines
  {
    if fs == [] then [] else Flatten(fs[..|fs| - 1]) + fs[|fs| - 1]
  }

  function Last<T>(s: seq<T>): T
    requires |s| > 0
  {
    s[|s| - 1]
  }

  /** The check made before every write. */
  predicate Rotates(size: int, line: Line, limit: int)
  {
    size + |line| > limit
  }

  /** One `__write_line`: the line lands, unsplit, either at the end of the open
      file or as the only line of a newly opened file; earlier files are not
      touched and nothing is lost. */
  function Put(fs: seq<Lines>, line: Line, limit: int): (r: seq<Lines>)
    requires |fs| > 0
    ensures |r| >= |fs| && r[..|fs| - 1] == fs[..|fs| - 1]
    ensures Flatten(r) == Flatten(fs) + [line]
    ensures Rotates(Size(Last(fs)), line, limit) ==> |r| == |fs| + 1 && r[|fs| - 1] == Last(fs) && Last(r) == [line]
    ensures !Rotates(Size(Last(fs)), line, limit) ==> |r| == |fs| && Last(r) == Last(fs) + [line]
    ensures Size(Last(r)) == if Rotates(Size(Last(fs)), line, limit) then |line| else Size(Last(fs)) + |line|
  {
    var open := Last(fs);
    if Rotates(Size(open), line, limit) then
      assert (fs + [[line]])[..|fs|] == fs;
      assert [line] == [] + [line];
      fs + [[line]]
    else
      var r := fs[..|fs| - 1] + [open + [line]];
      assert r[..|fs| - 1] == fs[..|fs| - 1];
      assert Flatten(fs) == Flatten(fs[..|fs| - 1]) + open;
      assert (open + [line])[..|open|] == open;
      r
  }

  /** Lines fed one after the other through `Put`: no file is dropped, and
      each line opens at most one new file. */
  function Feed(fs: seq<Lines>, lines: Lines, limit: int): (r: seq<Lines>)
    requires |fs| > 0
    ensures |fs| <= |r| <= |fs| + |lines|
    decreases |lines|
  {
    if lines == [] then fs
    else Put(Feed(fs, lines[..|lines| - 1], limit), Last(lines), limit)
  }

  /** Concatenating the files in index order gives back exactly the lines fed,
      in order, none split or lost. */
  lemma {:induction false} FeedFlatten(fs: seq<Lines>, lines: Lines, limit: int)
    requires |fs| > 0
    ensures Flatten(Feed(fs, lines, limit)) == Flatten(fs) + lines
  {
    if lines != [] {
      var init := lines[..|lines| - 1];
      FeedFlatten(fs, init, limit);
      assert lines == init + [Last(lines)];
    }
  }

  /** Files closed before the feed are left as they were, and the file open
      at the start only grows. */
  lemma {:induction false} FeedKeepsEarlierFiles(fs: seq<Lines>, lines: Lines, limit: int)
    requires |fs| > 0
    ensures var r := Feed(fs, lines, limit);
      && r[..|fs| - 1] == fs[..|fs| - 1]
      && Last(fs) <= r[|fs| - 1]
  {
    if lines != [] {
      var init := lines[..|lines| - 1];
      FeedKeepsEarlierFiles(fs, init, limit);
      var m := Feed(fs, init, limit);
      PutKeepsFiles(m, Last(lines), limit, |fs| - 1);
    }
  }

  /** One write leaves the first `k` files alone and only extends file `k`. */
  lemma PutKeepsFiles(m: seq<Lines>, line: Line, limit: int, k: nat)
    requires k < |m|
    ensures var r := Put(m, line, limit);
      && k < |r| && r[..k] == m[..k] && m[k] <= r[k]
  {
    var r := Put(m, line, limit);
    assert r[..k] == r[..|m| - 1][..k];
    assert m[..k] == m[..|m| - 1][..k];
    if k < |m| - 1 {
      assert r[k] == r[..|m| - 1][k];
    }
  }

  /** A file may exceed the limit only if it holds at most one line. */
  predicate Bounded(f: Lines, limit: int)
  {
    |f| <= 1 || Size(f) <= limit
  }

  /** The files a feed opens each start with a line, and a file was closed only
      because the next line did not fit into it. */
  predicate Greedy(r: seq<Lines>, from: nat, limit: int)
    requires from < |r|
  {
    && (forall i :: from < i < |r| ==> |r[i]| > 0)
    && (forall i :: from <= i < |r| - 1 ==> Rotates(Size(r[i]), r[i + 1][0], limit))
  }

  /** Every file touched by the feed stays within the limit unless it holds a
      single line, and rotation happens only when needed. */
  lemma {:induction false} FeedBoundedGreedy(fs: seq<Lines>, lines: Lines, limit: int)
    requires |fs| > 0 && Bounded(Last(fs), limit)
    ensures var r := Feed(fs, lines, limit);
      && (forall i :: |fs| - 1 <= i < |r| ==> Bounded(r[i], limit))
      && Greedy(r, |fs| - 1, limit)
  {
    if lines != [] {
      var init := lines[..|lines| - 1];
      FeedBoundedGreedy(fs, init, limit);
      PutBoundedGreedy(Feed(fs, init, limit), Last(lines), limit, |fs| - 1);
    }
  }

  /** One write keeps the files from `from` on bounded and greedy. */
  lemma PutBoundedGreedy(m: seq<Lines>, line: Line, limit: int, from: nat)
    requires from < |m|
    requires forall i :: from <= i < |m| ==> Bounded(m[i], limit)
    requires Greedy(m, from, limit)
    ensures var r := Put(m, line, limit);
      && (forall i :: from <= i < |r| ==> Bounded(r[i], limit))
      && Greedy(r, from, limit)
  {
    var r := Put(m, line, limit);
    var n := |m| - 1;
    forall i | from <= i < n
      ensures r[i] == m[i]
    {
      assert r[i] == r[..n][i];
    }
    if Rotates(Size(Last(m)), line, limit) {
      assert r == m + [[line]] by {
        assert r[..n] == m[..n];
      }
    } else {
      assert |r| == |m| && r[n] == m[n] + [line];
      assert r[n][..|m[n]|] == m[n];
      if from < n {
        assert r[n][0] == m[n][0];
      }
    }
  }

  /** A line longer than the limit rotates even out of an empty file, leaving
      that empty file behind. */
  lemma OversizedLineLeavesEmptyFile(fs: seq<Lines>, line: Line, limit: int)
    requires |fs| > 0 && Last(fs) == [] && |line| > limit
    ensures Put(fs, line, limit) == fs + [[line]]
  {
  }

  /** Limit 50 and three 20-byte lines: the first two share file 0 (40 <= 50),
      the third opens file 1 (60 > 50). */
  lemma ThreeLinesOfTwenty(a: Line, b: Line, c: Line)
    requires |a| == 20 && |b| == 20 && |c| == 20
    ensures Feed([[]], [a, b, c], 50) == [[a, b], [c]]
  {
    assert [a, b, c][..2] == [a, b];
    assert [a, b][..1] == [a];
    assert [a][..0] == [];
    var f1 := Feed([[]], [a], 50);
    assert f1 == [[a]] by {
      assert Feed([[]], [], 50) == [[]];
      assert Size([]) == 0;
    }
    assert Size([a]) == 20 by { assert [a][..0] == []; }
    var f2 := Feed([[]], [a, b], 50);
    assert f2 == Put(f1, b, 50);
    assert [a] + [b] == [a, b];
    assert [[a]][..0] + [[a] + [b]] == [[a, b]];
    assert f2 == [[a, b]];
    assert Size([a, b]) == 40 by { assert [a, b][..1] == [a]; }
  }
}
