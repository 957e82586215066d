/**
 * One tracer of src/tracer.py: its configuration (options and positional
 * arguments appended before start), its start/stop/wait lifecycle, the
 * `bpftrace` command line of both variants, and the rotating variant's
 * writer, which feeds the child's output lines into numbered files.
 *
 * The two Python subclasses become one class with a `variant` constant; the
 * thread and the child process are abstract: the lifecycle records the stop
 * event and the worker, and the child's output is a finite sequence of reads.
 */
module Tracing {
  import opened Results
  import opened PathNames
  import opened Rotation

  const Program: string := "bpftrace"

  /** Seconds a stopped child may take to exit before it is killed. */
  const DefaultTerminationTimeout: int := 2

  /** MonoTracer (bpftrace writes its own `-o` file) or RotateTracer. */
  datatype Variant = Mono | Rotate

  /** The worker thread: none before `start`, running, or joined. */
  datatype Worker = NoWorker | Running | Finished

  /** The stop event (None before `start`, otherwise whether it is set) and
      the worker thread. */
  datatype Lifecycle = Lifecycle(stopEvent: Option<bool>, worker: Worker)

  const Unstarted: Lifecycle := Lifecycle(None, NoWorker)

  /** `start()` has run: the stop event exists. */
  predicate Started(l: Lifecycle)
  {
    l.stopEvent.Some?
  }

  /** The event and the worker are created together. */
  predicate Coherent(l: Lifecycle)
  {
    l.stopEvent.None? <==> l.worker == NoWorker
  }

  /** Raised by `stop()` before `start()`: the stop event is still None. */
  datatype Fault = NoStopEvent

  /** `start()`: a new, unset stop event and a new running worker. */
  function StartL(l: Lifecycle): (r: Lifecycle)
    ensures Started(r) && Coherent(r) && r.stopEvent == Some(false) && r.worker == Running
  {
    Lifecycle(Some(false), Running)
  }

  /** `stop()`: set the event, then join the worker; fails before `start()`. */
  function StopL(l: Lifecycle): (r: Result<Lifecycle, Fault>)
    ensures r.Err? <==> !Started(l)
    ensures r.Ok? ==> r.value.stopEvent == Some(true) && r.value.worker != Running
    ensures r.Ok? && Coherent(l) ==> Coherent(r.value)
  {
    if l.stopEvent.None? then Err(NoStopEvent)
    else Ok(Lifecycle(Some(true), if l.worker == NoWorker then NoWorker else Finished))
  }

  /** `wait()`: join the worker if there is one; the stop event is untouched. */
  function WaitL(l: Lifecycle): (r: Lifecycle)
    ensures r.stopEvent == l.stopEvent && r.worker != Running
    ensures l.worker == NoWorker ==> r == l
  {
    if l.worker == NoWorker then l else l.(worker := Finished)
  }

  /** A second `stop()` after a successful one only sets a set event and joins
      a finished worker: nothing changes. */
  lemma StopIdempotent(l: Lifecycle)
    requires StopL(l).Ok?
    ensures StopL(StopL(l).value) == StopL(l)
  {
  }

  /** Before `start()`, `wait()` does nothing and `stop()` fails. */
  lemma BeforeStart()
    ensures WaitL(Unstarted) == Unstarted
    ensures StopL(Unstarted) == Err(NoStopEvent)
  {
  }

  /** The `bpftrace` command line: program, options, script, then arguments. */
  function Command(options: seq<string>, script: string, args: seq<string>): (argv: seq<string>)
    ensures |argv| == |options| + |args| + 2
    ensures argv[0] == Program && argv[|options| + 1] == script
    ensures argv[1..|options| + 1] == options && argv[|options| + 2..] == args
  {
    [Program] + options + [script] + args
  }

  /** The handle in `_f`: none yet, or the file of a given index, open or closed. */
  datatype FileHandle = NoFile | Handle(index: nat, isOpen: bool)

  /** What one turn of the rotating tracer's read loop sees: the stop event
      set, or the result of `readline()` (empty when nothing was read) with
      whether `poll()` would report the child as exited. */
  datatype Step = Read(line: Line, exited: bool) | StopSet

  /** The lines the read loop writes: every non-empty read, up to the first
      stop request or the first empty read after the child exited. */
  function Delivered(steps: seq<Step>): (r: Lines)
    ensures |r| <= |steps|
    ensures forall i :: 0 <= i < |r| ==> r[i] != []
    decreases |steps|
  {
    if steps == [] then []
    else match steps[0]
      case StopSet => []
      case Read(line, exited) =>
        if line == [] then (if exited then [] else Delivered(steps[1..]))
        else [line] + Delivered(steps[1..])
  }

  /** `after` agrees with `before` from index `from` on, and has grown just
      enough to hold `from` files. */
  predicate KeepsLater(before: seq<Lines>, after: seq<Lines>, from: nat)
  {
    && |after| == (if |before| < from then from else |before|)
    && (from <= |before| ==> after[from..] == before[from..])
  }

  lemma KeepsLaterSame(d: seq<Lines>, from: nat)
    requires from <= |d|
    ensures KeepsLater(d, d, from)
  {
  }

  lemma KeepsLaterTrans(d0: seq<Lines>, d1: seq<Lines>, d2: seq<Lines>, f1: nat, f2: nat)
    requires KeepsLater(d0, d1, f1) && KeepsLater(d1, d2, f2) && f1 <= f2
    ensures KeepsLater(d0, d2, f2)
  {
    if f2 <= |d0| {
      assert d2[f2..] == d1[f2..] == d1[f1..][f2 - f1..] == d0[f1..][f2 - f1..] == d0[f2..];
    }
  }

  /** A turn that ends the read loop: the stop event, or an empty read once
      the child has exited. */
  predicate Ends(step: Step)
  {
    step.StopSet? || (step.line == [] && step.exited)
  }

  /** Index of the first turn that ends the loop, or |steps|. */
  function End(steps: seq<Step>): (k: nat)
    ensures k <= |steps|
    ensures forall j :: 0 <= j < k ==> !Ends(steps[j])
    ensures k < |steps| ==> Ends(steps[k])
  {
    if steps == [] || Ends(steps[0]) then 0 else 1 + End(steps[1..])
  }

  /** The non-empty lines read, in order. */
  function NonEmpty(steps: seq<Step>): (r: Lines)
    ensures forall i :: 0 <= i < |r| ==> r[i] != []
  {
    if steps == [] then []
    else
      var last := steps[|steps| - 1];
      NonEmpty(steps[..|steps| - 1]) + (if last.Read? && last.line != [] then [last.line] else [])
  }

  /** NonEmpty distributes over concatenation. */
  lemma {:induction false} NonEmptyAppend(a: seq<Step>, b: seq<Step>)
    ensures NonEmpty(a + b) == NonEmpty(a) + NonEmpty(b)
    decreases |b|
  {
    if b == [] {
      assert a + b == a;
    } else {
      var c := a + b;
      assert c[..|c| - 1] == a + b[..|b| - 1];
      assert c[|c| - 1] == b[|b| - 1];
      NonEmptyAppend(a, b[..|b| - 1]);
    }
  }

  /** The loop writes exactly the non-empty lines read before the first turn
      that ends it. */
  lemma {:induction false} DeliveredUpToEnd(steps: seq<Step>)
    ensures Delivered(steps) == NonEmpty(steps[..End(steps)])
    decreases |steps|
  {
    if steps == [] || Ends(steps[0]) {
      assert steps[..End(steps)] == [];
    } else {
      var rest := steps[1..];
      var head: Lines := if steps[0].line != [] then [steps[0].line] else [];
      assert Delivered(steps) == head + Delivered(rest);
      DeliveredUpToEnd(rest);
      var k := End(rest);
      assert End(steps) == 1 + k;
      assert steps[..1 + k] == [steps[0]] + rest[..k];
      assert NonEmpty([steps[0]]) == head by {
        assert [steps[0]][..0] == [];
      }
      NonEmptyAppend([steps[0]], rest[..k]);
    }
  }

  class Tracer {
    const tid: string
    const script: string
    const outputDir: string
    const terminationTimeout: int
    const variant: Variant

    var options: seq<string>
    var args: seq<string>
    var life: Lifecycle

    // Rotation state of a RotateTracer.
    var rotateSize: int
    var fileIndex: nat
    var currentSize: nat
    var file: FileHandle
    /** Contents of `trace_{tid}_{k}.log` at position k. */
    var disk: seq<Lines>

    /** The open file is the one before `fileIndex`, and `currentSize` counts
        its bytes. */
    ghost predicate Valid()
      reads this
    {
      && Coherent(life)
      && fileIndex <= |disk|
      && (file.NoFile? ==> fileIndex == 0 && currentSize == 0)
      && (file.Handle? ==> file.index + 1 == fileIndex && currentSize == Size(disk[file.index]))
    }

    /** The files of this run, in index order; the last one is the open file. */
    ghost function Output(): seq<Lines>
      reads this
      requires Valid()
    {
      disk[..fileIndex]
    }

    constructor (tid: string, script: string, outputDir: string, variant: Variant, terminationTimeout: int)
      ensures Valid()
      ensures this.tid == tid && this.script == script && this.outputDir == outputDir
      ensures this.variant == variant && this.terminationTimeout == terminationTimeout
      ensures options == [] && args == [] && life == Unstarted
      ensures file == NoFile && fileIndex == 0 && currentSize == 0 && disk == []
    {
      this.tid := tid;
      this.script := script;
      this.outputDir := outputDir;
      this.variant := variant;
      this.terminationTimeout := terminationTimeout;
      options := [];
      args := [];
      life := Unstarted;
      rotateSize := DefaultRotateSize;
      fileIndex := 0;
      currentSize := 0;
      file := NoFile;
      disk := [];
    }

    /** `name()`: the id the tracer was created with. */
    function Name(): (n: string)
      ensures n == tid
    {
      tid
    }

    /** `with_options`: append to the options; nothing else changes. */
    method WithOptions(opts: seq<string>)
      modifies this`options
      ensures options == old(options) + opts
    {
      options := options + opts;
    }

    /** `with_args`: append to the arguments; nothing else changes. */
    method WithArgs(a: seq<string>)
      modifies this`args
      ensures args == old(args) + a
    {
      args := args + a;
    }

    method Start()
      modifies this`life
      ensures life == StartL(old(life))
    {
      life := StartL(life);
    }

    /** `stop()`; `ok == false` where Python raises. */
    method Stop() returns (ok: bool)
      modifies this`life
      ensures ok == Started(old(life))
      ensures life == if ok then StopL(old(life)).value else old(life)
    {
      var r := StopL(life);
      ok := r.Ok?;
      if ok {
        life := r.value;
      }
    }

    method Wait()
      modifies this`life
      ensures life == WaitL(old(life))
    {
      life := WaitL(life);
    }

    /** `with_rotate_size`: set the limit and restart numbering at 0 with no
        open file. */
    method WithRotateSize(size: int)
      requires Valid() && variant == Rotate
      modifies this`rotateSize, this`fileIndex, this`currentSize, this`file
      ensures Valid() && disk == old(disk)
      ensures rotateSize == size && fileIndex == 0 && currentSize == 0 && file == NoFile
    {
      rotateSize := size;
      fileIndex := 0;
      currentSize := 0;
      file := NoFile;
    }

    /** `__open_new_file`: close the current file, open (truncating) the file
        of the current index, then reset the size and advance the index. */
    method OpenNewFile() returns (filename: string)
      requires Valid() && variant == Rotate
      modifies this`file, this`disk, this`currentSize, this`fileIndex
      ensures Valid() && rotateSize == old(rotateSize)
      ensures filename == TraceFileName(outputDir, tid, old(fileIndex))
      ensures fileIndex == old(fileIndex) + 1 && file == Handle(old(fileIndex), true)
      ensures currentSize == 0
      ensures Output() == old(Output()) + [[]]
      ensures KeepsLater(old(disk), disk, fileIndex)
    {
      ghost var before := disk;
      if fileIndex < |disk| {
        disk := disk[fileIndex := []];
        assert disk[fileIndex + 1..] == before[fileIndex + 1..];
      } else {
        disk := disk + [[]];
      }
      assert disk[..fileIndex + 1] == before[..fileIndex] + [[]];
      filename := TraceFileName(outputDir, tid, fileIndex);
      file := Handle(fileIndex, true);
      currentSize := 0;
      fileIndex := fileIndex + 1;
    }

    /** `__write_line`: rotate first when the line would overflow the open
        file, then append it and count its bytes. */
    method WriteLine(line: Line)
      requires Valid() && variant == Rotate && file.Handle? && file.isOpen
      modifies this`file, this`disk, this`currentSize, this`fileIndex
      ensures Valid() && file.Handle? && file.isOpen && rotateSize == old(rotateSize)
      ensures |old(Output())| > 0
      ensures fileIndex == if Rotates(old(currentSize), line, rotateSize) then old(fileIndex) + 1 else old(fileIndex)
      ensures Output() == Put(old(Output()), line, rotateSize)
      ensures KeepsLater(old(disk), disk, fileIndex)
    {
      ghost var before := Output();
      ghost var disk0 := disk;
      KeepsLaterSame(disk, fileIndex);
      if currentSize + |line| > rotateSize {
        var _ := OpenNewFile();
        assert Output()[..|before|] == before;
      }
      ghost var disk1, index1 := disk, fileIndex;
      Append(line);
      KeepsLaterTrans(disk0, disk1, disk, index1, fileIndex);
    }

    /** `self._f.write(line)` and the size update: the line goes to the end
        of the open file. */
    method Append(line: Line)
      requires Valid() && file.Handle? && file.isOpen
      modifies this`disk, this`currentSize
      ensures Valid() && currentSize == old(currentSize) + |line|
      ensures |old(Output())| > 0
      ensures Output() == old(Output())[..|old(Output())| - 1] + [Last(old(Output())) + [line]]
      ensures KeepsLater(old(disk), disk, fileIndex)
    {
      var k := fileIndex - 1;
      var open := disk[k];
      SizeSnoc(open, line);
      disk := disk[k := open + [line]];
      currentSize := currentSize + |line|;
    }

    /** The final `self._f.close()`. */
    method CloseFile()
      requires Valid()
      modifies this`file
      ensures Valid() && Output() == old(Output())
      ensures file == if old(file).Handle? then old(file).(isOpen := false) else old(file)
    {
      if file.Handle? {
        file := file.(isOpen := false);
      }
    }

    /** MonoTracer `start_tracer`, up to the launch: the `-o` pair naming file
        0 is appended to the tracer's own options, then the command is built. */
    method MonoStartTracer() returns (argv: seq<string>)
      requires variant == Mono
      modifies this`options
      ensures options == old(options) + ["-o", TraceFileName(outputDir, tid, 0)]
      ensures argv == Command(options, script, args)
    {
      WithOptions(["-o", TraceFileName(outputDir, tid, 0)]);
      argv := Command(options, script, args);
    }

    /** The read loop of RotateTracer `start_tracer`: write every non-empty
        line read; leave on a stop request or on an empty read once the child
        has exited. */
    method ReadLoop(steps: seq<Step>)
      requires Valid() && variant == Rotate && file.Handle? && file.isOpen
      modifies this`file, this`disk, this`currentSize, this`fileIndex
      ensures Valid() && file.Handle? && file.isOpen && rotateSize == old(rotateSize)
      ensures fileIndex >= old(fileIndex)
      ensures Output() == Feed(old(Output()), Delivered(steps), rotateSize)
      ensures KeepsLater(old(disk), disk, fileIndex)
    {
      ghost var start, disk0 := Output(), disk;
      var i := 0;
      ghost var written: Lines := [];
      KeepsLaterSame(disk, fileIndex);
      while i < |steps|
        invariant 0 <= i <= |steps|
        invariant KeepsLater(disk0, disk, fileIndex)
        invariant Valid() && file.Handle? && file.isOpen && rotateSize == old(rotateSize)
        invariant fileIndex >= old(fileIndex)
        invariant Output() == Feed(start, written, rotateSize)
        invariant written + Delivered(steps[i..]) == Delivered(steps)
      {
        var step := steps[i];
        if step.StopSet? || (step.line == [] && step.exited) {
          DeliveredEnds(steps, i, written);
          break;
        }
        DeliveredNext(steps, i, written);
        if step.line != [] {
          ghost var disk1, index1 := disk, fileIndex;
          WriteLine(step.line);
          KeepsLaterTrans(disk0, disk1, disk, index1, fileIndex);
          FeedSnoc(start, written, step.line, rotateSize);
          written := written + [step.line];
        }
        i := i + 1;
      }
      DeliveredEnds(steps, i, written);
    }

    /** RotateTracer `start_tracer`: build the command (no `-o`), open the next
        file before the child runs, run the read loop, and close the open file
        on every path.  `spawned == false` is a launch that raised. */
    method RotateStartTracer(spawned: bool, steps: seq<Step>) returns (argv: seq<string>)
      requires Valid() && variant == Rotate
      modifies this`file, this`disk, this`currentSize, this`fileIndex
      ensures Valid() && rotateSize == old(rotateSize)
      ensures argv == Command(options, script, args)
      ensures fileIndex > old(fileIndex) && file == Handle(fileIndex - 1, false)
      ensures Output() == Feed(old(Output()) + [[]], if spawned then Delivered(steps) else [], rotateSize)
      ensures KeepsLater(old(disk), disk, fileIndex)
    {
      ghost var disk0 := disk;
      var _ := OpenNewFile();
      ghost var first, disk1, index1 := Output(), disk, fileIndex;
      ghost var fed: Lines := if spawned then Delivered(steps) else [];
      if spawned {
        ReadLoop(steps);
      } else {
        KeepsLaterSame(disk, fileIndex);
      }
      assert Output() == Feed(first, fed, rotateSize);
      KeepsLaterTrans(disk0, disk1, disk, index1, fileIndex);
      CloseFile();
      argv := Command(options, script, args);
    }
  }

  /** The loop leaves with everything delivered: the steps ran out, the stop
      event was seen, or an empty read came after the child exited. */
  lemma DeliveredEnds(steps: seq<Step>, i: nat, written: Lines)
    requires i <= |steps| && written + Delivered(steps[i..]) == Delivered(steps)
    requires i < |steps| ==> steps[i].StopSet? || (steps[i].line == [] && steps[i].exited)
    ensures written == Delivered(steps)
  {
    if i == |steps| {
      assert steps[i..] == [];
    }
    assert written + [] == written;
  }

  /** A step that does not end the loop delivers its line, if it has one. */
  lemma DeliveredNext(steps: seq<Step>, i: nat, written: Lines)
    requires i < |steps| && written + Delivered(steps[i..]) == Delivered(steps)
    requires steps[i].Read? && !(steps[i].line == [] && steps[i].exited)
    ensures var more := if steps[i].line == [] then [] else [steps[i].line];
      (written + more) + Delivered(steps[i + 1..]) == Delivered(steps)
  {
    assert steps[i..][1..] == steps[i + 1..];
    if steps[i].line != [] {
      assert Delivered(steps[i..]) == [steps[i].line] + Delivered(steps[i + 1..]);
    } else {
      assert written + [] == written;
    }
  }

  /** A line appended to a file adds its length to the file's size. */
  lemma SizeSnoc(f: Lines, line: Line)
    ensures Size(f + [line]) == Size(f) + |line|
  {
    assert (f + [line])[..|f|] == f;
  }

  lemma FeedSnoc(fs: seq<Lines>, lines: Lines, line: Line, limit: int)
    requires |fs| > 0
    ensures Feed(fs, lines + [line], limit) == Put(Feed(fs, lines, limit), line, limit)
  {
    assert (lines + [line])[..|lines|] == lines;
  }

  /** A fresh rotating run (file 0 opened first) writes exactly the lines
      read, in order, across files 0, 1, 2, …; each file is within the limit
      unless it holds one line, and a file was left only for a line that did
      not fit. */
  lemma FreshRunOutput(lines: Lines, limit: int)
    ensures var r := Feed([[]], lines, limit);
      && |r| >= 1
      && Flatten(r) == lines
      && (forall i :: 0 <= i < |r| ==> Bounded(r[i], limit))
      && Greedy(r, 0, limit)
  {
    assert Flatten([[]]) == [];
    FeedFlatten([[]], lines, limit);
    FeedBoundedGreedy([[]], lines, limit);
  }
}
