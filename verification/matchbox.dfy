/**
 * The orchestration of src/matchbox.py as the sequence of calls it makes:
 * `ignite_tracing` resets the output directory, exports the reference
 * timestamps, starts every tracer and then waits for every tracer; the
 * shutdown handler stops every tracer.  Tracers are abstract: each is its
 * lifecycle, and a tracer is named in a call by its position in the list.
 */
module Matchbox {
  import opened Results
  import opened Files
  import opened Tracing

  /** A call made by the orchestration, to a collaborator or to a tracer. */
  datatype Call =
    | ResetDir(dir: Path)
    | ExportTimestamps(dir: Path)
    | Start(tracer: nat)
    | Wait(tracer: nat)
    | Stop(tracer: nat)
    | LogSignal(signum: int)

  /** The first `start` loop: `start()` on each tracer, in list order. */
  method StartAll(tracers: seq<Lifecycle>) returns (calls: seq<Call>, after: seq<Lifecycle>)
    ensures |calls| == |tracers| && forall k :: 0 <= k < |tracers| ==> calls[k] == Start(k)
    ensures |after| == |tracers| && forall k :: 0 <= k < |tracers| ==> after[k] == StartL(tracers[k])
  {
    calls, after := [], [];
    for i := 0 to |tracers|
      invariant |calls| == i && forall k :: 0 <= k < i ==> calls[k] == Start(k)
      invariant |after| == i && forall k :: 0 <= k < i ==> after[k] == StartL(tracers[k])
    {
      calls := calls + [Start(i)];
      after := after + [StartL(tracers[i])];
    }
  }

  /** The second loop: `wait()` on each tracer, in the same order. */
  method WaitAll(tracers: seq<Lifecycle>) returns (calls: seq<Call>, after: seq<Lifecycle>)
    ensures |calls| == |tracers| && forall k :: 0 <= k < |tracers| ==> calls[k] == Wait(k)
    ensures |after| == |tracers| && forall k :: 0 <= k < |tracers| ==> after[k] == WaitL(tracers[k])
  {
    calls, after := [], [];
    for i := 0 to |tracers|
      invariant |calls| == i && forall k :: 0 <= k < i ==> calls[k] == Wait(k)
      invariant |after| == i && forall k :: 0 <= k < i ==> after[k] == WaitL(tracers[k])
    {
      calls := calls + [Wait(i)];
      after := after + [WaitL(tracers[i])];
    }
  }

  /** The calls of a successful `ignite_tracing` over `n` tracers. */
  predicate IgniteOrder(calls: seq<Call>, dir: Path, n: nat)
  {
    && |calls| == 2 + 2 * n
    && calls[0] == ResetDir(dir) && calls[1] == ExportTimestamps(dir)
    && (forall k :: 0 <= k < n ==> calls[2 + k] == Start(k) && calls[2 + n + k] == Wait(k))
  }

  /** `ignite_tracing`: reset the directory (a failure there propagates before
      anything else happens), export the timestamps, start all, wait for all. */
  method Ignite(fs: FileSystem, dir: Path, tracers: seq<Lifecycle>)
    returns (ok: bool, calls: seq<Call>, after: seq<Lifecycle>)
    requires WellFormed(fs.tree)
    modifies fs
    ensures ok == CreateDirSpec(old(fs.tree), dir).Some?
    ensures fs.tree == if ok then CreateDirSpec(old(fs.tree), dir).value else old(fs.tree)
    ensures !ok ==> calls == [ResetDir(dir)] && after == tracers
    ensures ok ==> IgniteOrder(calls, dir, |tracers|)
    ensures ok ==> |after| == |tracers|
    ensures ok ==> forall k :: 0 <= k < |tracers| ==> after[k] == WaitL(StartL(tracers[k]))
  {
    ok := fs.CreateDir(dir);
    if !ok {
      return ok, [ResetDir(dir)], tracers;
    }
    var started, running := StartAll(tracers);
    var waited, finished := WaitAll(running);
    calls := [ResetDir(dir), ExportTimestamps(dir)] + started + waited;
    after := finished;
    IgniteCalls(dir, started, waited);
  }

  /** The reset, the export, then one start per tracer and one wait per tracer
      make up the order of a successful ignite. */
  lemma IgniteCalls(dir: Path, started: seq<Call>, waited: seq<Call>)
    requires |waited| == |started|
    requires forall k :: 0 <= k < |started| ==> started[k] == Start(k)
    requires forall k :: 0 <= k < |waited| ==> waited[k] == Wait(k)
    ensures IgniteOrder([ResetDir(dir), ExportTimestamps(dir)] + started + waited, dir, |started|)
  {
    var calls := [ResetDir(dir), ExportTimestamps(dir)] + started + waited;
    forall k | 0 <= k < |started|
      ensures calls[2 + k] == Start(k) && calls[2 + |started| + k] == Wait(k)
    {
    }
  }

  /** In a successful ignite every start precedes every wait, each tracer is
      started exactly once and waited for exactly once, both in list order,
      and nothing touches a tracer before the directory is reset and the
      timestamps exported. */
  lemma IgniteOrderFacts(calls: seq<Call>, dir: Path, n: nat)
    requires IgniteOrder(calls, dir, n)
    ensures forall i, j :: 0 <= i < |calls| && 0 <= j < |calls| && calls[i].Start? && calls[j].Wait? ==> i < j
    ensures forall i, j ::
      (0 <= i < |calls| && 0 <= j < |calls| && calls[i].Start? && calls[j].Start? && calls[i].tracer < calls[j].tracer)
      ==> i < j
    ensures forall i, j ::
      (0 <= i < |calls| && 0 <= j < |calls| && calls[i].Wait? && calls[j].Wait? && calls[i].tracer < calls[j].tracer)
      ==> i < j
    ensures forall i, j :: 0 <= i < |calls| && 0 <= j < |calls| && calls[i] == calls[j] ==> i == j
    ensures forall k :: 0 <= k < n ==> Start(k) in calls && Wait(k) in calls
    ensures forall i :: 0 <= i < |calls| && (calls[i].Start? || calls[i].Wait?) ==> 2 <= i && calls[i].tracer < n
  {
    forall i | 0 <= i < |calls|
      ensures i < 2 ==> !calls[i].Start? && !calls[i].Wait?
      ensures 2 <= i < 2 + n ==> calls[i] == Start(i - 2)
      ensures 2 + n <= i ==> calls[i] == Wait(i - 2 - n)
    {
      if 2 <= i < 2 + n {
        assert calls[2 + (i - 2)] == Start(i - 2);
      } else if 2 + n <= i {
        assert calls[2 + n + (i - 2 - n)] == Wait(i - 2 - n);
      }
    }
    forall k | 0 <= k < n
      ensures Start(k) in calls && Wait(k) in calls
    {
      assert calls[2 + k] == Start(k);
      assert calls[2 + n + k] == Wait(k);
    }
  }

  /** Index of the first tracer that was never started (|ts| when all were). */
  function FirstUnstarted(ts: seq<Lifecycle>): (k: nat)
    ensures k <= |ts|
    ensures forall j :: 0 <= j < k ==> Started(ts[j])
    ensures k < |ts| ==> !Started(ts[k])
  {
    if ts == [] || !Started(ts[0]) then 0 else 1 + FirstUnstarted(ts[1..])
  }

  /** The state `stop()` leaves a started tracer in. */
  function Stopped(l: Lifecycle): Lifecycle
    requires Started(l)
  {
    StopL(l).value
  }

  /** The log line a handler invoked for a signal writes first. */
  function SignalLog(signum: Option<int>): (log: seq<Call>)
    ensures signum.None? ==> log == []
    ensures signum.Some? ==> log == [LogSignal(signum.value)]
  {
    if signum.Some? then [LogSignal(signum.value)] else []
  }

  /** `handle_shutdown(signum, _)`: log the signal when there is one, then
      `stop()` every tracer in list order; a tracer never started makes
      `stop()` raise, which ends the handler there (`ok == false`). */
  method Shutdown(signum: Option<int>, tracers: seq<Lifecycle>)
    returns (ok: bool, calls: seq<Call>, after: seq<Lifecycle>)
    ensures ok <==> forall k :: 0 <= k < |tracers| ==> Started(tracers[k])
    ensures var log := SignalLog(signum);
      var reached := if ok then |tracers| else FirstUnstarted(tracers) + 1;
      && |calls| == |log| + reached && calls[..|log|] == log
      && forall k :: 0 <= k < reached ==> calls[|log| + k] == Stop(k)
    ensures |after| == |tracers|
    ensures forall k :: 0 <= k < |tracers| ==>
      after[k] == if k < FirstUnstarted(tracers) then Stopped(tracers[k]) else tracers[k]
  {
    var log := SignalLog(signum);
    calls := log;
    after := tracers;
    var i := 0;
    while i < |tracers|
      invariant 0 <= i <= |tracers| && i <= FirstUnstarted(tracers)
      invariant |calls| == |log| + i && calls[..|log|] == log
      invariant forall k :: 0 <= k < i ==> calls[|log| + k] == Stop(k)
      invariant |after| == |tracers|
      invariant forall k :: 0 <= k < |tracers| ==> after[k] == if k < i then Stopped(tracers[k]) else tracers[k]
    {
      calls := calls + [Stop(i)];
      var r := StopL(after[i]);
      if r.Err? {
        return false, calls, after;
      }
      after := after[i := r.value];
      i := i + 1;
    }
    ok := true;
  }

  /** A second handler invocation after a successful one stops every tracer
      again without failing and leaves every tracer as the first left it. */
  lemma ShutdownTwice(tracers: seq<Lifecycle>)
    requires forall k :: 0 <= k < |tracers| ==> Started(tracers[k])
    ensures forall k :: 0 <= k < |tracers| ==>
      Started(Stopped(tracers[k])) && Stopped(Stopped(tracers[k])) == Stopped(tracers[k])
  {
  }
}
