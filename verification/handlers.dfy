/**
 * The tracer-set builders of src/handlers.py.  Each handler makes one tracer
 * per entry of its script directory's map ("io" then "memory"), checking that
 * every script exists, and attaches its own options or positional arguments.
 * Which script files exist is a parameter: the set of existing paths.
 */
module Handlers {
  import opened Results
  import opened Files
  import opened Tracing

  /** Exit status of `ensure_script` when a script file is missing. */
  const MissingScriptExit: int := 4

  const ExecuteDir: string := "bpftrace/execute"
  const PidDir: string := "bpftrace/pid"
  const CommandDir: string := "bpftrace/command"
  const CgroupAndCommandDir: string := "bpftrace/cgroup_and_command"
  const CgroupDir: string := "bpftrace/cgroup"

  /** A tracer just built for script `path`, not started, carrying the given
      options and arguments; a RotateTracer with the given size when `rotate`. */
  ghost predicate Configured(t: Tracer, name: string, path: string, outputDir: string,
                             options: seq<string>, args: seq<string>, rotate: bool, rotateSize: int)
    reads t
  {
    && t.Valid()
    && t.tid == name && t.Name() == name && t.script == path && t.outputDir == outputDir
    && t.terminationTimeout == DefaultTerminationTimeout
    && t.variant == (if rotate then Rotate else Mono)
    && t.options == options && t.args == args
    && t.life == Unstarted
    && t.file == NoFile && t.fileIndex == 0 && t.currentSize == 0 && t.disk == []
    && (rotate ==> t.rotateSize == rotateSize)
  }

  /** Every script of the map exists. */
  predicate AllPresent(m: seq<(string, string)>, scripts: set<string>)
  {
    forall i :: 0 <= i < |m| ==> m[i].1 in scripts
  }

  /** Distinct tracers for the first `|ts|` entries of `m`, in map order, each
      named by its entry's key and running its entry's script. */
  ghost predicate BuiltFor(ts: seq<Tracer>, m: seq<(string, string)>, outputDir: string,
                           options: seq<string>, args: seq<string>, rotate: bool, rotateSize: int)
    reads set i | 0 <= i < |ts| :: ts[i]
  {
    && |ts| <= |m|
    && (forall i :: 0 <= i < |ts| ==>
          Configured(ts[i], m[i].0, m[i].1, outputDir, options, args, rotate, rotateSize))
    && (forall i, j :: 0 <= i < j < |ts| ==> ts[i] != ts[j])
  }

  /** One distinct tracer per map entry, in map order. */
  ghost predicate Built(ts: seq<Tracer>, dirPath: string, outputDir: string,
                        options: seq<string>, args: seq<string>, rotate: bool, rotateSize: int)
    reads set i | 0 <= i < |ts| :: ts[i]
  {
    var m := TracingScripts(dirPath);
    |ts| == |m| && BuiltFor(ts, m, outputDir, options, args, rotate, rotateSize)
  }

  /** A new tracer for the next entry extends the built prefix. */
  lemma BuiltForSnoc(ts: seq<Tracer>, t: Tracer, m: seq<(string, string)>, outputDir: string,
                     options: seq<string>, args: seq<string>, rotate: bool, rotateSize: int)
    requires BuiltFor(ts, m, outputDir, options, args, rotate, rotateSize) && |ts| < |m|
    requires Configured(t, m[|ts|].0, m[|ts|].1, outputDir, options, args, rotate, rotateSize)
    requires t !in ts
    ensures BuiltFor(ts + [t], m, outputDir, options, args, rotate, rotateSize)
  {
    var us := ts + [t];
    forall i | 0 <= i < |us|
      ensures Configured(us[i], m[i].0, m[i].1, outputDir, options, args, rotate, rotateSize)
    {
      if i < |ts| {
        assert us[i] == ts[i];
      }
    }
  }

  /** `__new_tracer`: abort with exit code 4 when the script is missing;
      otherwise a RotateTracer with the given rotate size, or a MonoTracer. */
  method NewTracer(name: string, path: string, outputDir: string, rotate: bool, rotateSize: int,
                   scripts: set<string>) returns (r: Result<Tracer, int>)
    ensures r.Err? <==> path !in scripts
    ensures r.Err? ==> r.error == MissingScriptExit
    ensures r.Ok? ==> fresh(r.value) && Configured(r.value, name, path, outputDir, [], [], rotate, rotateSize)
  {
    if path !in scripts {
      return Err(MissingScriptExit);
    }
    var t;
    if rotate {
      t := new Tracer(name, path, outputDir, Rotate, DefaultTerminationTimeout);
      t.WithRotateSize(rotateSize);
    } else {
      t := new Tracer(name, path, outputDir, Mono, DefaultTerminationTimeout);
    }
    r := Ok(t);
  }

  /** `__new_tracer` followed by the handler's own `with_options` and
      `with_args`. */
  method NewConfigured(name: string, path: string, outputDir: string, options: seq<string>, args: seq<string>,
                       rotate: bool, rotateSize: int, scripts: set<string>) returns (r: Result<Tracer, int>)
    ensures r.Err? <==> path !in scripts
    ensures r.Err? ==> r.error == MissingScriptExit
    ensures r.Ok? ==> fresh(r.value) && Configured(r.value, name, path, outputDir, options, args, rotate, rotateSize)
  {
    r := NewTracer(name, path, outputDir, rotate, rotateSize, scripts);
    if r.Ok? {
      r.value.WithOptions(options);
      r.value.WithArgs(args);
    }
  }

  /** The loop shared by the five handlers. */
  method BuildTracers(dirPath: string, outputDir: string, options: seq<string>, args: seq<string>,
                      rotate: bool, rotateSize: int, scripts: set<string>) returns (r: Result<seq<Tracer>, int>)
    ensures r.Err? <==> !AllPresent(TracingScripts(dirPath), scripts)
    ensures r.Err? ==> r.error == MissingScriptExit
    ensures r.Ok? ==> Built(r.value, dirPath, outputDir, options, args, rotate, rotateSize)
    ensures r.Ok? ==> forall i :: 0 <= i < |r.value| ==> fresh(r.value[i])
  {
    var m := TracingScripts(dirPath);
    var tracers: seq<Tracer> := [];
    var i := 0;
    while i < |m|
      invariant 0 <= i <= |m| && |tracers| == i
      invariant forall j :: 0 <= j < i ==> m[j].1 in scripts && fresh(tracers[j])
      invariant BuiltFor(tracers, m, outputDir, options, args, rotate, rotateSize)
    {
      var t := NewConfigured(m[i].0, m[i].1, outputDir, options, args, rotate, rotateSize, scripts);
      if t.Err? {
        assert m[i].1 !in scripts;
        return Err(t.error);
      }
      assert t.value !in tracers;
      BuiltForSnoc(tracers, t.value, m, outputDir, options, args, rotate, rotateSize);
      tracers := tracers + [t.value];
      i := i + 1;
    }
    r := Ok(tracers);
  }

  /** `handle_execute`: options `-c <execute>`, no arguments. */
  method HandleExecute(outputDir: string, execute: string, rotate: bool, rotateSize: int,
                       scripts: set<string>) returns (r: Result<seq<Tracer>, int>)
    ensures r.Err? <==> !AllPresent(TracingScripts(ExecuteDir), scripts)
    ensures r.Err? ==> r.error == MissingScriptExit
    ensures r.Ok? ==> Built(r.value, ExecuteDir, outputDir, ["-c", execute], [], rotate, rotateSize)
    ensures r.Ok? ==> forall i :: 0 <= i < |r.value| ==> fresh(r.value[i])
  {
    r := BuildTracers(ExecuteDir, outputDir, ["-c", execute], [], rotate, rotateSize, scripts);
  }

  /** `handle_pid`: the single argument `<pid>`. */
  method HandlePid(outputDir: string, pid: string, rotate: bool, rotateSize: int,
                   scripts: set<string>) returns (r: Result<seq<Tracer>, int>)
    ensures r.Err? <==> !AllPresent(TracingScripts(PidDir), scripts)
    ensures r.Err? ==> r.error == MissingScriptExit
    ensures r.Ok? ==> Built(r.value, PidDir, outputDir, [], [pid], rotate, rotateSize)
    ensures r.Ok? ==> forall i :: 0 <= i < |r.value| ==> fresh(r.value[i])
  {
    r := BuildTracers(PidDir, outputDir, [], [pid], rotate, rotateSize, scripts);
  }

  /** `handle_command`: the single argument `<command>`. */
  method HandleCommand(outputDir: string, command: string, rotate: bool, rotateSize: int,
                       scripts: set<string>) returns (r: Result<seq<Tracer>, int>)
    ensures r.Err? <==> !AllPresent(TracingScripts(CommandDir), scripts)
    ensures r.Err? ==> r.error == MissingScriptExit
    ensures r.Ok? ==> Built(r.value, CommandDir, outputDir, [], [command], rotate, rotateSize)
    ensures r.Ok? ==> forall i :: 0 <= i < |r.value| ==> fresh(r.value[i])
  {
    r := BuildTracers(CommandDir, outputDir, [], [command], rotate, rotateSize, scripts);
  }

  /** `handle_cgroup_and_command`: the arguments `<cgid> <filter_command>`. */
  method HandleCgroupAndCommand(outputDir: string, cgid: string, filterCommand: string, rotate: bool,
                                rotateSize: int, scripts: set<string>) returns (r: Result<seq<Tracer>, int>)
    ensures r.Err? <==> !AllPresent(TracingScripts(CgroupAndCommandDir), scripts)
    ensures r.Err? ==> r.error == MissingScriptExit
    ensures r.Ok? ==> Built(r.value, CgroupAndCommandDir, outputDir, [], [cgid, filterCommand], rotate, rotateSize)
    ensures r.Ok? ==> forall i :: 0 <= i < |r.value| ==> fresh(r.value[i])
  {
    r := BuildTracers(CgroupAndCommandDir, outputDir, [], [cgid, filterCommand], rotate, rotateSize, scripts);
  }

  /** `handle_cgroup`: the single argument `<cgid>`. */
  method HandleCgroup(outputDir: string, cgid: string, rotate: bool, rotateSize: int,
                      scripts: set<string>) returns (r: Result<seq<Tracer>, int>)
    ensures r.Err? <==> !AllPresent(TracingScripts(CgroupDir), scripts)
    ensures r.Err? ==> r.error == MissingScriptExit
    ensures r.Ok? ==> Built(r.value, CgroupDir, outputDir, [], [cgid], rotate, rotateSize)
    ensures r.Ok? ==> forall i :: 0 <= i < |r.value| ==> fresh(r.value[i])
  {
    r := BuildTracers(CgroupDir, outputDir, [], [cgid], rotate, rotateSize, scripts);
  }
}
