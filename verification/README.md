# flap tracing core, modelled in Dafny

flap runs `bpftrace` scripts against a target and stores their output. The target can be:

- a command to execute;
- a process id;
- a command name;
- a cgroup;
- a cgroup plus a command filter;
- a Kubernetes container, resolved to its cgroup.

This project models the core of the tool and proves properties of the model.

- **PathNames** (`paths.dfy`): builds paths and names.
  - POSIX `os.path.join` of two parts.
  - `str(n)` of a file index.
  - The output file name `trace_{tid}_{index}.log`.
- **Files** (`files.dfy`) models `src/files.py`.
  - The ordered script map of a script directory: `io`, then `memory`.
  - `create_dir`, which forcibly re-creates the output directory.
  - The file system is a `FileSystem` object holding a map from path components to `Directory` or `RegularFile`. `rmtree` and `makedirs` change that map in place.
- **Rotation** (`rotation.dfy`) states the rotating tracer's write rule on values.
  - The files written so far form a sequence of files, and each file is a sequence of byte lines.
  - `Put` is one write and `Feed` is a series of writes.
- **Tracing** (`tracer.dfy`) models `src/tracer.py`.
  - One `Tracer` class holds the configuration: options and arguments appended before start.
  - The start/stop/wait lifecycle is a value: the stop event plus the worker thread.
  - The `bpftrace` command line of both variants.
  - The rotating variant's file state and its read loop. The loop is proved to write exactly `Feed(files, Delivered(steps), limit)`, where `steps` is the child's output.
  - `MonoTracer` and `RotateTracer` are one class with a `variant` constant.
- **Handlers** (`handlers.dfy`) models `src/handlers.py`.
  - The five handlers and `__new_tracer`.
  - Each handler builds one fresh, unstarted tracer per script. It adds its own options or positional arguments.
  - It exits with status 4 when a script is missing.
- **Matchbox** (`matchbox.dfy`) models `src/matchbox.py` as the sequence of calls it makes.
  - `ignite_tracing`: reset the directory, export timestamps, start every tracer, then wait for every tracer.
  - The shutdown handler: log the signal, then stop every tracer.
  - Each tracer is represented by its lifecycle value.
- **Containers** (`containers.dfy`) models the text rules of `src/containers.py`.
  - Python's `str.split()`, `str.strip()` and `str.splitlines()`, with Python's whitespace and line-boundary characters.
  - The `crictl ps` row search, which skips the header.
  - Extraction of the cgroup path and the cgroup id.
- **Results** (`results.dfy`): `Option` and `Result`.

Where Python raises an exception or calls `sys.exit`, the model returns an error value instead:

- `stop()` before `start()`;
- a missing script (exit 4);
- `makedirs` through a regular file;
- an empty `find` output (exit 1).

## Model

| member | source | states |
|---|---|---|
| PathNames.Join | src/tracer.py:134-136 | An absolute second part replaces the first. Otherwise the result starts with the first part and ends with the second. It is the plain concatenation when the first part is empty or ends in `/`, and has exactly one `/` inserted otherwise. |
| PathNames.JoinInjective | src/tracer.py:134-136 | For a fixed directory, joining different relative names gives different paths. |
| PathNames.Decimal | src/tracer.py:135 | The rendering of a file index is non-empty and all digits, without a leading zero unless it is the single digit `0`. It is one character long exactly for indices below 10. |
| PathNames.DecimalValue | src/tracer.py:135 | Reading the rendered digits back as a base-10 number gives the index again. |
| PathNames.DecimalInjective | src/tracer.py:135 | Different file indices are rendered as different strings. |
| PathNames.TraceFileNameShape | src/tracer.py:134-136 | The file of a tracer and index lies inside the output directory and ends with `trace_<tid>_<index>.log`. For a plain directory name it is `dir + "/" + name`. |
| PathNames.TraceFileNamesDistinct | src/tracer.py:134-141 | Different file indices of one tracer name different files, so a rotation never reopens (and truncates) an earlier file of the same run. |
| Files.TracingScripts | src/files.py:15-23 | The script map has exactly the entries `io` and `memory`, in that order. Each path lies inside the given directory and ends in `io_trace.bt` or `memory_trace.bt` respectively. For a plain directory name the path is `dir + "/io_trace.bt"` (resp. memory). |
| Files.Prune | src/files.py:10-11 | `rmtree(d)` removes exactly `d` and everything below it. Every other entry keeps its kind. |
| Files.AddDirs | src/files.py:12 | `makedirs` adds exactly the prefixes of the path. Every prefix ends up a directory, and every other entry keeps its kind. |
| Files.CreateDirSpec | src/files.py:5-12 | `create_dir` fails exactly on the empty path or when some prefix of the path is a regular file. On success the path is a directory. |
| Files.CreateDirResult | src/files.py:5-12 | `create_dir` fails exactly on the empty path or when some prefix of the path is a regular file. On success the tree stays well formed, the directory exists, and nothing lies inside it. |
| Files.CreateDirLeavesOthers | src/files.py:5-12 | Paths that are neither inside the directory nor an ancestor of it keep their presence and kind. |
| Files.CreateDirOnMissingPath | src/files.py:5-12 | On a path that does not exist, only the path and its missing ancestors are added as directories. |
| Files.CreateDirIdempotent | src/files.py:5-12 | Forcing the same directory a second time gives the same tree. |
| Files.FileSystem.RemoveTree | src/files.py:11 | The tree becomes `Prune(old tree, d)`. |
| Files.FileSystem.MakeDirs | src/files.py:12 | `makedirs(exist_ok=True)` creates missing prefixes top-down. It succeeds exactly when no prefix is a regular file, and then the tree is `AddDirs(old tree, d)`. On failure the tree is unchanged. |
| Files.FileSystem.CreateDir | src/files.py:5-12 | Succeeds exactly when `CreateDirSpec` does, and then leaves its tree. On failure the tree is unchanged. |
| Rotation.Put | src/tracer.py:143-149 | One write keeps every earlier file unchanged and appends the line, unsplit, to the concatenation. The line goes to a new file exactly when size + encoded length exceeds the limit, and otherwise to the end of the open file. The open file's size is updated accordingly. |
| Rotation.Feed | src/tracer.py:170-191 | A series of writes drops no file and opens at most one new file per line written. |
| Rotation.FeedFlatten | src/tracer.py:143-149 | After any series of writes, the files in index order concatenate to the earlier contents followed by exactly the lines written, in order. |
| Rotation.FeedKeepsEarlierFiles | src/tracer.py:143-149 | A series of writes never changes a file before the one that was open. |
| Rotation.FeedBoundedGreedy | src/tracer.py:143-149 | Every file touched stays within the limit unless it holds a single line. Every new file starts with a line. A file was left only because the next line did not fit into it. |
| Rotation.OversizedLineLeavesEmptyFile | src/tracer.py:145-146 | A line longer than the limit rotates even out of an empty open file, leaving that file empty. |
| Rotation.ThreeLinesOfTwenty | src/tracer.py:143-149 | With limit 50, three 20-byte lines give files `[[a, b], [c]]`. |
| Tracing.StartL | src/tracer.py:49-53 | `start()` creates an unset stop event and a running worker. |
| Tracing.StopL | src/tracer.py:55-59 | `stop()` fails exactly when `start()` has not run. Otherwise the event is set, no worker is left running, and the lifecycle stays coherent. |
| Tracing.WaitL | src/tracer.py:61-64 | `wait()` joins the worker if there is one and leaves the stop event alone. Without a worker it changes nothing. |
| Tracing.StopIdempotent | src/tracer.py:55-59 | A second `stop()` after a successful one succeeds and changes nothing. |
| Tracing.BeforeStart | src/tracer.py:55-64 | Before `start()`, `wait()` changes nothing and `stop()` fails. |
| Tracing.Command | src/tracer.py:85 | The command line is `bpftrace`, then the options, the script, and the arguments, each at its stated position. |
| Tracing.Delivered | src/tracer.py:170-191 | The read loop delivers only non-empty lines, never more lines than reads. |
| Tracing.End | src/tracer.py:170-186 | The loop ends at the first step that is a stop request or an empty read from an exited child. No earlier step ends it. |
| Tracing.DeliveredUpToEnd | src/tracer.py:170-191 | The delivered lines are exactly the non-empty lines read before the loop ends, in order. |
| Tracing.Tracer.constructor | src/tracer.py:12-31 | A new tracer has its id, script, output directory and timeout, no options or arguments, no stop event and no worker. |
| Tracing.Tracer.Name | src/tracer.py:66-68 | `name()` is the id the tracer was created with. |
| Tracing.Tracer.WithOptions | src/tracer.py:33-39 | Appends to the options and changes nothing else. |
| Tracing.Tracer.WithArgs | src/tracer.py:41-47 | Appends to the arguments and changes nothing else. |
| Tracing.Tracer.Start | src/tracer.py:49-53 | The lifecycle becomes `StartL` of the old one. |
| Tracing.Tracer.Stop | src/tracer.py:55-59 | Reports failure exactly when the tracer was never started, and then changes nothing. Otherwise the lifecycle becomes `StopL` of the old one. |
| Tracing.Tracer.Wait | src/tracer.py:61-64 | The lifecycle becomes `WaitL` of the old one. |
| Tracing.Tracer.WithRotateSize | src/tracer.py:116-127 | Sets the limit and resets the file index and size to 0, with no open file. |
| Tracing.Tracer.OpenNewFile | src/tracer.py:129-141 | Closes the old file and opens the file named for the current index, truncated to empty. The size is reset and the index advances. The run's files gain one empty file. Later files on disk are untouched. |
| Tracing.Tracer.WriteLine | src/tracer.py:143-149 | The run's files become `Put(old files, line, limit)`. The index advances exactly when the line does not fit. Files on disk beyond the run's are untouched. |
| Tracing.Tracer.Append | src/tracer.py:148-149 | The line goes to the end of the open file, and the size grows by its encoded length. Every other file, on disk or in the run, is unchanged. |
| Tracing.Tracer.CloseFile | src/tracer.py:194-196 | Closes the open file if there is one. |
| Tracing.Tracer.MonoStartTracer | src/tracer.py:78-85 | Appends `-o <dir>/trace_<tid>_0.log` to the tracer's own options, then builds the command from the updated options. |
| Tracing.Tracer.ReadLoop | src/tracer.py:170-191 | The files become `Feed(old files, Delivered(steps), limit)`. The file stays open. Files on disk beyond the run's are untouched. |
| Tracing.Tracer.RotateStartTracer | src/tracer.py:151-197 | Builds the command with no `-o` and opens a fresh file first. The files become `Feed(old files + [[]], lines read, limit)`, where no lines are read when the launch fails. The last file is closed on every path. Files on disk beyond the run's are untouched. |
| Tracing.FreshRunOutput | src/tracer.py:151-191 | A fresh rotating run writes exactly the lines read, in order, across files 0, 1, 2, …. Each file is within the limit unless it holds one line, and rotation happens only for a line that does not fit. |
| Handlers.NewTracer | src/handlers.py:138-152 | Fails with exit status 4 exactly when the script is missing. Otherwise returns a fresh, unstarted tracer with no options or arguments: a rotating tracer with the given size when `rotate` is set, a mono tracer otherwise. |
| Handlers.NewConfigured | src/handlers.py:25-26 | `__new_tracer` followed by the handler's own `with_options`/`with_args`. It fails with status 4 exactly when the script is missing. Otherwise it returns a fresh, unstarted tracer carrying exactly the given options and arguments. |
| Handlers.BuildTracers | src/handlers.py:22-29 | Fails with status 4 exactly when some script of the map is missing. Otherwise returns one distinct fresh tracer per map entry, in map order, each named by the key, running the path, and carrying the given options and arguments. |
| Handlers.HandleExecute | src/handlers.py:6-29 | As `BuildTracers` over `bpftrace/execute`, with options `-c <execute>` and no arguments. |
| Handlers.HandlePid | src/handlers.py:32-55 | As `BuildTracers` over `bpftrace/pid`, with the single argument `<pid>`. |
| Handlers.HandleCommand | src/handlers.py:58-81 | As `BuildTracers` over `bpftrace/command`, with the single argument `<command>`. |
| Handlers.HandleCgroupAndCommand | src/handlers.py:84-109 | As `BuildTracers` over `bpftrace/cgroup_and_command`, with the arguments `<cgid> <filter_command>`. |
| Handlers.HandleCgroup | src/handlers.py:112-135 | As `BuildTracers` over `bpftrace/cgroup`, with the single argument `<cgid>`. |
| Matchbox.StartAll | src/matchbox.py:22-25 | Calls `start()` on each tracer once, in list order, and each ends up started. |
| Matchbox.WaitAll | src/matchbox.py:29-31 | Calls `wait()` on each tracer once, in list order. |
| Matchbox.Ignite | src/matchbox.py:8-31 | When the directory reset fails, nothing else happens. Otherwise the calls are: reset, export timestamps, every start, then every wait. Each tracer ends up started and joined, and the file system is the result of `create_dir`. |
| Matchbox.IgniteOrderFacts | src/matchbox.py:8-31 | In a successful ignite every start precedes every wait, and starts and waits each follow list order. Each tracer is started once and waited for once. No tracer call comes before the reset and the export. |
| Matchbox.SignalLog | src/matchbox.py:41-42 | A signal number gives exactly one log call carrying it. Without one nothing is logged. |
| Matchbox.Shutdown | src/matchbox.py:41-50 | Logs the signal when there is one, then stops the tracers in list order. It succeeds exactly when every tracer was started. Otherwise it ends at the first unstarted tracer, and the tracers before it are stopped. |
| Matchbox.ShutdownTwice | src/matchbox.py:41-50 | After a successful shutdown, a second one succeeds and leaves every tracer as it was. |
| Containers.Fields | src/containers.py:32 | `split()` yields only non-empty tokens free of whitespace. |
| Containers.FieldsSplitAtGap | src/containers.py:32 | A run of whitespace separates fields: splitting `a + gap + b` is splitting `a`, then splitting `b`. |
| Containers.FieldsOfColumns | src/containers.py:32 | Splitting non-empty, space-free columns joined by whitespace runs gives the columns back. |
| Containers.RowOfColumns | src/containers.py:32-34 | A row of such columns matches exactly when it has at least 11 columns, the pod in column 9 and the container in column 6. |
| Containers.SplitLines | src/containers.py:31 | `splitlines()` is empty exactly for the empty string. Its first line is the text up to the first line boundary. No line contains a boundary. |
| Containers.SplitLinesRest | src/containers.py:31 | A text without a line boundary is one line. Otherwise the lines after the first are the lines of the text after the first boundary (`\r\n` counts as one). |
| Containers.SplitTerminated | src/containers.py:31 | Lines without boundaries, each followed by a newline, split back into exactly those lines. |
| Containers.Strip | src/containers.py:52 | `strip()` is a contiguous slice with no whitespace at either end, and everything cut off is whitespace. |
| Containers.StripEmpty | src/containers.py:52 | Stripping leaves nothing exactly when the text is all whitespace. |
| Containers.FindContainerId | src/containers.py:30-36 | Skips the header line. Finds nothing exactly when no later row has at least 11 fields with the pod in field 9 and the container in field 6. Otherwise returns field 0 of the first such row, which is non-empty. |
| Containers.CgroupPath | src/containers.py:52-55 | Fails with exit status 1 exactly when the `find` output is all whitespace. Otherwise returns the stripped output up to its first line boundary. That line is non-empty, starts with a non-space, and holds no line boundary. |
| Containers.CgroupId | src/containers.py:62-63 | The id is empty exactly when the `stat` output is all whitespace. It is the slice starting where the leading whitespace ends, has no whitespace at either end, and everything outside it is whitespace. |

## Left out

**Processes, threads and timing**

- Threads and child processes are abstract.
  - `threading.Thread`, `Event` and `join` are reduced to the lifecycle value.
  - `subprocess.Popen` in the rotating tracer is reduced to a flag for a failed launch plus the finite sequence of what `readline()` and `poll()` report.
- Not modelled: `terminate()`, `wait(timeout)`, the `kill()` escalation and the sleeps between polls.
- The read loop ends when the modelled output sequence runs out. A child that never exits and is never stopped is not modelled.
- Tracing.Tracer.MonoStartTracer stops at building the command line. The loop that polls `bpftrace` and terminates it on a stop request is left out: it only manages a process, and bpftrace writes the output file itself.
- Orchestration runs on values: Matchbox.Ignite and Matchbox.Shutdown act on lifecycle values, not `Tracer` objects.
  - So the model does not capture aliasing between list entries.
  - It does not capture a `stop()` that runs on the signal-handler path while `wait()` is still blocked.
- Exceptions raised inside a worker thread (file I/O failing during rotation) are not modelled.

**Paths and collaborators**

- Matchbox.Ignite takes the output directory as path components. Elsewhere it is a string, and converting between the two is not modelled.
- `export_reference_timestamps` (src/timestamp.py) appears only as a call in the trace. It reads the clock and `/proc/uptime` and writes JSON.
- `ensure_script` (src/utils.py) becomes the set of existing script paths passed to the handlers. Its `os.path.isfile` test is that set membership.
- `must_support_bpftrace` is not part of this model. Neither are the entry points and the script generator.
- Logging is left out, except the shutdown handler's line for a received signal, which appears as a call in the trace. The other `logging` calls (debug, rotation and per-tracer stop messages) are not modelled.

**Containers**

- `find_pod_cgroup` is modelled through its text rules: one pass over the `crictl ps` output, plus the path and id extraction from the `find` and `stat` outputs.
- Not modelled:
  - the polling loop and its sleep;
  - the subprocess calls;
  - their failures, which exit with status 1.

**Files, encoding and text**

- Lines are their encoded bytes, so `len(line.encode())` is the line length.
- Not modelled: text-mode newline translation, the output encoding, and what happens when `write` and `encode` disagree.
- Unicode categories are limited to the fixed whitespace and line-boundary code points that Python uses. Characters outside the Basic Multilingual Plane are not treated specially.
- Files.FileSystem.CreateDir treats the empty path as a failure, as `os.makedirs("")` raises. The root path `/` and symlinks are not modelled.

**Tracer details kept as in the source**

- Handlers.BuildTracers calls both `WithOptions` and `WithArgs` for every handler, one of them with an empty list. An empty append changes nothing, so the tracers are the same as the source's.
- Tracing.Tracer.MonoStartTracer appends `-o` on every call, as the source does. A tracer started twice carries the pair twice. No property is claimed about repeated starts.
