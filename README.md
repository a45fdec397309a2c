# Termux web terminal: process bookkeeping, in Dafny

`bot.py` is a small Flask service. It runs shell commands and streams their
output, keeps a registry of the processes it started, and stops, kills or
signals them on request. It also keeps a bounded audit log. This project
models the sequential core of that bookkeeping and proves what each request
does to the service's state.

The state is the class `Terminal.TerminalState`, with the source's three
fields: the current directory, the process registry and the log. It has one
method per request handler. Every OS interaction is a parameter:

- `KillTree` is `kill_process_tree` as its callers see it: killed, no such
  process, or failed with a message that gets logged.
- `seq<SysProcess>` is the table `psutil.process_iter` lists: an integer pid,
  and the command-line parts and the name, each possibly missing.
- `Spawn` is what `subprocess.Popen` returned for the command started in the
  service's current directory (`cwd=state.current_dir`, bot.py:105 and 153).
  The strings `readline` returned are given, with the empty string meaning end
  of file, along with the exit code and the read error.
- `present` says whether the uploaded file exists under `upload_dir`
  (bot.py:428-431), and `copied` whether `shutil.copy` into the current
  directory returned (bot.py:434).
- `Deliver` says whether `os.kill` raised, and `Probe` is what
  `psutil.Process(pid)` found.
- The `os.path` functions used by `cd` are given too.

Each handler is proved against pure specification functions:

- module `Executor` for the streamed run;
- module `Control` for stop by name, stop by pid, kill all and the control
  keys;
- module `ProcessTree` for `kill_process_tree` over an abstract table of
  (pid, parent pid) rows.

Lemmas about those functions state what the source promises. Some examples:

- a tracked entry is removed exactly when its command contains the fragment
  and its kill succeeded;
- kill-all leaves exactly the entries whose kill failed;
- a successful run yields `rstrip(line) + "\n"` per line, then the completion
  marker, and restores the registry;
- the descendants are exactly the transitive children.

The registry is an ordered sequence of `(pid, info)` entries with unique pids
(`Registry.Table`), because the `killed` lists depend on dictionary insertion
order. Assigning an existing key keeps its position; a new key goes last.
Substring tests are Python's `in`, so an empty fragment (the default
`filename`) matches every command. `rstrip` removes every trailing whitespace
character Python's `str.isspace` accepts, not only the newline.

Behaviours of the code that the model keeps:

- An exception while reading the child's output leaves the pid registered,
  because the `del` is never reached. So a tracked pid can outlive its run
  (`Executor.ReadFailureRun`).
- `kill_process_tree` logs an error and returns false on any exception other
  than `NoSuchProcess`, not only when the root cannot be found. Examples are
  access denied while enumerating, and the `ValueError` psutil raises for a
  negative pid (`ProcessTree.TreeKillOutcome`).
- Stop by pid unregisters the pid only when the kill succeeded.
- The "Sent Ctrl+K" entry is also written for a key other than `C` or `Z`,
  which sends nothing.
- The stop reply concatenates the tracked and the system pids, so a pid can
  appear twice.
- The type tag of a non-python command is `bash`.

## Model

| member | source | states |
|---|---|---|
| LogBuffer.AppendedKeepsRecent | bot.py:41-48 | after an append the log has at most 1000 entries, ends with the new entry, and what precedes it is the most recent suffix of the old log in order; below 1000 nothing is dropped, at or above 1000 the length is exactly 1000 |
| LogBuffer.KeepAppend | bot.py:44-46 | trimming after every append keeps the same entries as one trim at the end |
| Terminal.TerminalState.LogMessage | bot.py:41-48 | returns `[ts] [level] msg` and leaves the log as the old log plus that entry, trimmed to 1000; the log bound is preserved |
| Terminal.TerminalState.constructor | bot.py:30-36 | starts with the given directory, an empty registry and an empty log |
| Registry.ClassifyFindsPython | bot.py:117 | a command whose lowered form contains `python` at some position is classified python |
| Registry.ClassifyLiteralPython | bot.py:117 | a command that contains `python` literally is classified python |
| Registry.ClassifyIgnoresCase | bot.py:117 | commands equal up to letter case get the same type |
| Registry.LookupSpec | bot.py:32 | in a registry with unique pids, lookup finds a pid exactly when it is tracked, and returns the info stored for it |
| Registry.PutSpec | bot.py:113-118 | registering keeps pids unique, stores the new info for the pid, leaves every other pid's info alone, and appends when the pid was new |
| Registry.RemoveSpec | bot.py:128-129 | unregistering keeps pids unique, drops the pid, leaves every other pid's info alone, changes nothing for an absent pid, and shrinks the registry by one exactly when the pid was tracked |
| Registry.RemoveAt | bot.py:171 | deleting the pid held only at position `i` cuts out exactly that entry and keeps the others in order |
| Registry.PutThenRemove | bot.py:113-129 | registering a new pid and then unregistering it restores the registry exactly |
| Registry.FilterKeepsDistinct | bot.py:168-171 | dropping entries from the registry keeps its pids unique |
| Registry.PidsOfFilter | bot.py:168-172 | the pids of the entries a sweep drops are exactly the pids of the entries that pass its test |
| Registry.RemoveInSweep | bot.py:168-171 | inside the sweep over a snapshot, deleting the current entry's pid turns "filtered prefix + untouched rest" into the same with one more entry swept |
| Registry.CountIsDistinctPids | bot.py:419 | the registry's length is the number of distinct tracked pids |
| Terminal.TerminalState.ApiStatus | bot.py:414-421 | reports the current directory, the number of tracked processes (the number of distinct pids) and the number of log entries, which is at most 1000 |
| Terminal.TerminalState.GetAllProcesses | bot.py:74-95 | one row per tracked entry in registry order, with its pid, command and type; the status is `running` exactly when the process was found and is running, otherwise `dead`; the start time is the probed one, or `unknown` when the process was not found |
| ProcessTree.Closure | bot.py:54 | the closure contains the start set and only live pids |
| ProcessTree.ClosureClosed | bot.py:54 | the closure contains every child of its members |
| ProcessTree.ClosureLeast | bot.py:54 | any set closed under children that contains the start set contains the closure |
| ProcessTree.DescendantsAreTransitiveChildren | bot.py:53-54 | the descendants are live, include every direct child, are closed under children, and are the least such set |
| ProcessTree.TreeKillOutcome | bot.py:50-72 | a negative root fails with psutil's `pid must be a positive integer (got N)` error, which is logged; otherwise the tree is reported killed exactly when the root is live and enumeration does not fail, no such process when the root is missing or vanishes, and otherwise the raised error |
| ProcessTree.KillProcessTree | bot.py:50-72 | the outcome is that of `TreeKillOutcome`; when the tree is killed, every descendant is sent a kill, then the root last, each descendant once when pids are unique (a parent-pid cycle through the root makes the root its own descendant, so it is sent a kill twice), and nothing else is sent a kill; otherwise, including a negative root, no kill is issued |
| ProcessTree.KilledAreDescendants | bot.py:56-60 | the pids killed in the children loop are exactly the descendants, without repeats when pids are unique |
| ProcessTree.TwoDescendants | bot.py:53-54 | for root 1 with child 2, grandchild 3 and an unrelated process 4, the descendants are exactly {2, 3} |
| Terminal.TerminalState.KillTreeLogged | bot.py:50-72 | reports success exactly when the tree was killed, and adds the "Error killing process" entry only for an unexpected failure |
| Executor.EofIndex | bot.py:121 | reading stops at the first empty read, or after the last read when none is empty; every read before that is non-empty |
| Executor.SuccessfulRun | bot.py:97-131 | for lines `L` and exit code `N` the stream is `rstrip(l) + "\n"` for each `l` in order, then `\n[Process completed with exit code: N]\n`; while the lines stream the pid is registered with the command and its type; afterwards it is gone; no other pid is touched; a registry that did not know the pid is restored exactly |
| Executor.LastChunkIsMarker | bot.py:125-131 | whenever end of file is reached, the last chunk is the completion marker with the exit code |
| Executor.SpawnFailureRun | bot.py:101-134 | if spawning fails the stream is the single chunk `Error executing command: <msg>\n` and the registry is untouched |
| Executor.ReadFailureRun | bot.py:121-134 | if a read raises, the stream is the lines read so far and then the error chunk; the pid stays registered, pids stay unique and no other pid's entry changes |
| Executor.EchoHello | bot.py:97-131 | `echo hello` writing one line and exiting 0 streams `hello\n` and then the marker for code 0 |
| Terminal.TerminalState.ExecuteCommandStream | bot.py:97-134 | logs `Executing: <cmd>`, yields exactly the chunks of `Executor.Run`, and leaves the registry as `Run` says; the registry during the read loop is `Run`'s |
| Commands.CommandToRun | bot.py:147-150 | a command made only of whitespace is rejected; any other is run stripped, and the stripped command is non-empty |
| Terminal.TerminalState.ApiExecute | bot.py:143-156 | an all-whitespace command gives "No command provided" and changes nothing; otherwise the stripped command is run as `ExecuteCommandStream` runs it |
| Control.StopByName | bot.py:166-196 | a tracked entry is removed exactly when its command contains the fragment and its kill succeeded, every other entry remains, and pids stay unique; the tracked part of `killed` is exactly the removed pids; the system part is exactly the listed processes whose joined command line contains the fragment and whose kill succeeded; the reply succeeds exactly when some tracked or system process was stopped |
| Control.StopNothingMatches | bot.py:166-196 | when no command and no command line contains the fragment, the registry is unchanged and the reply is "No process found for <fragment>" with nothing killed |
| Control.StopEmptyFragment | bot.py:162-184 | with the default empty fragment, every process whose kill succeeds is stopped |
| Terminal.TerminalState.StopTrackedEntry | bot.py:169-173 | one pass of the registry loop: the entry is hit exactly when its command contains the fragment and its kill succeeded; then it is unregistered and logged |
| Terminal.TerminalState.StopTracked | bot.py:167-173 | the registry loop of stop by name: the registry afterwards, the killed pids and the log are those of module Control |
| Terminal.TerminalState.StopSystemProcess | bot.py:177-184 | one pass of the system loop: the process is hit exactly when its joined command line contains the fragment and its kill succeeded; then it is logged |
| Terminal.TerminalState.StopSystem | bot.py:176-184 | the system loop of stop by name: the killed pids and the log are those of module Control, and the registry is not touched |
| Terminal.TerminalState.ApiStop | bot.py:158-196 | the registry, the reply (`Stopped N processes for F` with the pids, or the failure) and the log entries are exactly those of module Control |
| Control.StopByPid | bot.py:204-210 | if the kill succeeds the pid is no longer tracked and the reply succeeds; otherwise the registry is unchanged and the reply is "Process <pid> not found"; other pids are never touched |
| Terminal.TerminalState.ApiStopPid | bot.py:198-212 | the registry and reply are those of `StopPidRegistry` and `StopPidResponse`, and only a kill failure is logged |
| Control.KillAll | bot.py:217-240 | afterwards the registry holds exactly the entries whose kill failed, in order, with unique pids; the tracked part of `killed` is exactly the killed tracked pids; the system part is exactly the processes whose lowercased name contains `python` and whose kill succeeded; the reply always succeeds and its count is the length of `killed` |
| Terminal.TerminalState.KillAllTracked | bot.py:219-223 | the registry loop of kill all: the registry afterwards, the killed pids and the log are those of module Control |
| Terminal.TerminalState.KillAllSystemProcess | bot.py:226-233 | one pass of the system loop: the process is hit exactly when it has a name, that name lowercased contains `python`, and its kill succeeded |
| Terminal.TerminalState.KillAllSystem | bot.py:226-233 | the system loop of kill all: the killed pids and the log are those of module Control |
| Terminal.TerminalState.ApiKillAll | bot.py:214-240 | the registry, the reply and the log (ending with `Killed all processes: [p1, p2, ...]`) are exactly those of module Control |
| Control.CtrlKeys | bot.py:246-257 | `C` interrupts and `Z` suspends every tracked pid once, in registry order; any other key sends nothing but logs "Sent Ctrl+<key>" once per tracked pid |
| Control.CtrlLogsDelivered | bot.py:249-257 | for `C` and `Z` the entries are one "Sent Ctrl+<key> to process <pid>" per delivery that did not raise, in registry order, and none for a delivery that raised |
| Control.CtrlFailedDeliveriesSilent | bot.py:249-257 | a delivery that raises is not logged: when every delivery fails, `C` and `Z` log nothing |
| Terminal.TerminalState.ApiCtrl | bot.py:242-259 | the key defaults to `C`; the signals sent and the entries logged are those of module Control; the registry is unchanged and the reply always succeeds |
| Terminal.TerminalState.ApiCd | bot.py:292-311 | the target is the parent for `..`, the path itself when absolute, otherwise joined to the current directory; the request succeeds exactly when the target is a directory, and then the current directory becomes its absolute form and the change is logged; otherwise the directory and the log are unchanged and the reply is "Directory not found" |
| Commands.RunUploadedCommand | bot.py:437 | the command is `python3 ` followed by the file name when the name ends in `.py`, and `bash ` followed by the file name otherwise (prefix, suffix and length pin it exactly); a `.py` file's command is classified python once it runs |
| Commands.RunUploaded | bot.py:430-443 | a missing file gives "File not found"; a present file whose copy raises gives no reply (a server error); otherwise success with the command; its partner is `Commands.UploadedCommandRuns` |
| Commands.UploadedCommandRuns | bot.py:437-443 | a present file that is copied always yields a command, and `api_execute` never rejects that command; when the file name does not end in whitespace it is run exactly as suggested |
| Executor.Run | bot.py:97-134 | the transcript of a run; its properties are stated by `SuccessfulRun`, `LastChunkIsMarker`, `SpawnFailureRun` and `ReadFailureRun` |
| Registry.Classify | bot.py:117 | the type of a command; its partners are `ClassifyFindsPython`, `ClassifyLiteralPython` and `ClassifyIgnoresCase` |
| Registry.Lookup | bot.py:32 | the info the dictionary holds for a pid; its partner is `LookupSpec` |
| Registry.Put | bot.py:114-118 | `state.processes[pid] = info`; its partners are `PutSpec` and `PutThenRemove` |
| Registry.Remove | bot.py:128-129 | the guarded `del`; its partners are `RemoveSpec`, `RemoveAt` and `PutThenRemove` |
| Control.CmdlineText | bot.py:178 | the joined command line; its partner is `Control.ArgumentMatchStops` |
| Control.ArgumentMatchStops | bot.py:176-182 | a system process with one command-line argument containing the fragment is matched, and stopped when its kill succeeds |
| Control.NameIsPython | bot.py:228 | a system row with a name whose lowered form contains `python`; a missing name is skipped; stated in `Control.KillAll` |
| Control.StopKilled | bot.py:167-181 | the `killed` list of stop by name; stated in `Control.StopByName` |
| Control.StopLogs | bot.py:164-182 | the entries stop by name writes; `Terminal.TerminalState.ApiStop` is proved to write exactly these |
| Control.StopResponse | bot.py:186-196 | the stop reply; its success case is stated in `Control.StopByName` and its failure case in `Control.StopNothingMatches` |
| Control.StopPidRegistry | bot.py:205-207 | the registry after stop by pid; stated in `Control.StopByPid` |
| Control.StopPidResponse | bot.py:205-210 | the stop-by-pid reply; stated in `Control.StopByPid` |
| Control.KillAllKilled | bot.py:217-230 | the `killed` list of kill all; stated in `Control.KillAll` |
| Control.KillAllLogs | bot.py:219-234 | the entries kill all writes; `Terminal.TerminalState.ApiKillAll` is proved to write exactly these |
| Control.KillAllResponse | bot.py:236-240 | the kill-all reply; stated in `Control.KillAll` |
| Control.CtrlSignal | bot.py:251-254 | `C` maps to SIGINT, `Z` to SIGTSTP, and any other key to no signal; its partner is `Control.CtrlKeys` |
| Control.CtrlSent | bot.py:249-254 | the `os.kill` calls of the control keys; stated in `Control.CtrlKeys` |
| Control.CtrlLogs | bot.py:250-257 | the entries of the control keys; stated in `Control.CtrlKeys` and `Control.CtrlFailedDeliveriesSilent` |
| Commands.CdTarget | bot.py:299-304 | the directory `cd` tries; `Terminal.TerminalState.ApiCd` states its use |
| Text.Lower | bot.py:117 | ASCII `lower()`; its partners are `LowerKeepsOccurrence` and `LowerIdempotent` |
| Text.Join | bot.py:178 | `sep.join(parts)`; its partners are `JoinKeepsPart` and `JoinCommandLine` |
| Text.JoinKeepsPart | bot.py:178-179 | whatever `in` finds in one part it also finds in the joined string |
| Text.JoinCommandLine | bot.py:178 | joining `['python3', 'app.py']` with a space gives `python3 app.py` |
| Text.ListRepr | bot.py:234 | Python's `str` of a list of integers; its partner is `ListReprExamples` |
| Text.ListReprExamples | bot.py:234 | `[12, -3]` prints as `[12, -3]` and the empty list as `[]` |
| Text.IsSubstringIffOccurs | bot.py:117 | the recursive substring test agrees with "the needle occurs at some position" |
| Text.EmptyIsSubstring | bot.py:169 | the empty string is a substring of every string |
| Text.LowerKeepsOccurrence | bot.py:117 | a lower-case needle found in a string is still found at the same position after lowering |
| Text.LowerIdempotent | bot.py:117 | lowering twice is lowering once |
| Text.RStrip | bot.py:123 | the result is a prefix of the input, everything cut is whitespace, and the result does not end in whitespace |
| Text.LStrip | bot.py:147 | the result is a suffix of the input, everything cut is whitespace, and the result does not start with whitespace |
| Text.StripEmptyIffAllSpace | bot.py:147-149 | stripping leaves nothing exactly when the command is all whitespace |
| Text.StripIdempotent | bot.py:147 | stripping twice is stripping once |
| Text.NatToString | bot.py:190 | the decimal form is non-empty, all digits, and has no leading zero except for 0 itself |
| Text.NatToStringRoundTrip | bot.py:131 | parsing the decimal form of a natural number gives it back |
| Text.IntToStringRoundTrip | bot.py:131 | parsing the decimal form of an integer, sign included, gives it back, so distinct exit codes give distinct markers |

## Left out

- The Flask routing, JSON bodies, the `Response` object and the HTML page are
  transport. `api_logs` and `api_processes` only wrap state that is modelled,
  and they are left out as transport.
- The file-manager routes (`api_files`, `api_read_file`, `api_write_file`,
  `api_delete`, `api_upload`, `api_uploads`) are filesystem I/O. So is the copy
  in `api_run_uploaded`; its existence check and whether the copy raised are
  parameters here.
- The float `.1f` size strings of those routes are left out.
- Real `psutil`, `subprocess`, `os.kill` and `os.path` calls are replaced by
  the parameters described above. `os.path.abspath`, `dirname` and `join` are
  uninterpreted functions.
- `datetime.now` and `strftime` are left out. Each request takes one
  preformatted timestamp `ts`, used for all of its entries, and start times
  are opaque strings.
- `print` of each log entry is left out.
- Threads (`threaded=True`) are left out, so requests run one at a time. A run
  is modelled to its end, so another request cannot interleave with a
  streaming execution.
- The browser opener and the `__main__` banner and shutdown loop are left out.
- The `command_history` field is never read by the core, and creating the
  upload directory is I/O. `upload_dir` only locates the uploaded file, whose
  existence is the `present` parameter.
- Terminal.TerminalState.ExecuteCommandStream: returns the whole stream at
  once rather than yielding it lazily. The `if line:` test inside the read
  loop is always true there and has no counterpart.
- ProcessTree.KillProcessTree: kills descendants in table order, not psutil's
  order. Each kill that is swallowed is not modelled as a separate failure,
  because the source ignores its result. psutil's `children(recursive=True)`
  also skips a child created before its parent, as a pid-reuse defence. A
  table of (pid, parent pid) rows has no creation times, so it cannot express
  that.
- Control.StopByName: `KillTree` is one fixed function per request. A pid
  that is both tracked and listed in the system table gets the same answer
  twice. Really, the second kill may find no process, or find the zombie of a
  killed tracked child that `process.wait()` has not yet reaped. psutil still
  resolves a zombie, and it would report that zombie killed again.
- Control.KillAll, Control.StopByName: every kill is taken to return. But
  `psutil.process_iter` also lists the service's own process, which runs under
  `python3`. Kill all's name test therefore always matches it (bot.py:226-228).
  Stop by name matches it for any fragment of its command line, including the
  default empty one (bot.py:176-179). Killing that process kills the
  service's children and then the service (bot.py:54-63), so the request
  never replies, and kill all never writes its `Killed all processes` entry.
  The model continues past that kill, logs and replies.
- Control.NameIsPython: `Lower` folds only the ASCII letters A-Z. Python's
  `str.lower` also folds other scripts.
- JSON values of the wrong type (`pid` not an integer, `key` not a string) and
  the `except` branches they would reach are left out. Each handler takes
  well-typed arguments. A missing `key` defaults to `C`, as `data.get('key', 'C')`
  does.
- A missing `pid` in stop by pid is left out. `data.get('pid')` is then `None`,
  and `psutil.Process(None)` is the service's own process, so
  `kill_process_tree` would kill every descendant of the service and then the
  service itself (bot.py:202, 53-63). The
  model's `pid` is always an integer.
- The `except` clauses around the system-table loops, and the one in
  `api_cd`, catch only errors of the OS calls. Those calls are parameters
  here, with a missing name in `api_kill_all` modelled as a skipped row.
