/**
 * The service's global state (`TerminalState`) and the request handlers that
 * change it. Every OS call is an oracle parameter: the process killer, the
 * system process table, the spawn and read results, the signal delivery and
 * the `os.path` functions. Each handler is proved against the specification
 * functions of modules Executor and Control.
 */
module Terminal {
  import opened Wrappers
  import opened Text
  import opened Seqs
  import opened LogBuffer
  import opened Registry
  import opened Executor
  import opened Control
  import opened Commands

  /** What `psutil.Process(pid)` found: no such process, or one with its running flag and start time. */
  datatype Liveness = Gone | Present(running: bool, startTime: string)

  type Probe = int -> Liveness

  /** One row of `get_all_processes`. */
  datatype ProcView = ProcView(pid: int, cmd: string, status: string, startTime: string, kind: string)

  /** The body of `api_status`. */
  datatype Status = Status(currentDir: string, processCount: nat, logsCount: nat)

  /** `api_execute`: the rejection, or the chunks of the stream. */
  datatype ExecReply = NoCommand | Streamed(chunks: seq<string>)

  /** The body of `api_cd`. */
  datatype CdReply = CdReply(success: bool, message: string, currentDir: string)

  class TerminalState {
    var currentDir: string
    var processes: Table
    var logs: seq<string>

    /** The registry is a dictionary (unique pids) and the log never exceeds its bound. */
    ghost predicate Valid()
      reads this
    {
      Distinct(processes) && |logs| <= MaxEntries
    }

    /** The working directory is given; the registry and the log start empty. */
    constructor (cwd: string)
      ensures Valid()
      ensures currentDir == cwd && processes == [] && logs == []
    {
      currentDir := cwd;
      processes := [];
      logs := [];
    }

    /** `log_message(msg, level)` at time `ts`. */
    method LogMessage(msg: string, level: string, ts: string) returns (entry: string)
      requires Valid()
      modifies this`logs
      ensures Valid()
      ensures entry == Format(ts, level, msg)
      ensures logs == Appended(old(logs), entry)
    {
      entry := Format(ts, level, msg);
      logs := logs + [entry];
      if |logs| > MaxEntries {
        logs := logs[|logs| - MaxEntries..];
      }
    }

    /** `kill_process_tree(pid)` with the entry it logs itself when it swallows an unexpected error. */
    method KillTreeLogged(pid: int, ts: string, kt: KillTree) returns (ok: bool)
      requires Valid()
      modifies this`logs
      ensures Valid()
      ensures ok <==> kt(pid).TreeKilled?
      ensures logs == Keep(old(logs) + KillErrorLogs(ts, pid, kt(pid)))
    {
      var outcome := kt(pid);
      if outcome.KillFailed? {
        var _ := LogMessage("Error killing process " + IntToString(pid) + ": " + outcome.error, "ERROR", ts);
      } else {
        assert old(logs) + [] == old(logs);
      }
      ok := outcome.TreeKilled?;
    }

    /**
     * `get_all_processes`: one row per tracked process in registry order. A
     * process psutil cannot find is reported dead with an unknown start time.
     */
    method GetAllProcesses(probe: Probe) returns (procs: seq<ProcView>)
      ensures |procs| == |processes|
      ensures forall i :: 0 <= i < |procs| ==>
        && procs[i].pid == processes[i].pid
        && procs[i].cmd == processes[i].info.cmd
        && procs[i].kind == KindName(processes[i].info.kind)
        && (procs[i].status == "running" || procs[i].status == "dead")
        && (procs[i].status == "running" <==> probe(processes[i].pid).Present? && probe(processes[i].pid).running)
        && procs[i].startTime == (if probe(processes[i].pid).Present? then probe(processes[i].pid).startTime else "unknown")
    {
      procs := [];
      for i := 0 to |processes|
        invariant |procs| == i
        invariant forall j :: 0 <= j < i ==>
          && procs[j].pid == processes[j].pid
          && procs[j].cmd == processes[j].info.cmd
          && procs[j].kind == KindName(processes[j].info.kind)
          && (procs[j].status == "running" || procs[j].status == "dead")
          && (procs[j].status == "running" <==> probe(processes[j].pid).Present? && probe(processes[j].pid).running)
          && procs[j].startTime == (if probe(processes[j].pid).Present? then probe(processes[j].pid).startTime else "unknown")
      {
        var e := processes[i];
        var view;
        match probe(e.pid) {
          case Present(running, start) =>
            view := ProcView(e.pid, e.info.cmd, if running then "running" else "dead", start, KindName(e.info.kind));
          case Gone =>
            view := ProcView(e.pid, e.info.cmd, "dead", "unknown", KindName(e.info.kind));
        }
        procs := procs + [view];
      }
    }

    /**
     * `execute_command_stream(cmd, cwd)` run to the end: logs the command, then
     * streams exactly the chunks of `Run`, leaving the registry as `Run` says.
     * `during` is the registry while the lines stream.
     */
    method ExecuteCommandStream(cmd: string, ts: string, spawn: Spawn, results: seq<string>, exitCode: int, readError: string)
      returns (chunks: seq<string>, ghost during: Table)
      requires Valid()
      modifies this`logs, this`processes
      ensures Valid()
      ensures chunks == Run(old(processes), cmd, spawn, results, exitCode, readError).chunks
      ensures during == Run(old(processes), cmd, spawn, results, exitCode, readError).during
      ensures processes == Run(old(processes), cmd, spawn, results, exitCode, readError).after
      ensures logs == Appended(old(logs), Format(ts, "COMMAND", "Executing: " + cmd))
    {
      var _ := LogMessage("Executing: " + cmd, "COMMAND", ts);
      match spawn {
        case SpawnFailed(e) =>
          chunks := [ErrorChunk(e)];
          during := processes;
        case Spawned(pid) =>
          var info := ProcInfo(cmd, Classify(cmd));
          PutSpec(processes, pid, info);
          processes := Put(processes, pid, info);
          during := processes;
          LookupSpec(processes, pid);
          chunks := [];
          ghost var logged := logs;
          var i := 0;
          while i < |results| && results[i] != ""
            invariant 0 <= i <= EofIndex(results)
            invariant chunks == Map(results[..i], EmitLine)
            invariant processes == during && logs == logged
          {
            MapStep(results, i, EmitLine);
            chunks := chunks + [EmitLine(results[i])];
            i := i + 1;
          }
          if i < |results| {
            // end of file: `process.wait()`, then the guarded `del`
            assert i == EofIndex(results);
            RemoveSpec(processes, pid);
            if Tracks(processes, pid) {
              processes := Remove(processes, pid);
            }
            chunks := chunks + [CompletionMarker(exitCode)];
          } else {
            // the read after the last line raised
            chunks := chunks + [ErrorChunk(readError)];
          }
      }
    }

    /**
     * `api_execute`: a command that is empty after stripping is rejected and
     * nothing changes; any other command is run stripped, in the current
     * directory.
     */
    method ApiExecute(raw: string, ts: string, spawn: Spawn, results: seq<string>, exitCode: int, readError: string)
      returns (reply: ExecReply)
      requires Valid()
      modifies this
      ensures Valid()
      ensures reply.NoCommand? <==> AllSpace(raw)
      ensures AllSpace(raw) ==> processes == old(processes) && logs == old(logs)
      ensures !AllSpace(raw) ==>
        var cmd := Strip(raw);
        && reply == Streamed(Run(old(processes), cmd, spawn, results, exitCode, readError).chunks)
        && processes == Run(old(processes), cmd, spawn, results, exitCode, readError).after
        && logs == Appended(old(logs), Format(ts, "COMMAND", "Executing: " + cmd))
      ensures currentDir == old(currentDir)
    {
      var cmd := CommandToRun(raw);
      if cmd.None? {
        return NoCommand;
      }
      var chunks, _ := ExecuteCommandStream(cmd.value, ts, spawn, results, exitCode, readError);
      reply := Streamed(chunks);
    }

    /** One pass of the first loop of `api_stop`, for the entry `e`. */
    method StopTrackedEntry(filename: string, ts: string, kt: KillTree, e: Entry) returns (hit: bool)
      requires Valid()
      modifies this`processes, this`logs
      ensures Valid()
      ensures hit <==> StopHit(filename, kt, e)
      ensures processes == if hit then Remove(old(processes), e.pid) else old(processes)
      ensures logs == Keep(old(logs) + StopTrackedLogs(filename, kt, ts)(e))
    {
      hit := false;
      if IsSubstring(filename, e.info.cmd) {
        var ok := KillTreeLogged(e.pid, ts, kt);
        if ok {
          RemoveSpec(processes, e.pid);
          processes := Remove(processes, e.pid);
          hit := true;
          var entry := LogMessage("Killed process " + IntToString(e.pid) + " for " + filename, "PROCESS", ts);
          KeepExtend(old(logs), KillErrorLogs(ts, e.pid, kt(e.pid)), [entry]);
        }
      } else {
        assert old(logs) + [] == old(logs);
      }
    }

    /**
     * The first loop of `api_stop`, over a snapshot of the registry: every
     * entry whose command contains `filename` and whose tree was killed is
     * unregistered and reported, in registry order.
     */
    method StopTracked(filename: string, ts: string, kt: KillTree) returns (killed: seq<int>)
      requires Valid()
      modifies this`processes, this`logs
      ensures Valid()
      ensures processes == Filter(old(processes), StopKeeps(filename, kt))
      ensures killed == Pids(Filter(old(processes), StopHits(filename, kt)))
      ensures logs == Keep(old(logs) + FlatMap(old(processes), StopTrackedLogs(filename, kt, ts)))
    {
      var snap := processes;
      killed := [];
      ghost var keeps := StopKeeps(filename, kt);
      ghost var hits := StopHits(filename, kt);
      ghost var each := StopTrackedLogs(filename, kt, ts);
      ghost var base := old(logs);
      assert base + [] == base;
      for i := 0 to |snap|
        invariant Valid()
        invariant processes == Filter(snap[..i], keeps) + snap[i..]
        invariant killed == Pids(Filter(snap[..i], hits))
        invariant logs == Keep(base + FlatMap(snap[..i], each))
      {
        SweepStep(snap, i, keeps);
        SweepDistinct(snap, i + 1, keeps);
        PidsStep(snap, i, hits);
        LogStep(base, snap, i, each);
        var hit := StopTrackedEntry(filename, ts, kt, snap[i]);
        if hit {
          killed := killed + [snap[i].pid];
        }
      }
      SweepDone(snap, keeps);
      assert snap[..|snap|] == snap;
    }

    /** One pass of the second loop of `api_stop`, for the system process `p`. */
    method StopSystemProcess(filename: string, ts: string, kt: KillTree, p: SysProcess) returns (hit: bool)
      requires Valid()
      modifies this`logs
      ensures Valid()
      ensures hit <==> SysStopHit(filename, kt, p)
      ensures logs == Keep(old(logs) + StopSystemLogs(filename, kt, ts)(p))
    {
      hit := false;
      if IsSubstring(filename, CmdlineText(p)) {
        var ok := KillTreeLogged(p.pid, ts, kt);
        if ok {
          hit := true;
          var entry := LogMessage("Killed system process " + IntToString(p.pid) + " for " + filename, "PROCESS", ts);
          KeepExtend(old(logs), KillErrorLogs(ts, p.pid, kt(p.pid)), [entry]);
        }
      } else {
        assert old(logs) + [] == old(logs);
      }
    }

    /**
     * The second loop of `api_stop`, over the system process table: every
     * process whose joined command line contains `filename` and whose tree
     * was killed is reported, in table order. The registry is not touched.
     */
    method StopSystem(filename: string, ts: string, kt: KillTree, sys: seq<SysProcess>) returns (killed: seq<int>)
      requires Valid()
      modifies this`logs
      ensures Valid()
      ensures killed == SysPids(Filter(sys, SysStopHits(filename, kt)))
      ensures logs == Keep(old(logs) + FlatMap(sys, StopSystemLogs(filename, kt, ts)))
    {
      killed := [];
      ghost var hits := SysStopHits(filename, kt);
      ghost var each := StopSystemLogs(filename, kt, ts);
      ghost var base := old(logs);
      assert base + [] == base;
      for k := 0 to |sys|
        invariant Valid()
        invariant killed == SysPids(Filter(sys[..k], hits))
        invariant logs == Keep(base + FlatMap(sys[..k], each))
      {
        LogStep(base, sys, k, each);
        var hit := StopSystemProcess(filename, ts, kt, sys[k]);
        SysPidsStep(sys, k, hits, killed, hit);
        if hit {
          killed := killed + [sys[k].pid];
        }
      }
      assert sys[..|sys|] == sys;
    }

    /**
     * `api_stop`: kills and unregisters every tracked process whose command
     * contains `filename`, then kills every system process whose command line
     * does; the registry, the reply and the log are those of module Control.
     */
    method ApiStop(filename: string, ts: string, kt: KillTree, sys: seq<SysProcess>) returns (resp: Response)
      requires Valid()
      modifies this
      ensures Valid()
      ensures processes == Filter(old(processes), StopKeeps(filename, kt))
      ensures resp == StopResponse(filename, StopKilled(old(processes), sys, filename, kt))
      ensures logs == Keep(old(logs) + StopLogs(old(processes), sys, filename, kt, ts))
      ensures currentDir == old(currentDir)
    {
      var first := LogMessage("Stop requested for: " + filename, "PROCESS", ts);
      ghost var mid := logs;
      var tracked := StopTracked(filename, ts, kt);
      ghost var trackedLogs := FlatMap(old(processes), StopTrackedLogs(filename, kt, ts));
      KeepExtend(old(logs), [first], trackedLogs);
      var system := StopSystem(filename, ts, kt, sys);
      ghost var systemLogs := FlatMap(sys, StopSystemLogs(filename, kt, ts));
      KeepExtend(old(logs), [first] + trackedLogs, systemLogs);
      assert [first] + trackedLogs + systemLogs == StopLogs(old(processes), sys, filename, kt, ts);
      var killed := tracked + system;
      if killed != [] {
        resp := Response(true, "Stopped " + IntToString(|killed|) + " processes for " + filename, killed);
      } else {
        resp := Response(false, "No process found for " + filename, []);
      }
    }

    /** `api_stop_pid`: kill the tree, and unregister the pid if it was tracked. */
    method ApiStopPid(pid: int, ts: string, kt: KillTree) returns (resp: Response)
      requires Valid()
      modifies this
      ensures Valid()
      ensures processes == StopPidRegistry(old(processes), pid, kt)
      ensures resp == StopPidResponse(pid, kt)
      ensures logs == Keep(old(logs) + KillErrorLogs(ts, pid, kt(pid)))
      ensures currentDir == old(currentDir)
    {
      var ok := KillTreeLogged(pid, ts, kt);
      RemoveSpec(processes, pid);
      if ok {
        if Tracks(processes, pid) {
          processes := Remove(processes, pid);
        }
        resp := Response(true, "Process " + IntToString(pid) + " stopped", []);
      } else {
        resp := Response(false, "Process " + IntToString(pid) + " not found", []);
      }
    }

    /**
     * The first loop of `api_kill_all`, over a snapshot of the registry: every
     * entry whose tree was killed is reported and unregistered, in registry
     * order.
     */
    method KillAllTracked(ts: string, kt: KillTree) returns (killed: seq<int>)
      requires Valid()
      modifies this`processes, this`logs
      ensures Valid()
      ensures processes == Filter(old(processes), KillAllKeeps(kt))
      ensures killed == Pids(Filter(old(processes), KillAllHits(kt)))
      ensures logs == Keep(old(logs) + FlatMap(old(processes), KillAllTrackedLogs(kt, ts)))
    {
      var snap := processes;
      killed := [];
      ghost var keeps := KillAllKeeps(kt);
      ghost var hits := KillAllHits(kt);
      ghost var each := KillAllTrackedLogs(kt, ts);
      ghost var base := old(logs);
      assert base + [] == base;
      for i := 0 to |snap|
        invariant Valid()
        invariant processes == Filter(snap[..i], keeps) + snap[i..]
        invariant killed == Pids(Filter(snap[..i], hits))
        invariant logs == Keep(base + FlatMap(snap[..i], each))
      {
        var e := snap[i];
        SweepStep(snap, i, keeps);
        SweepDistinct(snap, i + 1, keeps);
        PidsStep(snap, i, hits);
        LogStep(base, snap, i, each);
        var ok := KillTreeLogged(e.pid, ts, kt);
        if ok {
          killed := killed + [e.pid];
          RemoveSpec(processes, e.pid);
          processes := Remove(processes, e.pid);
        }
      }
      SweepDone(snap, keeps);
      assert snap[..|snap|] == snap;
    }

    /** One pass of the second loop of `api_kill_all`, for the system process `p`. */
    method KillAllSystemProcess(ts: string, kt: KillTree, p: SysProcess) returns (hit: bool)
      requires Valid()
      modifies this`logs
      ensures Valid()
      ensures hit <==> SysKillAllHit(kt, p)
      ensures logs == Keep(old(logs) + KillAllSystemLogs(kt, ts)(p))
    {
      hit := false;
      if p.name.Some? && IsSubstring("python", Lower(p.name.value)) {
        hit := KillTreeLogged(p.pid, ts, kt);
      } else {
        // a None name raises inside the `try` and the row is skipped
        assert old(logs) + [] == old(logs);
      }
    }

    /**
     * The second loop of `api_kill_all`, over the system process table: every
     * process whose name contains `python` (in any case) and whose tree was
     * killed is reported, in table order.
     */
    method KillAllSystem(ts: string, kt: KillTree, sys: seq<SysProcess>) returns (killed: seq<int>)
      requires Valid()
      modifies this`logs
      ensures Valid()
      ensures killed == SysPids(Filter(sys, SysKillAllHits(kt)))
      ensures logs == Keep(old(logs) + FlatMap(sys, KillAllSystemLogs(kt, ts)))
    {
      killed := [];
      ghost var hits := SysKillAllHits(kt);
      ghost var each := KillAllSystemLogs(kt, ts);
      ghost var base := old(logs);
      assert base + [] == base;
      for k := 0 to |sys|
        invariant Valid()
        invariant killed == SysPids(Filter(sys[..k], hits))
        invariant logs == Keep(base + FlatMap(sys[..k], each))
      {
        LogStep(base, sys, k, each);
        var hit := KillAllSystemProcess(ts, kt, sys[k]);
        SysPidsStep(sys, k, hits, killed, hit);
        if hit {
          killed := killed + [sys[k].pid];
        }
      }
      assert sys[..|sys|] == sys;
    }

    /**
     * `api_kill_all`: kills and unregisters every tracked process, then kills
     * every system process whose name contains `python`, and logs the list.
     */
    method ApiKillAll(ts: string, kt: KillTree, sys: seq<SysProcess>) returns (resp: Response)
      requires Valid()
      modifies this
      ensures Valid()
      ensures processes == Filter(old(processes), KillAllKeeps(kt))
      ensures resp == KillAllResponse(KillAllKilled(old(processes), sys, kt))
      ensures logs == Keep(old(logs) + KillAllLogs(old(processes), sys, kt, ts))
      ensures currentDir == old(currentDir)
    {
      var tracked := KillAllTracked(ts, kt);
      ghost var trackedLogs := FlatMap(old(processes), KillAllTrackedLogs(kt, ts));
      var system := KillAllSystem(ts, kt, sys);
      ghost var systemLogs := FlatMap(sys, KillAllSystemLogs(kt, ts));
      KeepExtend(old(logs), trackedLogs, systemLogs);
      var killed := tracked + system;
      var last := LogMessage("Killed all processes: " + ListRepr(killed), "SYSTEM", ts);
      KeepExtend(old(logs), trackedLogs + systemLogs, [last]);
      assert trackedLogs + systemLogs + [last] == KillAllLogs(old(processes), sys, kt, ts);
      resp := Response(true, "Killed " + IntToString(|killed|) + " processes", killed);
    }

    /**
     * `api_ctrl`: `key` defaults to `C`. Sends the key's signal to every
     * tracked pid, in registry order, and logs each delivery that did not
     * raise; the registry is untouched and the request always succeeds.
     */
    method ApiCtrl(key: Option<string>, ts: string, deliver: Deliver) returns (success: bool, sent: seq<(int, Signal)>)
      requires Valid()
      modifies this`logs
      ensures Valid()
      ensures success
      ensures sent == CtrlSent(Pids(processes), key.GetOr("C"))
      ensures logs == Keep(old(logs) + FlatMap(Pids(processes), CtrlLogs(key.GetOr("C"), deliver, ts)))
    {
      var k := key.GetOr("C");
      var pids := Pids(processes);
      ghost var each := CtrlLogs(k, deliver, ts);
      ghost var base := old(logs);
      assert base + [] == base;
      sent := [];
      for i := 0 to |pids|
        invariant Valid()
        invariant sent == CtrlSent(pids[..i], k)
        invariant logs == Keep(base + FlatMap(pids[..i], each))
      {
        var pid := pids[i];
        FlatMapStep(pids, i, each);
        ghost var done := FlatMap(pids[..i], each);
        var message := "Sent Ctrl+" + k + " to process " + IntToString(pid);
        if k == "C" || k == "Z" {
          var sig := if k == "C" then Interrupt else Suspend;
          assert CtrlSignal(k) == Some(sig);
          MapStep(pids, i, SendTo(sig));
          sent := sent + [(pid, sig)];
          if deliver(pid, sig) {
            var entry := LogMessage(message, "SIGNAL", ts);
            KeepExtend(base, done, [entry]);
          } else {
            assert done + [] == done;
          }
        } else {
          var entry := LogMessage(message, "SIGNAL", ts);
          KeepExtend(base, done, [entry]);
        }
      }
      assert pids[..|pids|] == pids;
      success := true;
    }

    /**
     * `api_cd`: the target is chosen by `CdTarget`; when it is a directory the
     * current directory becomes its absolute form and the change is logged,
     * otherwise nothing changes.
     */
    method ApiCd(dir: string, ts: string, isDir: string -> bool, dirname: string -> string,
                 join: (string, string) -> string, abspath: string -> string) returns (reply: CdReply)
      requires Valid()
      modifies this`currentDir, this`logs
      ensures Valid()
      ensures var target := CdTarget(old(currentDir), dir, dirname, join);
        && (reply.success <==> isDir(target))
        && (reply.success ==>
              && currentDir == abspath(target)
              && reply.currentDir == currentDir
              && logs == Appended(old(logs), Format(ts, "SYSTEM", "Changed directory to: " + currentDir)))
        && (!reply.success ==>
              && currentDir == old(currentDir)
              && logs == old(logs)
              && reply.message == "Directory not found")
    {
      var target;
      if dir == ".." {
        target := dirname(currentDir);
      } else if IsPrefix("/", dir) {
        target := dir;
      } else {
        target := join(currentDir, dir);
      }
      if isDir(target) {
        currentDir := abspath(target);
        var _ := LogMessage("Changed directory to: " + currentDir, "SYSTEM", ts);
        reply := CdReply(true, "", currentDir);
      } else {
        reply := CdReply(false, "Directory not found", currentDir);
      }
    }

    /**
     * `api_status`: the current directory, the number of tracked processes
     * (which is the number of distinct tracked pids) and the number of log
     * entries (never more than 1000).
     */
    method ApiStatus() returns (s: Status)
      requires Valid()
      ensures s.currentDir == currentDir
      ensures s.processCount == |processes|
      ensures s.processCount == |set i | 0 <= i < |processes| :: processes[i].pid|
      ensures s.logsCount == |logs| && s.logsCount <= MaxEntries
    {
      CountIsDistinctPids(processes);
      s := Status(currentDir, |processes|, |logs|);
    }
  }
}
