/**
 * What the administrative requests do to the registry, which pids they
 * report and which log entries they write: stop by name (`api_stop`), stop by
 * pid (`api_stop_pid`), kill all (`api_kill_all`) and the control keys
 * (`api_ctrl`). These are the specifications the `TerminalState` methods are
 * proved against; the loops themselves are in module Terminal.
 */
module Control {
  import opened Wrappers
  import opened Text
  import opened Seqs
  import opened LogBuffer
  import opened Registry
  import opened ProcessTree

  /**
   * One row of `psutil.process_iter(['pid', 'cmdline', 'name'])`; a field
   * psutil may not read is None.
   */
  datatype SysProcess = SysProcess(pid: int, cmdline: Option<seq<string>>, name: Option<string>)

  function SysPid(p: SysProcess): int {
    p.pid
  }

  /** The pids of some system rows, in order. */
  function SysPids(rows: seq<SysProcess>): seq<int> {
    Map(rows, SysPid)
  }

  /** `' '.join(proc.info['cmdline'] or [])`. */
  function CmdlineText(p: SysProcess): string {
    Join(p.cmdline.GetOr([]), " ")
  }

  /**
   * `'python' in proc.info['name'].lower()`. A None name makes `.lower()` raise
   * inside the `try`, and the row is skipped.
   */
  predicate NameIsPython(p: SysProcess) {
    p.name.Some? && IsSubstring("python", Lower(p.name.value))
  }

  /** `kill_process_tree`, as seen by its callers. */
  type KillTree = int -> KillOutcome

  /** The entry `kill_process_tree` itself logs when it swallows an unexpected exception. */
  function KillErrorLogs(ts: string, pid: int, o: KillOutcome): seq<string> {
    if o.KillFailed? then [Format(ts, "ERROR", "Error killing process " + IntToString(pid) + ": " + o.error)] else []
  }

  /** The JSON body of an administrative reply. */
  datatype Response = Response(success: bool, message: string, killed: seq<int>)

  // ------------------------------------------------------------ stop by name

  /** A registry entry that `api_stop` kills and removes. */
  predicate StopHit(fragment: string, kt: KillTree, e: Entry) {
    IsSubstring(fragment, e.info.cmd) && kt(e.pid).TreeKilled?
  }

  function StopHits(fragment: string, kt: KillTree): Entry -> bool {
    (e: Entry) => StopHit(fragment, kt, e)
  }

  function StopKeeps(fragment: string, kt: KillTree): Entry -> bool {
    (e: Entry) => !StopHit(fragment, kt, e)
  }

  /** A system process that `api_stop` kills and reports. */
  predicate SysStopHit(fragment: string, kt: KillTree, p: SysProcess) {
    IsSubstring(fragment, CmdlineText(p)) && kt(p.pid).TreeKilled?
  }

  function SysStopHits(fragment: string, kt: KillTree): SysProcess -> bool {
    (p: SysProcess) => SysStopHit(fragment, kt, p)
  }

  /**
   * A system process one of whose command-line arguments contains the fragment
   * is matched by `api_stop`, and stopped when its kill succeeds.
   */
  lemma ArgumentMatchStops(fragment: string, kt: KillTree, p: SysProcess, k: int)
    requires p.cmdline.Some? && 0 <= k < |p.cmdline.value|
    requires IsSubstring(fragment, p.cmdline.value[k])
    ensures IsSubstring(fragment, CmdlineText(p))
    ensures kt(p.pid).TreeKilled? ==> SysStopHit(fragment, kt, p)
  {
    JoinKeepsPart(fragment, p.cmdline.value, " ", k);
  }

  function StopTrackedLogs(fragment: string, kt: KillTree, ts: string): Entry -> seq<string> {
    (e: Entry) =>
      if IsSubstring(fragment, e.info.cmd) then
        KillErrorLogs(ts, e.pid, kt(e.pid))
        + (if kt(e.pid).TreeKilled?
           then [Format(ts, "PROCESS", "Killed process " + IntToString(e.pid) + " for " + fragment)]
           else [])
      else []
  }

  function StopSystemLogs(fragment: string, kt: KillTree, ts: string): SysProcess -> seq<string> {
    (p: SysProcess) =>
      if IsSubstring(fragment, CmdlineText(p)) then
        KillErrorLogs(ts, p.pid, kt(p.pid))
        + (if kt(p.pid).TreeKilled?
           then [Format(ts, "PROCESS", "Killed system process " + IntToString(p.pid) + " for " + fragment)]
           else [])
      else []
  }

  /** The `killed` list of `api_stop`: tracked pids in registry order, then system pids in table order. */
  function StopKilled(reg: Table, sys: seq<SysProcess>, fragment: string, kt: KillTree): seq<int> {
    Pids(Filter(reg, StopHits(fragment, kt))) + SysPids(Filter(sys, SysStopHits(fragment, kt)))
  }

  /** Everything `api_stop` logs. */
  function StopLogs(reg: Table, sys: seq<SysProcess>, fragment: string, kt: KillTree, ts: string): seq<string> {
    [Format(ts, "PROCESS", "Stop requested for: " + fragment)]
    + FlatMap(reg, StopTrackedLogs(fragment, kt, ts))
    + FlatMap(sys, StopSystemLogs(fragment, kt, ts))
  }

  function StopResponse(fragment: string, killed: seq<int>): Response {
    if killed != [] then Response(true, "Stopped " + IntToString(|killed|) + " processes for " + fragment, killed)
    else Response(false, "No process found for " + fragment, [])
  }

  /**
   * Stop by name: a tracked entry is removed exactly when its command contains
   * the fragment and its kill succeeded, every other entry stays; the tracked
   * part of `killed` names exactly the removed pids; the request succeeds
   * exactly when some tracked entry or some system process was stopped.
   */
  lemma StopByName(reg: Table, sys: seq<SysProcess>, fragment: string, kt: KillTree)
    requires Distinct(reg)
    ensures var kept := Filter(reg, StopKeeps(fragment, kt));
      && Distinct(kept)
      && (forall i :: 0 <= i < |reg| ==> (reg[i] in kept <==> !StopHit(fragment, kt, reg[i])))
      && (forall i :: 0 <= i < |kept| ==> kept[i] in reg)
    ensures forall p ::
      p in Pids(Filter(reg, StopHits(fragment, kt))) <==> exists i :: 0 <= i < |reg| && reg[i].pid == p && StopHit(fragment, kt, reg[i])
    ensures forall p ::
      p in SysPids(Filter(sys, SysStopHits(fragment, kt))) <==> exists k :: 0 <= k < |sys| && sys[k].pid == p && SysStopHit(fragment, kt, sys[k])
    ensures StopResponse(fragment, StopKilled(reg, sys, fragment, kt)).success
      <==> ((exists i :: 0 <= i < |reg| && StopHit(fragment, kt, reg[i]))
            || (exists j :: 0 <= j < |sys| && SysStopHit(fragment, kt, sys[j])))
  {
    FilterKeepsDistinct(reg, StopKeeps(fragment, kt));
    FilterMembership(reg, StopKeeps(fragment, kt));
    FilterSubset(reg, StopKeeps(fragment, kt));
    PidsOfFilter(reg, StopHits(fragment, kt));
    FilterNonEmpty(reg, StopHits(fragment, kt));
    FilterNonEmpty(sys, SysStopHits(fragment, kt));
    SysPidsOfFilter(sys, SysStopHits(fragment, kt));
  }

  /**
   * When no tracked command and no system command line contains the fragment,
   * stop by name changes nothing, reports failure and kills nothing.
   */
  lemma StopNothingMatches(reg: Table, sys: seq<SysProcess>, fragment: string, kt: KillTree)
    requires forall i :: 0 <= i < |reg| ==> !IsSubstring(fragment, reg[i].info.cmd)
    requires forall j :: 0 <= j < |sys| ==> !IsSubstring(fragment, CmdlineText(sys[j]))
    ensures Filter(reg, StopKeeps(fragment, kt)) == reg
    ensures StopResponse(fragment, StopKilled(reg, sys, fragment, kt)) == Response(false, "No process found for " + fragment, [])
  {
    FilterAll(reg, StopKeeps(fragment, kt));
    FilterNone(reg, StopHits(fragment, kt));
    FilterNone(sys, SysStopHits(fragment, kt));
  }

  /**
   * The fragment defaults to the empty string, which every command contains:
   * then every tracked process whose kill succeeds is stopped.
   */
  lemma StopEmptyFragment(kt: KillTree, e: Entry, p: SysProcess)
    ensures StopHit("", kt, e) <==> kt(e.pid).TreeKilled?
    ensures SysStopHit("", kt, p) <==> kt(p.pid).TreeKilled?
  {
    EmptyIsSubstring(e.info.cmd);
    EmptyIsSubstring(CmdlineText(p));
  }

  // ------------------------------------------------------------ stop by pid

  /** The registry after `api_stop_pid`. */
  function StopPidRegistry(reg: Table, pid: int, kt: KillTree): Table {
    if kt(pid).TreeKilled? then Remove(reg, pid) else reg
  }

  function StopPidResponse(pid: int, kt: KillTree): Response {
    if kt(pid).TreeKilled? then Response(true, "Process " + IntToString(pid) + " stopped", [])
    else Response(false, "Process " + IntToString(pid) + " not found", [])
  }

  /**
   * Stop by pid: when the kill succeeds the pid is no longer tracked (whether
   * it was before or not) and the request succeeds; otherwise the registry is
   * unchanged and the reply is "Process <pid> not found". Other pids are never
   * touched.
   */
  lemma StopByPid(reg: Table, pid: int, kt: KillTree)
    requires Distinct(reg)
    ensures StopPidResponse(pid, kt).success <==> kt(pid).TreeKilled?
    ensures Distinct(StopPidRegistry(reg, pid, kt))
    ensures kt(pid).TreeKilled? ==> !Tracks(StopPidRegistry(reg, pid, kt), pid)
    ensures !kt(pid).TreeKilled? ==>
      StopPidRegistry(reg, pid, kt) == reg
      && StopPidResponse(pid, kt).message == "Process " + IntToString(pid) + " not found"
    ensures forall q :: q != pid ==> Lookup(StopPidRegistry(reg, pid, kt), q) == Lookup(reg, q)
  {
    RemoveSpec(reg, pid);
  }

  // ------------------------------------------------------------ kill all

  function KillAllHits(kt: KillTree): Entry -> bool {
    (e: Entry) => kt(e.pid).TreeKilled?
  }

  function KillAllKeeps(kt: KillTree): Entry -> bool {
    (e: Entry) => !kt(e.pid).TreeKilled?
  }

  /** A system process that `api_kill_all` kills and reports. */
  predicate SysKillAllHit(kt: KillTree, p: SysProcess) {
    NameIsPython(p) && kt(p.pid).TreeKilled?
  }

  function SysKillAllHits(kt: KillTree): SysProcess -> bool {
    (p: SysProcess) => SysKillAllHit(kt, p)
  }

  function KillAllTrackedLogs(kt: KillTree, ts: string): Entry -> seq<string> {
    (e: Entry) => KillErrorLogs(ts, e.pid, kt(e.pid))
  }

  function KillAllSystemLogs(kt: KillTree, ts: string): SysProcess -> seq<string> {
    (p: SysProcess) => if NameIsPython(p) then KillErrorLogs(ts, p.pid, kt(p.pid)) else []
  }

  /** The `killed` list of `api_kill_all`. */
  function KillAllKilled(reg: Table, sys: seq<SysProcess>, kt: KillTree): seq<int> {
    Pids(Filter(reg, KillAllHits(kt))) + SysPids(Filter(sys, SysKillAllHits(kt)))
  }

  /** Everything `api_kill_all` logs; the summary entry prints the list as Python does. */
  function KillAllLogs(reg: Table, sys: seq<SysProcess>, kt: KillTree, ts: string): seq<string> {
    FlatMap(reg, KillAllTrackedLogs(kt, ts))
    + FlatMap(sys, KillAllSystemLogs(kt, ts))
    + [Format(ts, "SYSTEM", "Killed all processes: " + ListRepr(KillAllKilled(reg, sys, kt)))]
  }

  function KillAllResponse(killed: seq<int>): Response {
    Response(true, "Killed " + IntToString(|killed|) + " processes", killed)
  }

  /**
   * Kill all: afterwards the registry holds exactly the entries whose kill
   * failed, in their order; `killed` starts with the tracked pids that were
   * killed and then lists the python-named system processes that were; the
   * request always succeeds and its message counts `killed`.
   */
  lemma KillAll(reg: Table, sys: seq<SysProcess>, kt: KillTree)
    requires Distinct(reg)
    ensures var kept := Filter(reg, KillAllKeeps(kt));
      && Distinct(kept)
      && (forall i :: 0 <= i < |reg| ==> (reg[i] in kept <==> !kt(reg[i].pid).TreeKilled?))
      && (forall i :: 0 <= i < |kept| ==> kept[i] in reg && !kt(kept[i].pid).TreeKilled?)
      && |kept| + |Pids(Filter(reg, KillAllHits(kt)))| == |reg|
    ensures forall p ::
      p in Pids(Filter(reg, KillAllHits(kt))) <==> exists i :: 0 <= i < |reg| && reg[i].pid == p && kt(p).TreeKilled?
    ensures forall p ::
      p in SysPids(Filter(sys, SysKillAllHits(kt))) <==> exists k :: 0 <= k < |sys| && sys[k].pid == p && SysKillAllHit(kt, sys[k])
    ensures var r := KillAllResponse(KillAllKilled(reg, sys, kt));
      r.success && r.message == "Killed " + IntToString(|r.killed|) + " processes"
  {
    FilterKeepsDistinct(reg, KillAllKeeps(kt));
    FilterMembership(reg, KillAllKeeps(kt));
    FilterSubset(reg, KillAllKeeps(kt));
    FilterLengthSplit(reg, KillAllKeeps(kt), KillAllHits(kt));
    PidsOfFilter(reg, KillAllHits(kt));
    SysPidsOfFilter(sys, SysKillAllHits(kt));
  }

  /** The pids of the system rows a filter keeps are the pids of the rows that pass it. */
  lemma SysPidsOfFilter(sys: seq<SysProcess>, keep: SysProcess -> bool)
    ensures forall p :: p in SysPids(Filter(sys, keep)) <==> exists k :: 0 <= k < |sys| && sys[k].pid == p && keep(sys[k])
  {
    FilterSubset(sys, keep);
    FilterComplete(sys, keep);
    var f := Filter(sys, keep);
    var m := SysPids(f);
    forall p | p in m
      ensures exists k :: 0 <= k < |sys| && sys[k].pid == p && keep(sys[k])
    {
      var j :| 0 <= j < |f| && m[j] == p;
      var k :| 0 <= k < |sys| && sys[k] == f[j];
    }
    forall p | exists k :: 0 <= k < |sys| && sys[k].pid == p && keep(sys[k])
      ensures p in m
    {
      var k :| 0 <= k < |sys| && sys[k].pid == p && keep(sys[k]);
      var j :| 0 <= j < |f| && f[j] == sys[k];
      assert m[j] == p;
    }
  }

  /** One step of a sweep over the system table: a hit appends its pid. */
  lemma SysPidsStep(sys: seq<SysProcess>, k: int, hit: SysProcess -> bool, killed: seq<int>, isHit: bool)
    requires 0 <= k < |sys|
    requires killed == SysPids(Filter(sys[..k], hit))
    requires isHit == hit(sys[k])
    ensures (if isHit then killed + [sys[k].pid] else killed) == SysPids(Filter(sys[..k + 1], hit))
  {
    FilterStep(sys, k, hit);
    if isHit {
      MapSnoc(Filter(sys[..k], hit), sys[k], SysPid);
    }
  }

  // ------------------------------------------------------------ control keys

  /** The signals of Ctrl+C and Ctrl+Z. */
  datatype Signal = Interrupt | Suspend  // SIGINT, SIGTSTP

  /** The signal `api_ctrl` sends for a key; any other key sends nothing. */
  function CtrlSignal(key: string): (s: Option<Signal>)
    ensures s == Some(Interrupt) <==> key == "C"
    ensures s == Some(Suspend) <==> key == "Z"
    ensures s.None? <==> key != "C" && key != "Z"
  {
    if key == "C" then Some(Interrupt) else if key == "Z" then Some(Suspend) else None
  }

  /** `os.kill(pid, sig)` as an oracle: true when it did not raise. */
  type Deliver = (int, Signal) -> bool

  function CtrlLogs(key: string, deliver: Deliver, ts: string): int -> seq<string> {
    (pid: int) =>
      if CtrlSignal(key).None? || deliver(pid, CtrlSignal(key).value)
      then [Format(ts, "SIGNAL", "Sent Ctrl+" + key + " to process " + IntToString(pid))]
      else []
  }

  function SendTo(sig: Signal): int -> (int, Signal) {
    (pid: int) => (pid, sig)
  }

  /** The `os.kill` calls `api_ctrl` makes, in registry order. */
  function CtrlSent(pids: seq<int>, key: string): seq<(int, Signal)> {
    if CtrlSignal(key).Some? then Map(pids, SendTo(CtrlSignal(key).value)) else []
  }

  /**
   * The control keys: `C` interrupts and `Z` suspends every tracked process,
   * once each and in registry order; any other key sends nothing, yet logs
   * "Sent Ctrl+<key>" once per tracked process.
   */
  lemma CtrlKeys(pids: seq<int>, key: string, deliver: Deliver, ts: string)
    ensures key == "C" ==> CtrlSent(pids, key) == Map(pids, SendTo(Interrupt))
    ensures key == "Z" ==> CtrlSent(pids, key) == Map(pids, SendTo(Suspend))
    ensures key != "C" && key != "Z" ==>
      CtrlSent(pids, key) == [] &&
      FlatMap(pids, CtrlLogs(key, deliver, ts))
        == Map(pids, (pid: int) => Format(ts, "SIGNAL", "Sent Ctrl+" + key + " to process " + IntToString(pid)))
  {
    if key != "C" && key != "Z" {
      assert CtrlSignal(key).None?;
      FlatMapSingletons(pids, CtrlLogs(key, deliver, ts),
        (pid: int) => Format(ts, "SIGNAL", "Sent Ctrl+" + key + " to process " + IntToString(pid)));
    }
  }

  /** Whether `os.kill(pid, sig)` returned. */
  function Delivered(deliver: Deliver, sig: Signal): int -> bool {
    (pid: int) => deliver(pid, sig)
  }

  function CtrlMessage(key: string, ts: string): int -> string {
    (pid: int) => Format(ts, "SIGNAL", "Sent Ctrl+" + key + " to process " + IntToString(pid))
  }

  /**
   * For `C` and `Z`, one "Sent Ctrl+<key>" entry per delivery that did not
   * raise, in registry order, and none for a delivery that raised.
   */
  lemma {:induction false} CtrlLogsDelivered(pids: seq<int>, key: string, deliver: Deliver, ts: string)
    requires key == "C" || key == "Z"
    ensures FlatMap(pids, CtrlLogs(key, deliver, ts))
         == Map(Filter(pids, Delivered(deliver, CtrlSignal(key).value)), CtrlMessage(key, ts))
  {
    if pids != [] {
      var init := pids[..|pids| - 1];
      var last := pids[|pids| - 1];
      var ok := Delivered(deliver, CtrlSignal(key).value);
      CtrlLogsDelivered(init, key, deliver, ts);
      if ok(last) {
        MapSnoc(Filter(init, ok), last, CtrlMessage(key, ts));
      } else {
        assert Filter(pids, ok) == Filter(init, ok) + [];
      }
    }
  }

  /** A delivery that fails is not logged: with every delivery failing, C and Z log nothing. */
  lemma CtrlFailedDeliveriesSilent(pids: seq<int>, key: string, deliver: Deliver, ts: string)
    requires key == "C" || key == "Z"
    requires forall i :: 0 <= i < |pids| ==> !deliver(pids[i], CtrlSignal(key).value)
    ensures FlatMap(pids, CtrlLogs(key, deliver, ts)) == []
  {
    FlatMapEmpty(pids, CtrlLogs(key, deliver, ts));
  }
}
