/**
 * The process registry `state.processes`: a dictionary from pid to the command
 * and its type. Python dictionaries iterate in insertion order, and the lists
 * of killed pids depend on that order, so the registry is an ordered sequence
 * of entries with distinct pids.
 */
module Registry {
  import opened Wrappers
  import opened Text
  import opened Seqs

  /** The `'type'` of a tracked process. */
  datatype Kind = Python | Bash

  function KindName(k: Kind): string {
    match k
    case Python => "python"
    case Bash => "bash"
  }

  /** What the registry stores per pid (the `subprocess.Popen` handle is not modelled). */
  datatype ProcInfo = ProcInfo(cmd: string, kind: Kind)

  datatype Entry = Entry(pid: int, info: ProcInfo)

  type Table = seq<Entry>

  /** `'python' if 'python' in cmd.lower() else 'bash'`. */
  function Classify(cmd: string): (k: Kind)
    ensures k == Python <==> IsSubstring("python", Lower(cmd))
  {
    if IsSubstring("python", Lower(cmd)) then Python else Bash
  }

  /** A command that mentions `python` in any letter case is a python process. */
  lemma ClassifyFindsPython(cmd: string, i: int)
    requires OccursAt("python", Lower(cmd), i)
    ensures Classify(cmd) == Python
  {
    IsSubstringIffOccurs("python", Lower(cmd));
  }

  /** In particular a command that mentions `python` literally is a python process. */
  lemma ClassifyLiteralPython(cmd: string, i: int)
    requires OccursAt("python", cmd, i)
    ensures Classify(cmd) == Python
  {
    LowerKeepsOccurrence("python", cmd, i);
    ClassifyFindsPython(cmd, i);
  }

  /** Classification ignores letter case: `Python3 x.py` and `python3 x.py` are alike. */
  lemma ClassifyIgnoresCase(a: string, b: string)
    requires Lower(a) == Lower(b)
    ensures Classify(a) == Classify(b)
  {
  }

  function PidOf(e: Entry): int {
    e.pid
  }

  /** The registry's keys in iteration order (`list(state.processes.keys())`). */
  function Pids(t: Table): seq<int> {
    Map(t, PidOf)
  }

  /** Dictionary keys are unique. */
  predicate Distinct(t: Table) {
    forall i, j :: 0 <= i < j < |t| ==> t[i].pid != t[j].pid
  }

  /** `pid in state.processes`. */
  predicate Tracks(t: Table, pid: int) {
    exists i :: 0 <= i < |t| && t[i].pid == pid
  }

  /** `state.processes.get(pid)`. */
  function Lookup(t: Table, pid: int): Option<ProcInfo> {
    if t == [] then None
    else if t[|t| - 1].pid == pid then Some(t[|t| - 1].info)
    else Lookup(t[..|t| - 1], pid)
  }

  /** `state.processes[pid] = info`: an existing key keeps its place, a new key goes last. */
  function Put(t: Table, pid: int, info: ProcInfo): Table {
    if Tracks(t, pid) then
      seq(|t|, i requires 0 <= i < |t| => if t[i].pid == pid then Entry(pid, info) else t[i])
    else t + [Entry(pid, info)]
  }

  function NotPid(pid: int): Entry -> bool {
    (e: Entry) => e.pid != pid
  }

  /** `if pid in state.processes: del state.processes[pid]`. */
  function Remove(t: Table, pid: int): Table {
    Filter(t, NotPid(pid))
  }

  lemma {:induction false} LookupSpec(t: Table, pid: int)
    requires Distinct(t)
    ensures Lookup(t, pid).Some? <==> Tracks(t, pid)
    ensures forall i :: 0 <= i < |t| && t[i].pid == pid ==> Lookup(t, pid) == Some(t[i].info)
  {
    if t != [] {
      var t' := t[..|t| - 1];
      LookupSpec(t', pid);
      if Tracks(t, pid) && t[|t| - 1].pid != pid {
        var i :| 0 <= i < |t| && t[i].pid == pid;
        assert t'[i].pid == pid;
      }
    }
  }

  /**
   * Registering keeps the keys distinct, maps the pid to its new info, leaves
   * every other pid as it was, and adds a pid that was not there at the end.
   */
  lemma PutSpec(t: Table, pid: int, info: ProcInfo)
    requires Distinct(t)
    ensures Distinct(Put(t, pid, info))
    ensures Lookup(Put(t, pid, info), pid) == Some(info)
    ensures forall q :: q != pid ==> Lookup(Put(t, pid, info), q) == Lookup(t, q)
    ensures !Tracks(t, pid) ==> Put(t, pid, info) == t + [Entry(pid, info)]
    ensures |Put(t, pid, info)| == if Tracks(t, pid) then |t| else |t| + 1
  {
    var r := Put(t, pid, info);
    assert Distinct(r);
    LookupSpec(r, pid);
    if Tracks(t, pid) {
      var i :| 0 <= i < |t| && t[i].pid == pid;
      assert r[i] == Entry(pid, info);
    } else {
      assert r[|r| - 1] == Entry(pid, info);
    }
    forall q | q != pid
      ensures Lookup(r, q) == Lookup(t, q)
    {
      LookupSpec(r, q);
      LookupSpec(t, q);
      if Tracks(t, q) {
        var i :| 0 <= i < |t| && t[i].pid == q;
        assert r[i] == t[i];
      }
      if Tracks(r, q) {
        var i :| 0 <= i < |r| && r[i].pid == q;
        assert r[i] == t[i];
      }
    }
  }

  /** Removing an entry keeps the others in order; it is a no-op for an absent pid. */
  lemma RemoveSpec(t: Table, pid: int)
    requires Distinct(t)
    ensures Distinct(Remove(t, pid))
    ensures !Tracks(Remove(t, pid), pid)
    ensures forall q :: q != pid ==> Lookup(Remove(t, pid), q) == Lookup(t, q)
    ensures !Tracks(t, pid) ==> Remove(t, pid) == t
    ensures |Remove(t, pid)| == if Tracks(t, pid) then |t| - 1 else |t|
  {
    RemoveDistinct(t, pid);
    RemoveDropsPid(t, pid);
    forall q | q != pid
      ensures Lookup(Remove(t, pid), q) == Lookup(t, q)
    {
      RemoveKeepsOther(t, pid, q);
    }
    if !Tracks(t, pid) {
      FilterAll(t, NotPid(pid));
    } else {
      var i :| 0 <= i < |t| && t[i].pid == pid;
      assert PidUniqueAt(t, i);
      RemoveAt(t, i);
    }
  }

  lemma RemoveDropsPid(t: Table, pid: int)
    ensures !Tracks(Remove(t, pid), pid)
  {
    var r := Remove(t, pid);
    assert forall i :: 0 <= i < |r| ==> NotPid(pid)(r[i]);
  }

  lemma RemoveKeepsOther(t: Table, pid: int, q: int)
    requires Distinct(t)
    requires q != pid
    ensures Lookup(Remove(t, pid), q) == Lookup(t, q)
  {
    var r := Remove(t, pid);
    RemoveDistinct(t, pid);
    FilterSubset(t, NotPid(pid));
    FilterComplete(t, NotPid(pid));
    LookupSpec(r, q);
    LookupSpec(t, q);
    if Tracks(t, q) {
      var i :| 0 <= i < |t| && t[i].pid == q;
      assert NotPid(pid)(t[i]);
      assert t[i] in r;
      var j :| 0 <= j < |r| && r[j] == t[i];
    }
    if Tracks(r, q) {
      var j :| 0 <= j < |r| && r[j].pid == q;
      assert r[j] in t;
    }
  }

  /** No entry other than the one at `i` has its pid. */
  predicate PidUniqueAt(t: Table, i: int)
    requires 0 <= i < |t|
  {
    forall j :: 0 <= j < |t| && j != i ==> t[j].pid != t[i].pid
  }

  /** Removing a pid held only at position `i` cuts out exactly that entry. */
  lemma RemoveAt(t: Table, i: int)
    requires 0 <= i < |t|
    requires PidUniqueAt(t, i)
    ensures Remove(t, t[i].pid) == t[..i] + t[i + 1..]
  {
    var keep := NotPid(t[i].pid);
    var a, b := t[..i], t[i + 1..];
    assert t == a + ([t[i]] + b);
    calc {
      Remove(t, t[i].pid);
      Filter(a + ([t[i]] + b), keep);
      { FilterConcat(a, [t[i]] + b, keep); }
      Filter(a, keep) + Filter([t[i]] + b, keep);
      { FilterConcat([t[i]], b, keep); }
      Filter(a, keep) + (Filter([t[i]], keep) + Filter(b, keep));
      { assert Filter([t[i]], keep) == []; }
      Filter(a, keep) + Filter(b, keep);
      { OthersKept(t, i, a, 0); OthersKept(t, i, b, i + 1); }
      a + b;
    }
  }

  /** In a distinct table, the entries of a slice that avoids position `i` all survive removing `t[i].pid` when no other entry has it. */
  lemma OthersKept(t: Table, i: int, s: seq<Entry>, lo: int)
    requires 0 <= i < |t|
    requires PidUniqueAt(t, i)
    requires 0 <= lo && lo + |s| <= |t|
    requires forall j :: 0 <= j < |s| ==> s[j] == t[lo + j]
    requires lo + |s| <= i || i < lo
    ensures Filter(s, NotPid(t[i].pid)) == s
  {
    forall j | 0 <= j < |s| ensures NotPid(t[i].pid)(s[j]) {
      assert s[j] == t[lo + j];
    }
    FilterAll(s, NotPid(t[i].pid));
  }

  lemma RemoveDistinct(t: Table, pid: int)
    requires Distinct(t)
    ensures Distinct(Remove(t, pid))
  {
    FilterKeepsDistinct(t, NotPid(pid));
  }

  /** Dropping entries from a registry keeps its keys unique. */
  lemma {:induction false} FilterKeepsDistinct(t: Table, keep: Entry -> bool)
    requires Distinct(t)
    ensures Distinct(Filter(t, keep))
  {
    if t != [] {
      var t' := t[..|t| - 1];
      FilterKeepsDistinct(t', keep);
      FilterSubset(t', keep);
      var last := t[|t| - 1];
      if keep(last) {
        var r' := Filter(t', keep);
        assert forall i :: 0 <= i < |r'| ==> r'[i] in t';
        assert forall i :: 0 <= i < |t'| ==> t'[i].pid != last.pid;
      }
    }
  }

  /** The pids of the entries a filter keeps are the pids of the entries that pass it. */
  lemma PidsOfFilter(t: Table, keep: Entry -> bool)
    ensures forall p :: p in Pids(Filter(t, keep)) <==> exists i :: 0 <= i < |t| && t[i].pid == p && keep(t[i])
  {
    FilterSubset(t, keep);
    FilterComplete(t, keep);
    var f := Filter(t, keep);
    forall p | p in Pids(f)
      ensures exists i :: 0 <= i < |t| && t[i].pid == p && keep(t[i])
    {
      var j :| 0 <= j < |f| && Pids(f)[j] == p;
      var i :| 0 <= i < |t| && t[i] == f[j];
    }
    forall p | exists i :: 0 <= i < |t| && t[i].pid == p && keep(t[i])
      ensures p in Pids(f)
    {
      var i :| 0 <= i < |t| && t[i].pid == p && keep(t[i]);
      var j :| 0 <= j < |f| && f[j] == t[i];
      assert Pids(f)[j] == p;
    }
  }

  /** Registering a new pid and unregistering it again restores the registry exactly. */
  lemma PutThenRemove(t: Table, pid: int, info: ProcInfo)
    requires Distinct(t)
    requires !Tracks(t, pid)
    ensures Remove(Put(t, pid, info), pid) == t
  {
    FilterConcat(t, [Entry(pid, info)], NotPid(pid));
    FilterAll(t, NotPid(pid));
    assert Filter([Entry(pid, info)], NotPid(pid)) == [];
  }

  /** `len(state.processes)`: with distinct keys the length is the number of tracked pids. */
  lemma {:induction false} CountIsDistinctPids(t: Table)
    requires Distinct(t)
    ensures |set i | 0 <= i < |t| :: t[i].pid| == |t|
  {
    if t != [] {
      var t' := t[..|t| - 1];
      CountIsDistinctPids(t');
      var s' := set i | 0 <= i < |t'| :: t'[i].pid;
      var s := set i | 0 <= i < |t| :: t[i].pid;
      assert s == s' + {t[|t| - 1].pid};
      assert t[|t| - 1].pid !in s';
    }
  }

  /** A filtered prefix followed by the untouched rest keeps the pids unique. */
  lemma SweepDistinct(snap: Table, i: int, keep: Entry -> bool)
    requires Distinct(snap)
    requires 0 <= i <= |snap|
    ensures Distinct(Filter(snap[..i], keep) + snap[i..])
  {
    var a := Filter(snap[..i], keep);
    var rest := snap[i..];
    FilterKeepsDistinct(snap[..i], keep);
    FilterSubset(snap[..i], keep);
    forall x, y | 0 <= x < |a| && 0 <= y < |rest| ensures a[x].pid != rest[y].pid {
      assert a[x] in snap[..i];
      var k :| 0 <= k < i && snap[k] == a[x];
      assert rest[y] == snap[i + y];
    }
    DistinctJoin(a, rest);
  }

  lemma DistinctJoin(a: Table, b: Table)
    requires Distinct(a) && Distinct(b)
    requires forall x, y :: 0 <= x < |a| && 0 <= y < |b| ==> a[x].pid != b[y].pid
    ensures Distinct(a + b)
  {
    var t := a + b;
    forall x, y | 0 <= x < y < |t| ensures t[x].pid != t[y].pid {
      if y < |a| {
        assert t[x] == a[x] && t[y] == a[y];
      } else if x < |a| {
        assert t[x] == a[x] && t[y] == b[y - |a|];
      } else {
        assert t[x] == b[x - |a|] && t[y] == b[y - |a|];
      }
    }
  }

  /**
   * The loop step of a stop or kill over a snapshot of the registry: the
   * entries before `i` have been filtered, the rest are untouched, and
   * deleting the pid at `i` drops exactly that entry.
   */
  lemma RemoveInSweep(snap: Table, i: int, keep: Entry -> bool)
    requires Distinct(snap)
    requires 0 <= i < |snap|
    ensures Remove(Filter(snap[..i], keep) + snap[i..], snap[i].pid) == Filter(snap[..i], keep) + snap[i + 1..]
  {
    var a := Filter(snap[..i], keep);
    var t := a + snap[i..];
    SweepDistinct(snap, i, keep);
    assert t[|a|] == snap[i];
    assert PidUniqueAt(t, |a|);
    RemoveAt(t, |a|);
    assert t[..|a|] == a;
    assert t[|a| + 1..] == snap[i + 1..];
  }

  /**
   * One step of a sweep: an entry the filter keeps stays where it is, one it
   * drops is deleted by pid.
   */
  lemma SweepStep(snap: Table, i: int, keep: Entry -> bool)
    requires Distinct(snap)
    requires 0 <= i < |snap|
    ensures keep(snap[i]) ==> Filter(snap[..i + 1], keep) + snap[i + 1..] == Filter(snap[..i], keep) + snap[i..]
    ensures !keep(snap[i]) ==>
      Filter(snap[..i + 1], keep) + snap[i + 1..] == Remove(Filter(snap[..i], keep) + snap[i..], snap[i].pid)
  {
    var a := Filter(snap[..i], keep);
    FilterStep(snap, i, keep);
    if keep(snap[i]) {
      assert snap[i..] == [snap[i]] + snap[i + 1..];
      assert a + [snap[i]] + snap[i + 1..] == a + snap[i..];
    } else {
      RemoveInSweep(snap, i, keep);
    }
  }

  /** One step of a sweep on the reported pids: a hit appends its pid. */
  lemma PidsStep(snap: Table, i: int, hit: Entry -> bool)
    requires 0 <= i < |snap|
    ensures Pids(Filter(snap[..i + 1], hit)) == Pids(Filter(snap[..i], hit)) + (if hit(snap[i]) then [snap[i].pid] else [])
  {
    FilterStep(snap, i, hit);
    if hit(snap[i]) {
      MapSnoc(Filter(snap[..i], hit), snap[i], PidOf);
    }
  }

  /** A sweep that has passed every entry has filtered the whole snapshot. */
  lemma SweepDone(snap: Table, keep: Entry -> bool)
    ensures Filter(snap[..|snap|], keep) + snap[|snap|..] == Filter(snap, keep)
  {
    assert snap[..|snap|] == snap;
  }
}
