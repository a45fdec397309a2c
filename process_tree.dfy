/**
 * `kill_process_tree(pid)`: resolve the root, enumerate its descendants
 * (`children(recursive=True)`), kill every descendant, then the root.
 * The OS process table is given as the rows psutil would list: each live
 * process with its parent's pid.
 */
module ProcessTree {
  import opened Seqs
  import opened Text

  datatype OsProcess = OsProcess(pid: int, ppid: int)

  type ProcessTable = seq<OsProcess>

  /** The pids of the live processes. */
  function Live(t: ProcessTable): set<int> {
    set i | 0 <= i < |t| :: t[i].pid
  }

  lemma ProperSubsetSmaller(a: set<int>, b: set<int>)
    requires a < b
    ensures |a| < |b|
  {
    var d := b - a;
    assert b == a + d;
    assert a * d == {};
    assert d != {};
  }

  /** `s` together with the processes whose parent is in `s`: one step down the tree. */
  function Expand(t: ProcessTable, s: set<int>): set<int> {
    s + set i | 0 <= i < |t| && t[i].ppid in s :: t[i].pid
  }

  /** Grows `s` by whole generations until no process below it is left out. */
  function Closure(t: ProcessTable, s: set<int>): (r: set<int>)
    requires s <= Live(t)
    ensures s <= r <= Live(t)
    decreases |Live(t) - s|
  {
    var n := Expand(t, s);
    if n == s then s
    else
      ProperSubsetSmaller(Live(t) - n, Live(t) - s);
      Closure(t, n)
  }

  /** The direct children of `p`. */
  function Children(t: ProcessTable, p: int): set<int> {
    set i | 0 <= i < |t| && t[i].ppid == p :: t[i].pid
  }

  /** The transitive children of `root`, as psutil enumerates them. */
  function Descendants(t: ProcessTable, root: int): set<int> {
    Closure(t, Children(t, root))
  }

  predicate ClosedUnder(t: ProcessTable, s: set<int>) {
    forall i :: 0 <= i < |t| && t[i].ppid in s ==> t[i].pid in s
  }

  lemma {:induction false} ClosureClosed(t: ProcessTable, s: set<int>)
    requires s <= Live(t)
    ensures ClosedUnder(t, Closure(t, s))
    decreases |Live(t) - s|
  {
    var n := Expand(t, s);
    if n != s {
      ProperSubsetSmaller(Live(t) - n, Live(t) - s);
      ClosureClosed(t, n);
    } else {
      forall i | 0 <= i < |t| && t[i].ppid in s ensures t[i].pid in s {
        assert t[i].pid in n;
      }
    }
  }

  lemma {:induction false} ClosureLeast(t: ProcessTable, s: set<int>, bound: set<int>)
    requires s <= Live(t)
    requires s <= bound && ClosedUnder(t, bound)
    ensures Closure(t, s) <= bound
    decreases |Live(t) - s|
  {
    var n := Expand(t, s);
    if n != s {
      ProperSubsetSmaller(Live(t) - n, Live(t) - s);
      assert forall c :: c in n ==> c in bound;
      ClosureLeast(t, n, bound);
    }
  }

  /**
   * The descendants are exactly the transitive children: live processes, every
   * child of the root or of a descendant is a descendant, and any set with
   * that property contains them all.
   */
  lemma DescendantsAreTransitiveChildren(t: ProcessTable, root: int)
    ensures Descendants(t, root) <= Live(t)
    ensures forall i :: 0 <= i < |t| && t[i].ppid == root ==> t[i].pid in Descendants(t, root)
    ensures ClosedUnder(t, Descendants(t, root))
    ensures forall bound: set<int> ::
      Children(t, root) <= bound && ClosedUnder(t, bound) ==> Descendants(t, root) <= bound
  {
    ClosureClosed(t, Children(t, root));
    forall bound: set<int> | Children(t, root) <= bound && ClosedUnder(t, bound)
      ensures Descendants(t, root) <= bound
    {
      ClosureLeast(t, Children(t, root), bound);
    }
  }

  /** What `kill_process_tree` reports, and the log-worthy failure it swallows. */
  datatype KillOutcome =
    | TreeKilled            // returned True
    | NoSuchProcess         // psutil.NoSuchProcess: returned False silently
    | KillFailed(error: string)  // any other exception: logged as ERROR, returned False

  /**
   * What can go wrong while resolving the root and enumerating its children
   * (the `try` around `psutil.Process` and `children`), besides the root not
   * being in the table at all.
   */
  datatype Fault =
    | NoFault
    | Vanished              // the root exited during enumeration (NoSuchProcess)
    | Raised(error: string) // any other exception, e.g. access denied

  /**
   * The `ValueError` text psutil raises for a negative pid before it looks the
   * process up; `kill_process_tree` logs it like any other unexpected error.
   */
  function NegativePidError(root: int): string {
    "pid must be a positive integer (got " + IntToString(root) + ")"
  }

  /**
   * What resolving the root and enumerating its descendants lead to. A negative
   * root is refused before the table is consulted; a non-negative one is killed
   * exactly when it is live and enumeration does not fail.
   */
  function TreeKillOutcome(t: ProcessTable, root: int, fault: Fault): (o: KillOutcome)
    ensures o.TreeKilled? <==> 0 <= root && root in Live(t) && fault.NoFault?
    ensures o.NoSuchProcess? <==> 0 <= root && (root !in Live(t) || fault.Vanished?)
    ensures root < 0 ==> o == KillFailed(NegativePidError(root))
    ensures o.KillFailed? && 0 <= root ==> root in Live(t) && fault == Raised(o.error)
  {
    if root < 0 then KillFailed(NegativePidError(root))
    else if root !in Live(t) then NoSuchProcess
    else match fault
      case NoFault => TreeKilled
      case Vanished => NoSuchProcess
      case Raised(e) => KillFailed(e)
  }

  predicate DistinctInts(s: seq<int>) {
    forall i, j :: 0 <= i < j < |s| ==> s[i] != s[j]
  }

  predicate DistinctPids(t: ProcessTable) {
    forall i, j :: 0 <= i < j < |t| ==> t[i].pid != t[j].pid
  }

  function InSet(s: set<int>): OsProcess -> bool {
    (p: OsProcess) => p.pid in s
  }

  function PidOfProcess(p: OsProcess): int {
    p.pid
  }

  /**
   * Issues the kills: `signalled` lists the pids sent a kill, in order. Every
   * descendant is sent a kill (exactly one when pids are unique) and then the
   * root is; a failing kill is swallowed, so the outcome depends only on
   * resolving and enumerating. When resolving or enumerating fails no kill is
   * sent. On a parent-pid cycle through the root the root is its own
   * descendant and is sent a kill twice. The descendants are killed in table order here; psutil's own order
   * is not modelled.
   */
  method KillProcessTree(t: ProcessTable, root: int, fault: Fault) returns (outcome: KillOutcome, signalled: seq<int>)
    ensures outcome == TreeKillOutcome(t, root, fault)
    ensures outcome.TreeKilled? <==> 0 <= root && root in Live(t) && fault.NoFault?
    ensures !outcome.TreeKilled? ==> signalled == []
    ensures outcome.TreeKilled? ==>
      && |signalled| >= 1
      && signalled[|signalled| - 1] == root
      && (forall c :: c in Descendants(t, root) <==> c in signalled[..|signalled| - 1])
      && (DistinctPids(t) ==> DistinctInts(signalled[..|signalled| - 1]))
  {
    if root < 0 || root !in Live(t) || !fault.NoFault? {
      return TreeKillOutcome(t, root, fault), [];
    }
    var children := Descendants(t, root);
    signalled := [];
    for i := 0 to |t|
      invariant signalled == Map(Filter(t[..i], InSet(children)), PidOfProcess)
    {
      assert t[..i + 1] == t[..i] + [t[i]];
      FilterConcat(t[..i], [t[i]], InSet(children));
      MapConcat(Filter(t[..i], InSet(children)), Filter([t[i]], InSet(children)), PidOfProcess);
      if t[i].pid in children {
        signalled := signalled + [t[i].pid];   // child.kill(); a failure is swallowed
      }
    }
    assert t[..|t|] == t;
    KilledAreDescendants(t, children);
    assert signalled == (signalled + [root])[..|signalled|];
    signalled := signalled + [root];  // parent.kill(); a failure is swallowed
    outcome := TreeKilled;
  }

  /** The pids of the rows in a set cover the live part of that set; unique rows give unique pids. */
  lemma KilledAreDescendants(t: ProcessTable, s: set<int>)
    requires s <= Live(t)
    ensures forall c :: c in s <==> c in Map(Filter(t, InSet(s)), PidOfProcess)
    ensures DistinctPids(t) ==> DistinctInts(Map(Filter(t, InSet(s)), PidOfProcess))
  {
    var f := Filter(t, InSet(s));
    var m := Map(f, PidOfProcess);
    FilterSubset(t, InSet(s));
    FilterComplete(t, InSet(s));
    forall c | c in s ensures c in m {
      var i :| 0 <= i < |t| && t[i].pid == c;
      assert t[i] in f;
      var j :| 0 <= j < |f| && f[j] == t[i];
      assert m[j] == c;
    }
    forall c | c in m ensures c in s {
      var j :| 0 <= j < |m| && m[j] == c;
      assert f[j] in t;
    }
    if DistinctPids(t) {
      FilteredDistinct(t, InSet(s));
    }
  }

  lemma {:induction false} FilteredDistinct(t: ProcessTable, keep: OsProcess -> bool)
    requires DistinctPids(t)
    ensures DistinctInts(Map(Filter(t, keep), PidOfProcess))
  {
    if t != [] {
      var t' := t[..|t| - 1];
      FilteredDistinct(t', keep);
      FilterSubset(t', keep);
      var f' := Filter(t', keep);
      var last := t[|t| - 1];
      if keep(last) {
        MapConcat(f', [last], PidOfProcess);
        forall j | 0 <= j < |f'| ensures f'[j].pid != last.pid {
          assert f'[j] in t';
        }
      }
    }
  }

  /** A root with two descendants (a child and a grandchild): all three are killed, nothing else is. */
  lemma TwoDescendants()
    ensures Descendants([OsProcess(1, 0), OsProcess(2, 1), OsProcess(3, 2), OsProcess(4, 0)], 1) == {2, 3}
  {
    var t := [OsProcess(1, 0), OsProcess(2, 1), OsProcess(3, 2), OsProcess(4, 0)];
    var c := Children(t, 1);
    assert t[1].ppid == 1 && t[1].pid == 2;
    assert 2 in c;
    assert c <= {2, 3} by {
      forall x | x in c ensures x in {2, 3} {
        var i :| 0 <= i < |t| && t[i].ppid == 1 && t[i].pid == x;
      }
    }
    assert ClosedUnder(t, {2, 3}) by {
      forall i | 0 <= i < |t| && t[i].ppid in {2, 3} ensures t[i].pid in {2, 3} {
      }
    }
    ClosureLeast(t, c, {2, 3});
    ClosureClosed(t, c);
    assert t[2].ppid == 2 && t[2].pid == 3;
  }
}
