/** Reference definitions over sequences: filtering and mapping, as list comprehensions do. */
module Seqs {

  /** `[x for x in s if keep(x)]`. */
  function Filter<T>(s: seq<T>, keep: T -> bool): (r: seq<T>)
    ensures |r| <= |s|
    ensures forall i :: 0 <= i < |r| ==> keep(r[i])
  {
    if s == [] then []
    else Filter(s[..|s| - 1], keep) + (if keep(s[|s| - 1]) then [s[|s| - 1]] else [])
  }

  /** `[f(x) for x in s]`. */
  function Map<T, U>(s: seq<T>, f: T -> U): (r: seq<U>)
    ensures |r| == |s|
    ensures forall i :: 0 <= i < |s| ==> r[i] == f(s[i])
  {
    if s == [] then [] else Map(s[..|s| - 1], f) + [f(s[|s| - 1])]
  }

  /** Everything the filter keeps comes from `s`. */
  lemma {:induction false} FilterSubset<T>(s: seq<T>, keep: T -> bool)
    ensures forall i :: 0 <= i < |Filter(s, keep)| ==> Filter(s, keep)[i] in s
  {
    if s != [] {
      var s' := s[..|s| - 1];
      FilterSubset(s', keep);
      var f' := Filter(s', keep);
      var r := Filter(s, keep);
      forall i | 0 <= i < |r| ensures r[i] in s {
        if i < |f'| {
          assert r[i] == f'[i];
          var j :| 0 <= j < |s'| && s'[j] == f'[i];
          assert s[j] == s'[j];
        } else {
          assert r[i] == s[|s| - 1];
        }
      }
    }
  }

  /** Every element of `s` that passes the test is kept. */
  lemma {:induction false} FilterComplete<T>(s: seq<T>, keep: T -> bool)
    ensures forall i :: 0 <= i < |s| && keep(s[i]) ==> s[i] in Filter(s, keep)
  {
    if s != [] {
      var s' := s[..|s| - 1];
      FilterComplete(s', keep);
      var f' := Filter(s', keep);
      var r := Filter(s, keep);
      forall i | 0 <= i < |s| && keep(s[i]) ensures s[i] in r {
        if i < |s| - 1 {
          assert s[i] == s'[i];
          var j :| 0 <= j < |f'| && f'[j] == s'[i];
          assert r[j] == f'[j];
        } else {
          assert r[|r| - 1] == s[i];
        }
      }
    }
  }

  /** An element of `s` survives the filter exactly when it passes the test. */
  lemma FilterMembership<T>(s: seq<T>, keep: T -> bool)
    ensures forall i :: 0 <= i < |s| ==> (s[i] in Filter(s, keep) <==> keep(s[i]))
  {
    FilterSubset(s, keep);
    FilterComplete(s, keep);
    var r := Filter(s, keep);
    forall i | 0 <= i < |s| && s[i] in r ensures keep(s[i]) {
      var j :| 0 <= j < |r| && r[j] == s[i];
    }
  }

  /** The filter keeps something exactly when some element passes the test. */
  lemma FilterNonEmpty<T>(s: seq<T>, keep: T -> bool)
    ensures Filter(s, keep) != [] <==> exists i :: 0 <= i < |s| && keep(s[i])
  {
    var r := Filter(s, keep);
    FilterSubset(s, keep);
    FilterComplete(s, keep);
    if r != [] {
      assert r[0] in s;
    }
    if exists i :: 0 <= i < |s| && keep(s[i]) {
      var i :| 0 <= i < |s| && keep(s[i]);
      assert s[i] in r;
    }
  }

  lemma {:induction false} FilterConcat<T>(a: seq<T>, b: seq<T>, keep: T -> bool)
    ensures Filter(a + b, keep) == Filter(a, keep) + Filter(b, keep)
  {
    if b == [] {
      assert a + b == a;
    } else {
      var b' := b[..|b| - 1];
      assert (a + b)[..|a + b| - 1] == a + b';
      FilterConcat(a, b', keep);
    }
  }

  /** Filtering keeps everything when every element passes. */
  lemma {:induction false} FilterAll<T>(s: seq<T>, keep: T -> bool)
    requires forall i :: 0 <= i < |s| ==> keep(s[i])
    ensures Filter(s, keep) == s
  {
    if s != [] {
      FilterAll(s[..|s| - 1], keep);
    }
  }

  /** Filtering keeps nothing when no element passes. */
  lemma {:induction false} FilterNone<T>(s: seq<T>, keep: T -> bool)
    requires forall i :: 0 <= i < |s| ==> !keep(s[i])
    ensures Filter(s, keep) == []
  {
    if s != [] {
      FilterNone(s[..|s| - 1], keep);
    }
  }

  /** Splitting a sequence by a test and its negation loses and duplicates nothing. */
  lemma {:induction false} FilterLengthSplit<T>(s: seq<T>, keep: T -> bool, drop: T -> bool)
    requires forall x :: drop(x) == !keep(x)
    ensures |Filter(s, keep)| + |Filter(s, drop)| == |s|
  {
    if s != [] {
      FilterLengthSplit(s[..|s| - 1], keep, drop);
    }
  }

  lemma {:induction false} MapConcat<T, U>(a: seq<T>, b: seq<T>, f: T -> U)
    ensures Map(a + b, f) == Map(a, f) + Map(b, f)
  {
    if b == [] {
      assert a + b == a;
    } else {
      assert (a + b)[..|a + b| - 1] == a + b[..|b| - 1];
      MapConcat(a, b[..|b| - 1], f);
    }
  }

  /** `[y for x in s for y in f(x)]`. */
  function FlatMap<T, U>(s: seq<T>, f: T -> seq<U>): seq<U> {
    if s == [] then [] else FlatMap(s[..|s| - 1], f) + f(s[|s| - 1])
  }

  /** Each part contributes its own elements: the flattening is empty when every part is. */
  lemma {:induction false} FlatMapEmpty<T, U>(s: seq<T>, f: T -> seq<U>)
    requires forall i :: 0 <= i < |s| ==> f(s[i]) == []
    ensures FlatMap(s, f) == []
  {
    if s != [] {
      FlatMapEmpty(s[..|s| - 1], f);
    }
  }

  /** When every part is a single element the flattening is a plain map. */
  lemma {:induction false} FlatMapSingletons<T, U>(s: seq<T>, f: T -> seq<U>, g: T -> U)
    requires forall i :: 0 <= i < |s| ==> f(s[i]) == [g(s[i])]
    ensures FlatMap(s, f) == Map(s, g)
  {
    if s != [] {
      FlatMapSingletons(s[..|s| - 1], f, g);
    }
  }

  // One more element of a prefix: the step of a loop that walks `s` from the front.

  lemma FilterStep<T>(s: seq<T>, i: int, keep: T -> bool)
    requires 0 <= i < |s|
    ensures Filter(s[..i + 1], keep) == Filter(s[..i], keep) + (if keep(s[i]) then [s[i]] else [])
  {
    assert s[..i + 1][..i] == s[..i];
  }

  lemma MapStep<T, U>(s: seq<T>, i: int, f: T -> U)
    requires 0 <= i < |s|
    ensures Map(s[..i + 1], f) == Map(s[..i], f) + [f(s[i])]
  {
    assert s[..i + 1][..i] == s[..i];
  }

  lemma FlatMapStep<T, U>(s: seq<T>, i: int, f: T -> seq<U>)
    requires 0 <= i < |s|
    ensures FlatMap(s[..i + 1], f) == FlatMap(s[..i], f) + f(s[i])
  {
    assert s[..i + 1][..i] == s[..i];
  }

  lemma MapSnoc<T, U>(s: seq<T>, x: T, f: T -> U)
    ensures Map(s + [x], f) == Map(s, f) + [f(x)]
  {
    assert (s + [x])[..|s|] == s;
  }
}
