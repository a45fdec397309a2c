/**
 * The service's audit log (`state.logs` with `log_message`): formatted entries
 * `[time] [LEVEL] message`, of which only the most recent 1000 are kept.
 */
module LogBuffer {
  import opened Seqs

  /** How many entries `log_message` keeps. */
  const MaxEntries: nat := 1000

  /** The entry `log_message` writes; the time is given already formatted (`%H:%M:%S`). */
  function Format(ts: string, level: string, msg: string): string {
    "[" + ts + "] [" + level + "] " + msg
  }

  /** `logs[-1000:]` when there are more than 1000 entries, the entries themselves otherwise. */
  function Keep(s: seq<string>): (r: seq<string>)
    ensures |r| <= MaxEntries
  {
    if |s| > MaxEntries then s[|s| - MaxEntries..] else s
  }

  /** The log after `log_message` has appended `entry`. */
  function Appended(logs: seq<string>, entry: string): seq<string> {
    Keep(logs + [entry])
  }

  /**
   * After an append the log holds at most 1000 entries and ends with the new
   * one; what precedes it are the most recent earlier entries in their original
   * order, and while there was room none of them is dropped.
   */
  lemma AppendedKeepsRecent(logs: seq<string>, entry: string)
    ensures |Appended(logs, entry)| <= MaxEntries
    ensures Appended(logs, entry)[|Appended(logs, entry)| - 1] == entry
    ensures var r := Appended(logs, entry);
      r[..|r| - 1] == logs[|logs| - (|r| - 1)..]
    ensures |logs| < MaxEntries ==> Appended(logs, entry) == logs + [entry]
    ensures |logs| >= MaxEntries ==> |Appended(logs, entry)| == MaxEntries
  {
    var r := Appended(logs, entry);
    if |logs| + 1 > MaxEntries {
      assert r == (logs + [entry])[|logs| + 1 - MaxEntries..];
      assert r[..|r| - 1] == logs[|logs| + 1 - MaxEntries..];
    } else {
      assert r[..|r| - 1] == logs;
    }
  }

  /** Trimming early does not change what trimming later keeps. */
  lemma KeepAppend(s: seq<string>, more: seq<string>)
    ensures Keep(Keep(s) + more) == Keep(s + more)
  {
    if |s| > MaxEntries {
      var k := Keep(s);
      assert k == s[|s| - MaxEntries..];
      if |k + more| > MaxEntries {
        assert (k + more)[|k + more| - MaxEntries..] == (s + more)[|s + more| - MaxEntries..];
      } else {
        assert more == [];
        assert s + more == s;
      }
    }
  }

  /** Two rounds of appending and trimming are one trim of everything appended. */
  lemma KeepExtend(s: seq<string>, added: seq<string>, more: seq<string>)
    ensures Keep(Keep(s + added) + more) == Keep(s + (added + more))
  {
    KeepAppend(s + added, more);
    assert s + added + more == s + (added + more);
  }

  /** One pass of a loop that logs `each(s[k])` for every element in turn. */
  lemma LogStep<T>(base: seq<string>, s: seq<T>, k: int, each: T -> seq<string>)
    requires 0 <= k < |s|
    ensures Keep(Keep(base + FlatMap(s[..k], each)) + each(s[k])) == Keep(base + FlatMap(s[..k + 1], each))
  {
    FlatMapStep(s, k, each);
    KeepExtend(base, FlatMap(s[..k], each), each(s[k]));
  }
}
