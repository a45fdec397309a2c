/**
 * `execute_command_stream(cmd, cwd)` as a transcript: given what the OS does
 * (whether the shell could be spawned and under which pid, what each
 * `readline` returned, the exit code), the chunks the generator yields and
 * the registry while the lines stream and afterwards.
 */
module Executor {
  import opened Wrappers
  import opened Text
  import opened Seqs
  import opened Registry

  /** What `subprocess.Popen` did. */
  datatype Spawn = Spawned(pid: int) | SpawnFailed(error: string)

  datatype Transcript = Transcript(chunks: seq<string>, during: Table, after: Table)

  /** The chunk yielded for one line read: trailing whitespace of any kind becomes one newline. */
  function EmitLine(line: string): string {
    RStrip(line) + "\n"
  }

  /** The synthetic last chunk after the child has been reaped. */
  function CompletionMarker(code: int): string {
    "\n[Process completed with exit code: " + IntToString(code) + "]\n"
  }

  /** The chunk yielded for an exception inside the `try`. */
  function ErrorChunk(error: string): string {
    "Error executing command: " + error + "\n"
  }

  /**
   * Where `iter(process.stdout.readline, '')` stops: the first empty read
   * (end of file), or `|results|` when every read returned a line and the next
   * one raised.
   */
  function EofIndex(results: seq<string>): (k: nat)
    ensures k <= |results|
    ensures forall i :: 0 <= i < k ==> results[i] != ""
    ensures k < |results| ==> results[k] == ""
  {
    if results == [] then 0
    else if results[0] == "" then 0
    else 1 + EofIndex(results[1..])
  }

  /**
   * The whole run. `results` are the values of successive `readline` calls; an
   * empty one is end of file, after which `process.wait()` gives `exitCode`.
   * If no read is empty, the read after the last one raised `readError`.
   */
  function Run(reg: Table, cmd: string, spawn: Spawn, results: seq<string>, exitCode: int, readError: string): Transcript {
    match spawn
    case SpawnFailed(e) => Transcript([ErrorChunk(e)], reg, reg)
    case Spawned(pid) =>
      var during := Put(reg, pid, ProcInfo(cmd, Classify(cmd)));
      var k := EofIndex(results);
      var lines := Map(results[..k], EmitLine);
      if k < |results| then Transcript(lines + [CompletionMarker(exitCode)], during, Remove(during, pid))
      else Transcript(lines + [ErrorChunk(readError)], during, during)
  }

  /**
   * A successful run whose child wrote the lines `lines` and exited with `code`
   * yields `rstrip(l) + "\n"` per line, in order, then the completion marker.
   * While the lines stream the pid is registered with its command and type;
   * afterwards it is gone. No other pid's entry is touched, and a registry that
   * did not know the pid is restored exactly.
   */
  lemma SuccessfulRun(reg: Table, cmd: string, pid: int, lines: seq<string>, code: int, readError: string)
    requires Distinct(reg)
    requires forall i :: 0 <= i < |lines| ==> lines[i] != ""
    ensures var tr := Run(reg, cmd, Spawned(pid), lines + [""], code, readError);
      && tr.chunks == Map(lines, EmitLine) + [CompletionMarker(code)]
      && Distinct(tr.during) && Distinct(tr.after)
      && Lookup(tr.during, pid) == Some(ProcInfo(cmd, Classify(cmd)))
      && !Tracks(tr.after, pid)
      && (forall q :: q != pid ==> Lookup(tr.during, q) == Lookup(reg, q) && Lookup(tr.after, q) == Lookup(reg, q))
      && (!Tracks(reg, pid) ==> tr.after == reg)
  {
    var results := lines + [""];
    var k := EofIndex(results);
    assert results[|lines|] == "";
    assert k == |lines|;
    assert results[..k] == lines;
    var info := ProcInfo(cmd, Classify(cmd));
    var during := Put(reg, pid, info);
    PutSpec(reg, pid, info);
    RemoveSpec(during, pid);
    if !Tracks(reg, pid) {
      PutThenRemove(reg, pid, info);
    }
  }

  /** The last chunk of a successful run is exactly the completion marker with the exit code. */
  lemma LastChunkIsMarker(reg: Table, cmd: string, pid: int, results: seq<string>, code: int, readError: string)
    requires "" in results
    ensures var chunks := Run(reg, cmd, Spawned(pid), results, code, readError).chunks;
      chunks != [] && chunks[|chunks| - 1] == CompletionMarker(code)
  {
    var k := EofIndex(results);
    var i :| 0 <= i < |results| && results[i] == "";
    assert k <= i;
  }

  /** If the shell cannot be spawned the stream is one error chunk and the registry is untouched. */
  lemma SpawnFailureRun(reg: Table, cmd: string, error: string, results: seq<string>, code: int, readError: string)
    ensures var tr := Run(reg, cmd, SpawnFailed(error), results, code, readError);
      tr.chunks == ["Error executing command: " + error + "\n"] && tr.during == reg && tr.after == reg
  {
  }

  /**
   * If reading fails after the lines `lines`, the stream ends with the error
   * chunk and the pid's entry stays in the registry: the `del` is never reached.
   */
  lemma ReadFailureRun(reg: Table, cmd: string, pid: int, lines: seq<string>, code: int, readError: string)
    requires Distinct(reg)
    requires forall i :: 0 <= i < |lines| ==> lines[i] != ""
    ensures var tr := Run(reg, cmd, Spawned(pid), lines, code, readError);
      && tr.chunks == Map(lines, EmitLine) + [ErrorChunk(readError)]
      && tr.after == tr.during
      && Distinct(tr.after)
      && Lookup(tr.after, pid) == Some(ProcInfo(cmd, Classify(cmd)))
      && (forall q :: q != pid ==> Lookup(tr.after, q) == Lookup(reg, q))
  {
    assert lines[..|lines|] == lines;
    PutSpec(reg, pid, ProcInfo(cmd, Classify(cmd)));
  }

  /** `echo hello`: the stream is `hello` and then the marker for exit code 0. */
  lemma EchoHello(pid: int)
    ensures Run([], "echo hello", Spawned(pid), ["hello\n", ""], 0, "").chunks
         == ["hello\n", "\n[Process completed with exit code: 0]\n"]
  {
    var results := ["hello\n", ""];
    assert EofIndex(results[1..]) == 0;
    assert results[..1] == ["hello\n"];
    assert RStrip("hello") == "hello";
    assert "hello\n"[..5] == "hello";
    assert RStrip("hello\n") == "hello";
    assert IntToString(0) == "0";
    assert EofIndex(results) == 1;
    assert EmitLine("hello\n") == "hello\n";
    assert Map(["hello\n"], EmitLine) == ["hello\n"];
    assert CompletionMarker(0) == "\n[Process completed with exit code: 0]\n";
  }
}
