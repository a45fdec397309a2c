/** The small pure rules of the request handlers. */
module Commands {
  import opened Wrappers
  import opened Text
  import opened Registry

  /**
   * `api_execute`: `data.get('command', '').strip()`, rejected with
   * "No command provided" when nothing is left. A command made only of
   * whitespace is rejected; any other is run stripped.
   */
  function CommandToRun(raw: string): (r: Option<string>)
    ensures r.None? <==> AllSpace(raw)
    ensures r.Some? ==> r.value == Strip(raw) && r.value != []
  {
    StripEmptyIffAllSpace(raw);
    if Strip(raw) == [] then None else Some(Strip(raw))
  }

  /**
   * `api_run_uploaded`: `python3 <file>` for a `.py` file, `bash <file>`
   * otherwise. The command is the interpreter, a space and the file name,
   * and the command for a `.py` file is tracked as a python process once it
   * runs.
   */
  function RunUploadedCommand(filename: string): (cmd: string)
    ensures IsSuffix(filename, cmd)
    ensures IsPrefix("python3 ", cmd) <==> IsSuffix(".py", filename)
    ensures !IsSuffix(".py", filename) ==> IsPrefix("bash ", cmd)
    ensures |cmd| == |filename| + (if IsSuffix(".py", filename) then 8 else 5)
    ensures IsSuffix(".py", filename) ==> Classify(cmd) == Python
  {
    if IsSuffix(".py", filename) then
      var cmd := "python3 " + filename;
      assert cmd[..6] == "python";
      ClassifyLiteralPython(cmd, 0);
      assert cmd[|cmd| - |filename|..] == filename;
      cmd
    else
      var cmd := "bash " + filename;
      assert cmd[0] == 'b';
      assert cmd[..5] == "bash ";
      assert cmd[|cmd| - |filename|..] == filename;
      cmd
  }

  /** The JSON reply of `api_run_uploaded`. */
  datatype RunReply = RunReply(success: bool, message: string, command: Option<string>)

  /**
   * `api_run_uploaded`. `present` is `os.path.exists` on the file under
   * `upload_dir`; `copied` says whether `shutil.copy` into the current
   * directory returned. The copy is outside any `try`, so when it raises (the
   * name denotes a directory, such as the default empty name, which denotes
   * `upload_dir` itself, or the current directory is `upload_dir` and the file
   * would be copied onto itself) the request ends in a server error and no
   * reply is sent: `None`.
   */
  function RunUploaded(filename: string, present: bool, copied: bool): (r: Option<RunReply>)
    ensures r.None? <==> present && !copied
    ensures r.Some? ==> (r.value.success <==> present)
    ensures !present ==> r == Some(RunReply(false, "File not found", None))
    ensures r.Some? && r.value.success ==>
      r.value.command == Some(RunUploadedCommand(filename))
      && r.value.message == "File ready to run: " + RunUploadedCommand(filename)
  {
    if !present then Some(RunReply(false, "File not found", None))
    else if !copied then None
    else
      var cmd := RunUploadedCommand(filename);
      Some(RunReply(true, "File ready to run: " + cmd, Some(cmd)))
  }

  /**
   * A present file that is copied gets a reply with a command, and the command
   * `api_run_uploaded` suggests is never rejected by `api_execute`:
   * it starts with the interpreter's name, so it is not all whitespace. When
   * the file name does not end in whitespace, stripping leaves it unchanged and
   * it is run exactly as suggested.
   */
  lemma UploadedCommandRuns(filename: string)
    ensures RunUploaded(filename, true, true).Some? && RunUploaded(filename, true, true).value.command.Some?
    ensures CommandToRun(RunUploadedCommand(filename)).Some?
    ensures filename != [] && !IsSpace(filename[|filename| - 1]) ==>
      CommandToRun(RunUploadedCommand(filename)) == Some(RunUploadedCommand(filename))
  {
    var cmd := RunUploadedCommand(filename);
    assert cmd[0] == 'p' || cmd[0] == 'b' by {
      if IsSuffix(".py", filename) { assert cmd[..8] == "python3 "; } else { assert cmd[..5] == "bash "; }
    }
    assert !IsSpace(cmd[0]);
    if filename != [] && !IsSpace(filename[|filename| - 1]) {
      assert cmd[|cmd| - 1] == filename[|filename| - 1] by {
        assert cmd[|cmd| - |filename|..] == filename;
      }
      assert RStrip(cmd) == cmd;
      assert LStrip(cmd) == cmd;
    }
  }

  /**
   * `api_cd`: the directory to try. `..` goes to the parent, an absolute path
   * is taken as it is, anything else is joined to the current directory.
   * The `os.path` functions are given.
   */
  function CdTarget(current: string, dir: string, dirname: string -> string, join: (string, string) -> string): string {
    if dir == ".." then dirname(current)
    else if IsPrefix("/", dir) then dir
    else join(current, dir)
  }
}
