/** The script handler: listing files with the embedded find script and
    running the configured scripts by name, one script per name, each name
    matched to the first path containing it (case ignored). */
module Scripts {

  import opened Wrappers
  import opened Text
  import opened Commands
  import opened Packages
  import Logs

  /** The embedded find script, given the directory and the search string. */
  function FindCommand(searchString: string, searchDirectory: string): Command
  {
    Embedded(FindFiles, false, [searchDirectory, searchString])
  }

  /** GetFilePaths: the find output split on newlines, nothing dropped. */
  function GetFilePaths(searchString: string, searchDirectory: string, shell: Shell)
    : (r: Result<seq<string>>)
    ensures r.Failure? <==> !shell(FindCommand(searchString, searchDirectory)).ok
    ensures r.Failure? ==> r.msg == shell(FindCommand(searchString, searchDirectory)).err
    ensures r.Ok? ==> |r.value| == Count(shell(FindCommand(searchString, searchDirectory)).output, '\n') + 1
    ensures r.Ok? ==> Join(r.value, "\n") == shell(FindCommand(searchString, searchDirectory)).output
  {
    var o := shell(FindCommand(searchString, searchDirectory));
    JoinSplit(o.output, '\n');
    if !o.ok then Failure(o.err) else Ok(Split(o.output, '\n'))
  }

  /** A newline-terminated listing keeps an empty last entry. */
  lemma GetFilePathsTrailingEntry(searchString: string, searchDirectory: string, shell: Shell, s: string)
    requires shell(FindCommand(searchString, searchDirectory)).ok
    requires shell(FindCommand(searchString, searchDirectory)).output == s + "\n"
    ensures GetFilePaths(searchString, searchDirectory, shell).Ok?
    ensures Last(GetFilePaths(searchString, searchDirectory, shell).value) == ""
  {
    SplitTrailing(s, '\n');
  }

  /** The warning logged for a name no path matched. */
  function UnableToFind(name: string): Logs.Entry
  {
    Logs.Entry(Logs.Warn, "Unable to find " + name)
  }

  /** The commands ExecuteScripts runs: for each name, the first matching path, if any. */
  function ScriptAttempts(names: seq<string>, paths: seq<string>): (r: seq<Command>)
    ensures |r| <= |names|
  {
    if names == [] then []
    else
      ScriptAttempts(names[..|names| - 1], paths)
      + match FirstMatch(paths, Last(names))
        case None => []
        case Some(i) => [Bash(paths[i])]
  }

  /** The inner loop for one name: the first matching path runs, and its exit
      status sets exactly one of `success` and `fail`. */
  method RunFirstMatch(name: string, paths: seq<string>, shell: Shell)
    returns (success: bool, fail: bool, ran: seq<Command>, entries: seq<Logs.Entry>)
    ensures !(success && fail)
    ensures success || fail <==> FirstMatch(paths, name).Some?
    ensures ran == (match FirstMatch(paths, name)
                    case None => []
                    case Some(i) => [Bash(paths[i])])
    ensures success <==> ran != [] && shell(ran[0]).ok
    ensures forall e :: e in entries ==> e.level != Logs.Warn
  {
    var execNameLow := Lower(name);
    success, fail, ran, entries := false, false, [], [];
    var i := 0;
    while i < |paths| && !Contains(Lower(paths[i]), execNameLow)
      invariant 0 <= i <= |paths|
      invariant forall j :: 0 <= j < i ==> !PathMatches(paths[j], name)
    {
      i := i + 1;
    }
    if i == |paths| {
      FirstMatchAbsent(paths, name);
      return;
    }
    FirstMatchAt(paths, name, i);
    entries := [Logs.Entry(Logs.Info, "Starting execution for " + name)];
    ran := [Bash(paths[i])];
    var out := shell(Bash(paths[i]));
    var outMsg := TrimSpace(out.output);
    if !out.ok {
      entries := entries + [Logs.Entry(Logs.Error, "Got non-zero exit for " + name + ": " + out.err),
                            Logs.Entry(Logs.Error, "Output: " + outMsg)];
      fail := true;
      return;
    }
    entries := entries + [Logs.Entry(Logs.Info, "Successfully executed " + name),
                          Logs.Entry(Logs.Info, "Output: " + outMsg)];
    success := true;
  }

  /** ExecuteScripts as written: the warning condition `!success || !fail`
      holds for every name, since the two flags are never both set. */
  method ExecuteScriptsAsWritten(executingScripts: seq<string>, scriptPaths: seq<string>, shell: Shell)
    returns (ran: seq<Command>, entries: seq<Logs.Entry>)
    ensures ran == ScriptAttempts(executingScripts, scriptPaths)
    ensures forall k :: 0 <= k < |executingScripts| ==> UnableToFind(executingScripts[k]) in entries
  {
    ran, entries := [], [];
    for i := 0 to |executingScripts|
      invariant ran == ScriptAttempts(executingScripts[..i], scriptPaths)
      invariant forall k :: 0 <= k < i ==> UnableToFind(executingScripts[k]) in entries
    {
      var success, fail, cmds, logged := RunFirstMatch(executingScripts[i], scriptPaths, shell);
      assert executingScripts[..i + 1][..i] == executingScripts[..i];
      ran := ran + cmds;
      entries := entries + logged;
      if !success || !fail {
        entries := entries + [UnableToFind(executingScripts[i])];
      }
    }
    assert executingScripts[..|executingScripts|] == executingScripts;
  }

  /** ExecuteScripts as intended: the warning only for a name no path matched. */
  method ExecuteScripts(executingScripts: seq<string>, scriptPaths: seq<string>, shell: Shell)
    returns (ran: seq<Command>, entries: seq<Logs.Entry>)
    ensures ran == ScriptAttempts(executingScripts, scriptPaths)
    ensures forall k :: 0 <= k < |executingScripts| ==>
      (UnableToFind(executingScripts[k]) in entries <==> FirstMatch(scriptPaths, executingScripts[k]).None?)
  {
    ran, entries := [], [];
    for i := 0 to |executingScripts|
      invariant ran == ScriptAttempts(executingScripts[..i], scriptPaths)
      invariant forall k :: 0 <= k < i && FirstMatch(scriptPaths, executingScripts[k]).None? ==>
        UnableToFind(executingScripts[k]) in entries
      invariant forall e :: e in entries && e.level == Logs.Warn ==>
        exists k :: 0 <= k < i && e == UnableToFind(executingScripts[k])
          && FirstMatch(scriptPaths, executingScripts[k]).None?
    {
      var success, fail, cmds, logged := RunFirstMatch(executingScripts[i], scriptPaths, shell);
      assert executingScripts[..i + 1][..i] == executingScripts[..i];
      ran := ran + cmds;
      entries := entries + logged;
      if !success && !fail {
        entries := entries + [UnableToFind(executingScripts[i])];
      }
    }
    assert executingScripts[..|executingScripts|] == executingScripts;
    forall k | 0 <= k < |executingScripts| && UnableToFind(executingScripts[k]) in entries
      ensures FirstMatch(scriptPaths, executingScripts[k]).None?
    {
      var j :| 0 <= j < |executingScripts| && UnableToFind(executingScripts[k]) == UnableToFind(executingScripts[j])
        && FirstMatch(scriptPaths, executingScripts[j]).None?;
      UnableToFindInjective(executingScripts[k], executingScripts[j]);
    }
  }

  lemma UnableToFindInjective(a: string, b: string)
    requires UnableToFind(a) == UnableToFind(b)
    ensures a == b
  {
    var p := "Unable to find ";
    assert a == (p + a)[|p|..];
    assert b == (p + b)[|p|..];
  }

  /** A name that some path matches has its first matching path run. */
  lemma {:induction false} ScriptAttemptsPerName(names: seq<string>, paths: seq<string>, k: int)
    requires 0 <= k < |names|
    requires FirstMatch(paths, names[k]).Some?
    ensures Bash(paths[FirstMatch(paths, names[k]).value]) in ScriptAttempts(names, paths)
  {
    if k < |names| - 1 {
      ScriptAttemptsPerName(names[..|names| - 1], paths, k);
    }
  }
}
