/** The deployment log (logger/log.go): one append-only buffer shared by four
    level loggers, written to disk in full at each checkpoint, and the rules
    that turn a configured log location into a directory path. */
module Logs {

  import opened Wrappers
  import opened Text

  datatype Level = Debug | Info | Warn | Error

  /** One call of `Logger.Log`: the level it went to and the formatted message. */
  datatype Entry = Entry(level: Level, text: string)

  /** The message prefix each level logger was created with. */
  function Prefix(l: Level): string
  {
    match l
    case Debug => "[DEBUG] "
    case Info => "[INFO] "
    case Warn => "[WARNING] "
    case Error => "[ERROR] "
  }

  /** The line an entry becomes in the buffer (without its time stamp). */
  function Line(e: Entry): string
  {
    Prefix(e.level) + e.text + "\n"
  }

  /** The buffer's bytes for a sequence of entries. */
  function Render(entries: seq<Entry>): string
  {
    if entries == [] then "" else Render(entries[..|entries| - 1]) + Line(entries[|entries| - 1])
  }

  /** A buffer that has only grown renders to an extension of what it rendered before,
      so every later checkpoint file starts with the earlier one. */
  lemma {:induction false} RenderPrefix(a: seq<Entry>, b: seq<Entry>)
    requires a <= b
    ensures IsPrefix(Render(a), Render(b))
  {
    if |a| < |b| {
      assert a <= b[..|b| - 1];
      RenderPrefix(a, b[..|b| - 1]);
    } else {
      assert a == b;
    }
  }

  /** Every message logged is in the rendered buffer. */
  lemma {:induction false} RenderContains(entries: seq<Entry>, k: int)
    requires 0 <= k < |entries|
    ensures Contains(Render(entries), entries[k].text)
  {
    var n := |entries|;
    var front := Render(entries[..n - 1]);
    var line := Line(entries[n - 1]);
    if k == n - 1 {
      var p := |front| + |Prefix(entries[k].level)|;
      assert (front + line)[p..p + |entries[k].text|] == entries[k].text;
      ContainsAt(front + line, entries[k].text, p);
    } else {
      assert entries[..n - 1][k] == entries[k];
      RenderContains(entries[..n - 1], k);
      ContainsOfPrefix(front + line, front, entries[k].text);
    }
  }

  /** The log file name `<date>.<serial>.log`. */
  function FileName(date: string, serial: string): (r: string)
    ensures IsPrefix(date + ".", r)
    ensures Contains(r, serial) && Contains(r, ".log")
  {
    var r := date + "." + serial + ".log";
    ContainsAt(r, serial, |date| + 1);
    ContainsAt(r, ".log", |r| - 4);
    r
  }

  /** The log file path `<directory>/<name>`. */
  function FilePath(directory: string, name: string): (r: string)
    ensures IsPrefix(directory + "/", r)
    ensures Contains(r, directory) && Contains(r, name)
  {
    var r := directory + "/" + name;
    ContainsAt(r, directory, 0);
    ContainsAt(r, name, |directory| + 1);
    r
  }

  class Log {
    const fileName: string
    const filePath: string
    const directory: string
    /** Debug is silent unless the run is verbose; the other levels never are. */
    const verbose: bool
    /** The shared buffer, one entry per `Logger.Log` call, oldest first. */
    var content: seq<Entry>
    /** Lines echoed to standard output. */
    var console: seq<string>
    /** The buffer as it was at each successful `WriteFile`, oldest first. */
    var written: seq<seq<Entry>>

    /** Every file written is a snapshot of the buffer, and each snapshot extends the one before. */
    ghost predicate Valid()
      reads this
    {
      (forall k :: 0 <= k < |written| ==> written[k] <= content)
      && (forall j, k :: 0 <= j < k < |written| ==> written[j] <= written[k])
    }

    predicate Silent(level: Level)
      reads this
    {
      level == Debug && !verbose
    }

    /** NewLog */
    constructor (serial: string, logDirectory: string, verbose: bool, date: string)
      ensures fileName == FileName(date, serial)
      ensures filePath == FilePath(logDirectory, fileName)
      ensures directory == logDirectory && this.verbose == verbose
      ensures content == [] && console == [] && written == []
      ensures Valid()
    {
      fileName := FileName(date, serial);
      filePath := FilePath(logDirectory, FileName(date, serial));
      directory := logDirectory;
      this.verbose := verbose;
      content := [];
      console := [];
      written := [];
    }

    /** Logger.Log: the message always goes to the buffer, and to the console unless silent. */
    method Log(level: Level, msg: string)
      requires Valid()
      modifies this
      ensures Valid()
      ensures content == old(content) + [Entry(level, msg)]
      ensures console == old(console) + (if Silent(level) then [] else [Prefix(level) + msg])
      ensures written == old(written)
    {
      content := content + [Entry(level, msg)];
      if !Silent(level) {
        console := console + [Prefix(level) + msg];
      }
    }

    /** WriteFile: the whole buffer replaces the file; `diskOk` is whether os.WriteFile succeeds. */
    method WriteFile(diskOk: bool) returns (err: Error)
      requires Valid()
      modifies this
      ensures Valid()
      ensures err == Nil <==> diskOk
      ensures written == old(written) + (if diskOk then [content] else [])
      ensures content == old(content) && console == old(console)
    {
      if diskOk {
        written := written + [content];
        err := Nil;
      } else {
        err := Err("cannot write " + filePath);
      }
    }

    /** GetContent */
    function Content(): (r: string)
      reads this
      ensures forall k :: 0 <= k < |content| ==> Contains(r, content[k].text)
    {
      var r := Render(content);
      forall k | 0 <= k < |content|
        ensures Contains(r, content[k].text)
      {
        RenderContains(content, k);
      }
      r
    }
  }

  /** Two checkpoint files, the earlier one's bytes start the later one's. */
  lemma CheckpointsNest(log: Log, j: int, k: int)
    requires log.Valid() && 0 <= j < k < |log.written|
    ensures IsPrefix(Render(log.written[j]), Render(log.written[k]))
  {
    RenderPrefix(log.written[j], log.written[k]);
  }

  // ---------------------------------------------------------------- FormatLogPath

  function DefaultLogDirectory(home: string): string
  {
    home + "/logs/macdeploy"
  }

  /** formatSpecialLogPath: "." and "./" mean the working directory; when it
      cannot be read (`wd` is None) every path becomes $HOME. */
  function FormatSpecial(path: string, home: string, wd: Option<string>): (r: string)
    ensures wd.None? ==> r == home
    ensures wd.Some? && (path == "." || path == "./") ==> r == wd.value
    ensures wd.Some? && path != "." && path != "./" ==> r == path
  {
    match wd
    case None => home
    case Some(dir) => if path == "." || path == "./" then dir else path
  }

  /** The non-empty elements of `xs`, in order. */
  function NonEmpty(xs: seq<string>): (r: seq<string>)
    ensures |r| <= |xs|
    ensures forall k :: 0 <= k < |r| ==> r[k] != ""
    ensures forall x :: x in r <==> x in xs && x != ""
    ensures |xs| > 0 && xs[0] != "" ==> |r| > 0 && r[0] == xs[0]
  {
    if xs == [] then []
    else
      var front := NonEmpty(xs[..|xs| - 1]);
      if xs[|xs| - 1] != "" then front + [xs[|xs| - 1]] else front
  }

  /** The path elements kept: the empty element before a leading "/", then every non-empty one. */
  function Components(parts: seq<string>): (r: seq<string>)
    requires |parts| > 0
    ensures |r| > 0
    ensures forall k :: 0 < k < |r| ==> r[k] != ""
    ensures r[0] == "" <==> parts[0] == ""
  {
    (if parts[0] == "" then [""] else []) + NonEmpty(parts)
  }

  /** The index of the last element without ".log" among the first `n`, or 0 when there is none. */
  function LastWord(xs: seq<string>, n: nat): (r: nat)
    requires n <= |xs|
    ensures n == 0 ==> r == 0
    ensures n > 0 ==> r < n
  {
    if n == 0 then 0
    else if !Contains(xs[n - 1], ".log") then n - 1
    else LastWord(xs, n - 1)
  }

  /** Every element after the chosen one names a log file, and the chosen one
      does not unless it is the first. */
  lemma {:induction false} LastWordIsLast(xs: seq<string>, n: nat)
    requires n <= |xs|
    ensures forall j :: LastWord(xs, n) < j < n ==> Contains(xs[j], ".log")
    ensures LastWord(xs, n) == 0 || !Contains(xs[LastWord(xs, n)], ".log")
  {
    if n > 0 && Contains(xs[n - 1], ".log") {
      LastWordIsLast(xs, n - 1);
    }
  }

  /** Home expansion of the first "~", when a "/" follows it or it is the whole path. */
  function ExpandTilde(path: string, home: string): (r: string)
    ensures '~' !in path ==> r == path
    ensures IsPrefix("~/", path) ==> r == home + path[1..]
    ensures path == "~" ==> r == home
  {
    match IndexOf(path, '~')
    case None => path
    case Some(pos) =>
      if pos + 1 < |path| then
        (if path[pos + 1] == '/' then path[..pos] + home + path[pos + 1..] else path)
      else if pos == 0 then home + path[pos + 1..]
      else path
  }

  /** The text FormatLogPath works on: backslashes turned into slashes, blanks
      trimmed, then the special forms "." and "./" resolved. */
  function Normalised(raw: string, home: string, wd: Option<string>): string
  {
    FormatSpecial(TrimSpace(ReplaceChar(raw, '\\', '/')), home, wd)
  }

  /** The path chosen from the kept elements: the default directory when only
      the root or nothing is left, otherwise the elements up to the last one
      without ".log", joined, with the home expansion and a "./" prefix for a
      relative path. The first byte is read even when the joined path is empty,
      which is a run-time panic. */
  function PathFromComponents(comps: seq<string>, home: string): Run<string>
    requires |comps| > 0
  {
    if |comps| <= 1 && comps[0] == "" then Returns(DefaultLogDirectory(home))
    else
      var path := ExpandTilde(Join(comps[..LastWord(comps, |comps|) + 1], "/"), home);
      if path == "" then Panics
      else if path[0] != '/' then Returns("./" + path)
      else Returns(path)
  }

  /** The directory chosen for a normalised text. */
  function PathOfNormalised(path: string, home: string): Run<string>
  {
    PathFromComponents(Components(Split(path, '/')), home)
  }

  /** FormatLogPath as written. */
  function LogPathAsWritten(raw: string, home: string, wd: Option<string>): Run<string>
  {
    PathOfNormalised(Normalised(raw, home, wd), home)
  }

  /** FormatLogPath as evidently intended: a path that comes out empty falls
      back to the default directory, like "/" and "" do. */
  function LogPathCorrected(raw: string, home: string, wd: Option<string>): (r: string)
    ensures |r| > 0
    ensures r == DefaultLogDirectory(home) || r[0] == '/' || IsPrefix("./", r)
  {
    match LogPathAsWritten(raw, home, wd)
    case Returns(path) => path
    case Panics => DefaultLogDirectory(home)
  }

  /** Where the as-written function returns, the corrected one returns the same path. */
  lemma LogPathCorrectedAgrees(raw: string, home: string, wd: Option<string>)
    requires LogPathAsWritten(raw, home, wd).Returns?
    ensures LogPathCorrected(raw, home, wd) == LogPathAsWritten(raw, home, wd).value
  {
  }

  /** The three stages compose: normalised text, kept elements, chosen path. */
  lemma LogPathChain(raw: string, home: string, wd: Option<string>, parts: seq<string>,
                     comps: seq<string>, r: Run<string>)
    requires |parts| > 0 && Normalised(raw, home, wd) == Join(parts, "/")
    requires forall k :: 0 <= k < |parts| ==> '/' !in parts[k]
    requires Components(parts) == comps && PathFromComponents(comps, home) == r
    ensures LogPathAsWritten(raw, home, wd) == r
  {
    SplitJoin(parts, '/');
  }

  /** A path without backslashes or surrounding blanks, other than "." and "./", is kept as it is. */
  lemma NormalisedPlain(raw: string, home: string, wd: string)
    requires '\\' !in raw && raw != "." && raw != "./"
    requires |raw| > 0 ==> !IsSpace(raw[0]) && !IsSpace(raw[|raw| - 1])
    ensures Normalised(raw, home, Some(wd)) == raw
  {
    assert ReplaceChar(raw, '\\', '/') == raw;
    TrimSpaceOfTrimmed(raw);
  }

  lemma {:induction false} NonEmptyOfBlanks(xs: seq<string>)
    requires forall k :: 0 <= k < |xs| ==> xs[k] == ""
    ensures NonEmpty(xs) == []
  {
    if xs != [] {
      NonEmptyOfBlanks(xs[..|xs| - 1]);
    }
  }

  /** A path of slashes and backslashes only names the root, which is refused in
      favour of the default directory. */
  lemma LogPathRootIsDefault(raw: string, home: string, wd: string)
    requires |raw| > 0
    requires forall i :: 0 <= i < |raw| ==> raw[i] == '/' || raw[i] == '\\'
    ensures LogPathAsWritten(raw, home, Some(wd)) == Returns(DefaultLogDirectory(home))
  {
    var slashes := ReplaceChar(raw, '\\', '/');
    assert forall i :: 0 <= i < |slashes| ==> slashes[i] == '/';
    TrimSpaceOfTrimmed(slashes);
    assert slashes != "." && slashes != "./" by {
      assert slashes[0] == '/';
    }
    var parts := Split(slashes, '/');
    SplitOfSeparators(slashes, '/');
    NonEmptyOfBlanks(parts);
  }

  /** The empty path gives the default directory. */
  lemma LogPathEmptyIsDefault(home: string, wd: string)
    ensures LogPathAsWritten("", home, Some(wd)) == Returns(DefaultLogDirectory(home))
  {
    NormalisedPlain("", home, wd);
    NonEmptyOfBlanks([""]);
  }

  /** `/<dir>/<file>` where only the file names a log gives `/<dir>`. */
  lemma LogPathDropsLogFile(dir: string, file: string, home: string, wd: string)
    requires dir != "" && file != ""
    requires '/' !in dir && '/' !in file && '\\' !in dir && '\\' !in file && '~' !in dir
    requires !IsSpace(file[|file| - 1])
    requires !Contains(dir, ".log") && Contains(file, ".log")
    ensures LogPathAsWritten("/" + dir + "/" + file, home, Some(wd)) == Returns("/" + dir)
  {
    var parts := ["", dir, file];
    assert forall k :: 0 <= k < |parts| ==> '/' !in parts[k];
    NormalisedDirFile(dir, file, home, wd);
    JoinDirFile(dir, file);
    ComponentsOfDirFile(dir, file);
    ChooseDirFile(dir, file, home);
    LogPathChain("/" + dir + "/" + file, home, Some(wd), parts, parts, Returns("/" + dir));
  }

  lemma NormalisedDirFile(dir: string, file: string, home: string, wd: string)
    requires file != "" && !IsSpace(file[|file| - 1]) && '\\' !in dir && '\\' !in file
    ensures Normalised("/" + dir + "/" + file, home, Some(wd)) == "/" + dir + "/" + file
  {
    var raw := "/" + dir + "/" + file;
    assert raw[0] == '/' && raw[|raw| - 1] == file[|file| - 1];
    NormalisedPlain(raw, home, wd);
  }

  lemma JoinDirFile(dir: string, file: string)
    ensures Join(["", dir, file], "/") == "/" + dir + "/" + file
  {
    var parts := ["", dir, file];
    assert parts[1..] == [dir, file];
    assert parts[1..][1..] == [file];
    assert Join([file], "/") == file;
    assert Join([dir, file], "/") == dir + "/" + file;
  }

  lemma ComponentsOfDirFile(dir: string, file: string)
    requires dir != "" && file != ""
    ensures Components(["", dir, file]) == ["", dir, file]
  {
    var parts := ["", dir, file];
    assert parts[..2][..1] == [""];
    assert parts[..2] == ["", dir];
    NonEmptyOfBlanks([""]);
    assert NonEmpty(["", dir]) == [dir];
    assert NonEmpty(parts) == [dir, file];
  }

  lemma ChooseDirFile(dir: string, file: string, home: string)
    requires '~' !in dir
    requires !Contains(dir, ".log") && Contains(file, ".log")
    ensures PathFromComponents(["", dir, file], home) == Returns("/" + dir)
  {
    var comps := ["", dir, file];
    assert LastWord(comps, 3) == 1;
    assert comps[..2] == ["", dir];
    assert Join(["", dir], "/") == "/" + dir;
    assert '~' !in "/" + dir;
  }

  /** A log file directly under "/" leaves nothing to join, and the as-written
      code reads the first byte of the empty path: a run-time panic. */
  lemma LogPathPanicsOnRootFile(file: string, home: string, wd: string)
    requires file != "" && '/' !in file && '\\' !in file && !IsSpace(file[|file| - 1])
    requires Contains(file, ".log")
    ensures LogPathAsWritten("/" + file, home, Some(wd)) == Panics
  {
    var parts := ["", file];
    assert forall k :: 0 <= k < |parts| ==> '/' !in parts[k];
    NormalisedRootFile(file, home, wd);
    ComponentsOfRootFile(file);
    ChooseRootFile(file, home);
    LogPathChain("/" + file, home, Some(wd), parts, parts, Panics);
  }

  lemma NormalisedRootFile(file: string, home: string, wd: string)
    requires file != "" && !IsSpace(file[|file| - 1]) && '\\' !in file
    ensures Normalised("/" + file, home, Some(wd)) == Join(["", file], "/")
  {
    var raw := "/" + file;
    assert raw[0] == '/' && raw[|raw| - 1] == file[|file| - 1];
    NormalisedPlain(raw, home, wd);
  }

  lemma ComponentsOfRootFile(file: string)
    requires file != ""
    ensures Components(["", file]) == ["", file]
  {
    assert ["", file][..1] == [""];
    NonEmptyOfBlanks([""]);
  }

  lemma ChooseRootFile(file: string, home: string)
    requires Contains(file, ".log")
    ensures PathFromComponents(["", file], home) == Panics
  {
    var comps := ["", file];
    assert !Contains("", ".log");
    assert LastWord(comps, 2) == 0;
    assert comps[..1] == [""];
  }

  /** The corrected version sends that path to the default directory. */
  lemma LogPathCorrectedOnRootFile(file: string, home: string, wd: string)
    requires file != "" && '/' !in file && '\\' !in file && !IsSpace(file[|file| - 1])
    requires Contains(file, ".log")
    ensures LogPathCorrected("/" + file, home, Some(wd)) == DefaultLogDirectory(home)
  {
    LogPathPanicsOnRootFile(file, home, wd);
  }

  /** FormatLogPath's first loop: the leading empty element, then the non-empty ones. */
  method KeepComponents(parts: seq<string>) returns (kept: seq<string>)
    requires |parts| > 0
    ensures kept == Components(parts)
  {
    kept := [];
    if parts[0] == "" {
      kept := [""];
    }
    var lead := kept;
    var i := 0;
    while i < |parts|
      invariant 0 <= i <= |parts|
      invariant kept == lead + NonEmpty(parts[..i])
    {
      assert parts[..i + 1][..i] == parts[..i];
      if parts[i] != "" {
        kept := kept + [parts[i]];
      }
      i := i + 1;
    }
    assert parts[..|parts|] == parts;
  }

  /** FormatLogPath's second loop: the backward scan for the last element without ".log". */
  method FindLastWord(kept: seq<string>) returns (word: nat)
    ensures word == LastWord(kept, |kept|)
  {
    word := 0;
    var j := |kept| - 1;
    while j > -1
      invariant -1 <= j < |kept|
      invariant LastWord(kept, |kept|) == LastWord(kept, j + 1)
      invariant word == 0
    {
      if !Contains(kept[j], ".log") {
        word := j;
        break;
      }
      j := j - 1;
    }
  }

  /** FormatLogPath: `home` is $HOME and `wd` the working directory, None when it
      cannot be read. The two loops are methods of their own; the index the
      second one finds bounds the elements that are joined. */
  method FormatLogPath(raw: string, home: string, wd: Option<string>) returns (r: Run<string>)
    ensures r == LogPathAsWritten(raw, home, wd)
  {
    var path := Normalised(raw, home, wd);
    var kept := KeepComponents(Split(path, '/'));
    var word := FindLastWord(kept);
    if |kept| <= 1 && kept[0] == "" {
      r := Returns(DefaultLogDirectory(home));
    } else {
      var joined := ExpandTilde(Join(kept[..word + 1], "/"), home);
      if joined == "" {
        r := Panics;
      } else if joined[0] != '/' {
        r := Returns("./" + joined);
      } else {
        r := Returns(joined);
      }
    }
  }
}
