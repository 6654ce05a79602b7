/** Helpers shared by the deployment stages: the macOS account name rule,
    the file-map key rule, the serial-number parse and the clean-up of the
    working directory. */
module Utils {

  import opened Wrappers
  import opened Text
  import opened Commands

  /** The directory name the packages are copied into (`Globals.PKGDirName`). */
  const PkgDirName: string := "pkg-files"

  // ---------------------------------------------------------------- FormatFullName

  /** The characters FormatFullName drops. */
  predicate IsInvalidNameChar(c: char)
  {
    c == '/' || c == ';' || c == ',' || c == '\\' || c == '=' || c == '%' || c == '\n'
  }

  /** The characters the FormatFullName loop keeps from `s`, given whether the
      last kept character was a space (true at the start): invalid characters
      are skipped without touching the flag, and a space right after a kept
      space (or at the start) is skipped. */
  function KeptChars(s: string, spaceFound: bool): string
  {
    if s == [] then []
    else if IsInvalidNameChar(s[0]) then KeptChars(s[1..], spaceFound)
    else if s[0] == ' ' then
      if spaceFound then KeptChars(s[1..], true) else [' '] + KeptChars(s[1..], true)
    else [s[0]] + KeptChars(s[1..], false)
  }

  /** The FormatFullName loop, over the lowered and trimmed name. */
  method KeepNameChars(newName: string) returns (kept: string)
    ensures kept == KeptChars(newName, true)
  {
    kept := [];
    var spaceFound := true;
    for i := 0 to |newName|
      invariant kept + KeptChars(newName[i..], spaceFound) == KeptChars(newName, true)
    {
      assert newName[i..][1..] == newName[i + 1..];
      var c := newName[i];
      if IsInvalidNameChar(c) {
        continue;
      }
      if c == ' ' {
        if !spaceFound {
          spaceFound := true;
        } else {
          continue;
        }
      } else if spaceFound {
        spaceFound := false;
      }
      kept := kept + [c];
    }
  }

  /** FormatFullName: the account's internal name. */
  method FormatFullName(value: string) returns (r: string)
    ensures r == ReplaceChar(KeptChars(TrimSpace(Lower(value)), true), ' ', '.')
  {
    var newName := Lower(value);
    newName := TrimSpace(newName);
    var kept := KeepNameChars(newName);
    r := ReplaceChar(kept, ' ', '.');
  }

  /** The same name as a function, for the stages that only reason about it. */
  function FullName(value: string): string
  {
    ReplaceChar(KeptChars(TrimSpace(Lower(value)), true), ' ', '.')
  }

  /** Every kept character comes from the input and is not an invalid one. */
  lemma {:induction false} KeptCharsFrom(s: string, spaceFound: bool)
    ensures forall c :: c in KeptChars(s, spaceFound) ==> c in s && !IsInvalidNameChar(c)
  {
    if s != [] {
      KeptCharsFrom(s[1..], if IsInvalidNameChar(s[0]) then spaceFound else s[0] == ' ');
    }
  }

  /** No two kept spaces are adjacent, and none leads when the flag starts set. */
  lemma {:induction false} KeptCharsSpaces(s: string, spaceFound: bool)
    ensures spaceFound && |KeptChars(s, spaceFound)| > 0 ==> KeptChars(s, spaceFound)[0] != ' '
    ensures forall i :: 0 <= i < |KeptChars(s, spaceFound)| - 1 && KeptChars(s, spaceFound)[i] == ' ' ==>
      KeptChars(s, spaceFound)[i + 1] != ' '
  {
    if s != [] {
      var next := if IsInvalidNameChar(s[0]) then spaceFound else s[0] == ' ';
      KeptCharsSpaces(s[1..], next);
    }
  }

  /** The account name is lower case and holds no space, no invalid character
      and no two dots where the input had a run of spaces. */
  lemma FullNameShape(value: string)
    ensures IsLower(FullName(value))
    ensures ' ' !in FullName(value)
    ensures forall c :: c in FullName(value) ==> !IsInvalidNameChar(c)
  {
    var t := TrimSpace(Lower(value));
    LowerIsLower(value);
    TrimSpaceChars(Lower(value));
    var k := KeptChars(t, true);
    KeptCharsFrom(t, true);
    var r := FullName(value);
    forall i | 0 <= i < |r|
      ensures !IsUpper(r[i]) && r[i] != ' ' && !IsInvalidNameChar(r[i])
    {
      if k[i] != ' ' {
        assert k[i] in k;
        assert k[i] in Lower(value);
      }
    }
  }

  /** A run of spaces becomes one dot: no dot of FullName that came from a
      space is followed by another such dot, and none leads. */
  lemma FullNameSpaceRuns(value: string)
    ensures var k := KeptChars(TrimSpace(Lower(value)), true);
      (|k| > 0 ==> k[0] != ' ') && forall i :: 0 <= i < |k| - 1 && k[i] == ' ' ==> k[i + 1] != ' '
  {
    KeptCharsSpaces(TrimSpace(Lower(value)), true);
  }

  /** Lowering keeps letters letters. */
  lemma LowerLetters(s: string)
    requires forall i :: 0 <= i < |s| ==> IsLetter(s[i])
    ensures forall i :: 0 <= i < |Lower(s)| ==> IsLetter(Lower(s)[i])
  {
  }

  /** Spaces have no upper-case letter to lower. */
  lemma LowerSpaces(s: string)
    requires forall i :: 0 <= i < |s| ==> s[i] == ' '
    ensures Lower(s) == s
  {
  }

  /** The kept characters of two words with a gap: the words and one space. */
  lemma KeptTwoWords(first: string, gap: string, last: string)
    requires |gap| > 0 && forall i :: 0 <= i < |gap| ==> gap[i] == ' '
    requires |first| > 0 && forall i :: 0 <= i < |first| ==> IsLetter(first[i])
    requires |last| > 0 && forall i :: 0 <= i < |last| ==> IsLetter(last[i])
    ensures KeptChars(first + gap + last, true) == first + " " + last
  {
    assert first + gap + last == first + (gap + last);
    KeptPlain(first, gap + last, true);
    KeptSpaceRun(gap, last);
    assert last == last + "";
    KeptPlain(last, "", true);
  }

  /** Replacing the one space of two words by a dot. */
  lemma DotTwoWords(first: string, last: string)
    requires forall i :: 0 <= i < |first| ==> IsLetter(first[i])
    requires forall i :: 0 <= i < |last| ==> IsLetter(last[i])
    ensures ReplaceChar(first + " " + last, ' ', '.') == first + "." + last
  {
    var r := ReplaceChar(first + " " + last, ' ', '.');
    assert forall i :: 0 <= i < |r| ==> r[i] == (first + "." + last)[i];
  }

  /** Two words with spaces around and between them: the lowered words joined by one dot. */
  lemma FullNameTwoWords(before: string, first: string, gap: string, last: string, after: string)
    requires forall i :: 0 <= i < |before| ==> before[i] == ' '
    requires forall i :: 0 <= i < |after| ==> after[i] == ' '
    requires |gap| > 0 && forall i :: 0 <= i < |gap| ==> gap[i] == ' '
    requires |first| > 0 && forall i :: 0 <= i < |first| ==> IsLetter(first[i])
    requires |last| > 0 && forall i :: 0 <= i < |last| ==> IsLetter(last[i])
    ensures FullName(before + first + gap + last + after) == Lower(first) + "." + Lower(last)
  {
    var lf, ll := Lower(first), Lower(last);
    LowerLetters(first);
    LowerLetters(last);
    LowerSpaces(before);
    LowerSpaces(gap);
    LowerSpaces(after);
    LowerConcat(before + first + gap + last, after);
    LowerConcat(before + first + gap, last);
    LowerConcat(before + first, gap);
    LowerConcat(before, first);
    var core := lf + gap + ll;
    assert Lower(before + first + gap + last + after) == before + core + after;
    TrimSpaceAround(before, core, after);
    KeptTwoWords(lf, gap, ll);
    DotTwoWords(lf, ll);
  }

  /** A stretch of ordinary characters is kept whole and clears the flag. */
  lemma {:induction false} KeptPlain(a: string, b: string, spaceFound: bool)
    requires |a| > 0
    requires forall i :: 0 <= i < |a| ==> IsLetter(a[i])
    ensures KeptChars(a + b, spaceFound) == a + KeptChars(b, false)
  {
    assert (a + b)[0] == a[0];
    assert (a + b)[1..] == a[1..] + b;
    if |a| > 1 {
      KeptPlain(a[1..], b, false);
    }
  }

  /** A run of spaces after a kept character leaves one space. */
  lemma KeptSpaceRun(sp: string, b: string)
    requires |sp| > 0
    requires forall i :: 0 <= i < |sp| ==> sp[i] == ' '
    ensures KeptChars(sp + b, false) == " " + KeptChars(b, true)
  {
    assert (sp + b)[0] == ' ';
    assert (sp + b)[1..] == sp[1..] + b;
    KeptSkipsSpaces(sp[1..], b);
  }

  lemma {:induction false} KeptSkipsSpaces(sp: string, b: string)
    requires forall i :: 0 <= i < |sp| ==> sp[i] == ' '
    ensures KeptChars(sp + b, true) == KeptChars(b, true)
  {
    if sp != [] {
      assert (sp + b)[0] == ' ';
      assert (sp + b)[1..] == sp[1..] + b;
      KeptSkipsSpaces(sp[1..], b);
    } else {
      assert sp + b == b;
    }
  }

  // ---------------------------------------------------------------- GetFileMap

  /** The key GetFileMap files an entry under: its lowered name minus its extension. */
  function FileKey(name: string): (r: string)
    ensures IsLower(r)
    ensures Lower(name) == r + Ext(Lower(name))
  {
    LowerIsLower(name);
    var fileName := Lower(name);
    var ext := Ext(fileName);
    if ext != "" then fileName[..|fileName| - |ext|] else fileName
  }

  /** GetFileMap over a directory listing (the listing, or the read error). */
  method GetFileMap(dirEntries: Result<seq<string>>) returns (r: Result<map<string, bool>>)
    ensures dirEntries.Failure? ==> r == Failure(dirEntries.msg)
    ensures dirEntries.Ok? ==> r.Ok?
    ensures dirEntries.Ok? && r.Ok? ==>
      r.value.Keys == (set k | 0 <= k < |dirEntries.value| :: FileKey(dirEntries.value[k]))
    ensures dirEntries.Ok? && r.Ok? ==> forall key :: key in r.value ==> r.value[key]
  {
    if dirEntries.Failure? {
      return Failure(dirEntries.msg);
    }
    var files := dirEntries.value;
    var pathContent: map<string, bool> := map[];
    for i := 0 to |files|
      invariant pathContent.Keys == set k | 0 <= k < i :: FileKey(files[k])
      invariant forall key :: key in pathContent ==> pathContent[key]
    {
      pathContent := pathContent[FileKey(files[i]) := true];
    }
    return Ok(pathContent);
  }

  /** A key with no extension left is a file name lowered: "Chrome.app" and
      "chrome" share the key "chrome". */
  lemma FileKeyExample()
    ensures FileKey("Chrome.app") == "chrome"
    ensures FileKey("chrome") == "chrome"
  {
    assert Lower("Chrome.app") == "chrome" + ".app";
    ExtOfSuffix("chrome", ".app");
    assert Lower("chrome") == "chrome";
    ExtWithoutDot("chrome");
  }

  /** A final dotted suffix with no further dot or slash is the extension. */
  lemma {:induction false} ExtOfSuffix(base: string, ext: string)
    requires |ext| > 0 && ext[0] == '.' && '/' !in ext && '.' !in ext[1..]
    ensures Ext(base + ext) == ext
  {
    var p := base + ext;
    if |ext| > 1 {
      assert p[..|p| - 1] == base + ext[..|ext| - 1];
      assert ext[..|ext| - 1][1..] == ext[1..][..|ext| - 2];
      ExtOfSuffix(base, ext[..|ext| - 1]);
      assert ext == ext[..|ext| - 1] + [p[|p| - 1]];
    }
  }

  /** A name without a dot has no extension. */
  lemma {:induction false} ExtWithoutDot(s: string)
    requires '.' !in s
    ensures Ext(s) == ""
  {
    if s != [] {
      ExtWithoutDot(s[..|s| - 1]);
    }
  }

  // ---------------------------------------------------------------- GetSerialTag

  const SerialCommand: Command := Bash("ioreg -l | grep IOPlatformSerialNumber")

  /** GetSerialTag: the second-to-last field of the ioreg line split on double
      quotes; Go panics when the output holds no double quote. */
  function GetSerialTag(shell: Shell): (r: Run<Result<string>>)
    ensures r.Panics? <==> shell(SerialCommand).ok && '"' !in shell(SerialCommand).output
    ensures r == Returns(Failure("cannot find serial tag of the device")) <==> !shell(SerialCommand).ok
    ensures r.Returns? && r.value.Ok? ==> '"' !in r.value.value
  {
    var o := shell(SerialCommand);
    if !o.ok then Returns(Failure("cannot find serial tag of the device"))
    else
      var arr := Split(o.output, '"');
      CountZero(o.output, '"');
      if |arr| < 2 then Panics else Returns(Ok(arr[|arr| - 2]))
  }

  /** The serial number is the text inside the last pair of quotes. */
  lemma SerialTagOfLine(prefix: string, serial: string, suffix: string, shell: Shell)
    requires '"' !in prefix && '"' !in serial && '"' !in suffix
    requires shell(SerialCommand).ok
    requires shell(SerialCommand).output == prefix + "\"" + serial + "\"" + suffix
    ensures GetSerialTag(shell) == Returns(Ok(serial))
  {
    var o := shell(SerialCommand).output;
    assert o == prefix + ['"'] + (serial + ['"'] + suffix);
    SplitAtSeparator(prefix, '"', serial + ['"'] + suffix);
    SplitAtSeparator(serial, '"', suffix);
    SplitNoSeparator(suffix, '"');
  }

  // ---------------------------------------------------------------- RemoveFiles

  datatype DirEntry = DirEntry(name: string, isDir: bool)

  /** Whether RemoveFiles deletes this entry: its lowered name is selected, and
      a directory only when it is the package directory. */
  predicate Deletes(filesToRemove: set<string>, file: DirEntry)
  {
    Lower(file.name) in filesToRemove && (!file.isDir || Lower(file.name) == PkgDirName)
  }

  /** The names RemoveFiles deletes from a listing, in listing order. */
  function Deletions(filesToRemove: set<string>, files: seq<DirEntry>): (r: seq<string>)
    ensures |r| <= |files|
  {
    if files == [] then []
    else
      Deletions(filesToRemove, files[..|files| - 1])
      + if Deletes(filesToRemove, Last(files)) then [Lower(Last(files).name)] else []
  }

  /** Every deletion is of a selected name, and of a directory only when it is
      the package directory. */
  lemma {:induction false} DeletionsSelected(filesToRemove: set<string>, files: seq<DirEntry>)
    ensures forall n :: n in Deletions(filesToRemove, files) ==>
      n in filesToRemove && exists k :: 0 <= k < |files| && Lower(files[k].name) == n && Deletes(filesToRemove, files[k])
  {
    if files != [] {
      var front := files[..|files| - 1];
      DeletionsSelected(filesToRemove, front);
      forall n | n in Deletions(filesToRemove, files)
        ensures exists k :: 0 <= k < |files| && Lower(files[k].name) == n && Deletes(filesToRemove, files[k])
      {
        if n in Deletions(filesToRemove, front) {
          var k :| 0 <= k < |front| && Lower(front[k].name) == n && Deletes(filesToRemove, front[k]);
          assert files[k] == front[k];
        } else {
          assert files[|files| - 1] == Last(files);
        }
      }
    }
  }

  /** Every entry RemoveFiles selects is deleted under its lowered name. */
  lemma {:induction false} DeletionsComplete(filesToRemove: set<string>, files: seq<DirEntry>, k: int)
    requires 0 <= k < |files| && Deletes(filesToRemove, files[k])
    ensures Lower(files[k].name) in Deletions(filesToRemove, files)
  {
    var front := files[..|files| - 1];
    if k < |front| {
      assert front[k] == files[k];
      DeletionsComplete(filesToRemove, front, k);
    }
  }

  /** RemoveFiles: refuses to run inside the project directory; otherwise
      deletes the selected entries of the working directory, skipping the ones
      whose deletion fails. `currDir` and `files` are `os.Getwd` and
      `os.ReadDir`, `removeOk` whether deleting a name succeeds; `attempted`
      are the names a deletion was tried on and `removed` those it succeeded on. */
  method RemoveFiles(filesToRemove: set<string>, projectPath: string, currDir: Result<string>,
                     files: Result<seq<DirEntry>>, removeOk: string -> bool)
    returns (err: Error, attempted: seq<string>, removed: seq<string>)
    ensures currDir.Failure? ==> err == Err(currDir.msg) && attempted == []
    ensures currDir.Ok? && Contains(currDir.value, projectPath) ==>
      err == Err("project directory is forbidden, clean up aborted") && attempted == []
    ensures currDir.Ok? && !Contains(currDir.value, projectPath) && files.Failure? ==>
      err == Err(files.msg) && attempted == []
    ensures currDir.Ok? && !Contains(currDir.value, projectPath) && files.Ok? ==>
      err == Nil && attempted == Deletions(filesToRemove, files.value)
    ensures forall n :: n in removed <==> n in attempted && removeOk(n)
  {
    attempted, removed := [], [];
    if currDir.Failure? {
      return Err(currDir.msg), attempted, removed;
    }
    if Contains(currDir.value, projectPath) {
      return Err("project directory is forbidden, clean up aborted"), attempted, removed;
    }
    if files.Failure? {
      return Err(files.msg), attempted, removed;
    }
    var entries := files.value;
    for i := 0 to |entries|
      invariant attempted == Deletions(filesToRemove, entries[..i])
      invariant forall n :: n in removed <==> n in attempted && removeOk(n)
    {
      assert entries[..i + 1][..i] == entries[..i];
      assert Last(entries[..i + 1]) == entries[i];
      var fileName := Lower(entries[i].name);
      if fileName in filesToRemove {
        if entries[i].isDir {
          if PkgDirName == fileName {
            attempted := attempted + [fileName];
            if !removeOk(fileName) {
              continue;
            }
            removed := removed + [fileName];
          }
        } else {
          attempted := attempted + [fileName];
          if !removeOk(fileName) {
            continue;
          }
          removed := removed + [fileName];
        }
      }
    }
    assert entries[..|entries|] == entries;
    return Nil, attempted, removed;
  }
}
