/** The file handler: the desired-package map with lower-case keys, the
    package installation loop, the lazily filled script-path cache and the
    directory filter the pipeline uses to find `.pkg`, `.dmg`, `.app` and `.sh`
    files. */
module FileHandling {

  import opened Wrappers
  import opened Text
  import opened Commands
  import opened Packages

  /** What InstallPackages did for one package. */
  datatype InstallStatus =
    | AlreadyPresent    // a marker was found in the search directories
    | InstallSucceeded  // the installer ran and exited with status zero
    | InstallFailed     // the installer ran and failed
    | NoInstaller       // no installer path matched the package

  /** The installer outcome for a package that is not yet installed. */
  function InstallResult(pkg: string, paths: seq<string>, shell: Shell): InstallStatus
  {
    match FirstMatch(paths, pkg)
    case None => NoInstaller
    case Some(i) => if shell(Installer(paths[i])).ok then InstallSucceeded else InstallFailed
  }

  /** The outcome InstallPackages reaches for one package. */
  function StatusOf(markers: seq<string>, pkg: string, paths: seq<string>, search: seq<string>,
                    shell: Shell): InstallStatus
  {
    if Installed(markers, search) then AlreadyPresent else InstallResult(pkg, paths, shell)
  }

  /** The commands InstallPackages runs for one package: at most one installer,
      on the first path naming the package; none when it is already present. */
  function Attempt(markers: seq<string>, pkg: string, paths: seq<string>, search: seq<string>)
    : (r: seq<Command>)
    ensures |r| <= 1
    ensures r != [] ==> !Installed(markers, search)
    ensures r != [] ==> exists i :: (0 <= i < |paths| && PathMatches(paths[i], pkg)
      && r[0] == Installer(paths[i]) && forall j :: 0 <= j < i ==> !PathMatches(paths[j], pkg))
  {
    if Installed(markers, search) then []
    else match FirstMatch(paths, pkg)
      case None => []
      case Some(i) => [Installer(paths[i])]
  }

  /** The commands run for the packages in the order they were visited. */
  function Attempts(m: PackageMap, order: seq<string>, paths: seq<string>, search: seq<string>)
    : seq<Command>
    requires forall i :: 0 <= i < |order| ==> order[i] in m
  {
    if order == [] then []
    else
      var p := Last(order);
      Attempts(m, order[..|order| - 1], paths, search) + Attempt(m[p], p, paths, search)
  }

  /** One more package visited. */
  lemma AttemptsSnoc(m: PackageMap, order: seq<string>, pkg: string, paths: seq<string>, search: seq<string>)
    requires forall i :: 0 <= i < |order| ==> order[i] in m
    requires pkg in m
    ensures Attempts(m, order + [pkg], paths, search) == Attempts(m, order, paths, search) + Attempt(m[pkg], pkg, paths, search)
  {
    assert (order + [pkg])[..|order|] == order;
  }

  /** At most one installer run per package. */
  lemma {:induction false} AttemptsAtMostOnePerPackage(m: PackageMap, order: seq<string>,
                                                        paths: seq<string>, search: seq<string>)
    requires forall i :: 0 <= i < |order| ==> order[i] in m
    ensures |Attempts(m, order, paths, search)| <= |order|
  {
    if order != [] {
      AttemptsAtMostOnePerPackage(m, order[..|order| - 1], paths, search);
    }
  }

  /** The name a scanned script path is cached under: its lower-case base name. */
  function CacheKey(path: string): string
  {
    Lower(Base(path))
  }

  /** The script-path cache after paths were scanned without a match: each
      under its lower-case base name, later paths overwriting earlier ones. */
  function CacheAfter(cache: map<string, string>, scanned: seq<string>): map<string, string>
  {
    if scanned == [] then cache
    else CacheAfter(cache, scanned[..|scanned| - 1])[CacheKey(Last(scanned)) := Last(scanned)]
  }

  /** The cache gains exactly the base names of the scanned paths. */
  lemma CacheAfterKeys(cache: map<string, string>, scanned: seq<string>)
    ensures CacheAfter(cache, scanned).Keys
         == cache.Keys + set k | 0 <= k < |scanned| :: CacheKey(scanned[k])
  {
    var after := CacheAfter(cache, scanned);
    var keys := set k | 0 <= k < |scanned| :: CacheKey(scanned[k]);
    forall x | x in after && x !in cache
      ensures x in keys
    {
      var k := CacheKeyOrigin(cache, scanned, x);
    }
    forall k | 0 <= k < |scanned|
      ensures CacheKey(scanned[k]) in after
    {
      CacheAfterHas(cache, scanned, k);
    }
    CacheAfterKeeps(cache, scanned);
  }

  /** A key the scan added comes from some scanned path. */
  lemma {:induction false} CacheKeyOrigin(cache: map<string, string>, scanned: seq<string>, x: string) returns (k: int)
    requires x in CacheAfter(cache, scanned) && x !in cache
    ensures 0 <= k < |scanned| && x == CacheKey(scanned[k])
  {
    var front := scanned[..|scanned| - 1];
    if x == CacheKey(Last(scanned)) {
      k := |scanned| - 1;
    } else {
      k := CacheKeyOrigin(cache, front, x);
      assert front[k] == scanned[k];
    }
  }

  /** Every scanned path's key is in the cache afterwards. */
  lemma {:induction false} CacheAfterHas(cache: map<string, string>, scanned: seq<string>, k: int)
    requires 0 <= k < |scanned|
    ensures CacheKey(scanned[k]) in CacheAfter(cache, scanned)
  {
    if k < |scanned| - 1 {
      var front := scanned[..|scanned| - 1];
      CacheAfterHas(cache, front, k);
      assert front[k] == scanned[k];
    }
  }

  /** Scanning only adds keys. */
  lemma {:induction false} CacheAfterKeeps(cache: map<string, string>, scanned: seq<string>)
    ensures cache.Keys <= CacheAfter(cache, scanned).Keys
  {
    if scanned != [] {
      CacheAfterKeeps(cache, scanned[..|scanned| - 1]);
    }
  }

  /** One more path scanned. */
  lemma CacheAfterSnoc(cache: map<string, string>, paths: seq<string>, i: int)
    requires 0 <= i < |paths|
    ensures CacheAfter(cache, paths[..i + 1]) == CacheAfter(cache, paths[..i])[CacheKey(paths[i]) := paths[i]]
  {
    assert paths[..i + 1][..i] == paths[..i];
  }

  /** Every cached path is filed under its own lower-case base name. */
  predicate CacheConsistent(cache: map<string, string>)
  {
    forall n :: n in cache ==> n == CacheKey(cache[n])
  }

  lemma {:induction false} CacheAfterConsistent(cache: map<string, string>, scanned: seq<string>)
    requires CacheConsistent(cache)
    ensures CacheConsistent(CacheAfter(cache, scanned))
  {
    if scanned != [] {
      CacheAfterConsistent(cache, scanned[..|scanned| - 1]);
    }
  }

  /** A path scanned last under its base name is the one cached for it. */
  lemma {:induction false} CacheAfterLastWins(cache: map<string, string>, scanned: seq<string>, i: int)
    requires 0 <= i < |scanned|
    requires forall j :: i < j < |scanned| ==> CacheKey(scanned[j]) != CacheKey(scanned[i])
    ensures CacheKey(scanned[i]) in CacheAfter(cache, scanned)
    ensures CacheAfter(cache, scanned)[CacheKey(scanned[i])] == scanned[i]
  {
    if i < |scanned| - 1 {
      CacheAfterLastWins(cache, scanned[..|scanned| - 1], i);
    }
  }

  /** The name a script is looked up by: trimmed and lower-cased. */
  function ScriptKey(name: string): (r: string)
    ensures IsLower(r)
  {
    var r := TrimSpace(Lower(name));
    LowerIsLower(name);
    TrimSpaceChars(Lower(name));
    assert forall i :: 0 <= i < |r| ==> r[i] in Lower(name);
    r
  }

  /** The key is already lower-case, so matching it ignores case on the path side only. */
  lemma ScriptKeyMatches(path: string, name: string)
    ensures PathMatches(path, ScriptKey(name)) == Contains(Lower(path), ScriptKey(name))
  {
    LowerOfLower(ScriptKey(name));
  }

  /** Paths found under `dir` by the walk whose last "/"-separated piece contains the pattern. */
  function WalkMatches(dir: string, pattern: string, walked: seq<string>): (r: seq<string>)
    ensures |r| <= |walked|
  {
    if walked == [] then []
    else
      var front := WalkMatches(dir, pattern, walked[..|walked| - 1]);
      var full := dir + "/" + Last(walked);
      if Contains(Last(Split(full, '/')), pattern) then front + [full] else front
  }

  /** A path is kept exactly when it is `dir/<walked path>` and its last piece contains the pattern. */
  lemma {:induction false} WalkMatchesIff(dir: string, pattern: string, walked: seq<string>, x: string)
    ensures x in WalkMatches(dir, pattern, walked)
        <==> Contains(Last(Split(x, '/')), pattern)
             && exists k :: 0 <= k < |walked| && x == dir + "/" + walked[k]
  {
    if walked != [] {
      var front := walked[..|walked| - 1];
      WalkMatchesIff(dir, pattern, front, x);
      if exists k :: 0 <= k < |walked| && x == dir + "/" + walked[k] {
        var k :| 0 <= k < |walked| && x == dir + "/" + walked[k];
        if k < |front| {
          assert x == dir + "/" + front[k];
        }
      }
      if exists k :: 0 <= k < |front| && x == dir + "/" + front[k] {
        var k :| 0 <= k < |front| && x == dir + "/" + front[k];
        assert x == dir + "/" + walked[k];
      }
    }
  }

  class FileHandler {
    /** Package name (lower case) to its markers. */
    var packagesToInstall: PackageMap
    /** Lower-case script base name to the path it was found at. */
    var scriptsPathCache: map<string, string>

    ghost predicate Valid()
      reads this
    {
      (forall p :: p in packagesToInstall ==> IsLower(p))
      && CacheConsistent(scriptsPathCache)
    }

    /** NewFileHandler: the configured map with every key lower-cased; when two
        configured names lower to the same key, the one visited last wins. */
    constructor (configured: PackageMap)
      ensures Valid()
      ensures packagesToInstall.Keys == set k | k in configured :: Lower(k)
      ensures forall p :: p in packagesToInstall ==>
        exists k :: k in configured && Lower(k) == p && packagesToInstall[p] == configured[k]
      ensures scriptsPathCache == map[]
    {
      var lowered: PackageMap := map[];
      var pending := configured.Keys;
      while pending != {}
        invariant pending <= configured.Keys
        invariant lowered.Keys == set k | k in configured && k !in pending :: Lower(k)
        invariant forall p :: p in lowered ==>
          exists k :: k in configured && Lower(k) == p && lowered[p] == configured[k]
        decreases pending
      {
        var k :| k in pending;
        lowered := lowered[Lower(k) := configured[k]];
        pending := pending - {k};
      }
      forall p | p in lowered
        ensures IsLower(p)
      {
        var k :| k in configured && Lower(k) == p;
        LowerIsLower(k);
      }
      packagesToInstall := lowered;
      scriptsPathCache := map[];
    }

    /** toLowerArray: lowers every element in place. */
    static method ToLowerArray(arr: array<string>)
      modifies arr
      ensures arr[..] == LowerAll(old(arr[..]))
    {
      for i := 0 to arr.Length
        invariant arr[..i] == LowerAll(old(arr[..]))[..i]
        invariant arr[i..] == old(arr[..])[i..]
      {
        arr[i] := Lower(arr[i]);
        assert arr[i + 1..] == old(arr[..])[i + 1..];
      }
    }

    /** One include token split on "/" and lowered in place: the package and its markers. */
    static method ParseInclude(token: string) returns (pkg: string, installedNames: seq<string>)
      ensures pkg == PkgKey(Lower(token)) && installedNames == PkgMarkers(Lower(token))
      ensures IsLower(pkg)
    {
      var parts := Split(token, '/');
      var arr := new string[|parts|](k requires 0 <= k < |parts| => parts[k]);
      assert arr[..] == parts;
      ToLowerArray(arr);
      LowerSplit(token, '/');
      pkg := arr[0];
      installedNames := [];
      if arr.Length > 1 {
        installedNames := arr[1..];
      }
      LowerIsLower(parts[0]);
    }

    /** AddPackages: every include token, lowered, overwrites its package's entry. */
    method AddPackages(tokens: seq<string>)
      requires Valid()
      modifies this
      ensures Valid()
      ensures packagesToInstall == Added(old(packagesToInstall), LowerAll(tokens))
      ensures scriptsPathCache == old(scriptsPathCache)
    {
      for i := 0 to |tokens|
        invariant Valid()
        invariant packagesToInstall == Added(old(packagesToInstall), LowerAll(tokens)[..i])
        invariant scriptsPathCache == old(scriptsPathCache)
      {
        var pkg, installedNames := ParseInclude(tokens[i]);
        assert LowerAll(tokens)[..i + 1] == LowerAll(tokens)[..i] + [Lower(tokens[i])];
        packagesToInstall := packagesToInstall[pkg := installedNames];
      }
      assert LowerAll(tokens)[..|tokens|] == LowerAll(tokens);
    }

    /** RemovePackages as written: presence is checked with the lowered name but
        the name as given is deleted. */
    method RemovePackagesAsWritten(names: seq<string>)
      requires Valid()
      modifies this
      ensures Valid()
      ensures packagesToInstall == RemovedAsWritten(old(packagesToInstall), names)
      ensures scriptsPathCache == old(scriptsPathCache)
    {
      for i := 0 to |names|
        invariant Valid()
        invariant packagesToInstall == RemovedAsWritten(old(packagesToInstall), names[..i])
        invariant scriptsPathCache == old(scriptsPathCache)
      {
        assert names[..i + 1][..i] == names[..i];
        if Lower(names[i]) in packagesToInstall {
          packagesToInstall := packagesToInstall - {names[i]};
        }
      }
      assert names[..|names|] == names;
    }

    /** RemovePackages as intended: the lowered name is both checked and deleted. */
    method RemovePackages(names: seq<string>)
      requires Valid()
      modifies this
      ensures Valid()
      ensures packagesToInstall == Removed(old(packagesToInstall), LowerAll(names))
      ensures scriptsPathCache == old(scriptsPathCache)
    {
      for i := 0 to |names|
        invariant Valid()
        invariant packagesToInstall == Removed(old(packagesToInstall), LowerAll(names)[..i])
        invariant scriptsPathCache == old(scriptsPathCache)
      {
        var low := Lower(names[i]);
        assert LowerAll(names)[..i + 1] == LowerAll(names)[..i] + [low];
        if low in packagesToInstall {
          packagesToInstall := packagesToInstall - {low};
        } else {
          assert packagesToInstall - {low} == packagesToInstall;
        }
      }
      assert LowerAll(names)[..|names|] == LowerAll(names);
    }

    /** ReadDir: the walked paths, prefixed by the directory, whose last piece
        contains the pattern; a walk error is returned instead. */
    static method ReadDir(dir: string, pattern: string, walk: Result<seq<string>>)
      returns (r: Result<seq<string>>)
      ensures walk.Failure? ==> r == Failure(walk.msg)
      ensures walk.Ok? ==> r == Ok(WalkMatches(dir, pattern, walk.value))
    {
      if walk.Failure? {
        return Failure(walk.msg);
      }
      var walked := walk.value;
      var files: seq<string> := [];
      for i := 0 to |walked|
        invariant files == WalkMatches(dir, pattern, walked[..i])
      {
        var fullPath := dir + "/" + walked[i];
        var pieces := Split(fullPath, '/');
        var basename := pieces[|pieces| - 1];
        if Contains(basename, pattern) {
          files := files + [fullPath];
        }
        assert walked[..i + 1][..i] == walked[..i];
      }
      assert walked[..|walked|] == walked;
      return Ok(files);
    }

    /** The inner loop of InstallPackages: the first matching path is installed,
        and success or failure both end the search. */
    static method InstallOne(pkg: string, paths: seq<string>, shell: Shell)
      returns (status: InstallStatus, ran: seq<Command>)
      ensures status == InstallResult(pkg, paths, shell)
      ensures ran == (match FirstMatch(paths, pkg)
                      case None => []
                      case Some(i) => [Installer(paths[i])])
    {
      var successfulInstall := false;
      var failedInstall := false;
      var pkgLowered := Lower(pkg);
      ran := [];
      for i := 0 to |paths|
        invariant !successfulInstall && !failedInstall && ran == []
        invariant forall j :: 0 <= j < i ==> !PathMatches(paths[j], pkg)
      {
        if Contains(Lower(paths[i]), pkgLowered) {
          var cmd := Installer(paths[i]);
          ran := [cmd];
          if !shell(cmd).ok {
            failedInstall := true;
            break;
          }
          successfulInstall := true;
          break;
        }
      }
      if successfulInstall {
        status := InstallSucceeded;
      } else if failedInstall {
        status := InstallFailed;
      } else {
        status := NoInstaller;
      }
    }

    /** InstallPackages: every package is visited once, in map order; the
        commands run are `Attempts` of that order, which do not depend on any
        command's outcome, so one failed install never affects another package. */
    method InstallPackages(paths: seq<string>, search: seq<string>, shell: Shell)
      returns (order: seq<string>, status: map<string, InstallStatus>, ran: seq<Command>)
      ensures forall p :: p in order <==> p in packagesToInstall
      ensures forall i, j :: 0 <= i < j < |order| ==> order[i] != order[j]
      ensures status.Keys == packagesToInstall.Keys
      ensures forall p :: p in status ==>
        status[p] == StatusOf(packagesToInstall[p], p, paths, search, shell)
      ensures ran == Attempts(packagesToInstall, order, paths, search)
    {
      var pending := packagesToInstall.Keys;
      order, status, ran := [], map[], [];
      while pending != {}
        invariant pending <= packagesToInstall.Keys
        invariant forall p :: p in order <==> p in packagesToInstall && p !in pending
        invariant forall i, j :: 0 <= i < j < |order| ==> order[i] != order[j]
        invariant status.Keys == packagesToInstall.Keys - pending
        invariant forall p :: p in status ==>
          status[p] == StatusOf(packagesToInstall[p], p, paths, search, shell)
        invariant ran == Attempts(packagesToInstall, order, paths, search)
        decreases pending
      {
        var pkg :| pkg in pending;
        var st, cmds := VisitPackage(pkg, paths, search, shell);
        AttemptsSnoc(packagesToInstall, order, pkg, paths, search);
        order := order + [pkg];
        status := status[pkg := st];
        ran := ran + cmds;
        pending := pending - {pkg};
      }
    }

    /** One package of InstallPackages: skipped when already present, else installed. */
    method VisitPackage(pkg: string, paths: seq<string>, search: seq<string>, shell: Shell)
      returns (st: InstallStatus, cmds: seq<Command>)
      requires pkg in packagesToInstall
      ensures st == StatusOf(packagesToInstall[pkg], pkg, paths, search, shell)
      ensures cmds == Attempt(packagesToInstall[pkg], pkg, paths, search)
    {
      var installedNames := packagesToInstall[pkg];
      var isInstalled := IsInstalled(installedNames, search);
      if isInstalled {
        st, cmds := AlreadyPresent, [];
      } else {
        st, cmds := InstallOne(pkg, paths, shell);
      }
    }

    /** execute: runs the script and trims its output. */
    static method Execute(path: string, shell: Shell) returns (out: string, err: Error)
      ensures out == TrimSpace(shell(Bash(path)).output)
      ensures err == ErrorOf(shell(Bash(path)))
    {
      var outcome := shell(Bash(path));
      out := TrimSpace(outcome.output);
      err := ErrorOf(outcome);
    }

    /** One script run as ExecuteScript reports it: the trimmed output of `execute`, trimmed again. */
    static method RunScript(path: string, shell: Shell) returns (out: string, err: Error)
      ensures out == TrimSpace(shell(Bash(path)).output)
      ensures err == ErrorOf(shell(Bash(path)))
    {
      var outMsg;
      outMsg, err := Execute(path, shell);
      TrimSpaceOfTrimmed(outMsg);
      out := TrimSpace(outMsg);
    }

    /** The scan of ExecuteScript after a cache miss: runs the first path
        containing the key, caching every path passed over on the way. */
    method ScanScripts(key: string, paths: seq<string>, shell: Shell)
      returns (out: string, err: Error, ran: seq<Command>)
      requires Valid()
      modifies this
      ensures Valid()
      ensures packagesToInstall == old(packagesToInstall)
      ensures FirstMatch(paths, key).Some? ==>
        scriptsPathCache == CacheAfter(old(scriptsPathCache), paths[..FirstMatch(paths, key).value])
        && ran == [Bash(paths[FirstMatch(paths, key).value])]
      ensures FirstMatch(paths, key).None? ==>
        scriptsPathCache == CacheAfter(old(scriptsPathCache), paths)
        && ran == [] && out == "" && err == Err("failed to find script")
      ensures ran != [] ==> out == TrimSpace(shell(ran[0]).output) && err == ErrorOf(shell(ran[0]))
    {
      var i := 0;
      while i < |paths| && !PathMatches(paths[i], key)
        invariant 0 <= i <= |paths|
        invariant packagesToInstall == old(packagesToInstall)
        invariant scriptsPathCache == CacheAfter(old(scriptsPathCache), paths[..i])
        invariant forall j :: 0 <= j < i ==> !PathMatches(paths[j], key)
      {
        var filename := Lower(Base(paths[i]));
        CacheAfterSnoc(old(scriptsPathCache), paths, i);
        scriptsPathCache := scriptsPathCache[filename := paths[i]];
        i := i + 1;
      }
      CacheAfterConsistent(old(scriptsPathCache), paths[..i]);
      if i < |paths| {
        FirstMatchAt(paths, key, i);
        out, err := RunScript(paths[i], shell);
        ran := [Bash(paths[i])];
      } else {
        FirstMatchAbsent(paths, key);
        assert paths[..i] == paths;
        out, err, ran := "", Err("failed to find script"), [];
      }
    }

    /** ExecuteScript: a cache hit runs the cached path without scanning;
        otherwise the first path containing the key runs, after every path
        scanned before it has been cached under its lower-case base name. */
    method ExecuteScript(name: string, paths: seq<string>, shell: Shell)
      returns (out: string, err: Error, ran: seq<Command>)
      requires Valid()
      modifies this
      ensures Valid()
      ensures packagesToInstall == old(packagesToInstall)
      ensures ScriptKey(name) in old(scriptsPathCache) ==>
        scriptsPathCache == old(scriptsPathCache)
        && ran == [Bash(old(scriptsPathCache)[ScriptKey(name)])]
      ensures ScriptKey(name) !in old(scriptsPathCache) && FirstMatch(paths, ScriptKey(name)).Some? ==>
        var i := FirstMatch(paths, ScriptKey(name)).value;
        scriptsPathCache == CacheAfter(old(scriptsPathCache), paths[..i]) && ran == [Bash(paths[i])]
      ensures ScriptKey(name) !in old(scriptsPathCache) && FirstMatch(paths, ScriptKey(name)).None? ==>
        scriptsPathCache == CacheAfter(old(scriptsPathCache), paths)
        && ran == [] && out == "" && err == Err("failed to find script")
      ensures ran != [] ==> out == TrimSpace(shell(ran[0]).output) && err == ErrorOf(shell(ran[0]))
    {
      var key := TrimSpace(Lower(name));
      assert key == ScriptKey(name);
      if key in scriptsPathCache {
        var scriptPath := scriptsPathCache[key];
        out, err := RunScript(scriptPath, shell);
        ran := [Bash(scriptPath)];
        return;
      }
      out, err, ran := ScanScripts(key, paths, shell);
    }
  }

  // ---------------------------------------------------------------- exclude as written

  /** The package map after RemovePackages as written. */
  function RemovedAsWritten(m: PackageMap, names: seq<string>): (r: PackageMap)
    ensures r.Keys <= m.Keys
    ensures forall x :: x in r ==> r[x] == m[x]
  {
    if names == [] then m
    else
      var r := RemovedAsWritten(m, names[..|names| - 1]);
      if Lower(Last(names)) in r then r - {Last(names)} else r
  }

  /** With lower-case keys, an exclude name that is not already lower case
      removes nothing: the presence check finds the key, the deletion misses it. */
  lemma {:induction false} ExcludeAsWrittenKeepsMixedCase(m: PackageMap, names: seq<string>)
    requires forall p :: p in m ==> IsLower(p)
    requires forall k :: 0 <= k < |names| ==> !IsLower(names[k])
    ensures RemovedAsWritten(m, names) == m
  {
    if names != [] {
      ExcludeAsWrittenKeepsMixedCase(m, names[..|names| - 1]);
      assert Last(names) !in m;
      assert m - {Last(names)} == m;
    }
  }

  /** The package of the test suite, excluded by the name it was included with. */
  lemma ExcludeAsWrittenExample()
    ensures RemovedAsWritten(map["teamviewer.pkg" := ["teamviewer"]], ["TeamViewer.pkg"])
         == map["teamviewer.pkg" := ["teamviewer"]]
    ensures Removed(map["teamviewer.pkg" := ["teamviewer"]], LowerAll(["TeamViewer.pkg"])) == map[]
  {
    var m := map["teamviewer.pkg" := ["teamviewer"]];
    assert IsLower("teamviewer.pkg");
    assert IsUpper("TeamViewer.pkg"[0]);
    ExcludeAsWrittenKeepsMixedCase(m, ["TeamViewer.pkg"]);
    assert Lower("TeamViewer.pkg") == "teamviewer.pkg";
    assert LowerAll(["TeamViewer.pkg"]) == ["teamviewer.pkg"];
    assert Removed(m, ["teamviewer.pkg"]).Keys == {};
  }

  /** Over lower-case keys the exclusion as written is an exact, case-sensitive
      removal: the lowered lookup finds a key only when the name is that key. */
  lemma {:induction false} RemovedAsWrittenIsExact(m: PackageMap, names: seq<string>)
    requires forall p :: p in m ==> IsLower(p)
    ensures RemovedAsWritten(m, names) == Removed(m, names)
  {
    if names != [] {
      var front := names[..|names| - 1];
      RemovedAsWrittenIsExact(m, front);
      var r := Removed(m, front);
      if Last(names) in r {
        LowerOfLower(Last(names));
      } else {
        assert r - {Last(names)} == r;
      }
    }
  }

  /** Including lowered tokens keeps every key lower case. */
  lemma AddedLowerKeys(m: PackageMap, tokens: seq<string>)
    requires forall p :: p in m ==> IsLower(p)
    ensures forall p :: p in Added(m, LowerAll(tokens)) ==> IsLower(p)
  {
    forall j | 0 <= j < |tokens|
      ensures IsLower(PkgKey(LowerAll(tokens)[j]))
    {
      LowerSplit(tokens[j], '/');
      LowerIsLower(PkgKey(tokens[j]));
    }
  }

  /** After the intended exclude, no lowered exclude name is a package key. */
  lemma ExcludeRemovesLowered(m: PackageMap, names: seq<string>, k: int)
    requires 0 <= k < |names|
    ensures Lower(names[k]) !in Removed(m, LowerAll(names))
  {
    assert LowerAll(names)[k] == Lower(names[k]);
  }

  /** Include then exclude: an excluded package is gone whatever was included. */
  lemma ExcludeWins(m: PackageMap, includes: seq<string>, excludes: seq<string>, k: int)
    requires 0 <= k < |excludes|
    ensures Lower(excludes[k]) !in Removed(Added(m, LowerAll(includes)), LowerAll(excludes))
  {
    ExcludeRemovesLowered(Added(m, LowerAll(includes)), excludes, k);
  }

  /** An include token sets its lowered name to its lowered markers, unless a
      later token names the same package. */
  lemma IncludeSetsLowered(m: PackageMap, tokens: seq<string>, i: int)
    requires 0 <= i < |tokens|
    requires forall j :: i < j < |tokens| ==> Lower(PkgKey(tokens[j])) != Lower(PkgKey(tokens[i]))
    ensures Lower(PkgKey(tokens[i])) in Added(m, LowerAll(tokens))
    ensures Added(m, LowerAll(tokens))[Lower(PkgKey(tokens[i]))] == LowerAll(PkgMarkers(tokens[i]))
  {
    forall j | 0 <= j < |tokens|
      ensures PkgKey(LowerAll(tokens)[j]) == Lower(PkgKey(tokens[j]))
      ensures PkgMarkers(LowerAll(tokens)[j]) == LowerAll(PkgMarkers(tokens[j]))
    {
      LowerSplit(tokens[j], '/');
    }
    AddedLastWins(m, LowerAll(tokens), i);
  }
}
