/** The desired-package map and the rules the installer runs on it: parsing of
    `name/marker/...` include tokens, include and exclude, the fuzzy
    "already installed" check, first-match selection of installer paths and
    the Rosetta decision. The free functions of the package helper work on a
    map passed in by the caller; the file handler keeps the same map as a field. */
module Packages {

  import opened Wrappers
  import opened Text
  import opened Commands

  /** Package name to the names its installation leaves in the search
      directories (the "markers" the already-installed check looks for). */
  type PackageMap = map<string, seq<string>>

  // ---------------------------------------------------------------- include tokens

  /** The package named by an include token: the text before its first "/". */
  function PkgKey(token: string): (r: string)
    ensures '/' !in r
    ensures IsPrefix(r, token)
  {
    SplitFirstIsPrefix(token, '/');
    Split(token, '/')[0]
  }

  /** The markers of an include token: the pieces after its first "/". */
  function PkgMarkers(token: string): (r: seq<string>)
    ensures |r| == Count(token, '/')
    ensures forall k :: 0 <= k < |r| ==> '/' !in r[k]
  {
    Split(token, '/')[1..]
  }

  /** A token without "/" names the package itself and has no markers. */
  lemma TokenWithoutSlash(token: string)
    requires '/' !in token
    ensures PkgKey(token) == token && PkgMarkers(token) == []
  {
    SplitNoSeparator(token, '/');
  }

  /** `name/m1/.../mk` parses back into `name` and `[m1, ..., mk]`. */
  lemma TokenParts(name: string, markers: seq<string>)
    requires '/' !in name
    requires forall k :: 0 <= k < |markers| ==> '/' !in markers[k]
    ensures PkgKey(Join([name] + markers, "/")) == name
    ensures PkgMarkers(Join([name] + markers, "/")) == markers
  {
    var parts := [name] + markers;
    forall k | 0 <= k < |parts|
      ensures '/' !in parts[k]
    {
      if k > 0 {
        assert parts[k] == markers[k - 1];
      }
    }
    assert "/" == ['/'];
    SplitJoin(parts, '/');
    var pieces := Split(Join(parts, "/"), '/');
    assert pieces == parts;
    assert parts[1..] == markers;
  }

  // ---------------------------------------------------------------- include and exclude

  /** The map after the include tokens have been applied in order: each token
      overwrites the entry of its package. */
  function Added(m: PackageMap, tokens: seq<string>): (r: PackageMap)
    ensures r.Keys == m.Keys + set k | 0 <= k < |tokens| :: PkgKey(tokens[k])
  {
    if tokens == [] then m
    else
      var front := tokens[..|tokens| - 1];
      var r := Added(m, front)[PkgKey(Last(tokens)) := PkgMarkers(Last(tokens))];
      assert (set k | 0 <= k < |tokens| :: PkgKey(tokens[k]))
          == (set k | 0 <= k < |front| :: PkgKey(front[k])) + {PkgKey(Last(tokens))};
      r
  }

  /** One more include token applied. */
  lemma AddedSnoc(m: PackageMap, tokens: seq<string>, i: int)
    requires 0 <= i < |tokens|
    ensures Added(m, tokens[..i + 1]) == Added(m, tokens[..i])[PkgKey(tokens[i]) := PkgMarkers(tokens[i])]
  {
    assert tokens[..i + 1][..i] == tokens[..i];
  }

  /** The last token naming a package decides its markers. */
  lemma {:induction false} AddedLastWins(m: PackageMap, tokens: seq<string>, i: int)
    requires 0 <= i < |tokens|
    requires forall j :: i < j < |tokens| ==> PkgKey(tokens[j]) != PkgKey(tokens[i])
    ensures PkgKey(tokens[i]) in Added(m, tokens)
    ensures Added(m, tokens)[PkgKey(tokens[i])] == PkgMarkers(tokens[i])
  {
    if i < |tokens| - 1 {
      var front := tokens[..|tokens| - 1];
      AddedLastWins(m, front, i);
    }
  }

  /** A package no token names keeps its entry, or stays absent. */
  lemma {:induction false} AddedUntouched(m: PackageMap, tokens: seq<string>, x: string)
    requires forall j :: 0 <= j < |tokens| ==> PkgKey(tokens[j]) != x
    ensures x in Added(m, tokens) <==> x in m
    ensures x in m ==> Added(m, tokens)[x] == m[x]
  {
    if tokens != [] {
      AddedUntouched(m, tokens[..|tokens| - 1], x);
    }
  }

  /** The map after the exclude names have been removed: exact, case-sensitive keys. */
  function Removed(m: PackageMap, names: seq<string>): (r: PackageMap)
    ensures r.Keys == m.Keys - set k | 0 <= k < |names| :: names[k]
    ensures forall x :: x in r ==> r[x] == m[x]
  {
    if names == [] then m
    else
      var front := names[..|names| - 1];
      assert (set k | 0 <= k < |names| :: names[k])
          == (set k | 0 <= k < |front| :: front[k]) + {Last(names)};
      Removed(m, front) - {Last(names)}
  }

  /** Names that are not keys leave the map as it is. */
  lemma RemovedAbsent(m: PackageMap, names: seq<string>)
    requires forall k :: 0 <= k < |names| ==> names[k] !in m
    ensures Removed(m, names) == m
  {
    assert Removed(m, names).Keys == m.Keys;
  }

  /** AddPKG: applies the include tokens to the map, case preserved. */
  method AddPkg(packages: PackageMap, tokens: seq<string>) returns (r: PackageMap)
    ensures r == Added(packages, tokens)
  {
    r := packages;
    for i := 0 to |tokens|
      invariant r == Added(packages, tokens[..i])
    {
      var parts := Split(tokens[i], '/');
      var installedNames: seq<string> := [];
      if |parts| > 1 {
        installedNames := parts[1..];
      }
      r := r[parts[0] := installedNames];
      AddedSnoc(packages, tokens, i);
    }
    assert tokens[..|tokens|] == tokens;
  }

  /** RemovePKG: deletes every exclude name that is a key. */
  method RemovePkg(packages: PackageMap, names: seq<string>) returns (r: PackageMap)
    ensures r == Removed(packages, names)
  {
    r := packages;
    for i := 0 to |names|
      invariant r == Removed(packages, names[..i])
    {
      assert names[..i + 1][..i] == names[..i];
      if names[i] in r {
        r := r - {names[i]};
      } else {
        assert r - {names[i]} == r;
      }
    }
    assert names[..|names|] == names;
  }

  // ---------------------------------------------------------------- already installed

  /** Some search entry contains the marker, ignoring case. */
  predicate FoundIn(marker: string, search: seq<string>)
  {
    exists j :: 0 <= j < |search| && Contains(Lower(search[j]), Lower(marker))
  }

  /** The already-installed rule: markers are tried in order, an empty marker
      ends the search with "not installed", and any hit before it is "installed". */
  predicate Installed(markers: seq<string>, search: seq<string>)
  {
    if markers == [] then false
    else markers[0] != "" && (FoundIn(markers[0], search) || Installed(markers[1..], search))
  }

  /** The markers up to and including position `i` are all non-empty. */
  predicate NoBlankUpTo(markers: seq<string>, i: int)
  {
    forall k :: 0 <= k <= i && k < |markers| ==> markers[k] != ""
  }

  /** Installed holds exactly when some marker before the first empty one is found. */
  lemma {:induction false} InstalledIff(markers: seq<string>, search: seq<string>)
    ensures Installed(markers, search)
        <==> exists i :: 0 <= i < |markers| && NoBlankUpTo(markers, i) && FoundIn(markers[i], search)
  {
    if markers != [] {
      InstalledIff(markers[1..], search);
      if Installed(markers, search) {
        if FoundIn(markers[0], search) {
          assert NoBlankUpTo(markers, 0);
        } else {
          var i :| 0 <= i < |markers[1..]| && NoBlankUpTo(markers[1..], i)
            && FoundIn(markers[1..][i], search);
          assert NoBlankUpTo(markers, i + 1);
        }
      }
      if exists i :: 0 <= i < |markers| && NoBlankUpTo(markers, i) && FoundIn(markers[i], search) {
        var i :| 0 <= i < |markers| && NoBlankUpTo(markers, i) && FoundIn(markers[i], search);
        assert markers[0] != "";
        if i > 0 {
          assert NoBlankUpTo(markers[1..], i - 1);
        }
      }
    }
  }

  /** The check ignores the case of markers and of search entries alike. */
  lemma {:induction false} InstalledIgnoresCase(markers: seq<string>, search: seq<string>)
    ensures Installed(LowerAll(markers), LowerAll(search)) == Installed(markers, search)
  {
    if markers != [] {
      InstalledIgnoresCase(markers[1..], search);
      assert LowerAll(markers)[1..] == LowerAll(markers[1..]);
      LowerIdempotent(markers[0]);
      assert Lower(markers[0]) == "" <==> markers[0] == "";
      if FoundIn(markers[0], search) {
        var j :| 0 <= j < |search| && Contains(Lower(search[j]), Lower(markers[0]));
        LowerIdempotent(search[j]);
        assert Contains(Lower(LowerAll(search)[j]), Lower(LowerAll(markers)[0]));
      }
      if FoundIn(LowerAll(markers)[0], LowerAll(search)) {
        var j :| 0 <= j < |search| && Contains(Lower(LowerAll(search)[j]), Lower(LowerAll(markers)[0]));
        LowerIdempotent(search[j]);
        assert Contains(Lower(search[j]), Lower(markers[0]));
      }
    }
  }

  /** IsInstalled: the nested scan with early returns. */
  method IsInstalled(markers: seq<string>, search: seq<string>) returns (found: bool)
    ensures found == Installed(markers, search)
  {
    var i := 0;
    while i < |markers|
      invariant 0 <= i <= |markers|
      invariant Installed(markers, search) == Installed(markers[i..], search)
    {
      if markers[i] == "" {
        return false;
      }
      var low := Lower(markers[i]);
      var j := 0;
      while j < |search|
        invariant 0 <= j <= |search|
        invariant forall k :: 0 <= k < j ==> !Contains(Lower(search[k]), low)
      {
        if Contains(Lower(search[j]), low) {
          return true;
        }
        j := j + 1;
      }
      assert markers[i..][1..] == markers[i + 1..];
      i := i + 1;
    }
    return false;
  }

  // ---------------------------------------------------------------- installer paths

  /** A path is an installer for the package when its lower-case form contains
      the lower-cased package name. */
  predicate PathMatches(path: string, pkg: string)
  {
    Contains(Lower(path), Lower(pkg))
  }

  /** The first installer path for the package, if any. */
  function FirstMatch(paths: seq<string>, pkg: string): (r: Option<nat>)
    ensures r.Some? ==> r.value < |paths| && PathMatches(paths[r.value], pkg)
    ensures r.Some? ==> forall j :: 0 <= j < r.value ==> !PathMatches(paths[j], pkg)
    ensures r.None? ==> forall j :: 0 <= j < |paths| ==> !PathMatches(paths[j], pkg)
  {
    if paths == [] then None
    else if PathMatches(paths[0], pkg) then Some(0)
    else match FirstMatch(paths[1..], pkg)
      case None => None
      case Some(i) => Some(i + 1)
  }

  /** The first path matching is the one FirstMatch finds. */
  lemma FirstMatchAt(paths: seq<string>, pkg: string, i: int)
    requires 0 <= i < |paths| && PathMatches(paths[i], pkg)
    requires forall j :: 0 <= j < i ==> !PathMatches(paths[j], pkg)
    ensures FirstMatch(paths, pkg) == Some(i)
  {
  }

  /** With no path matching, FirstMatch finds none. */
  lemma FirstMatchAbsent(paths: seq<string>, pkg: string)
    requires forall j :: 0 <= j < |paths| ==> !PathMatches(paths[j], pkg)
    ensures FirstMatch(paths, pkg) == None
  {
  }

  /** `sudo bash -c 'installer -pkg "<path>" -target /'`. */
  function Installer(path: string): Command
  {
    SudoBash("installer -pkg \"" + path + "\" -target /")
  }

  /** InstallPKG: runs the installer on the first matching path and reports its error. */
  method InstallPkg(pkg: string, found: seq<string>, shell: Shell) returns (err: Error, ran: seq<Command>)
    ensures FirstMatch(found, pkg).None? ==>
      ran == [] && err == Err("unable to find package " + Lower(pkg) + ".pkg")
    ensures FirstMatch(found, pkg).Some? ==>
      var cmd := Installer(found[FirstMatch(found, pkg).value]);
      ran == [cmd] && err == ErrorOf(shell(cmd))
  {
    var name := Lower(pkg);
    LowerIdempotent(pkg);
    for i := 0 to |found|
      invariant forall j :: 0 <= j < i ==> !PathMatches(found[j], pkg)
    {
      if Contains(Lower(found[i]), name) {
        var cmd := Installer(found[i]);
        var outcome := shell(cmd);
        if !outcome.ok {
          return Err(outcome.err), [cmd];
        }
        return Nil, [cmd];
      }
    }
    return Err("unable to find package " + name + ".pkg"), [];
  }

  // ---------------------------------------------------------------- Rosetta

  /** `pkgutil --pkgs | grep -i rosetta`, whose empty output means "not installed". */
  const RosettaCheck: Command := Bash("pkgutil --pkgs | grep -i rosetta")

  const RosettaInstall: Command :=
    Program(["sudo", "softwareupdate", "--install-rosetta", "--agree-to-license"])

  /** The commands InstallRosetta runs: the presence check off amd64, then the
      install only when the check printed nothing. */
  function RosettaRan(goarch: string, shell: Shell): (r: seq<Command>)
    ensures goarch == "amd64" <==> r == []
    ensures |r| <= 2
  {
    if goarch == "amd64" then []
    else [RosettaCheck] + if shell(RosettaCheck).output == "" then [RosettaInstall] else []
  }

  /** InstallRosetta: nothing on amd64; otherwise install only when the check
      printed nothing, and fail only when that install fails. */
  method InstallRosetta(goarch: string, shell: Shell) returns (err: Error, ran: seq<Command>)
    ensures err != Nil <==> goarch != "amd64" && shell(RosettaCheck).output == "" && !shell(RosettaInstall).ok
    ensures err != Nil ==> err == Err("rosetta failed to install")
    ensures goarch == "amd64" ==> ran == []
    ensures goarch != "amd64" ==> |ran| >= 1 && ran[0] == RosettaCheck
    ensures RosettaInstall in ran <==> goarch != "amd64" && shell(RosettaCheck).output == ""
    ensures ran == RosettaRan(goarch, shell)
  {
    if goarch == "amd64" {
      return Nil, [];
    }
    var check := shell(RosettaCheck);
    ran := [RosettaCheck];
    if check.output == "" {
      var install := shell(RosettaInstall);
      ran := ran + [RosettaInstall];
      if !install.ok {
        return Err("rosetta failed to install"), ran;
      }
    }
    err := Nil;
  }
}
