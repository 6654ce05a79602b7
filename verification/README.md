# macdeploy deployment client, modelled in Dafny

macdeploy provisions a macOS machine from a distribution directory and a YAML
configuration. Its client runs a fixed pipeline: sudo initialisation, account
creation with a secure token and an optional password policy, the search
directories, disk images, package installation, applications, the pre, inter
and post scripts, FileVault, the firewall and the admin password policy. It
then uploads the FileVault key and the log file to the collector server, and
finally cleans up the deployment files, guarded and sometimes confirmed.

This project models that client, one Dafny module per Go file:

- `Commands` holds the `exec.Command` shape. The operating system is a pure
  oracle `Shell` from a command to its outcome (output, success, error text).
- `Config` covers validateYAML.
- `Packages` (pkg.go) and `FileHandling` (filehandler.go) cover the
  desired-package map:
  - lower-cased `name/marker/...` keys, with include and exclude;
  - the fuzzy "already installed" test;
  - first-match installer selection;
  - Rosetta;
  - the script path cache that ExecuteScript fills lazily during its scan.
  `FileHandling.FileHandler` is a class whose `packagesToInstall` and
  `scriptsPathCache` fields its methods update in place.
- `Scripts` (scripts.go), `Dmg` (dmg.go), `FileVault`, `Firewall` and `Users`
  cover the parsing of command output and the skip-on-failure loops of those
  components.
- `Policies` (yaml/policies.go) covers BuildCommand, including the history
  clamp, and the pwpolicy commands. `Policies.Policies` is a class because
  BuildCommand overwrites the receiver's history value.
- `Utils` and `Validation` cover FormatFullName, GetFileMap keys,
  GetSerialTag, the RemoveFiles selection and ValidateName.
- `Logs` (logger/log.go) covers log-file naming and the `Log` class. The
  class's buffer only grows, and WriteFile writes the whole buffer.
  FormatLogPath and formatSpecialLogPath are here too.
- `Root` (cmd/root.go) models the run. `Root.RootData` holds the two failure
  flags, the file handler, the policies and a `Journal` of events: the lines
  the run logs, the checkpoints, the commands it runs and the calls it makes
  into collaborators. Every stage method states its new journal as the old
  one plus a specification function of the configuration and the
  environment. Lemmas then state what the stages promise:
  - per-account failure isolation;
  - account rollback on a secure-token failure;
  - the "success" test on collector replies;
  - the key uploaded before the log, and no log after a failed key upload;
  - the cleanup guard and its y/n confirmation;
  - that nothing before the FileVault stage posts to the server.
- `Text` and `Wrappers` are helpers. `Text` has ASCII lower-casing, TrimSpace,
  Split, Join and substring search as Go's `strings` package defines them.
  `Wrappers` has `Error` (nil or an error text), `Result`, `Option` and
  `Run`; `Run` is either a value or a Go runtime panic.

The model follows the Go code in these places, where the program's
documented behaviour reads otherwise:

- AddPackages lower-cases the markers as well as the names (filehandler.go
  toLowerArray).
- The post scripts run in PostRun, after Run has sent the key and the log.
- An empty FileVault status is not an error: it becomes "unknown"
  (filevault.go:20-25).

## Model

| member | source | states |
|---|---|---|
| Config.ValidateYAML | src/deploy-files/yaml/yaml.go:35-51 | nil exactly when the admin has a user name and a password; the user-name message when the name is empty, the password message when only the password is |
| Firewall.Status | src/deploy-files/core/firewall.go:38-53 | fails exactly when the status command fails, with its output as the error; otherwise enabled exactly when the lower-cased output contains "enabled" |
| Firewall.StatusEnabled | src/deploy-files/core/firewall.go:48-50 | an output containing "enabled" in any letter case reads as enabled |
| Firewall.StatusIgnoresCase | src/deploy-files/core/firewall.go:48-50 | two outputs equal up to case give the same status |
| Firewall.Enable | src/deploy-files/core/firewall.go:25-35 | nil exactly when the sudo enable script succeeds; otherwise an error prefixed "failed to enable Firewall: " that carries both the script output and the exit error |
| Dmg.AttachCommands | src/deploy-files/core/dmg.go:81-94 | one `hdiutil attach '<path>'` per image, in order |
| Dmg.CopyCommands | src/deploy-files/core/dmg.go:51-58 | one `cp -r '<volume>' '<dir>'` per volume, in order |
| Dmg.DetachCommands | src/deploy-files/core/dmg.go:117-126 | one `hdiutil detach '<volume>'` per volume, in order |
| Dmg.ReadDmgDirectory | src/deploy-files/core/dmg.go:31-44 | fails exactly when the find script fails, with its error; otherwise one entry per newline of the output, none containing a newline (the piece after the last newline is dropped) |
| Dmg.ReadDmgDirectoryLines | src/deploy-files/core/dmg.go:37-39 | an output of newline-terminated lines gives back exactly those lines |
| Dmg.ReadDmgDirectoryEmpty | src/deploy-files/core/dmg.go:37-39 | an empty output gives no images |
| Dmg.VolumeOf | src/deploy-files/core/dmg.go:102-103 | the mount point has no tab and occurs in the attach output |
| Dmg.DmgPaths | src/deploy-files/core/dmg.go:85-88 | a path is tried exactly when it is one of the given paths and contains ".dmg" (the same test as filehandler.go:255) |
| Dmg.Mounted | src/deploy-files/core/dmg.go:94-105 | never more volumes than images: one per image whose attach succeeded |
| Dmg.MountedFromSuccess | src/deploy-files/core/dmg.go:94-105 | every returned volume is the mount point of an image whose attach succeeded |
| Dmg.MountedComplete | src/deploy-files/core/dmg.go:94-105 | every image whose attach succeeds has its volume among the returned ones (the same loop as filehandler.go:252-273) |
| Dmg.MountedAll | src/deploy-files/core/dmg.go:94-105 | when every attach succeeds there is one volume per image |
| Dmg.AttachOne | src/deploy-files/core/dmg.go:94-105 | a volume exactly when `hdiutil attach` succeeds, and then the trimmed last tab-separated field of its output |
| Dmg.AttachDmgs | src/deploy-files/core/dmg.go:80-112 | attaches every path containing ".dmg", in order, and returns the volumes of the successful attaches, in order (FileHandler.AttachDmgs, filehandler.go:247-279, is the same loop) |
| Dmg.AddDmgPackages | src/deploy-files/core/dmg.go:50-75 | one copy per volume whatever earlier copies did; a volume counts as copied exactly when its copy succeeded (FileHandler.AddDmgPackages, filehandler.go:216-241, is the same loop) |
| Dmg.DetachDmgs | src/deploy-files/core/dmg.go:116-134 | one detach per volume whatever earlier detaches did; a volume stays mounted exactly when its detach failed (FileHandler.DetachDmgs, filehandler.go:349-367, is the same loop) |
| Scripts.GetFilePaths | src/deploy-files/core/scripts.go:29-43 | fails exactly when the find script fails; otherwise the newline-separated pieces of the output, which join back to it, trailing empty piece included |
| Scripts.GetFilePathsTrailingEntry | src/deploy-files/core/scripts.go:38 | a newline-terminated listing ends in an empty entry |
| Scripts.ScriptAttempts | src/deploy-files/core/scripts.go:51-79 | at most one command per configured name |
| Scripts.RunFirstMatch | src/deploy-files/core/scripts.go:56-79 | runs the first path containing the name (case ignored), if any; success and fail are never both set, one is set exactly when a path matched, success exactly when that run exited zero |
| Scripts.ExecuteScriptsAsWritten | src/deploy-files/core/scripts.go:50-85 | runs the first match of each name; as written, the "Unable to find" warning is logged for every name |
| Scripts.ExecuteScripts | src/deploy-files/core/scripts.go:50-85 | runs the first match of each name; the "Unable to find" warning is logged for a name exactly when no path matches it |
| Scripts.ScriptAttemptsPerName | src/deploy-files/core/scripts.go:56-79 | a name some path matches has its first matching path run |
| Packages.PkgKey | src/deploy-files/core/pkg.go:47-49 | the package of an include token is its prefix up to the first "/" and contains no "/" |
| Packages.PkgMarkers | src/deploy-files/core/pkg.go:50-54 | one marker per "/" in the token, none containing "/" |
| Packages.TokenWithoutSlash | src/deploy-files/core/pkg.go:47-54 | a token without "/" names the package itself with no markers |
| Packages.TokenParts | src/deploy-files/core/pkg.go:47-54 | `name/m1/.../mk` parses back into `name` and `[m1, ..., mk]` |
| Packages.Added | src/deploy-files/core/pkg.go:45-57 | the keys after the includes are the old keys plus the package of every token |
| Packages.AddedLastWins | src/deploy-files/core/pkg.go:56 | the last token naming a package decides its markers |
| Packages.AddedUntouched | src/deploy-files/core/pkg.go:56 | a package no token names keeps its entry, or stays absent |
| Packages.Removed | src/deploy-files/core/pkg.go:124-132 | the keys after the excludes are the old keys minus the exact names given; remaining entries are unchanged |
| Packages.RemovedAbsent | src/deploy-files/core/pkg.go:126-127 | names that are not keys leave the map as it is |
| Packages.AddPkg | src/deploy-files/core/pkg.go:45-57 | the map after AddPKG is `Added` of the tokens, case preserved |
| Packages.RemovePkg | src/deploy-files/core/pkg.go:124-132 | the map after RemovePKG is `Removed` of the names |
| Packages.InstalledIff | src/deploy-files/core/pkg.go:97-121 | installed exactly when some marker before the first empty one occurs, case ignored, inside some search entry |
| Packages.InstalledIgnoresCase | src/deploy-files/core/pkg.go:104-112 | lower-casing the markers and the search entries changes nothing |
| Packages.IsInstalled | src/deploy-files/core/filehandler.go:429-456 | the nested scan with its early returns decides exactly the already-installed rule (the same loop as pkg.go:97-121) |
| Packages.FirstMatch | src/deploy-files/core/filehandler.go:161-163 | the index of the first path whose lower-case form contains the lower-cased package, and none when no path does |
| Packages.FirstMatchAt | src/deploy-files/core/filehandler.go:161-163 | a matching path with no match before it is the one chosen |
| Packages.FirstMatchAbsent | src/deploy-files/core/filehandler.go:161-163 | with no matching path none is chosen |
| Packages.InstallPkg | src/deploy-files/core/pkg.go:65-90 | no command and the "unable to find package <name>.pkg" error when no path matches; otherwise exactly the installer on the first match, with its exit error |
| Packages.RosettaRan | src/deploy-files/core/filehandler.go:45-69 | no command on amd64; otherwise the presence check, then the install only when the check printed nothing |
| Packages.InstallRosetta | src/deploy-files/core/filehandler.go:45-69 | fails exactly off amd64 when the check printed nothing and the install failed, with "rosetta failed to install"; the install runs exactly when the check printed nothing (the same logic as pkg.go:17-42) |
| FileHandling.Attempt | src/deploy-files/core/filehandler.go:146-188 | at most one installer per package, none when it is already present, and then on the first path naming it |
| FileHandling.AttemptsAtMostOnePerPackage | src/deploy-files/core/filehandler.go:146-193 | no more installer runs than packages |
| FileHandling.FileHandler.constructor | src/deploy-files/core/filehandler.go:23-39 | the keys are exactly the lowered configured names, each holding the markers of some configured name that lowers to it; the script cache starts empty |
| FileHandling.FileHandler.ToLowerArray | src/deploy-files/core/filehandler.go:462-466 | every element is replaced by its lower-case form, in place |
| FileHandling.FileHandler.ParseInclude | src/deploy-files/core/filehandler.go:76-86 | the lowered token's package and markers, the package in lower case |
| FileHandling.FileHandler.AddPackages | src/deploy-files/core/filehandler.go:73-93 | the map becomes `Added` of the lowered tokens; keys stay lower case and the cache is untouched |
| FileHandling.FileHandler.RemovePackagesAsWritten | src/deploy-files/core/filehandler.go:97-106 | as written: the lowered name is checked but the name as given is deleted |
| FileHandling.FileHandler.RemovePackages | src/deploy-files/core/filehandler.go:97-106 | as intended: the map becomes `Removed` of the lowered names |
| FileHandling.FileHandler.ReadDir | src/deploy-files/core/filehandler.go:112-139 | a walk error is returned as is; otherwise the walked paths, prefixed by the directory, whose last "/" piece contains the pattern, in walk order |
| FileHandling.WalkMatchesIff | src/deploy-files/core/filehandler.go:121-128 | a path is listed exactly when it is `dir/<walked path>` and its base name contains the pattern |
| FileHandling.FileHandler.InstallOne | src/deploy-files/core/filehandler.go:155-192 | the installer runs on the first matching path only; the outcome is success, failure, or no installer found |
| FileHandling.FileHandler.VisitPackage | src/deploy-files/core/filehandler.go:147-192 | one package's outcome and commands: nothing when it is already installed, else its install attempt |
| FileHandling.FileHandler.InstallPackages | src/deploy-files/core/filehandler.go:145-194 | every package is visited exactly once; each outcome depends only on that package, so one failed install does not stop the others |
| FileHandling.FileHandler.Execute | src/deploy-files/core/filehandler.go:331-340 | the trimmed output and the exit error of `bash -c <path>` |
| FileHandling.FileHandler.RunScript | src/deploy-files/core/filehandler.go:296-300 | trimming the output a second time changes nothing |
| FileHandling.ScriptKey | src/deploy-files/core/filehandler.go:289 | the lookup key is lower case |
| FileHandling.ScriptKeyMatches | src/deploy-files/core/filehandler.go:306-308 | matching a path against the key ignores case on the path side only |
| FileHandling.FileHandler.ScanScripts | src/deploy-files/core/filehandler.go:305-325 | runs the first path containing the key, after caching every path before it; with no match, caches them all and fails with "failed to find script" |
| FileHandling.FileHandler.ExecuteScript | src/deploy-files/core/filehandler.go:286-326 | a cache hit runs the cached path and leaves the cache alone; a miss scans as above; the package map is untouched |
| FileHandling.CacheAfterKeys | src/deploy-files/core/filehandler.go:316-321 | the cache gains exactly the lower-case base names of the scanned paths |
| FileHandling.CacheKeyOrigin | src/deploy-files/core/filehandler.go:316-321 | every key the scan added comes from a scanned path |
| FileHandling.CacheAfterHas | src/deploy-files/core/filehandler.go:316-321 | every scanned path's base name is cached |
| FileHandling.CacheAfterKeeps | src/deploy-files/core/filehandler.go:316-321 | scanning only adds keys |
| FileHandling.CacheAfterConsistent | src/deploy-files/core/filehandler.go:318-320 | every cached path stays filed under its own lower-case base name |
| FileHandling.CacheAfterLastWins | src/deploy-files/core/filehandler.go:320 | the path scanned last under a base name is the one cached for it |
| FileHandling.RemovedAsWritten | src/deploy-files/core/filehandler.go:97-106 | as written: keys only go, and remaining entries are unchanged |
| FileHandling.RemovedAsWrittenIsExact | src/deploy-files/core/filehandler.go:97-106 | as written, over lower-case keys: the exclusion removes exactly the names that equal a key as given |
| FileHandling.ExcludeAsWrittenKeepsMixedCase | src/deploy-files/core/filehandler.go:99-103 | as written: with lower-case keys, an exclude name that is not lower case removes nothing |
| FileHandling.ExcludeAsWrittenExample | src/deploy-files/core/filehandler.go:97-106 | `--exclude TeamViewer.pkg` leaves `teamviewer.pkg` in place as written, and removes it as intended |
| FileHandling.ExcludeRemovesLowered | src/deploy-files/core/filehandler.go:97-106 | after the intended exclude, no lowered exclude name is a key |
| FileHandling.ExcludeWins | src/deploy-files/core/filehandler.go:73-106 | include then exclude: an excluded package is gone whatever was included |
| FileHandling.IncludeSetsLowered | src/deploy-files/core/filehandler.go:73-93 | an include token sets its lowered package to its lowered markers, unless a later token names the same package |
| FileVault.NormalizedStatusShape | src/deploy-files/core/filevault.go:20-25 | the status is never empty and is lower case with no surrounding white space; when the lower-cased, trimmed output is empty it is "unknown", otherwise it is exactly that output, which is also the trimmed output lower-cased |
| FileVault.LowerTrimSpace | src/deploy-files/core/filevault.go:20 | lowering and trimming commute |
| FileVault.StatusIdempotent | src/deploy-files/core/filevault.go:20-25 | a normalised status is its own normal form |
| FileVault.KeyOf | src/deploy-files/core/filevault.go:45-49 | indexing past the split panics exactly when the output holds no single quote; otherwise the key holds no quote |
| FileVault.KeyBetweenQuotes | src/deploy-files/core/filevault.go:45-49 | an output `<name> = '<key>'...` yields exactly the key |
| FileVault.EnableFileVault | src/deploy-files/core/filevault.go:14-61 | the status is read whatever its exit status; only "false" runs the enable script, and then its key is returned when the script succeeded; every other case returns "" |
| FileVault.AddSecureToken | src/deploy-files/core/filevault.go:67-80 | exactly the sysadminctl secure-token command; nil exactly when it succeeds, otherwise an error naming the user |
| Users.ChosenName | src/deploy-files/core/users.go:23-47 | the configured name when there is one; otherwise the line read without its last character, and a panic (Go's out-of-range slice) when nothing was read |
| Users.PromptName | src/deploy-files/core/users.go:29-47 | the prompt step gives exactly `ChosenName` |
| Users.AdminArg | src/deploy-files/core/users.go:56-59 | "true" exactly when the account is an admin one and the entry does not ignore admin, "false" otherwise |
| Users.UserExists | src/deploy-files/core/users.go:106-127 | a listing error is passed on; otherwise found exactly when some /Users entry contains the name, case ignored |
| Users.EmptyNameExists | src/deploy-files/core/users.go:117-124 | an empty name matches exactly when /Users is not empty |
| Users.CreateAccount | src/deploy-files/core/users.go:21-104 | the empty-password, skipped, directory-error and already-exists errors run no command; otherwise create, secure token and the optional reset policy run in order, each only after the previous one succeeded; nil exactly when every step succeeds |
| Users.CreateNamed | src/deploy-files/core/users.go:51-104 | the steps after the name is chosen, with the same errors and the same order |
| Users.Provision | src/deploy-files/core/users.go:69-103 | create, then the secure token, then the reset policy when asked for, stopping at the first failure; nil exactly when all of them succeed |
| Utils.KeepNameChars | src/deploy-files/utils/utils.go:55-77 | the character loop keeps exactly `KeptChars`: invalid characters dropped, and each run of spaces reduced to its first space |
| Utils.FormatFullName | src/deploy-files/utils/utils.go:40-80 | the name is lowered and trimmed, then filtered by the loop, then each space is replaced by a dot |
| Utils.KeptCharsFrom | src/deploy-files/utils/utils.go:57-76 | every kept character comes from the input and is not an invalid one |
| Utils.KeptCharsSpaces | src/deploy-files/utils/utils.go:55-76 | no two kept spaces are adjacent, and none leads |
| Utils.FullNameShape | src/deploy-files/utils/utils.go:36-80 | the account name is lower case and holds no space and no invalid character |
| Utils.FullNameSpaceRuns | src/deploy-files/utils/utils.go:64-74 | before the dots are put in, no space leads and no two spaces are adjacent |
| Utils.FullNameTwoWords | src/deploy-files/utils/utils.go:36-80 | two words with any spaces around and between them give the lowered words joined by one dot |
| Utils.FileKey | src/deploy-files/utils/utils.go:24-28 | the key is lower case and is the lowered name without its extension |
| Utils.GetFileMap | src/deploy-files/utils/utils.go:15-34 | a read error is passed on; otherwise the keys are exactly the keys of the entries, each mapped to true |
| Utils.FileKeyExample | src/deploy-files/utils/utils.go:24-28 | "Chrome.app" and "chrome" share the key "chrome" |
| Utils.ExtOfSuffix | src/deploy-files/utils/utils.go:25 | a final dotted suffix with no further dot or slash is the extension |
| Utils.ExtWithoutDot | src/deploy-files/utils/utils.go:25-27 | a name without a dot has no extension |
| Utils.GetSerialTag | src/deploy-files/utils/utils.go:85-96 | "cannot find serial tag of the device" exactly when the command fails; a panic exactly when its output holds no double quote; otherwise a tag without quotes |
| Utils.SerialTagOfLine | src/deploy-files/utils/utils.go:92-93 | the tag is the text inside the last pair of quotes |
| Utils.Deletions | src/deploy-files/utils/utils.go:128-151 | no more deletions than entries |
| Utils.DeletionsComplete | src/deploy-files/utils/utils.go:129-147 | every selected entry, a file or the package directory, is deleted under its lowered name |
| Utils.DeletionsSelected | src/deploy-files/utils/utils.go:129-147 | every deletion is of a selected lowered name, and of a directory only when it is the package directory |
| Utils.RemoveFiles | src/deploy-files/utils/utils.go:100-154 | the working-directory error, the project-directory refusal and the listing error delete nothing; otherwise deletions are tried exactly on `Deletions` of the listing, and a failed deletion is skipped |
| Validation.LeadingLetters | src/deploy-files/utils/validation.go:11 | the length of the leading run of letters: all letters up to it, no letter at it |
| Validation.ValidateName | src/deploy-files/utils/validation.go:10-15 | true exactly when the name is a non-empty run of ASCII letters, one space or dot, and a non-empty run of letters to the end |
| Validation.ValidNameOneSeparator | src/deploy-files/utils/validation.go:11 | every accepted name has exactly one separator and letters everywhere else |
| Validation.ValidNameOfParts | src/deploy-files/utils/validation.go:11 | letters, a separator and letters are accepted |
| Validation.ValidNameExamples | src/deploy-files/utils/validation.go:8 | the documented forms "First Last", "F Last" and "F.Last" are accepted |
| Validation.InvalidNameExamples | src/deploy-files/utils/validation.go:11 | empty text, two separators, three parts, digits and surrounding spaces are rejected |
| Logs.RenderPrefix | src/deploy-files/logger/log.go:63-70 | a buffer that only grew renders to an extension of its earlier bytes, so every later log file starts with the earlier one |
| Logs.RenderContains | src/deploy-files/logger/log.go:94-98 | every logged message is in the rendered buffer |
| Logs.FileName | src/deploy-files/logger/log.go:31-33 | the file name starts with the date and a dot, and holds the serial tag and ".log" |
| Logs.FilePath | src/deploy-files/logger/log.go:34 | the file path is the directory, a slash and the name |
| Logs.Log.constructor | src/deploy-files/logger/log.go:30-60 | the name and path from the date and serial tag, debug silenced unless verbose, an empty buffer |
| Logs.Log.Log | src/deploy-files/logger/log.go:94-104 | the message always joins the buffer, and reaches the console with its level prefix unless the logger is silent |
| Logs.Log.WriteFile | src/deploy-files/logger/log.go:63-70 | nil exactly when the disk write succeeds, which writes the whole buffer; the buffer is unchanged |
| Logs.Log.Content | src/deploy-files/logger/log.go:84-86 | the content holds every logged message |
| Logs.CheckpointsNest | src/deploy-files/logger/log.go:63-70 | of two written files, the earlier one's bytes start the later one's |
| Logs.FormatSpecial | src/deploy-files/logger/log.go:184-195 | $HOME when the working directory cannot be read; the working directory for "." and "./"; otherwise the path unchanged |
| Logs.NonEmpty | src/deploy-files/logger/log.go:131-135 | an element is kept exactly when it is one of the given elements and is not empty; a non-empty first element stays first |
| Logs.Components | src/deploy-files/logger/log.go:125-135 | a leading empty element survives exactly when the path started with "/"; every other kept element is non-empty |
| Logs.LastWord | src/deploy-files/logger/log.go:139-145 | the index chosen is below the element count, and 0 when there is none |
| Logs.LastWordIsLast | src/deploy-files/logger/log.go:139-145 | every element after the chosen one names a log file, and the chosen one does not unless it is the first |
| Logs.ExpandTilde | src/deploy-files/logger/log.go:158-173 | no "~" leaves the path unchanged; a leading "~/" and a lone "~" expand to the home directory |
| Logs.KeepComponents | src/deploy-files/logger/log.go:125-135 | the first loop keeps exactly `Components` |
| Logs.FindLastWord | src/deploy-files/logger/log.go:139-145 | the backward scan finds exactly `LastWord` |
| Logs.FormatLogPath | src/deploy-files/logger/log.go:115-181 | FormatLogPath as written, including the run-time panic on an empty joined path |
| Logs.LogPathChain | src/deploy-files/logger/log.go:115-181 | the stages compose: normalised text, kept elements, chosen path |
| Logs.LogPathRootIsDefault | src/deploy-files/logger/log.go:147-154 | a path of slashes and backslashes only is refused in favour of `$HOME/logs/macdeploy` |
| Logs.LogPathEmptyIsDefault | src/deploy-files/logger/log.go:152-154 | the empty path gives the default directory |
| Logs.LogPathDropsLogFile | src/deploy-files/logger/log.go:137-156 | `/<dir>/<file>.log` gives `/<dir>` |
| Logs.NormalisedPlain | src/deploy-files/logger/log.go:120-121 | a path with no backslash, no surrounding blanks and no special form is kept as it is |
| Logs.LogPathPanicsOnRootFile | src/deploy-files/logger/log.go:156-175 | as written, `/<file>.log` leaves an empty joined path whose first byte is read: a run-time panic |
| Logs.LogPathCorrected | src/deploy-files/logger/log.go:115-181 | corrected: never empty, and either the default directory, an absolute path or one starting with "./" |
| Logs.LogPathCorrectedAgrees | src/deploy-files/logger/log.go:115-181 | wherever the code as written returns, the corrected version returns the same path |
| Logs.LogPathCorrectedOnRootFile | src/deploy-files/logger/log.go:152-156 | corrected, `/<file>.log` gives the default directory |
| Policies.BoolToInt | src/deploy-files/yaml/policies.go:94-100 | 1 exactly when the flag is set, else 0 |
| Policies.Entries | src/deploy-files/yaml/policies.go:29-60 | the six policies BuildCommand considers, in its order |
| Policies.FlagEntries | src/deploy-files/yaml/policies.go:29-54 | the five flag and length policies come before the history |
| Policies.Clamped | src/deploy-files/yaml/policies.go:56-57 | the history is at most 15, lowered to 15 exactly when it was above; nothing else changes |
| Policies.Policies.constructor | src/deploy-files/yaml/policies.go:9-16 | the receiver holds the configured values |
| Policies.Policies.BuildCommandAsWritten | src/deploy-files/yaml/policies.go:26-63 | as written: the command joins the as-written tokens with spaces, and the receiver's history is clamped |
| Policies.Policies.BuildCommand | src/deploy-files/yaml/policies.go:26-63 | as intended: the command joins the tokens of the clamped settings, and the receiver's history is clamped |
| Policies.Policies.LengthAndFlagPolicies | src/deploy-files/yaml/policies.go:34-54 | the flag and length tokens, in order, each exactly when its condition holds |
| Policies.Policies.AppendIf | src/deploy-files/yaml/policies.go:34-54 | one conditional append adds the entry's token exactly when the entry is on |
| Policies.PresentMembers | src/deploy-files/yaml/policies.go:34-60 | a token is present exactly when some entry carrying it is on |
| Policies.EntryIff | src/deploy-files/yaml/policies.go:34-60 | each policy's token is in the command exactly when its condition holds |
| Policies.ChangeOnLoginIff | src/deploy-files/yaml/policies.go:34-36 | `newPasswordRequired=1` is in the command exactly when change on login is set |
| Policies.RequireAlphaIff | src/deploy-files/yaml/policies.go:37-39 | `requiresAlpha=1` is in the command exactly when letters are required |
| Policies.RequireNumericIff | src/deploy-files/yaml/policies.go:40-42 | `requiresNumeric=1` is in the command exactly when digits are required |
| Policies.ValueTokensIff | src/deploy-files/yaml/policies.go:49-60 | `maxChars`, `minChars` and `usingHistory` appear exactly when non-zero, non-zero and between 1 and 15 |
| Policies.FlagToken | src/deploy-files/yaml/policies.go:30-35 | a set flag renders as `name=1` |
| Policies.TokensHaveNoSpace | src/deploy-files/yaml/policies.go:103-105 | no token holds a space |
| Policies.CommandSplitsIntoTokens | src/deploy-files/yaml/policies.go:62 | the command splits back on spaces into exactly its tokens |
| Policies.PresentNone | src/deploy-files/yaml/policies.go:26-63 | with no policy on, there are no tokens |
| Policies.PresentAll | src/deploy-files/yaml/policies.go:26-63 | with every policy on, every token appears in order |
| Policies.ZeroPoliciesEmpty | src/deploy-files/yaml/policies.go:26-63 | zero-valued policies give the empty command |
| Policies.SampleConfigTokens | src/deploy-files/yaml/policies.go:26-63 | the sample configuration gives all six tokens in order |
| Policies.HistoryAboveLimitAsWritten | src/deploy-files/yaml/policies.go:56-60 | as written: a history above 15 is left out of the first command, yet appears as 15 in the next one |
| Policies.HistoryLeftOut | src/deploy-files/yaml/policies.go:56-60 | as written: a history above 15 leaves no `usingHistory` token |
| Policies.HistoryCorrected | src/deploy-files/yaml/policies.go:56-60 | as intended: the history is emitted whenever it is positive, capped at 15 |
| Policies.CorrectedStable | src/deploy-files/yaml/policies.go:56-60 | as intended: building again gives the same command |
| Policies.SetPolicy | src/deploy-files/yaml/policies.go:68-77 | fails exactly when pwpolicy fails, with its error; otherwise the trimmed output, which occurs in the output |
| Policies.SetPolicyPlist | src/deploy-files/yaml/policies.go:82-91 | the same for the plist form of pwpolicy |
| Root.Rans | src/deploy-files/cmd/root.go:204-229 | one `Ran` event per command, in the same order and nothing else |
| Root.CheckpointsNest | src/deploy-files/logger/log.go:63-70 | the log text written at an earlier checkpoint is a prefix of the text written at any later one, so each WriteFile only extends the file |
| Root.PolicyOutcome | src/deploy-files/cmd/root.go:595-606 | the policy step logs one or two lines; a failure logs exactly the warning naming the user and the error |
| Root.PolicyTargetsUser | src/deploy-files/cmd/root.go:582-607 | the policy step runs exactly one pwpolicy command, second, between log lines, and warns with the shell's error exactly when that command fails |
| Root.PolicyHead | src/deploy-files/cmd/root.go:585-594 | the policy events are the debug line and the command of the chosen branch followed by the outcome of that command |
| Root.PolicyCommandFor | src/deploy-files/cmd/root.go:585-594 | a plist path selects `-setaccountpolicies` with that path; otherwise `-setpolicy` with the built policy string, both for the given user |
| Root.PolicyResult | src/deploy-files/cmd/root.go:585-594 | the plist path, when set, wins over the policy string; the step fails exactly when its shell command fails, with that command's error |
| Root.PolicyDeletesNothing | src/deploy-files/cmd/root.go:582-607 | applying the password policy never deletes an account |
| Root.MapOrder | src/deploy-files/cmd/root.go:417 | the accounts are visited in some order that holds every configured key exactly once |
| Root.SkippedNotLogged | src/deploy-files/cmd/root.go:419-428 | a failed account creation logs nothing exactly when its error says "skipped" |
| Root.DeleteOnceOnTokenFailure | src/deploy-files/cmd/root.go:430-448 | the account is deleted exactly when granting the secure token fails; then creation, token, error and deletion come first, nothing else deletes, a successful deletion goes on to the policy step and a failed one stops after its error line |
| Root.PolicyAfterIff | src/deploy-files/cmd/root.go:417-449 | after the account loop the policy settings are clamped exactly when some account reached its policy step, and otherwise unchanged (BuildCommand clamps the receiver, policies.go:56-60) |
| Root.EveryAccountAttempted | src/deploy-files/cmd/root.go:417-449 | every account of the visit order is attempted |
| Root.SearchFilesFrom | src/deploy-files/cmd/root.go:186-201 | a file is among the search files exactly when some search directory lists it |
| Root.NoInstallWithoutRosettaOrPackages | src/deploy-files/cmd/root.go:453-477 | no installer runs when Rosetta fails or the package listing is empty or fails |
| Root.ExcludedNotInstalled | src/deploy-files/cmd/root.go:460-462 | with lower-case keys, as the handler keeps them, a package stays to install exactly when it is included or configured and no `--exclude` name equals it as written; a mixed-case exclude name therefore removes nothing |
| Root.ScriptLookup | src/deploy-files/core/filehandler.go:286-326 | one script lookup runs at most one command |
| Root.ScriptLookupRan | src/deploy-files/core/filehandler.go:286-326 | a cached script runs its cached path; otherwise the first matching path runs and the cache learns every path scanned before it; with no match nothing runs and every path is cached |
| Root.ScriptLineOf | src/deploy-files/cmd/root.go:614-621 | a script logs an error line with its error and output when it fails or was not found, and an info line with its trimmed output otherwise |
| Root.NameEventsCount | src/deploy-files/cmd/root.go:609-623 | a blank script name does nothing; any other name logs exactly one line and runs at most one command |
| Root.OneLinePerScript | src/deploy-files/cmd/root.go:609-623 | a script phase logs exactly one line per non-blank name and makes at most two events per name |
| Root.FileVaultEnabledIff | src/deploy-files/cmd/root.go:480-498 | FileVault is enabled exactly when it was off before; when it was already on no key comes back |
| Root.FirewallEnabledIff | src/deploy-files/cmd/root.go:500-517 | the enable command runs exactly when the status check fails or does not report "enabled" |
| Root.PostOnlyAfterVerified | src/deploy-files/cmd/root.go:520-553 | a request posts at most once, as its second event, to the host plus endpoint with the given payload, and only after the connection was verified |
| Root.RequestSucceedsIff | src/deploy-files/cmd/root.go:520-553 | a request succeeds exactly when the connection is verified, the post returns and its status contains "success"; a success has posted |
| Root.RequestPostsOnly | src/deploy-files/cmd/root.go:520-553 | a request posts nothing but its own payload |
| Root.KeyBeforeLog | src/deploy-files/cmd/root.go:277-320 | every key upload comes before every log upload; a failed key upload or `--no-send` sends no log; with no key no key is sent |
| Root.KeyPostsNoLog | src/deploy-files/cmd/root.go:279-306 | the key part of the send phase never posts the log, and posts no key when there is none |
| Root.LogPostsNoKey | src/deploy-files/cmd/root.go:307-320 | the log part never posts a key and is empty under `--no-send` |
| Root.LogBodyHoldsEarlierLines | src/deploy-files/cmd/root.go:307-317 | the uploaded log body contains every line logged before the upload |
| Root.CleanupGuard | src/deploy-files/cmd/root.go:556-579 | files are removed exactly when the working directory is known, does not contain the project name and can be listed |
| Root.ReplyTo | src/deploy-files/cmd/root.go:351-365 | one answer proceeds exactly when it is "y" after lower-casing and trimming, and stops exactly when it is "n" or blank |
| Root.Replies | src/deploy-files/cmd/root.go:350-366 | one reply per answer, each the reply to that answer |
| Root.ConfirmDecides | src/deploy-files/cmd/root.go:333-366 | the prompt loop decides as the first decisive reply does |
| Root.FirstProceedDecides | src/deploy-files/cmd/root.go:333-366 | a "y" with only undecided answers before it makes the prompt proceed |
| Root.DecidesFirstProceed | src/deploy-files/cmd/root.go:333-366 | a prompt that proceeds has such a first "y" |
| Root.ConfirmFirstDecisive | src/deploy-files/cmd/root.go:333-366 | the prompt proceeds exactly when the first answer that is "y", "n" or blank is "y" |
| Root.AnswerIsLower | src/deploy-files/cmd/root.go:338-356 | a normalised answer is already lower case, and the loop's validity test holds exactly for "y" and "n" |
| Root.ServerFailedNeedsYes | src/deploy-files/cmd/root.go:333-373 | after a failed key upload, cleanup happens only when `--remove-files` is set and some answer was "y" |
| Root.PolicyPostsNothing | src/deploy-files/cmd/root.go:582-607 | the policy step posts nothing to the server |
| Root.AccountPostsNothing | src/deploy-files/cmd/root.go:418-448 | one account's creation posts nothing to the server |
| Root.AccountsPostNothing | src/deploy-files/cmd/root.go:411-450 | the account stage posts nothing to the server |
| Root.SearchPostsNothing | src/deploy-files/cmd/root.go:186-201 | the search walk posts nothing to the server |
| Root.MountPostsNothing | src/deploy-files/cmd/root.go:204-217 | mounting disk images posts nothing to the server |
| Root.PackagesPostNothing | src/deploy-files/cmd/root.go:453-477 | package installation posts nothing to the server |
| Root.ScriptsPostNothing | src/deploy-files/cmd/root.go:609-623 | a script phase posts nothing to the server |
| Root.Journal.constructor | src/deploy-files/logger/log.go:30-60 | a new run log holds no events |
| Root.RootData.constructor | src/deploy-files/cmd/root.go:138-151 | the run starts with the configured package map lowered, an empty script cache, the configured policy, no failures and an empty log |
| Root.RootData.InitSudo | src/deploy-files/cmd/root.go:173-176 | appends the sudo initialisation and, when it fails, a warning with its error |
| Root.RootData.ApplyPasswordPolicy | src/deploy-files/cmd/root.go:582-607 | appends exactly the policy events of the configured plist path or policy string for the user |
| Root.RootData.BuildAndApplyPolicy | src/deploy-files/cmd/root.go:444-447 | applies the string the as-written BuildCommand returns on the current settings, and leaves those settings clamped |
| Root.RootData.AccountStep | src/deploy-files/cmd/root.go:418-448 | appends exactly one account's creation, token, deletion and policy events, the policy built from the settings as they stand; the settings are clamped exactly when this account reaches its policy step |
| Root.RootData.StartAccountCreation | src/deploy-files/cmd/root.go:411-450 | visits every configured account exactly once and appends the account stage events in that order, each policy built from the settings left by the accounts before it |
| Root.RootData.CreateInOrder | src/deploy-files/cmd/root.go:417-449 | appends the events of each account of the given order, one after another, each with the policy string of the settings left by the accounts before it, and leaves the settings as `PolicyAfter` says |
| Root.RootData.CollectSearchFiles | src/deploy-files/cmd/root.go:186-201 | returns the files of every listable search directory in order and warns once per missing directory |
| Root.RootData.MountImages | src/deploy-files/cmd/root.go:204-217 | appends the disk image listing, attach and copy events |
| Root.RootData.StartPackageInstallation | src/deploy-files/cmd/root.go:453-477 | a Rosetta failure leaves the package map alone; otherwise the map gets the include option and the as-written exclude applied; installs only packages of that map and appends the package events |
| Root.RootData.InstallFound | src/deploy-files/cmd/root.go:460-476 | the package map becomes `Desired`: AddPackages with the include option, then the as-written RemovePackages with the exclude option; installs only packages of that map, from the found files |
| Root.RootData.InstallListed | src/deploy-files/cmd/root.go:464-476 | installs, in some order of the map, the packages found in the listing and the search files |
| Root.RootData.CopyApps | src/deploy-files/cmd/root.go:222-229 | appends the application copy events |
| Root.RootData.ScriptStep | src/deploy-files/cmd/root.go:610-621 | runs one script name, updating the cache and appending its lookup, command and log line |
| Root.RootData.ExecuteScripts | src/deploy-files/cmd/root.go:609-623 | runs every script name in order, carrying the path cache from one to the next, and leaves the package map alone |
| Root.RootData.ScriptPhase | src/deploy-files/cmd/root.go:232-236 | a phase runs only when it has names and no earlier script search failed, logging the names first |
| Root.RootData.PrepareScripts | src/deploy-files/cmd/root.go:155-170 | lists the scripts, marking the scripts failed and logging when the listing fails, then runs the pre phase |
| Root.RootData.FindScripts | src/deploy-files/cmd/root.go:155-163 | a failed script listing is logged, leaves no script files and marks the scripts failed |
| Root.RootData.StartFileVault | src/deploy-files/cmd/root.go:480-498 | returns the FileVault key of this run and appends the FileVault events |
| Root.RootData.StartFirewall | src/deploy-files/cmd/root.go:500-517 | appends the firewall status check and, when needed, the enable command with their log lines |
| Root.RootData.StartRequest | src/deploy-files/cmd/root.go:520-553 | returns the request's error and appends its verification, post and log events |
| Root.RootData.SendKey | src/deploy-files/cmd/root.go:279-295 | uploads the key and reports whether that failed |
| Root.RootData.RecheckFileVault | src/deploy-files/cmd/root.go:296-306 | with no key, re-checks FileVault and warns when it is off |
| Root.RootData.SendLog | src/deploy-files/cmd/root.go:307-320 | unless `--no-send`, writes the log and uploads its content as it stands |
| Root.RootData.SendResults | src/deploy-files/cmd/root.go:277-320 | the send phase marks the server failed exactly when the key upload fails, and then skips the log upload |
| Root.RootData.Provision | src/deploy-files/cmd/root.go:173-246 | the stages before FileVault post nothing to the server; the accounts are visited in an order of exactly the configured keys, and the policy settings are left as `PolicyAfter` over that order says |
| Root.RootData.ProvisionAccounts | src/deploy-files/cmd/root.go:173-180 | sudo, the account stage and a checkpoint post nothing; the account order holds exactly the configured keys, and the settings are left as `PolicyAfter` says |
| Root.RootData.ProvisionPackages | src/deploy-files/cmd/root.go:186-219 | the search walk, disk images and packages post nothing |
| Root.RootData.ProvisionScripts | src/deploy-files/cmd/root.go:222-246 | the applications, inter scripts, checkpoint and second sudo post nothing |
| Root.RootData.FinishStages | src/deploy-files/cmd/root.go:251-275 | FileVault when configured, a checkpoint, the firewall when configured, the admin policy, built by the as-written BuildCommand on the settings as they stand, when configured, and the key when FileVault ran |
| Root.RootData.Run | src/deploy-files/cmd/root.go:172-321 | everything up to FileVault posts nothing; then the late stages, whose admin policy is built from the settings the account stage left, and the send phase; the server is marked failed exactly when the key upload fails |
| Root.RootData.Confirm | src/deploy-files/cmd/root.go:333-366 | the prompt loop proceeds exactly as the reference decision over the answers does |
| Root.RootData.StartCleanup | src/deploy-files/cmd/root.go:556-579 | removes the deployment files only under the guard of CleanupGuard |
| Root.RootData.PostRun | src/deploy-files/cmd/root.go:322-375 | runs the post scripts, then cleans up when asked, asking first when the key upload failed |

## Left out

- The operating system is a pure oracle. The same command always gives the same outcome, so a command whose outcome depends on an earlier command's side effect is not modelled. The model also does not tell standard output from combined output.
- Console output (`fmt.Printf`, `fmt.Println`) is left out, and so is what components log through their own logger. The free-function logger calls of pkg.go are among these. The orchestrator's own log lines are modelled.
- Standard input is a parameter, and the read error of `ReadString` is not modelled. For the y/n prompt, standard input is a sequence of lines, and an exhausted input reads as a blank answer. In users.go it is the text `ReadString` returned, newline included. Reading nothing there panics, as Go's slice does.
- Directory walks, `os.ReadDir`, `os.Getwd`, `runtime.GOARCH` and the working directory's listing are inputs (`Root.Env` and method parameters). `fs.WalkDir` itself is left out.
- The HTTP client (server-requests) is left out; VerifyConnection and POSTData are the oracles `verifyConnection` and `postData`. JSON encoding, TLS and the payload setters are left out too.
- The user maker's CreateAccount and DeleteAccount, the FileVault object's Status, Enable and AddSecureToken, utils.GetFiles and the two-argument RemoveFiles that root.go calls are oracles. Their signatures are an API newer than the one users.go and filevault.go show. users.go and filevault.go are modelled on their own, as written.
- InitializeSudo is an oracle error value. The embedded bash scripts are opaque command text.
- PreRun's YAML parsing, serial-tag lookup and log-path set-up are left out of `Root`. Their parts are modelled on their own: `Config.ValidateYAML`, `Utils.GetSerialTag`, `Logs.FormatLogPath`.
- Lower-casing is ASCII only. Go's Unicode `strings.ToLower` and `unicode.IsSpace` differ on other characters.
- `time.Now` and the log-line time stamps are left out. The date is a parameter of `Logs.FileName`.
- Go format verbs are not interpreted. Each log message is built by concatenation in `Root.MessageText`, with the verbs written out as their Go rendering. The firewall message keeps the `%!(EXTRA int=3)` tail that fmt appends: root.go:504 passes an operand to a format with no verb.
- installer.go is not part of this model. Its methods duplicate filehandler.go and dmg.go.
- moveToDesktop (users.go:130-145) is left out: it is a file move with no decision in it.
- The getters GetPackages, GetAllPackages and GetScriptCache have no members of their own. They are the fields `packagesToInstall` and `scriptsPathCache`.
- CopyFiles, the `cp -r` copies and the deletions of the two-argument RemoveFiles are single events in the journal. What they do on disk is left out.
- `Root.RootData` records the run in a `Journal` of events rather than in the `Logs.Log` class. The two relate through `Root.CheckpointsNest`, the journal's form of `Logs.CheckpointsNest`. Debug lines enter the journal whatever the verbosity, as silent lines still enter the buffer in log.go.
- Root.MapOrder: Go's random map order is chosen once, up front, as an arbitrary duplicate-free order of the keys. The account and package stages are proved for every such order.
- FileVault.NormalizeStatus: its contract is stated by the lemmas `FileVault.NormalizedStatusShape` and `FileVault.StatusIdempotent`.
- Utils.Deletions: its own contract only bounds its length. `Utils.DeletionsSelected` (every deletion was selected) and `Utils.DeletionsComplete` (every selected entry is deleted) state its contents.
- Dmg.Mounted: its own contract only bounds its length. Its contents are stated by the lemmas `Dmg.MountedFromSuccess` (every volume comes from a successful attach), `Dmg.MountedComplete` (every successful attach gives its volume) and `Dmg.MountedAll`.
- Root.ScriptLookup: its own contract only bounds the commands. `Root.ScriptLookupRan` ties it to ExecuteScript's cache behaviour.
- Some loops are split into helper methods (`Root.RootData.CreateInOrder`, `InstallListed`, `FindScripts`, `Users.CreateNamed`, `FileHandling.FileHandler.VisitPackage`) so that each proof stays small. The statements and their order are those of the Go functions.

## Findings

`Root` follows the code as written: it calls the as-written BuildCommand and
RemovePackages, as root.go:272, :445 and :462 do. Each corrected member states
the intended behaviour on its own and has the intended property proved about it.

| source | as written | input that shows it | evidently intended | confidence | as-written member | corrected member |
|---|---|---|---|---|---|---|
| src/deploy-files/core/filehandler.go:97-106 | RemovePackages looks up the lower-cased name but deletes the name as given | `--exclude TeamViewer.pkg` with the package `teamviewer.pkg` in the map: the map is unchanged | the lower-cased name is deleted, so exclusion ignores case | not executed | FileHandling.ExcludeAsWrittenKeepsMixedCase | FileHandling.FileHandler.RemovePackages |
| src/deploy-files/core/scripts.go:81 | the "Unable to find" warning is guarded by `!success \|\| !fail`, and the two flags are never both set | any name whose first matching script runs and succeeds still gets the warning | warn only for a name no path matched | not executed | Scripts.ExecuteScriptsAsWritten | Scripts.ExecuteScripts |
| src/deploy-files/yaml/policies.go:56-60 | a history above 15 is clamped in the receiver but not emitted by the call that clamps it | `reuse_password: 20`: the first command has no `usingHistory`, the second has `usingHistory=15` | the clamped value is emitted at once, so every call builds the same command | not executed | Policies.HistoryAboveLimitAsWritten | Policies.HistoryCorrected |
| src/deploy-files/logger/log.go:156,175 | a path whose only component is a file under the root leaves an empty directory path, which is then indexed | `/x.log`: index out of range on `logPath[0]` | fall back to the default log directory | not executed | Logs.LogPathPanicsOnRootFile | Logs.LogPathCorrectedOnRootFile |
