/** Disk images: finding `.dmg` files, attaching them with `hdiutil`, copying
    the mounted volumes into the distribution directory and detaching them.
    The disk-image helper and the file handler carry the same three loops. */
module Dmg {

  import opened Wrappers
  import opened Text
  import opened Commands

  /** The embedded find script listing the `.dmg` files under `dir`. */
  function FindDmgs(dir: string): Command
  {
    Embedded(FindFiles, false, [dir, "*.dmg"])
  }

  function AttachCommand(dmgPath: string): Command
  {
    Bash("hdiutil attach '" + dmgPath + "'")
  }

  function DetachCommand(volumePath: string): Command
  {
    Bash("hdiutil detach '" + volumePath + "'")
  }

  function CopyCommand(volumePath: string, pkgDirectory: string): Command
  {
    Bash("cp -r '" + volumePath + "' '" + pkgDirectory + "'")
  }

  /** The attach command of each image, in order. */
  function AttachCommands(dmgPaths: seq<string>): (r: seq<Command>)
    ensures |r| == |dmgPaths|
    ensures forall k :: 0 <= k < |r| ==> r[k] == AttachCommand(dmgPaths[k])
  {
    if dmgPaths == [] then [] else AttachCommands(dmgPaths[..|dmgPaths| - 1]) + [AttachCommand(Last(dmgPaths))]
  }

  /** The copy command of each volume into the directory, in order. */
  function CopyCommands(volumePaths: seq<string>, pkgDirectory: string): (r: seq<Command>)
    ensures |r| == |volumePaths|
    ensures forall k :: 0 <= k < |r| ==> r[k] == CopyCommand(volumePaths[k], pkgDirectory)
  {
    if volumePaths == [] then []
    else CopyCommands(volumePaths[..|volumePaths| - 1], pkgDirectory) + [CopyCommand(Last(volumePaths), pkgDirectory)]
  }

  /** The detach command of each volume, in order. */
  function DetachCommands(volumePaths: seq<string>): (r: seq<Command>)
    ensures |r| == |volumePaths|
    ensures forall k :: 0 <= k < |r| ==> r[k] == DetachCommand(volumePaths[k])
  {
    if volumePaths == [] then [] else DetachCommands(volumePaths[..|volumePaths| - 1]) + [DetachCommand(Last(volumePaths))]
  }

  /** ReadDmgDirectory: the lines of the find output without the piece after
      the last newline; the command's error when it fails. */
  function ReadDmgDirectory(dir: string, shell: Shell): (r: Result<seq<string>>)
    ensures r.Failure? <==> !shell(FindDmgs(dir)).ok
    ensures r.Failure? ==> r.msg == shell(FindDmgs(dir)).err
    ensures r.Ok? ==> |r.value| == Count(shell(FindDmgs(dir)).output, '\n')
    ensures r.Ok? ==> forall k :: 0 <= k < |r.value| ==> '\n' !in r.value[k]
  {
    var o := shell(FindDmgs(dir));
    if !o.ok then Failure(o.err)
    else
      var lines := Split(o.output, '\n');
      Ok(lines[..|lines| - 1])
  }

  /** Output made of newline-terminated lines gives exactly those lines back. */
  lemma ReadDmgDirectoryLines(dir: string, shell: Shell, lines: seq<string>)
    requires shell(FindDmgs(dir)).ok
    requires |lines| >= 1 && forall k :: 0 <= k < |lines| ==> '\n' !in lines[k]
    requires shell(FindDmgs(dir)).output == Join(lines, "\n") + "\n"
    ensures ReadDmgDirectory(dir, shell) == Ok(lines)
  {
    SplitTrailing(Join(lines, "\n"), '\n');
    SplitJoin(lines, '\n');
    assert (lines + [""])[..|lines|] == lines;
  }

  /** Empty find output means no disk images. */
  lemma ReadDmgDirectoryEmpty(dir: string, shell: Shell)
    requires shell(FindDmgs(dir)).ok && shell(FindDmgs(dir)).output == ""
    ensures ReadDmgDirectory(dir, shell) == Ok([])
  {
  }

  /** The mount point in `hdiutil attach` output: its last tab-separated field, trimmed. */
  function VolumeOf(output: string): (r: string)
    ensures '\t' !in r
    ensures Contains(output, r)
  {
    VolumeInOutput(output);
    TrimSpace(Last(Split(output, '\t')))
  }

  lemma VolumeInOutput(output: string)
    ensures '\t' !in TrimSpace(Last(Split(output, '\t')))
    ensures Contains(output, TrimSpace(Last(Split(output, '\t'))))
  {
    var field := Last(Split(output, '\t'));
    var k := SplitLastIsSuffix(output, '\t');
    TrimmedSliceOccurs(output, k);
    assert '\t' !in field;
    TrimmedLacks(field, '\t');
  }

  /** The paths AttachDmgs tries: those containing ".dmg", in order. */
  function DmgPaths(paths: seq<string>): (r: seq<string>)
    ensures |r| <= |paths|
    ensures forall k :: 0 <= k < |r| ==> Contains(r[k], ".dmg")
    ensures forall x :: x in r <==> x in paths && Contains(x, ".dmg")
  {
    if paths == [] then []
    else
      var front := DmgPaths(paths[..|paths| - 1]);
      if Contains(Last(paths), ".dmg") then front + [Last(paths)] else front
  }

  /** The volumes of the images whose attach succeeded, in order. */
  function Mounted(dmgs: seq<string>, shell: Shell): (r: seq<string>)
    ensures |r| <= |dmgs|
  {
    if dmgs == [] then []
    else
      var front := Mounted(dmgs[..|dmgs| - 1], shell);
      var o := shell(AttachCommand(Last(dmgs)));
      if o.ok then front + [VolumeOf(o.output)] else front
  }

  /** Every volume comes from a successful attach of one of the images. */
  lemma {:induction false} MountedFromSuccess(dmgs: seq<string>, shell: Shell, v: string)
    requires v in Mounted(dmgs, shell)
    ensures exists i :: (0 <= i < |dmgs| && shell(AttachCommand(dmgs[i])).ok
      && v == VolumeOf(shell(AttachCommand(dmgs[i])).output))
  {
    var front := dmgs[..|dmgs| - 1];
    if v in Mounted(front, shell) {
      MountedFromSuccess(front, shell, v);
      var i :| 0 <= i < |front| && shell(AttachCommand(front[i])).ok
        && v == VolumeOf(shell(AttachCommand(front[i])).output);
      assert dmgs[i] == front[i];
    } else {
      assert dmgs[|dmgs| - 1] == Last(dmgs);
    }
  }

  /** The volumes of a prefix stay among the volumes of the whole. */
  lemma MountedGrows(dmgs: seq<string>, shell: Shell, v: string)
    requires |dmgs| > 0 && v in Mounted(dmgs[..|dmgs| - 1], shell)
    ensures v in Mounted(dmgs, shell)
  {
  }

  /** A successful last attach gives its volume. */
  lemma MountedLast(dmgs: seq<string>, shell: Shell)
    requires |dmgs| > 0 && shell(AttachCommand(Last(dmgs))).ok
    ensures VolumeOf(shell(AttachCommand(Last(dmgs))).output) in Mounted(dmgs, shell)
  {
  }

  /** Every image whose attach succeeds has its volume among the mounted ones. */
  lemma {:induction false} MountedComplete(dmgs: seq<string>, shell: Shell, i: int)
    requires 0 <= i < |dmgs| && shell(AttachCommand(dmgs[i])).ok
    ensures VolumeOf(shell(AttachCommand(dmgs[i])).output) in Mounted(dmgs, shell)
  {
    var front := dmgs[..|dmgs| - 1];
    if i < |front| {
      assert front[i] == dmgs[i];
      MountedComplete(front, shell, i);
      MountedGrows(dmgs, shell, VolumeOf(shell(AttachCommand(dmgs[i])).output));
    } else {
      MountedLast(dmgs, shell);
    }
  }

  /** When every attach succeeds there is one volume per image. */
  lemma {:induction false} MountedAll(dmgs: seq<string>, shell: Shell)
    requires forall k :: 0 <= k < |dmgs| ==> shell(AttachCommand(dmgs[k])).ok
    ensures |Mounted(dmgs, shell)| == |dmgs|
  {
    if dmgs != [] {
      MountedAll(dmgs[..|dmgs| - 1], shell);
    }
  }

  /** One attach: the volume when `hdiutil` succeeds, nothing when it fails. */
  method AttachOne(dmgPath: string, shell: Shell) returns (volumePath: Option<string>)
    ensures shell(AttachCommand(dmgPath)).ok <==> volumePath.Some?
    ensures volumePath.Some? ==> volumePath.value == VolumeOf(shell(AttachCommand(dmgPath)).output)
  {
    var out := shell(AttachCommand(dmgPath));
    if !out.ok {
      return None;
    }
    var outArr := Split(out.output, '\t');
    var field := outArr[|outArr| - 1];
    assert field == Last(Split(out.output, '\t'));
    volumePath := Some(TrimSpace(field));
  }

  /** One more path considered: kept when it names an image. */
  lemma DmgPathKept(paths: seq<string>, i: int)
    requires 0 <= i < |paths| && Contains(paths[i], ".dmg")
    ensures DmgPaths(paths[..i + 1]) == DmgPaths(paths[..i]) + [paths[i]]
  {
    assert paths[..i + 1][..i] == paths[..i];
  }

  /** One more path considered: skipped when it names no image. */
  lemma DmgPathSkipped(paths: seq<string>, i: int)
    requires 0 <= i < |paths| && !Contains(paths[i], ".dmg")
    ensures DmgPaths(paths[..i + 1]) == DmgPaths(paths[..i])
  {
    assert paths[..i + 1][..i] == paths[..i];
  }

  /** One more image attached. */
  lemma AttachSnoc(dmgs: seq<string>, dmg: string, shell: Shell)
    ensures AttachCommands(dmgs + [dmg]) == AttachCommands(dmgs) + [AttachCommand(dmg)]
    ensures var o := shell(AttachCommand(dmg));
      Mounted(dmgs + [dmg], shell) == Mounted(dmgs, shell) + if o.ok then [VolumeOf(o.output)] else []
  {
    assert (dmgs + [dmg])[..|dmgs|] == dmgs;
  }

  /** AttachDmgs: attaches every path containing ".dmg", skipping failed ones. */
  method AttachDmgs(dmgPaths: seq<string>, shell: Shell) returns (volumePaths: seq<string>, ran: seq<Command>)
    ensures volumePaths == Mounted(DmgPaths(dmgPaths), shell)
    ensures ran == AttachCommands(DmgPaths(dmgPaths))
  {
    volumePaths, ran := [], [];
    for i := 0 to |dmgPaths|
      invariant volumePaths == Mounted(DmgPaths(dmgPaths[..i]), shell)
      invariant ran == AttachCommands(DmgPaths(dmgPaths[..i]))
    {
      if Contains(dmgPaths[i], ".dmg") {
        DmgPathKept(dmgPaths, i);
        AttachSnoc(DmgPaths(dmgPaths[..i]), dmgPaths[i], shell);
        ran := ran + [AttachCommand(dmgPaths[i])];
        var volumePath := AttachOne(dmgPaths[i], shell);
        if volumePath.Some? {
          volumePaths := volumePaths + [volumePath.value];
        }
      } else {
        DmgPathSkipped(dmgPaths, i);
      }
    }
    assert dmgPaths[..|dmgPaths|] == dmgPaths;
  }

  /** AddDmgPackages: copies every volume into the directory whatever earlier
      copies did; returns the volumes whose copy succeeded. */
  method AddDmgPackages(volumePaths: seq<string>, pkgDirectory: string, shell: Shell)
    returns (copied: seq<string>, ran: seq<Command>)
    ensures ran == CopyCommands(volumePaths, pkgDirectory)
    ensures forall v :: v in copied <==>
      exists k :: 0 <= k < |volumePaths| && v == volumePaths[k]
        && shell(CopyCommand(volumePaths[k], pkgDirectory)).ok
  {
    copied, ran := [], [];
    for i := 0 to |volumePaths|
      invariant ran == CopyCommands(volumePaths[..i], pkgDirectory)
      invariant forall v :: v in copied <==>
        exists k :: 0 <= k < i && v == volumePaths[k] && shell(CopyCommand(volumePaths[k], pkgDirectory)).ok
    {
      var cmd := CopyCommand(volumePaths[i], pkgDirectory);
      assert volumePaths[..i + 1][..i] == volumePaths[..i];
      ran := ran + [cmd];
      if !shell(cmd).ok {
        continue;
      }
      copied := copied + [volumePaths[i]];
    }
    assert volumePaths[..|volumePaths|] == volumePaths;
  }

  /** DetachDmgs: a detach for every volume, in order, whatever the earlier
      outcomes; returns the volumes left mounted. */
  method DetachDmgs(volumePaths: seq<string>, shell: Shell) returns (stillMounted: seq<string>, ran: seq<Command>)
    ensures ran == DetachCommands(volumePaths)
    ensures forall v :: v in stillMounted <==>
      exists k :: 0 <= k < |volumePaths| && v == volumePaths[k] && !shell(DetachCommand(volumePaths[k])).ok
  {
    stillMounted, ran := [], [];
    for i := 0 to |volumePaths|
      invariant ran == DetachCommands(volumePaths[..i])
      invariant forall v :: v in stillMounted <==>
        exists k :: 0 <= k < i && v == volumePaths[k] && !shell(DetachCommand(volumePaths[k])).ok
    {
      var cmd := DetachCommand(volumePaths[i]);
      assert volumePaths[..i + 1][..i] == volumePaths[..i];
      ran := ran + [cmd];
      if !shell(cmd).ok {
        stillMounted := stillMounted + [volumePaths[i]];
        continue;
      }
    }
    assert volumePaths[..|volumePaths|] == volumePaths;
  }
}
