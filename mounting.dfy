/** Mounting a camera's block device, releasing it, and the copy of its
    contents into the staging directory. Both copies of the mount helper are
    modelled here: the later one (`fallback`) asks `findmnt` for an existing
    mount when the mount command fails and accepts an explicit file list when
    copying; the earlier one does neither. */
module Mounting {
  import opened Wrappers
  import opened Strings
  import opened PosixPath

  /** What `mount_block_device`, `unmount` and the copy raise. */
  datatype MountError =
    | DeviceNotFound(device: string)                   // FileNotFoundError, before any mount
    | CommandFailed(argv: seq<string>, exitCode: int)  // CalledProcessError from check=True

  /** `label or os.path.basename(device)`: an empty label counts as absent. */
  function MountName(device: string, volumeLabel: Option<string>): string {
    if volumeLabel.Some? && volumeLabel.value != "" then volumeLabel.value else Basename(device)
  }

  function MountPath(device: string, base: string, volumeLabel: Option<string>): string {
    Join(base, MountName(device, volumeLabel))
  }

  function MountOptions(readonly: bool): string {
    if readonly then "ro" else "rw"
  }

  function MountCommand(device: string, base: string, readonly: bool, volumeLabel: Option<string>): seq<string> {
    ["mount", "-o", MountOptions(readonly), device, MountPath(device, base, volumeLabel)]
  }

  function FindmntCommand(device: string): seq<string> {
    ["findmnt", "-n", "-o", "TARGET", device]
  }

  /** What `mount_block_device` returns or raises, given whether the device
      node exists, the mount command's exit status, and (for the variant with
      the fallback) the standard output of `findmnt`, `None` when running it
      raised. */
  function MountOutcome(deviceExists: bool, device: string, base: string, readonly: bool, volumeLabel: Option<string>,
                        fallback: bool, mountExit: int, findmnt: Option<string>): Result<string, MountError>
  {
    if !deviceExists then Failure(DeviceNotFound(device))
    else if mountExit == 0 then Success(MountPath(device, base, volumeLabel))
    else if fallback && findmnt.Some? && Strip(findmnt.value) != "" then Success(Strip(findmnt.value))
    else Failure(CommandFailed(MountCommand(device, base, readonly, volumeLabel), mountExit))
  }

  /** The commands `mount_block_device` runs. */
  function MountIssued(deviceExists: bool, device: string, base: string, readonly: bool, volumeLabel: Option<string>,
                       fallback: bool, mountExit: int): seq<seq<string>>
  {
    if !deviceExists then []
    else if mountExit == 0 || !fallback then [MountCommand(device, base, readonly, volumeLabel)]
    else [MountCommand(device, base, readonly, volumeLabel), FindmntCommand(device)]
  }

  lemma NoSeparatorNotAbsolute(s: string)
    requires '/' !in s
    ensures !StartsWith(s, "/")
  {
    if |s| > 0 {
      assert s[0] in s;
      assert s[..1] == [s[0]];
    }
  }

  /** The mount point is `mount_base/(label or basename(device))`: it lies
      under the base and its last component is the label, or the device's own
      name when no label is given. */
  lemma MountPathShape(device: string, base: string, volumeLabel: Option<string>)
    ensures var p := MountPath(device, base, volumeLabel);
      && ((volumeLabel.None? || volumeLabel.value == "") ==> StartsWith(p, base) && Basename(p) == Basename(device))
      && (volumeLabel.Some? && volumeLabel.value != "" && '/' !in volumeLabel.value ==> StartsWith(p, base) && Basename(p) == volumeLabel.value)
  {
    var name := MountName(device, volumeLabel);
    if volumeLabel.None? || volumeLabel.value == "" {
      NoSeparatorNotAbsolute(Basename(device));
      JoinStaysUnderBase(base, name);
      BasenameOfJoin(base, name);
    } else if '/' !in volumeLabel.value {
      NoSeparatorNotAbsolute(volumeLabel.value);
      JoinStaysUnderBase(base, name);
      BasenameOfJoin(base, name);
    }
  }

  /** The behaviour both variants share: a missing device raises before any
      command runs, a successful mount returns the computed mount point with
      the requested options, and the result is never a different error. */
  lemma MountOutcomeShared(deviceExists: bool, device: string, base: string, readonly: bool, volumeLabel: Option<string>,
                           fallback: bool, mountExit: int, findmnt: Option<string>)
    ensures var r := MountOutcome(deviceExists, device, base, readonly, volumeLabel, fallback, mountExit, findmnt);
      && (!deviceExists <==> r == Failure(DeviceNotFound(device)))
      && (!deviceExists ==> MountIssued(deviceExists, device, base, readonly, volumeLabel, fallback, mountExit) == [])
      && (deviceExists && mountExit == 0 ==> r == Success(MountPath(device, base, volumeLabel)))
      && (deviceExists ==> MountIssued(deviceExists, device, base, readonly, volumeLabel, fallback, mountExit)[0]
                             == ["mount", "-o", if readonly then "ro" else "rw", device, MountPath(device, base, volumeLabel)])
      && (r.Failure? && deviceExists ==> r.error == CommandFailed(MountCommand(device, base, readonly, volumeLabel), mountExit))
  {
  }

  /** The variant without the fallback: a failed mount always propagates. */
  lemma MountWithoutFallbackPropagates(device: string, base: string, readonly: bool, volumeLabel: Option<string>,
                                       mountExit: int, findmnt: Option<string>)
    requires mountExit != 0
    ensures MountOutcome(true, device, base, readonly, volumeLabel, false, mountExit, findmnt)
            == Failure(CommandFailed(MountCommand(device, base, readonly, volumeLabel), mountExit))
    ensures MountIssued(true, device, base, readonly, volumeLabel, false, mountExit) == [MountCommand(device, base, readonly, volumeLabel)]
  {
  }

  /** The variant with the fallback: after a failed mount it returns the
      stripped `findmnt` target when there is one, and otherwise re-raises the
      mount failure (also when `findmnt` itself raised). */
  lemma MountFallbackUsesExistingMount(device: string, base: string, readonly: bool, volumeLabel: Option<string>,
                                       mountExit: int, findmnt: Option<string>)
    requires mountExit != 0
    ensures var r := MountOutcome(true, device, base, readonly, volumeLabel, true, mountExit, findmnt);
      && (r.Success? <==> findmnt.Some? && Strip(findmnt.value) != "")
      && (r.Success? ==> r.value == Strip(findmnt.value) && r.value != "")
      && (r.Failure? ==> r.error == CommandFailed(MountCommand(device, base, readonly, volumeLabel), mountExit))
    ensures MountIssued(true, device, base, readonly, volumeLabel, true, mountExit)
            == [MountCommand(device, base, readonly, volumeLabel), FindmntCommand(device)]
  {
  }

  /** The paths that exist after `mount_block_device`: a device that exists
      gets the mount base and the mount point created (`ensure_dir`) before
      the mount is tried, and they stay when it fails. */
  function PresentAfterMount(present: set<string>, device: string, base: string, volumeLabel: Option<string>): set<string> {
    if device in present then present + {base, MountPath(device, base, volumeLabel)} else present
  }

  /** The mount table after `mount_block_device`: only a successful mount
      adds its mount point; a mount reused from `findmnt` is already there. */
  function PointsAfterMount(points: set<string>, deviceExists: bool, device: string, base: string,
                            volumeLabel: Option<string>, mountExit: int): set<string>
  {
    if deviceExists && mountExit == 0 then points + {MountPath(device, base, volumeLabel)} else points
  }

  /** The commands `unmount` runs: `umount` only for a mount point. */
  function UnmountIssued(path: string, points: set<string>): seq<seq<string>> {
    if path in points then [["umount", path]] else []
  }

  /** The mount table after `unmount`: a mount point leaves it when `umount`
      exits with 0. */
  function PointsAfterUnmount(path: string, points: set<string>, umountExit: int): set<string> {
    if path in points && umountExit == 0 then points - {path} else points
  }

  /** Mounting a path that was not mounted and releasing it with a
      successful `umount` leaves the mount table as it was. */
  lemma MountThenUnmountRestoresTable(points: set<string>, device: string, base: string, volumeLabel: Option<string>)
    requires MountPath(device, base, volumeLabel) !in points
    ensures var p := MountPath(device, base, volumeLabel);
      PointsAfterUnmount(p, PointsAfterMount(points, true, device, base, volumeLabel, 0), 0) == points
      && UnmountIssued(p, PointsAfterMount(points, true, device, base, volumeLabel, 0)) == [["umount", p]]
  {
    var p := MountPath(device, base, volumeLabel);
    assert (points + {p}) - {p} == points;
  }

  /** How `MountedDevice` ends: the mount raised, or the body ran and either
      returned or raised. An unmount failure is never among them. */
  datatype ScopeOutcome = MountRaised(error: MountError) | BodyReturned(path: string) | BodyRaised(path: string)

  /** The host: the paths that exist, the current mount points, and every
      command run so far. */
  class Host {
    var present: set<string>
    var mountPoints: set<string>
    var issued: seq<seq<string>>

    constructor (present: set<string>, mountPoints: set<string>)
      ensures this.present == present && this.mountPoints == mountPoints && issued == []
    {
      this.present := present;
      this.mountPoints := mountPoints;
      issued := [];
    }

    /** `mount_block_device`; `mountExit` and `findmnt` stand for the results
        of the external commands. */
    method MountBlockDevice(device: string, base: string, readonly: bool, volumeLabel: Option<string>,
                            fallback: bool, mountExit: int, findmnt: Option<string>)
      returns (r: Result<string, MountError>)
      modifies this
      ensures r == MountOutcome(device in old(present), device, base, readonly, volumeLabel, fallback, mountExit, findmnt)
      ensures issued == old(issued) + MountIssued(device in old(present), device, base, readonly, volumeLabel, fallback, mountExit)
      ensures present == PresentAfterMount(old(present), device, base, volumeLabel)
      ensures mountPoints == PointsAfterMount(old(mountPoints), device in old(present), device, base, volumeLabel, mountExit)
    {
      if device !in present {
        return Failure(DeviceNotFound(device));
      }
      present := present + {base};
      var name := if volumeLabel.Some? && volumeLabel.value != "" then volumeLabel.value else Basename(device);
      var mountPath := Join(base, name);
      present := present + {mountPath};
      var opts := if readonly then "ro" else "rw";
      var cmd := ["mount", "-o", opts, device, mountPath];
      issued := issued + [cmd];
      if mountExit == 0 {
        mountPoints := mountPoints + {mountPath};
        return Success(mountPath);
      }
      if fallback {
        issued := issued + [["findmnt", "-n", "-o", "TARGET", device]];
        if findmnt.Some? {
          var cand := Strip(findmnt.value);
          if cand != "" {
            return Success(cand);
          }
        }
      }
      return Failure(CommandFailed(cmd, mountExit));
    }

    /** `unmount`: runs `umount` only when the path is a mount point. */
    method Unmount(path: string, umountExit: int) returns (r: Result<(), MountError>)
      modifies this
      ensures present == old(present)
      ensures issued == old(issued) + UnmountIssued(path, old(mountPoints))
      ensures mountPoints == PointsAfterUnmount(path, old(mountPoints), umountExit)
      ensures path !in old(mountPoints) ==>
        r.Success? && issued == old(issued) && mountPoints == old(mountPoints)
      ensures path in old(mountPoints) ==> issued == old(issued) + [["umount", path]]
      ensures path in old(mountPoints) && umountExit == 0 ==>
        r.Success? && mountPoints == old(mountPoints) - {path}
      ensures path in old(mountPoints) && umountExit != 0 ==>
        r == Failure(CommandFailed(["umount", path], umountExit)) && mountPoints == old(mountPoints)
    {
      if path in mountPoints {
        issued := issued + [["umount", path]];
        if umountExit != 0 {
          return Failure(CommandFailed(["umount", path], umountExit));
        }
        mountPoints := mountPoints - {path};
      }
      return Success(());
    }

    /** `MountedDevice`: mount, run the body (whose outcome is an input),
        and on the way out, normal or exceptional, unmount exactly when a
        non-empty mount path was obtained — also one reused from `findmnt`,
        which is then released although this scope did not mount it —
        swallowing any unmount failure. */
    method WithMountedDevice(device: string, base: string, readonly: bool, volumeLabel: Option<string>,
                             fallback: bool, mountExit: int, findmnt: Option<string>,
                             bodyRaises: bool, umountExit: int)
      returns (outcome: ScopeOutcome, unmountAttempted: bool)
      modifies this
      ensures var m := MountOutcome(device in old(present), device, base, readonly, volumeLabel, fallback, mountExit, findmnt);
        && (m.Failure? ==> outcome == MountRaised(m.error))
        && (m.Success? ==> outcome == if bodyRaises then BodyRaised(m.value) else BodyReturned(m.value))
        && (unmountAttempted <==> m.Success? && m.value != "")
      ensures var m := MountOutcome(device in old(present), device, base, readonly, volumeLabel, fallback, mountExit, findmnt);
        var mounted := PointsAfterMount(old(mountPoints), device in old(present), device, base, volumeLabel, mountExit);
        && issued == old(issued) + MountIssued(device in old(present), device, base, readonly, volumeLabel, fallback, mountExit)
                                 + (if unmountAttempted then UnmountIssued(m.value, mounted) else [])
        && mountPoints == if unmountAttempted then PointsAfterUnmount(m.value, mounted, umountExit) else mounted
      ensures present == PresentAfterMount(old(present), device, base, volumeLabel)
    {
      var mountPath: Option<string> := None;
      var r := MountBlockDevice(device, base, readonly, volumeLabel, fallback, mountExit, findmnt);
      if r.Failure? {
        outcome := MountRaised(r.error);
      } else {
        mountPath := Some(r.value);
        outcome := if bodyRaises then BodyRaised(r.value) else BodyReturned(r.value);
      }
      unmountAttempted := false;
      if mountPath.Some? && mountPath.value != "" {
        unmountAttempted := true;
        var _ := Unmount(mountPath.value, umountExit);
      }
    }
  }

  // ------------------------------------------------------ copy to staging

  /** A top-level entry of the mounted filesystem, as `os.listdir` and
      `os.path.isdir` report it. */
  datatype Entry = Entry(name: string, isDir: bool)

  /** One step of the copy; none of them removes anything from the source. */
  datatype CopyAction =
    | RunRsync(argv: seq<string>)
    | CopyFile(from: string, to: string)   // shutil.copy2
    | CopyTree(from: string, to: string)   // shutil.copytree(dirs_exist_ok=True)
    | WriteListFile(file: string, text: string)
    | RemoveListFile(file: string)

  /** The text written to the `--files-from` file: each path followed by a
      newline. */
  function ListFileText(files: seq<string>): string {
    if files == [] then "" else files[0] + "\n" + ListFileText(files[1..])
  }

  lemma {:induction false} SplitOnAfterLine(f: string, t: string)
    requires '\n' !in f
    ensures SplitOn(f + "\n" + t, '\n') == [f] + SplitOn(t, '\n')
  {
    if f == [] {
      assert f + "\n" + t == ['\n'] + t;
      assert (['\n'] + t)[1..] == t;
    } else {
      assert (f + "\n" + t)[1..] == f[1..] + "\n" + t;
      assert f[1..] + "\n" + t != [] && (f + "\n" + t)[0] == f[0] && f[0] != '\n';
      SplitOnAfterLine(f[1..], t);
      assert [f[0]] + f[1..] == f;
    }
  }

  lemma {:induction false} SplitOnListFileText(files: seq<string>)
    requires forall k :: 0 <= k < |files| ==> '\n' !in files[k]
    ensures SplitOn(ListFileText(files), '\n') == files + [""]
  {
    if files != [] {
      SplitOnListFileText(files[1..]);
      SplitOnAfterLine(files[0], ListFileText(files[1..]));
      assert [files[0]] + (files[1..] + [""]) == files + [""];
    }
  }

  /** What rsync reads back from the list file, one path per line, is
      exactly the list, in order, as long as no path holds a newline. */
  lemma ListFileHoldsExactlyTheList(files: seq<string>)
    requires forall k :: 0 <= k < |files| ==> '\n' !in files[k]
    ensures SplitLines(ListFileText(files)) == files
  {
    var text := ListFileText(files);
    SplitOnListFileText(files);
    if files != [] {
      assert text == files[0] + "\n" + ListFileText(files[1..]);
      LastCharOfListFileText(files);
    }
  }

  lemma {:induction false} LastCharOfListFileText(files: seq<string>)
    requires files != []
    ensures |ListFileText(files)| > 0 && ListFileText(files)[|ListFileText(files)| - 1] == '\n'
  {
    if files[1..] != [] {
      LastCharOfListFileText(files[1..]);
    }
  }

  function RsyncTreeCommand(rsync: string, mountPath: string, stagingDir: string): seq<string> {
    [rsync, "-a", "--checksum", "--partial", Join(mountPath, ""), Join(stagingDir, "")]
  }

  function RsyncListCommand(rsync: string, listFile: string, mountPath: string, stagingDir: string): seq<string> {
    [rsync, "-a", "--partial", "--files-from", listFile, Join(mountPath, ""), Join(stagingDir, "")]
  }

  function EntryCopy(mountPath: string, stagingDir: string, e: Entry): CopyAction {
    if e.isDir then CopyTree(Join(mountPath, e.name), Join(stagingDir, e.name))
    else CopyFile(Join(mountPath, e.name), Join(stagingDir, e.name))
  }

  /** The listdir fallback: one copy per top-level entry. */
  function EntryCopies(mountPath: string, stagingDir: string, entries: seq<Entry>): seq<CopyAction> {
    if entries == [] then []
    else EntryCopies(mountPath, stagingDir, entries[..|entries| - 1])
           + [EntryCopy(mountPath, stagingDir, entries[|entries| - 1])]
  }

  /** The file-list fallback: one file copy per listed relative path. */
  function FileCopies(mountPath: string, stagingDir: string, files: seq<string>): seq<CopyAction> {
    if files == [] then []
    else FileCopies(mountPath, stagingDir, files[..|files| - 1])
           + [CopyFile(Join(mountPath, files[|files| - 1]), Join(stagingDir, files[|files| - 1]))]
  }

  /** What `copy_to_staging` does: rsync when asked for and found on the
      path (`which` returns `None` or a path), otherwise the per-entry or
      per-file copies. A non-empty file list (later variant only; the earlier
      one behaves as if it were `None`) selects the `--files-from` form.
      `listFile` is the name of the temporary file holding the list. */
  function CopyPlan(mountPath: string, stagingDir: string, useRsync: bool, rsyncPath: Option<string>,
                    filesList: Option<seq<string>>, listFile: string, entries: seq<Entry>): seq<CopyAction>
  {
    var rsync := useRsync && rsyncPath.Some? && rsyncPath.value != "";
    if filesList.Some? && filesList.value != [] then
      if rsync then [RunRsync(RsyncListCommand(rsyncPath.value, listFile, mountPath, stagingDir))]
      else FileCopies(mountPath, stagingDir, filesList.value)
    else if rsync then [RunRsync(RsyncTreeCommand(rsyncPath.value, mountPath, stagingDir))]
    else EntryCopies(mountPath, stagingDir, entries)
  }

  /** Every step of `copy_to_staging`: a non-empty file list is first
      written to the temporary list file, which is removed afterwards, also
      when rsync fails. */
  function CopySteps(mountPath: string, stagingDir: string, useRsync: bool, rsyncPath: Option<string>,
                     filesList: Option<seq<string>>, listFile: string, entries: seq<Entry>): seq<CopyAction>
  {
    var plan := CopyPlan(mountPath, stagingDir, useRsync, rsyncPath, filesList, listFile, entries);
    if filesList.Some? && filesList.value != [] then
      [WriteListFile(listFile, ListFileText(filesList.value))] + plan + [RemoveListFile(listFile)]
    else plan
  }

  /** rsync runs with `check=True`: a non-zero exit raises
      `CalledProcessError`; the per-file copies are taken to succeed. */
  function CopyResult(plan: seq<CopyAction>, rsyncExit: int): Result<(), MountError> {
    if |plan| == 1 && plan[0].RunRsync? && rsyncExit != 0 then Failure(CommandFailed(plan[0].argv, rsyncExit))
    else Success(())
  }

  /** `copy_to_staging`, returning its steps in the order it takes them and
      whether it raised; `rsyncExit` is rsync's exit status when it runs. */
  method CopyToStaging(mountPath: string, stagingDir: string, useRsync: bool, rsyncPath: Option<string>,
                       filesList: Option<seq<string>>, listFile: string, entries: seq<Entry>, rsyncExit: int)
    returns (actions: seq<CopyAction>, r: Result<(), MountError>)
    ensures actions == CopySteps(mountPath, stagingDir, useRsync, rsyncPath, filesList, listFile, entries)
    ensures r == CopyResult(CopyPlan(mountPath, stagingDir, useRsync, rsyncPath, filesList, listFile, entries), rsyncExit)
  {
    var src := Join(mountPath, "");
    var dst := Join(stagingDir, "");
    actions := [];
    r := Success(());
    if filesList.Some? && filesList.value != [] {
      var text := "";
      var j := 0;
      while j < |filesList.value|
        invariant 0 <= j <= |filesList.value|
        invariant text + ListFileText(filesList.value[j..]) == ListFileText(filesList.value)
      {
        assert filesList.value[j..][1..] == filesList.value[j + 1..];
        text := text + filesList.value[j] + "\n";
        j := j + 1;
      }
      assert filesList.value[j..] == [];
      assert text == ListFileText(filesList.value) by {
        assert text + "" == text;
      }
      var tmpname := listFile;
      if useRsync && rsyncPath.Some? && rsyncPath.value != "" {
        var cmd := [rsyncPath.value, "-a", "--partial", "--files-from", tmpname, src, dst];
        actions := [RunRsync(cmd)];
        if rsyncExit != 0 {
          r := Failure(CommandFailed(cmd, rsyncExit));
        }
      } else {
        var files := filesList.value;
        var i := 0;
        while i < |files|
          invariant 0 <= i <= |files|
          invariant actions == FileCopies(mountPath, stagingDir, files[..i])
        {
          assert files[..i + 1][..i] == files[..i];
          var s := Join(mountPath, files[i]);
          var d := Join(stagingDir, files[i]);
          actions := actions + [CopyFile(s, d)];
          i := i + 1;
        }
        assert files[..i] == files;
      }
      actions := [WriteListFile(tmpname, text)] + actions + [RemoveListFile(tmpname)];
    } else {
      if useRsync && rsyncPath.Some? && rsyncPath.value != "" {
        var cmd := [rsyncPath.value, "-a", "--checksum", "--partial", src, dst];
        actions := [RunRsync(cmd)];
        if rsyncExit != 0 {
          r := Failure(CommandFailed(cmd, rsyncExit));
        }
      } else {
        var i := 0;
        while i < |entries|
          invariant 0 <= i <= |entries|
          invariant actions == EntryCopies(mountPath, stagingDir, entries[..i])
        {
          assert entries[..i + 1][..i] == entries[..i];
          var s := Join(mountPath, entries[i].name);
          var d := Join(stagingDir, entries[i].name);
          if entries[i].isDir {
            actions := actions + [CopyTree(s, d)];
          } else {
            actions := actions + [CopyFile(s, d)];
          }
          i := i + 1;
        }
        assert entries[..i] == entries;
      }
    }
  }

  /** The copy raises exactly when rsync was used and exited non-zero, and
      a file list travels to rsync through the list file, which is written
      before and removed after the copy. */
  lemma CopyStepsMeaning(mountPath: string, stagingDir: string, useRsync: bool, rsyncPath: Option<string>,
                         filesList: Option<seq<string>>, listFile: string, entries: seq<Entry>, rsyncExit: int)
    ensures var plan := CopyPlan(mountPath, stagingDir, useRsync, rsyncPath, filesList, listFile, entries);
      var steps := CopySteps(mountPath, stagingDir, useRsync, rsyncPath, filesList, listFile, entries);
      && (CopyResult(plan, rsyncExit).Failure? <==> useRsync && rsyncPath.Some? && rsyncPath.value != "" && rsyncExit != 0)
      && (filesList.Some? && filesList.value != [] ==>
            && steps[0] == WriteListFile(listFile, ListFileText(filesList.value))
            && steps[|steps| - 1] == RemoveListFile(listFile)
            && steps[1..|steps| - 1] == plan)
      && ((filesList.None? || filesList.value == []) ==> steps == plan)
      && (forall k :: 0 <= k < |plan| ==> !plan[k].WriteListFile? && !plan[k].RemoveListFile?)
  {
    var plan := CopyPlan(mountPath, stagingDir, useRsync, rsyncPath, filesList, listFile, entries);
    CopyPlanChoosesRsync(mountPath, stagingDir, useRsync, rsyncPath, filesList, listFile, entries);
    if !(useRsync && rsyncPath.Some? && rsyncPath.value != "") {
      if filesList.Some? && filesList.value != [] {
        FileCopiesKeepRelativePaths(mountPath, stagingDir, filesList.value);
      } else {
        EntryCopiesPlacement(mountPath, stagingDir, entries);
      }
    }
    if filesList.Some? && filesList.value != [] {
      var steps := CopySteps(mountPath, stagingDir, useRsync, rsyncPath, filesList, listFile, entries);
      assert steps[1..|steps| - 1] == plan;
    }
  }

  /** The listdir fallback copies every top-level entry, in listing order,
      from `mount_path/entry` to `staging_dir/entry`, as a tree exactly when
      it is a directory; a plain entry name lands directly under the staging
      directory under its own name. */
  lemma {:induction false} EntryCopiesPlacement(mountPath: string, stagingDir: string, entries: seq<Entry>)
    ensures var plan := EntryCopies(mountPath, stagingDir, entries);
      && |plan| == |entries|
      && forall k :: 0 <= k < |entries| ==>
           && plan[k].CopyTree? == entries[k].isDir
           && (plan[k].CopyTree? || plan[k].CopyFile?)
           && plan[k].from == Join(mountPath, entries[k].name)
           && plan[k].to == Join(stagingDir, entries[k].name)
           && ('/' !in entries[k].name ==>
                 StartsWith(plan[k].to, stagingDir) && Basename(plan[k].to) == entries[k].name)
  {
    if entries != [] {
      var init := entries[..|entries| - 1];
      EntryCopiesPlacement(mountPath, stagingDir, init);
      var e := entries[|entries| - 1];
      if '/' !in e.name {
        NoSeparatorNotAbsolute(e.name);
        JoinStaysUnderBase(stagingDir, e.name);
        BasenameOfJoin(stagingDir, e.name);
      }
      forall k | 0 <= k < |entries| - 1
        ensures entries[k] == init[k]
      {
      }
    }
  }

  /** The file-list fallback keeps each relative path: `rel` is copied from
      `mount_path/rel` to `staging_dir/rel`, which lies under the staging
      directory whenever `rel` is relative. */
  lemma {:induction false} FileCopiesKeepRelativePaths(mountPath: string, stagingDir: string, files: seq<string>)
    ensures var plan := FileCopies(mountPath, stagingDir, files);
      && |plan| == |files|
      && forall k :: 0 <= k < |files| ==>
           && plan[k] == CopyFile(Join(mountPath, files[k]), Join(stagingDir, files[k]))
           && (!StartsWith(files[k], "/") ==> StartsWith(plan[k].to, stagingDir))
  {
    if files != [] {
      var init := files[..|files| - 1];
      FileCopiesKeepRelativePaths(mountPath, stagingDir, init);
      var f := files[|files| - 1];
      if !StartsWith(f, "/") {
        JoinStaysUnderBase(stagingDir, f);
      }
      forall k | 0 <= k < |files| - 1
        ensures files[k] == init[k]
      {
      }
    }
  }

  /** rsync is used exactly when it was asked for and found, as a single
      command whose last two arguments are the mount and the staging
      directory with a trailing separator; an absent or empty file list
      behaves like the earlier variant. */
  lemma CopyPlanChoosesRsync(mountPath: string, stagingDir: string, useRsync: bool, rsyncPath: Option<string>,
                             filesList: Option<seq<string>>, listFile: string, entries: seq<Entry>)
    ensures var plan := CopyPlan(mountPath, stagingDir, useRsync, rsyncPath, filesList, listFile, entries);
      && (useRsync && rsyncPath.Some? && rsyncPath.value != "" <==> |plan| == 1 && plan[0].RunRsync?)
      && (useRsync && rsyncPath.Some? && rsyncPath.value != "" ==>
            var argv := plan[0].argv;
            argv[0] == rsyncPath.value && argv[|argv| - 2] == Join(mountPath, "") && argv[|argv| - 1] == Join(stagingDir, ""))
      && ((filesList.None? || filesList.value == []) ==>
            plan == CopyPlan(mountPath, stagingDir, useRsync, rsyncPath, None, listFile, entries))
  {
    var plan := CopyPlan(mountPath, stagingDir, useRsync, rsyncPath, filesList, listFile, entries);
    if !(useRsync && rsyncPath.Some? && rsyncPath.value != "") {
      if filesList.Some? && filesList.value != [] {
        FileCopiesKeepRelativePaths(mountPath, stagingDir, filesList.value);
      } else {
        EntryCopiesPlacement(mountPath, stagingDir, entries);
      }
      if |plan| == 1 {
        assert !plan[0].RunRsync?;
      }
    }
  }
}
