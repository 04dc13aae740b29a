/** The service's local staging: free space from `df`, the camera files not
    yet copied, and the copy loop that stops before the disk gets too full. */
module LocalStaging {
  import opened Wrappers
  import opened Strings
  import opened PosixPath
  import opened Commands

  const LocalFilesDir: string := "/home/pi/camera-scripts/local_files/"
  const CameraFilesDir: string := "/mnt/cam/Normal/Front/"
  /** REMAINING_LOCAL_SPACE: one GiB must stay free after a copy. */
  const RemainingLocalSpace: int := 1024 * 1024 * 1024

  function Min(a: nat, b: nat): nat {
    if a < b then a else b
  }

  /** `dict(zip(keys, values))`: pairs up to the shorter list, a later
      duplicate key overwriting an earlier one. */
  function ZipMap(keys: seq<string>, values: seq<string>): map<string, string>
    decreases Min(|keys|, |values|)
  {
    var n := Min(|keys|, |values|);
    if n == 0 then map[]
    else ZipMap(keys[..n - 1], values[..n - 1])[keys[n - 1] := values[n - 1]]
  }

  function LowerAll(words: seq<string>): (r: seq<string>)
    ensures |r| == |words| && forall i :: 0 <= i < |words| ==> r[i] == Lower(words[i])
  {
    if words == [] then [] else [Lower(words[0])] + LowerAll(words[1..])
  }

  /** `get_local_space_stats` from the result of `df`. */
  function LocalSpaceStats(df: CommandResult): Attempt<map<string, string>> {
    match Unpack(df)
    case Raised(e) => Raised(e)
    case Done(u) =>
      if u.code != 0 then Done(map[])
      else
        var lines := SplitLines(u.out);
        if |lines| < 2 then Done(map[])
        else Done(ZipMap(LowerAll(SplitWords(lines[0])), SplitWords(lines[1])))
  }

  /** Every paired header is a key. */
  lemma {:induction false} ZipMapHasKey(keys: seq<string>, values: seq<string>, i: nat)
    requires i < Min(|keys|, |values|)
    ensures keys[i] in ZipMap(keys, values)
    decreases Min(|keys|, |values|)
  {
    var n := Min(|keys|, |values|);
    if i < n - 1 {
      ZipMapHasKey(keys[..n - 1], values[..n - 1], i);
    }
  }

  /** Only paired headers are keys: an unpaired trailing header is dropped. */
  lemma {:induction false} ZipMapKeysArePaired(keys: seq<string>, values: seq<string>, k: string)
    requires k in ZipMap(keys, values)
    ensures exists i :: 0 <= i < Min(|keys|, |values|) && keys[i] == k
    decreases Min(|keys|, |values|)
  {
    var n := Min(|keys|, |values|);
    if k != keys[n - 1] {
      ZipMapKeysArePaired(keys[..n - 1], values[..n - 1], k);
      var i :| 0 <= i < Min(|keys[..n - 1]|, |values[..n - 1]|) && keys[..n - 1][i] == k;
      assert keys[i] == k;
    }
  }

  /** A header takes the value in its own column unless a later paired
      header has the same (lower-cased) name. */
  lemma {:induction false} ZipMapLastWins(keys: seq<string>, values: seq<string>, i: nat)
    requires i < Min(|keys|, |values|)
    requires forall j :: i < j < Min(|keys|, |values|) ==> keys[j] != keys[i]
    ensures keys[i] in ZipMap(keys, values) && ZipMap(keys, values)[keys[i]] == values[i]
    decreases Min(|keys|, |values|)
  {
    var n := Min(|keys|, |values|);
    if i < n - 1 {
      assert keys[n - 1] != keys[i];
      var ks := keys[..n - 1];
      var vs := values[..n - 1];
      assert forall j :: i < j < Min(|ks|, |vs|) ==> ks[j] == keys[j];
      ZipMapLastWins(ks, vs, i);
    }
  }

  /** `get_local_space_stats`: a failed `df` raises while unpacking; output
      with fewer than two lines gives the empty map; otherwise each
      lower-cased header of the first line maps to the word below it. */
  lemma LocalSpaceStatsMeaning(df: CommandResult)
    ensures LocalSpaceStats(df).Raised? <==> df.Blank?
    ensures df.Completed? && df.code == 0 && |SplitLines(df.out)| < 2 ==> LocalSpaceStats(df) == Done(map[])
    ensures df.Completed? && df.code == 0 && |SplitLines(df.out)| >= 2 ==>
      var headers := LowerAll(SplitWords(SplitLines(df.out)[0]));
      var values := SplitWords(SplitLines(df.out)[1]);
      LocalSpaceStats(df) == Done(ZipMap(headers, values))
      && (forall k :: k in ZipMap(headers, values) ==>
            exists i :: 0 <= i < Min(|headers|, |values|) && headers[i] == k)
  {
    if df.Completed? && df.code == 0 && |SplitLines(df.out)| >= 2 {
      var headers := LowerAll(SplitWords(SplitLines(df.out)[0]));
      var values := SplitWords(SplitLines(df.out)[1]);
      forall k | k in ZipMap(headers, values)
        ensures exists i :: 0 <= i < Min(|headers|, |values|) && headers[i] == k
      {
        ZipMapKeysArePaired(headers, values, k);
      }
    }
  }

  // -------------------------------------------------------- missing files

  /** The lines of the list file, stripped. */
  function StrippedLines(lines: seq<string>): set<string> {
    if lines == [] then {} else StrippedLines(lines[..|lines| - 1]) + {Strip(lines[|lines| - 1])}
  }

  /** The lines of the local list file, stripped; `None` is a missing file. */
  function LocalFilesSet(listFile: Option<seq<string>>): set<string> {
    match listFile
    case None => {}
    case Some(lines) => StrippedLines(lines)
  }

  /** A name is listed exactly when some line strips to it. */
  lemma {:induction false} StrippedLinesMeaning(lines: seq<string>, x: string)
    ensures x in StrippedLines(lines) <==> exists i :: 0 <= i < |lines| && Strip(lines[i]) == x
  {
    if lines != [] {
      var init := lines[..|lines| - 1];
      StrippedLinesMeaning(init, x);
      if x in StrippedLines(init) {
        var i :| 0 <= i < |init| && Strip(init[i]) == x;
        assert lines[i] == init[i];
      }
      if exists i :: 0 <= i < |lines| && Strip(lines[i]) == x {
        var i :| 0 <= i < |lines| && Strip(lines[i]) == x;
        if i < |init| {
          assert init[i] == lines[i];
        }
      }
    }
  }

  /** `glob('*.MP4')` on one directory entry name: the suffix is
      case-sensitive and `*` does not match a leading dot. */
  predicate MatchesVideo(name: string) {
    EndsWith(name, ".MP4") && !StartsWith(name, ".")
  }

  /** The basenames of the camera's videos; `None` is a missing directory. */
  function CameraFilesSet(entries: Option<seq<string>>): set<string> {
    match entries
    case None => {}
    case Some(names) => set i | 0 <= i < |names| && MatchesVideo(names[i]) :: names[i]
  }

  /** `get_missing_files`. */
  function MissingFiles(listFile: Option<seq<string>>, entries: Option<seq<string>>): set<string> {
    CameraFilesSet(entries) - LocalFilesSet(listFile)
  }

  /** A missing contributor counts as empty: without the camera directory
      nothing is missing, without the list file every camera video is. */
  lemma MissingFilesEdges(listFile: Option<seq<string>>, entries: Option<seq<string>>)
    ensures entries.None? ==> MissingFiles(listFile, entries) == {}
    ensures listFile.None? ==> MissingFiles(listFile, entries) == CameraFilesSet(entries)
    ensures forall x :: x in MissingFiles(listFile, entries) ==> MatchesVideo(x) && x !in LocalFilesSet(listFile)
  {
  }

  /** `f.write(f'{filename}\n')` in append mode, which creates the file. */
  function Record(listFile: Option<seq<string>>, name: string): Option<seq<string>> {
    Some(listFile.GetOr([]) + [name])
  }

  /** Recording a copied file adds it, as read back, to the local set. */
  lemma RecordingAddsToLocal(listFile: Option<seq<string>>, name: string)
    ensures LocalFilesSet(Record(listFile, name)) == LocalFilesSet(listFile) + {Strip(name)}
  {
    var lines := listFile.GetOr([]);
    var after := lines + [name];
    assert after[..|after| - 1] == lines;
    assert after[|after| - 1] == name;
    assert StrippedLines(after) == StrippedLines(lines) + {Strip(name)};
  }

  /** Recording a copied file takes it, as read back, off the missing set
      and changes nothing else. */
  lemma RecordingRemovesFromMissing(listFile: Option<seq<string>>, entries: Option<seq<string>>, name: string)
    ensures LocalFilesSet(Record(listFile, name)) == LocalFilesSet(listFile) + {Strip(name)}
    ensures MissingFiles(Record(listFile, name), entries) == MissingFiles(listFile, entries) - {Strip(name)}
  {
    RecordingAddsToLocal(listFile, name);
  }

  // ---------------------------------------------------------- copy loop

  /** What the copy loop observes for one missing file: the `df` result, the
      size `os.path.getsize` reports (`None`: it raised), whether the source
      still exists at the later check, and the result of `rsync`. */
  datatype FileTask = FileTask(name: string, df: CommandResult, size: Option<nat>, existsAtCheck: bool, rsync: CommandResult)

  datatype CopyEnd = Finished | LowSpace(name: string) | SourceMissing(name: string) | CopyRaised(error: ServiceError)

  datatype Step = Stop(end: CopyEnd) | Copied(name: string) | NotRecorded

  /** `int(space_stats['available'])` in KiB, or the exception. */
  function AvailableKb(df: CommandResult): Attempt<int> {
    match LocalSpaceStats(df)
    case Raised(e) => Raised(e)
    case Done(stats) =>
      if "available" !in stats then Raised(KeyError("available"))
      else match ParseInt(stats["available"])
        case None => Raised(InvalidNumber(stats["available"]))
        case Some(v) => Done(v)
  }

  /** One turn of the loop, in the source's order: `df`, then the size, then
      the space check, then the existence check, then `rsync`. */
  function StepOf(t: FileTask): Step {
    var src := Join(CameraFilesDir, t.name);
    match LocalSpaceStats(t.df)
    case Raised(e) => Stop(CopyRaised(e))
    case Done(_) =>
      if t.size.None? then Stop(CopyRaised(FileNotFound(src)))
      else
        match AvailableKb(t.df)
        case Raised(e) => Stop(CopyRaised(e))
        case Done(avail) =>
          if avail * 1024 - t.size.value < RemainingLocalSpace then Stop(LowSpace(t.name))
          else if !t.existsAtCheck then Stop(SourceMissing(t.name))
          else
            match Unpack(t.rsync)
            case Raised(e) => Stop(CopyRaised(e))
            case Done(u) => if u.code == 0 then Copied(t.name) else NotRecorded
  }

  datatype CopyRun = CopyRun(end: CopyEnd, recorded: seq<string>)

  /** How the loop ends and which names it records, in order, given the
      turn each file gets. */
  function RunSteps(steps: seq<Step>): CopyRun {
    if steps == [] then CopyRun(Finished, [])
    else
      match steps[0]
      case Stop(e) => CopyRun(e, [])
      case Copied(n) => var r := RunSteps(steps[1..]); CopyRun(r.end, [n] + r.recorded)
      case NotRecorded => RunSteps(steps[1..])
  }

  function Steps(tasks: seq<FileTask>): seq<Step> {
    seq(|tasks|, i requires 0 <= i < |tasks| => StepOf(tasks[i]))
  }

  function CopyOutcome(tasks: seq<FileTask>): CopyRun {
    RunSteps(Steps(tasks))
  }

  function RecordAll(listFile: Option<seq<string>>, names: seq<string>): Option<seq<string>>
    decreases names
  {
    if names == [] then listFile else RecordAll(Record(listFile, names[0]), names[1..])
  }

  /** The body of the loop for one file, up to its outcome. */
  method CopyOne(t: FileTask) returns (step: Step)
    ensures step == StepOf(t)
  {
    var src := Join(CameraFilesDir, t.name);
    var stats := LocalSpaceStats(t.df);
    if stats.Raised? {
      return Stop(CopyRaised(stats.error));
    }
    if t.size.None? {
      return Stop(CopyRaised(FileNotFound(src)));
    }
    var avail := AvailableKb(t.df);
    if avail.Raised? {
      return Stop(CopyRaised(avail.error));
    }
    var remaining := avail.value * 1024 - t.size.value;
    if remaining < RemainingLocalSpace {
      return Stop(LowSpace(t.name));
    }
    if !t.existsAtCheck {
      return Stop(SourceMissing(t.name));
    }
    var rsync := Unpack(t.rsync);
    if rsync.Raised? {
      return Stop(CopyRaised(rsync.error));
    }
    step := if rsync.value.code == 0 then Copied(t.name) else NotRecorded;
  }

  /** Recording one more name after a run of them. */
  lemma {:induction false} RecordAllSnoc(listFile: Option<seq<string>>, names: seq<string>, n: string)
    ensures RecordAll(listFile, names + [n]) == Record(RecordAll(listFile, names), n)
    decreases names
  {
    if names == [] {
      assert names + [n] == [n];
    } else {
      assert (names + [n])[1..] == names[1..] + [n];
      RecordAllSnoc(Record(listFile, names[0]), names[1..], n);
    }
  }

  /** One turn of the loop moves from the rest of the run into the run so far. */
  lemma RunStepsAdvance(steps: seq<Step>, i: nat, recorded: seq<string>)
    requires i < |steps|
    requires RunSteps(steps) == CopyRun(RunSteps(steps[i..]).end, recorded + RunSteps(steps[i..]).recorded)
    ensures steps[i].Stop? ==> RunSteps(steps) == CopyRun(steps[i].end, recorded)
    ensures steps[i].Copied? ==>
      RunSteps(steps) == CopyRun(RunSteps(steps[i + 1..]).end, (recorded + [steps[i].name]) + RunSteps(steps[i + 1..]).recorded)
    ensures steps[i].NotRecorded? ==>
      RunSteps(steps) == CopyRun(RunSteps(steps[i + 1..]).end, recorded + RunSteps(steps[i + 1..]).recorded)
  {
    assert steps[i..][1..] == steps[i + 1..];
    if steps[i].Copied? {
      var rest := RunSteps(steps[i + 1..]).recorded;
      assert recorded + ([steps[i].name] + rest) == (recorded + [steps[i].name]) + rest;
    }
    if steps[i].Stop? {
      assert recorded + [] == recorded;
    }
  }

  /** The names of the files the loop visits. */
  function TaskNames(tasks: seq<FileTask>): set<string> {
    set k | 0 <= k < |tasks| :: tasks[k].name
  }

  /** The loop visits the set `get_missing_files` returned, each name once,
      in the set's iteration order. */
  predicate VisitsMissing(tasks: seq<FileTask>, listFile: Option<seq<string>>, entries: Option<seq<string>>) {
    && TaskNames(tasks) == MissingFiles(listFile, entries)
    && forall j, k :: 0 <= j < k < |tasks| ==> tasks[j].name != tasks[k].name
  }

  /** `copy_files_to_staging`: the missing files of the camera directory
      listing `entries` and the list file, visited in iteration order.
      Returns how the loop ended, the names recorded and the new list file;
      the recorded names were missing and, as read back, are missing no more. */
  method CopyFilesToStaging(listFile: Option<seq<string>>, entries: Option<seq<string>>, tasks: seq<FileTask>)
    returns (end: CopyEnd, recorded: seq<string>, newList: Option<seq<string>>)
    requires VisitsMissing(tasks, listFile, entries)
    ensures CopyRun(end, recorded) == CopyOutcome(tasks)
    ensures newList == RecordAll(listFile, recorded)
    ensures forall k :: 0 <= k < |recorded| ==> recorded[k] in MissingFiles(listFile, entries)
    ensures MissingFiles(newList, entries) == MissingFiles(listFile, entries) - StrippedNames(recorded)
  {
    ghost var steps := Steps(tasks);
    recorded := [];
    newList := listFile;
    var i := 0;
    while i < |tasks|
      invariant 0 <= i <= |tasks|
      invariant RunSteps(steps) == CopyRun(RunSteps(steps[i..]).end, recorded + RunSteps(steps[i..]).recorded)
      invariant newList == RecordAll(listFile, recorded)
    {
      var step := CopyOne(tasks[i]);
      assert steps[i] == step;
      RunStepsAdvance(steps, i, recorded);
      match step {
        case Stop(e) =>
          CopyRecordsMissing(listFile, entries, tasks);
          return e, recorded, newList;
        case Copied(n) =>
          RecordAllSnoc(listFile, recorded, n);
          recorded := recorded + [n];
          newList := Record(newList, n);
        case NotRecorded =>
      }
      i := i + 1;
    }
    end := Finished;
    assert recorded + [] == recorded;
    CopyRecordsMissing(listFile, entries, tasks);
  }

  /** Every name a run records is the name of a file whose turn copied it. */
  lemma {:induction false} RunStepsRecordsCopied(steps: seq<Step>)
    ensures forall k :: 0 <= k < |RunSteps(steps).recorded| ==> Copied(RunSteps(steps).recorded[k]) in steps
  {
    if steps != [] && !steps[0].Stop? {
      RunStepsRecordsCopied(steps[1..]);
      assert forall x :: x in steps[1..] ==> x in steps;
    }
  }

  /** Over the missing files, the loop records only missing names, and
      recording them takes exactly those names, as read back, off the
      missing set. */
  lemma CopyRecordsMissing(listFile: Option<seq<string>>, entries: Option<seq<string>>, tasks: seq<FileTask>)
    requires VisitsMissing(tasks, listFile, entries)
    ensures var recorded := CopyOutcome(tasks).recorded;
      && (forall k :: 0 <= k < |recorded| ==> recorded[k] in MissingFiles(listFile, entries))
      && MissingFiles(RecordAll(listFile, recorded), entries) == MissingFiles(listFile, entries) - StrippedNames(recorded)
  {
    var steps := Steps(tasks);
    var recorded := CopyOutcome(tasks).recorded;
    RunStepsRecordsCopied(steps);
    forall k | 0 <= k < |recorded|
      ensures recorded[k] in MissingFiles(listFile, entries)
    {
      var j :| 0 <= j < |steps| && steps[j] == Copied(recorded[k]);
      StepGuards(tasks[j]);
      assert recorded[k] == tasks[j].name;
    }
    RecordAllRemovesFromMissing(listFile, entries, recorded);
  }

  /** The names recorded before the first stopping turn, in order. */
  function CopiedNames(steps: seq<Step>): seq<string> {
    if steps == [] then []
    else (match steps[0] case Copied(n) => [n] case _ => []) + CopiedNames(steps[1..])
  }

  /** Over the turns: the run ends at the first stopping turn, having
      recorded every earlier copied name. */
  lemma {:induction false} RunStopsAtFirstStop(steps: seq<Step>, n: nat)
    requires n <= |steps|
    requires forall j :: 0 <= j < n ==> !steps[j].Stop?
    requires n < |steps| ==> steps[n].Stop?
    ensures RunSteps(steps).end == if n < |steps| then steps[n].end else Finished
    ensures RunSteps(steps).recorded == CopiedNames(steps[..n])
  {
    if n == 0 {
      assert steps[..n] == [];
    } else {
      assert steps[..n][1..] == steps[1..][..n - 1];
      RunStopsAtFirstStop(steps[1..], n - 1);
    }
  }

  /** The loop ends at the first file that stops it, with that file's reason,
      having recorded every earlier file that `rsync` copied. */
  lemma CopyStopsAtFirstStop(tasks: seq<FileTask>, n: nat)
    requires n <= |tasks|
    requires forall j :: 0 <= j < n ==> !StepOf(tasks[j]).Stop?
    requires n < |tasks| ==> StepOf(tasks[n]).Stop?
    ensures CopyOutcome(tasks).end == if n < |tasks| then StepOf(tasks[n]).end else Finished
    ensures CopyOutcome(tasks).recorded == CopiedNames(Steps(tasks)[..n])
  {
    RunStopsAtFirstStop(Steps(tasks), n);
  }

  /** What a turn promises: a name is recorded only after the space check,
      the existence check and a successful `rsync`; the loop stops for low
      space exactly when `available * 1024 - size` drops below one GiB, a
      missing source is noticed only after enough space was found, and a
      failed `rsync` leaves `''` to unpack, which raises and ends the loop. */
  lemma StepGuards(t: FileTask)
    ensures StepOf(t).Copied? ==>
      && StepOf(t).name == t.name
      && t.size.Some? && AvailableKb(t.df).Done?
      && AvailableKb(t.df).value * 1024 - t.size.value >= RemainingLocalSpace
      && t.existsAtCheck && t.rsync.Completed? && t.rsync.code == 0
    ensures t.size.Some? && AvailableKb(t.df).Done? ==>
      (StepOf(t) == Stop(LowSpace(t.name)) <==> AvailableKb(t.df).value * 1024 - t.size.value < RemainingLocalSpace)
    ensures StepOf(t) == Stop(SourceMissing(t.name)) ==>
      t.size.Some? && AvailableKb(t.df).Done? && AvailableKb(t.df).value * 1024 - t.size.value >= RemainingLocalSpace
      && !t.existsAtCheck
    ensures t.size.None? && LocalSpaceStats(t.df).Done? ==> StepOf(t) == Stop(CopyRaised(FileNotFound(Join(CameraFilesDir, t.name))))
    ensures t.rsync.Blank? ==> !StepOf(t).Copied?
    ensures t.rsync.Blank? && LocalSpaceStats(t.df).Done? && t.size.Some? && AvailableKb(t.df).Done?
      && AvailableKb(t.df).value * 1024 - t.size.value >= RemainingLocalSpace && t.existsAtCheck
      ==> StepOf(t) == Stop(CopyRaised(UnpackError))
  {
  }

  /** The names as they read back from the list file. */
  function StrippedNames(names: seq<string>): set<string> {
    if names == [] then {} else {Strip(names[0])} + StrippedNames(names[1..])
  }

  /** Recording the copied names takes exactly those names, as read back,
      off the missing set. */
  lemma {:induction false} RecordAllRemovesFromMissing(listFile: Option<seq<string>>, entries: Option<seq<string>>, names: seq<string>)
    ensures MissingFiles(RecordAll(listFile, names), entries) == MissingFiles(listFile, entries) - StrippedNames(names)
    decreases names
  {
    if names != [] {
      var next := Record(listFile, names[0]);
      RecordingRemovesFromMissing(listFile, entries, names[0]);
      RecordAllRemovesFromMissing(next, entries, names[1..]);
    }
  }
}
