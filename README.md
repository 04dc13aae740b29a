# dashcam-sync in Dafny

dashcam-sync runs on a Raspberry Pi next to a USB dashcam. It watches the
battery, and when there is enough charge and the upload host can be reached,
it switches the camera into USB-storage mode and finds and mounts its block
device. It then picks the video files to transfer, copies them into a local
staging directory, rsyncs staging to the host and empties staging once the
upload has succeeded. Otherwise it keeps the camera recording or shuts the
Pi down. The repository holds two generations of the code:

- the original asyncio service (`service.py`), with its helpers
  `mount_helper.py`, `uploader.py` and `device_detector.py` and the
  polling script `camera_service.py`;
- the later `src/` copies of those helpers and of `camera_service.py`.

This project models the decision and data-handling logic of both
generations. Every operating-system interaction is an input: command exit
codes and output, directory listings, `stat` results, `findmnt` output,
the battery report, host reachability and the STOP flag. The model
records what the code would do with those inputs (commands issued, files
copied, names recorded, staged entries removed, sleeps taken) and proves
what the code promises about it.

Modules, one per file:

| module | models |
|---|---|
| `Wrappers` | `Option` and `Result` |
| `Strings` | the Python `str` operations the code relies on (ASCII `strip`, `lower`, `split`, `splitlines`, `startswith`/`endswith`, `int()`) |
| `PosixPath` | `os.path.join` and `os.path.basename` |
| `FileSelection` | `select_files_to_copy`: candidate collection, the strategy sort, the greedy acceptance under both limits |
| `Mounting` | `mount_block_device` (with and without the `findmnt` fallback), `unmount`, `MountedDevice` and `copy_to_staging` of both helpers, against a host holding the existing paths, the mount points and the commands issued |
| `Uploader` | `build_rsync_command` and `upload_dir` (identical in both copies) with the retry and backoff loop |
| `Commands` | the result shape of the service's `run_command` and the helpers that rely on it |
| `Power` | `read_stats_map`, `get_battery_stats` and the low-battery watchdog |
| `LocalStaging` | `get_local_space_stats`, `get_missing_files` and the `copy_files_to_staging` loop |
| `TestCommands` | the `GlobalTestableCommands` registry and its `run` dispatch |
| `DeviceDetection` | both device detectors: vid/pid, hub and block-device lookup, the polling waits, the by-id fallback and detection precedence |
| `CameraConfig` | `DEFAULT_CONFIG`, the shallow merge of `load_config` and the section/key lookups |
| `CameraService` | `maybe_run`, the per-poll battery decision, the inter-poll wait and the main loop of both `camera_service.py` variants, including the upload flow of the later one |

Where a loop of the source updates variables, the model has a `method`
with that loop. The method is proved equal to a function stating what the loop computes,
and the promised properties are proved about that function as lemmas.
The mount table is a `class` whose methods change its fields, as the
host's state does. Time is never read. A wall-clock timeout becomes the
elapsed time each poll reports, and a sleep becomes an entry in a log of
sleeps.

## Model

| member | source | states |
|---|---|---|
| `Strings.StripLeftIsSuffix` | service.py:122 | stripping the left drops only a prefix: the result is a suffix of the input |
| `Strings.StripRightIsPrefix` | service.py:122 | stripping the right drops only a suffix: the result is a prefix of the input |
| `Strings.IndexOf` | service.py:121 | the index found is the first occurrence of the character; `None` exactly when it does not occur |
| `PosixPath.Basename` | src/mount_helper.py:32 | the basename never holds a separator |
| `PosixPath.BasenameOfJoin` | src/mount_helper.py:32-33 | joining a separator-free name onto any base and taking the basename gives the name back |
| `PosixPath.JoinStaysUnderBase` | src/mount_helper.py:80-82 | joining a relative path onto a base yields a path that starts with the base |
| `PosixPath.JoinEmptyEndsWithSeparator` | src/uploader.py:51 | `join(p, '')` of a non-empty path ends with '/' |
| `FileSelection.CollectCandidates` | src/mount_helper.py:107-124 | the nested collection loops produce exactly `Candidates`, in walk order |
| `FileSelection.WalkCandidatesAdmitted` | src/mount_helper.py:114-124 | every candidate comes from a walked file that passed the extension filter and whose `stat` succeeded |
| `FileSelection.CandidatesComeFromExistingSubdirs` | src/mount_helper.py:108-124 | every candidate comes from a listed subdirectory that exists on the mount |
| `FileSelection.NoExistingSubdirNoCandidates` | src/mount_helper.py:108-127 | when no listed subdirectory exists there are no candidates, so the result is empty |
| `FileSelection.InsertSorted` | src/mount_helper.py:129-137 | inserting into a sorted list keeps it sorted and adds exactly that element |
| `FileSelection.SortSortedPermutation` | src/mount_helper.py:129-137 | the sort returns a permutation of its input, ordered by the strategy |
| `FileSelection.SortedByStrategy` | src/mount_helper.py:129-137 | a permutation; `newest` gives non-increasing mtime, `oldest` non-decreasing mtime, `largest` non-increasing size; any other name sorts exactly as `newest` |
| `FileSelection.Rels` | src/mount_helper.py:146 | the relative path of each accepted candidate, one for one and in order |
| `FileSelection.GreedyStaysFull` | src/mount_helper.py:142-143 | once the count limit is reached, later candidates change nothing (the `break`) |
| `FileSelection.GreedyFullPrefix` | src/mount_helper.py:141-143 | a prefix that reaches the count limit decides the whole selection |
| `FileSelection.GreedyStep` | src/mount_helper.py:141-147 | one candidate: stop when full, skip when it overflows the byte limit, otherwise append it |
| `FileSelection.AcceptOne` | src/mount_helper.py:142-147 | one turn of the loop: on `break` the final selection is already known; otherwise the state is the selection of one more candidate |
| `FileSelection.TakeWithinLimits` | src/mount_helper.py:139-148 | the acceptance loop returns exactly the greedy selection of the sorted candidates |
| `FileSelection.GreedyWithinFileLimit` | src/mount_helper.py:141-143 | never more than `max_files` files |
| `FileSelection.GreedyWithinByteLimit` | src/mount_helper.py:144-147 | the accepted sizes sum to at most `max_bytes` |
| `FileSelection.SkipIsNotFatal` | src/mount_helper.py:144-145 | a file that would overflow the byte limit is skipped, and a later smaller file is still taken |
| `FileSelection.GreedyIsSubsequence` | src/mount_helper.py:139-148 | the selection is an in-order subsequence of the sorted candidates |
| `FileSelection.GreedyFileLimitIsPrefix` | src/mount_helper.py:141-147 | with both limits, the selection is the first `max_files` files of the byte-limited selection |
| `FileSelection.GreedyWithoutByteLimit` | src/mount_helper.py:141-143 | with no byte limit the result is the first `max_files` candidates, or all of them |
| `FileSelection.ByteLimitNeverAddsFiles` | src/mount_helper.py:144-145 | adding a byte limit never increases the number of files selected |
| `FileSelection.SubsequenceOfSorted` | src/mount_helper.py:139-148 | an in-order subsequence of a sorted list is sorted, so the selection keeps the strategy's order |
| `FileSelection.SelectFilesToCopy` | src/mount_helper.py:106-150 | `select_files_to_copy` returns the relative paths of the greedy selection over the sorted candidates |
| `FileSelection.SelectionProperties` | src/mount_helper.py:106-150 | within both limits, in strategy order, an in-order subsequence of the sorted candidates, and made only of candidates |
| `Mounting.NoSeparatorNotAbsolute` | mount_helper.py:42-43 | a name without '/' is relative, so joining it keeps the mount base |
| `Mounting.MountPathShape` | src/mount_helper.py:32-33 | the mount point is `mount_base/(label or basename(device))` and lies under `mount_base`; an empty label counts as absent |
| `Mounting.MountOutcomeShared` | mount_helper.py:39-50 | in both variants a missing device raises `FileNotFoundError` and issues nothing; a successful mount returns the mount path with `ro`/`rw` options |
| `Mounting.MountWithoutFallbackPropagates` | mount_helper.py:49 | without the fallback a failed mount raises, and only the mount command was issued |
| `Mounting.MountFallbackUsesExistingMount` | src/mount_helper.py:39-51 | with the fallback a failed mount returns the stripped `findmnt` target when it is non-empty and re-raises otherwise, after issuing mount and then findmnt |
| `Mounting.Host.constructor` | src/mount_helper.py:28-59 | a host with the given paths and mount points that has issued no command |
| `Mounting.Host.MountBlockDevice` | src/mount_helper.py:28-51 | the result and the commands issued; an existing device gets `mount_base` and the mount point created before the mount is tried, and they stay when it fails; a mount point is added to the table exactly when the mount command succeeds |
| `Mounting.Host.Unmount` | src/mount_helper.py:54-59 | `umount` is issued only for a mount point; when it succeeds the path leaves the table; otherwise the table is unchanged and the failure is the result |
| `Mounting.Host.WithMountedDevice` | src/mount_helper.py:153-164 | the outcome is the mount failure or the body's outcome; on both normal and exceptional exit, unmount is attempted exactly when a non-empty mount path was obtained (a reused `findmnt` path too); the commands issued are the mount's followed by `umount` when that path is in the table after the mount, and the table and the created directories are stated in every case; an unmount failure is swallowed |
| `Mounting.MountThenUnmountRestoresTable` | src/mount_helper.py:153-164 | mounting a path that was not mounted and releasing it with a successful `umount` issues `umount` for it and leaves the mount table as it was |
| `Mounting.CopyToStaging` | src/mount_helper.py:62-103 | the steps taken in order: a non-empty file list is written to the list file, copied by rsync `--files-from` or file by file, and the list file removed afterwards; without a list, rsync of the whole mount or one copy per top-level entry; rsync's non-zero exit is the `CalledProcessError` result |
| `Mounting.CopyStepsMeaning` | src/mount_helper.py:62-94 | the copy raises exactly when rsync was used and exited non-zero; with a file list the list file is written first and removed last, also when rsync fails, around the copy plan; without one the steps are the plan |
| `Mounting.ListFileHoldsExactlyTheList` | src/mount_helper.py:69-72 | the list file read back line by line is exactly the file list, in order, when no path holds a newline, so the `--files-from` form copies exactly the selected files |
| `Mounting.EntryCopiesPlacement` | mount_helper.py:82-88 | the listing fallback copies each top-level entry to `staging_dir/entry` (a directory as a tree), in listing order, and no step deletes the source |
| `Mounting.FileCopiesKeepRelativePaths` | src/mount_helper.py:80-84 | the file-list fallback copies `mount_path/rel` to `staging_dir/rel` for each listed path, in order |
| `Mounting.CopyPlanChoosesRsync` | src/mount_helper.py:66-94 | rsync is used exactly when it was asked for and found, as one command; the `--files-from` form exactly for a non-empty file list |
| `Uploader.BuildRsyncCommand` | src/uploader.py:24-52 | the list grown by appends and extends is exactly the specified command |
| `Uploader.TrailingSeparatorSource` | src/uploader.py:51 | the source argument ends in '/' and is never mistaken for `-z` or `-e` |
| `Uploader.RsyncCommandShape` | src/uploader.py:27-52 | the fixed prefix; `-z` exactly when compressing; `-e ssh ...` exactly for a remote host; the target is `dest`, `host:dest` or `user@host:dest`; the last two elements are the source with a trailing '/' and the target |
| `Uploader.SshPartsShape` | uploader.py:48-65 | `-i key` only for a given key that is a file, `-p port` only for a truthy port, after the fixed ssh options |
| `Uploader.UploadDir` | src/uploader.py:55-110 | the guards return False with nothing run; dry-run returns True with nothing run; otherwise at least one and at most `retries + 1` runs, every run before the last one failed with `CalledProcessError`, and the loop stops at the first run that did not: True exactly when that run succeeded, False at once on an unexpected error; a run that keeps failing is repeated exactly `retries + 1` times with the backoff sleeps between runs and none after the last; the command is `sudo -u user --` prefixed when a run-as user is given or derived from `SUDO_USER` under euid 0 |
| `Uploader.BackoffIsGeometric` | uploader.py:125-144 | the delay before retry `k + 1` is `initial_delay * backoff_factor ** k` |
| `Uploader.BackoffGrows` | src/uploader.py:88-106 | with a positive initial delay and a factor of at least one the delays are positive and never shrink |
| `Commands.RunCommand` | service.py:46-57 | a triple exactly on exit status 0, the blank `''` otherwise |
| `Commands.Unpack` | service.py:118 | unpacking three values succeeds exactly for a triple |
| `Commands.UnpackAfterRunCommand` | service.py:54-57 | unpacking raises exactly when the command failed, so a caller that unpacks only ever sees status 0 |
| `Commands.HelpersNeverReturnFalse` | service.py:167-212 | `set_usb_port_power` and `is_host_reachable` return True exactly on status 0 and never return False; they raise instead |
| `Power.StatsStayRaised` | service.py:120-123 | after a line without '=' has raised, later lines change nothing |
| `Power.ReadStatsMap` | service.py:118-125 | a failed command raises while unpacking; otherwise the loop builds exactly the specified map from the report's lines |
| `Power.StatsOfDoneIff` | service.py:120-121 | the report parses exactly when every line holds '=' |
| `Power.StatsOfRaisesAtFirstBadLine` | service.py:121 | otherwise the exception comes from the first line without '=' |
| `Power.StatsKeysComeFromLines` | service.py:121-123 | a key is in the map exactly when some line carries it |
| `Power.StatsHoldLineKey` | service.py:121-123 | every line's stripped key is in the map |
| `Power.StatsLastDuplicateWins` | service.py:123 | a key takes the stripped value of the last line that carries it |
| `Power.KeyHasNoSeparator` | service.py:121 | the split is at the first '=': the key holds no '=' |
| `Power.Numbers` | service.py:132-140 | the readings parse one for one, and the list exists exactly when every reading parses |
| `Power.BatteryStatsMeaning` | service.py:129-142 | each field is the reading of its key, a missing key reads as "0"; `ac_power` holds exactly when VIN >= VIN_THRESHOLD |
| `Power.ZeroParses` | service.py:132-137 | the default reading "0" parses as 0 |
| `Power.MissingInputReadsAsAcPower` | service.py:137-139 | a report with neither VIN nor VIN_THRESHOLD reads both as 0, so `ac_power` holds |
| `Power.GetBatteryStats` | service.py:129-142 | a failed command raises; otherwise the result is the stats of the parsed map |
| `Power.DisconnectOnLowBattery` | service.py:287-295 | it keeps sampling while on AC or above the boot voltage, sleeping 60 s on AC and 20 s otherwise; the first sample with neither turns port power off once and ends the task; a raising sample ends it without power-off |
| `LocalStaging.LowerAll` | service.py:71-72 | every header lower-cased, one for one |
| `LocalStaging.ZipMapHasKey` | service.py:73-75 | every paired header is a key |
| `LocalStaging.ZipMapKeysArePaired` | service.py:73-75 | only paired headers are keys: the longer list is truncated |
| `LocalStaging.ZipMapLastWins` | service.py:73-75 | a header takes its own column's value unless a later paired header repeats it |
| `LocalStaging.LocalSpaceStatsMeaning` | service.py:61-75 | a failed `df` raises; fewer than two lines give `{}`; otherwise the keys are exactly the paired lower-cased headers |
| `LocalStaging.StrippedLinesMeaning` | service.py:240-247 | a name is listed exactly when some line of the list file strips to it |
| `LocalStaging.MissingFilesEdges` | service.py:238-261 | a missing camera directory gives `{}`; a missing list file gives every camera video; every missing file is a `*.MP4` name not in the list |
| `LocalStaging.RecordingAddsToLocal` | service.py:283-284 | appending a name to the list file adds exactly that name, as read back, to the local set |
| `LocalStaging.RecordingRemovesFromMissing` | service.py:259-284 | recording a copied file removes it from the missing set and changes nothing else |
| `LocalStaging.CopyOne` | service.py:266-284 | the loop body for one file: the `df` result, then the size, then the space check, then rsync, as `StepOf` decides |
| `LocalStaging.CopyFilesToStaging` | service.py:265-284 | over the missing files of `get_missing_files`, each visited once: the loop's end and the names it records are those of `CopyOutcome`, the list file is the old one with those names appended in order, every recorded name was missing, and afterwards the missing set is the old one without the recorded names |
| `LocalStaging.RunStopsAtFirstStop` | service.py:265-284 | the run ends at the first stopping turn, with that turn's reason, having recorded exactly the names copied before it |
| `LocalStaging.CopyStopsAtFirstStop` | service.py:265-284 | the copy loop returns at the first file that lacks space, whose source is missing or whose step raises (a failed `df` or rsync), having recorded exactly the files copied before it |
| `LocalStaging.StepGuards` | service.py:268-284 | a name is recorded only after the space check passed (`available*1024 - size >= 1 GiB`) and rsync exited 0; too little space stops the loop; a failed rsync makes `run_command` return `''`, whose three-way unpack raises `ValueError` and ends the loop without recording the name |
| `LocalStaging.RecordAllRemovesFromMissing` | service.py:259-284 | recording the copied names removes exactly those names, as read back, from the missing set |
| `LocalStaging.CopyRecordsMissing` | service.py:259-284 | over the set `get_missing_files` returned, every name the loop records was missing, and recording them takes exactly those names, as read back, off the missing set |
| `TestCommands.RunIntendedMeaning` | service.py:33-43 | the dispatch returns False exactly for no or an empty test name, runs a registered name, and raises ValueError for any other name |
| `TestCommands.RunAsWrittenDiffers` | service.py:33-36 | with `--test` given the code as written agrees with the intended dispatch; without it, it raises TypeError |
| `TestCommands.PlainStartNeverReachesMainLoop` | service.py:33-43 | as written, a start without `--test` never reaches the service; with the corrected dispatch it does |
| `TestCommands.TestRegistry.constructor` | service.py:22-28 | the registry holds exactly the nine functions the decorator registers |
| `TestCommands.TestRegistry.Register` | service.py:26-28 | the decorator adds exactly the function's name |
| `TestCommands.TestRegistry.Run` | service.py:33-43 | the corrected `run`: False for no or an empty name, the function's run exactly for a registered name |
| `TestCommands.Start` | service.py:340-345 | `main` with the corrected `run` of the Findings table starts the service exactly when no or an empty test name is given; as written, `main` agrees when `--test` is given and raises `TypeError` without it |
| `DeviceDetection.FirstIndex` | src/device_detector.py:27-36 | the first index whose element satisfies the query, or `None` when none does |
| `DeviceDetection.MatchDevice` | src/device_detector.py:30-35 | one device matches exactly when both ids read as non-empty and equal the query ignoring case |
| `DeviceDetection.FindUsbByVidPid` | src/device_detector.py:27-36 | the loop with early return gives the specified first match |
| `DeviceDetection.FirstVidPidMeaning` | device_detector.py:33-46 | the result is the first listed device whose ids both equal the query ignoring case |
| `DeviceDetection.FirstVidPidStep` | src/device_detector.py:28-35 | one turn: a match is the result, a miss keeps "no match so far" |
| `DeviceDetection.FirstVidPidNone` | src/device_detector.py:27-36 | nothing is found exactly when no device matches |
| `DeviceDetection.FindUsbByHub` | src/device_detector.py:39-46 | the lookup returns the specified hub result |
| `DeviceDetection.HubLookupMeaning` | device_detector.py:49-58 | the exact path wins when it exists; otherwise the first prefix match that is a directory |
| `DeviceDetection.HubLookupNone` | src/device_detector.py:39-46 | nothing is found exactly when the exact path is missing and no prefix match is a directory |
| `DeviceDetection.FindBlockDevice` | src/device_detector.py:49-58 | the walk with early return gives the specified first block device |
| `DeviceDetection.FirstBlockDeviceAt` | device_detector.py:61-77 | the result is `/dev/<entry>` of the first entry, in walk order, of a `block` directory whose device node exists |
| `DeviceDetection.FirstBlockDeviceNone` | src/device_detector.py:49-58 | `None` exactly when no such entry exists |
| `DeviceDetection.ChooseMatcher` | src/device_detector.py:68-73 | vid and pid together give the vid/pid matcher; otherwise a truthy hub gives the hub matcher; with neither there is no matcher (`ValueError`) |
| `DeviceDetection.WaitLoop` | src/device_detector.py:75-83 | a polling loop never reports a missing matcher |
| `DeviceDetection.WaitFoundAt` | src/device_detector.py:75-79 | the loop returns the first device found, provided no earlier poll ran past the deadline |
| `DeviceDetection.WaitTimesOutAt` | device_detector.py:98-106 | the first poll that ends past the deadline with nothing found, after polls that found nothing within it, ends the wait with `None` |
| `DeviceDetection.WaitNoDeviceOnlyPastDeadline` | src/device_detector.py:75-82 | conversely, `None` comes only from a poll that ended past the deadline with nothing found, every earlier poll having found nothing within it |
| `DeviceDetection.WaitOutOfPollsIff` | src/device_detector.py:67-83 | the observed polls run out with the loop still waiting exactly when none of them found a device and all ended within the deadline |
| `DeviceDetection.WaitFoundComesFromTick` | src/device_detector.py:75-83 | a device returned is one that some poll found |
| `DeviceDetection.PollOnce` | src/device_detector.py:75-79 | one poll finds the specified block device |
| `DeviceDetection.WaitForBlockDevice` | src/device_detector.py:61-83 | the polling loop gives the specified outcome, including `OutOfPolls` when the observed polls end before the loop does |
| `DeviceDetection.WaitForBlockChoosesMatcher` | device_detector.py:89-96 | `ValueError` exactly with neither matcher; vid and pid preferred over the hub |
| `DeviceDetection.ScanById` | src/device_detector.py:98-108 | one by-id scan returns the first accepted, resolved, existing path not seen before and adds it to the seen set |
| `DeviceDetection.CameraPollOnce` | src/device_detector.py:94-110 | one outer poll: the short inner wait, then the by-id scan, as specified |
| `DeviceDetection.WaitForCameraDevice` | src/device_detector.py:86-117 | the outer polling loop gives the specified outcome |
| `DeviceDetection.CameraStepFallback` | src/device_detector.py:98-108 | when the inner wait finds nothing, the result is the first entry with a `usb-` prefix or holding `NOVATEKN`/`vt-DSC` whose resolved path exists |
| `DeviceDetection.CameraStepPrefersInner` | src/device_detector.py:94-97 | a device the inner wait finds wins over the by-id listing |
| `DeviceDetection.Or` | src/device_detector.py:122-124 | `a or b`: truthy exactly when either is, `a` when it is truthy and `b` otherwise |
| `DeviceDetection.DetectCameraBlockDevice` | src/device_detector.py:120-141 | the detection steps give the specified outcome |
| `DeviceDetection.DetectPrecedence` | device_detector.py:109-141 | vid and pid first, then the hub, then the first `usb-` by-id entry resolving to an existing path, else nothing |
| `DeviceDetection.IdsFallBack` | src/device_detector.py:121-124 | a non-empty `vendor` wins over `idVendor`; missing camera configuration gives no ids |
| `CameraConfig.Merge` | camera_service.py:57-64 | a section the file names replaces the default section whole; the other defaults stay |
| `CameraConfig.LoadConfigFallsBack` | camera_service.py:48-67 | no path, an empty or null document, or a file neither YAML nor JSON can read gives the defaults |
| `CameraConfig.LoadConfigMergesFile` | camera_service.py:48-67 | otherwise the YAML document, or the JSON one when YAML failed, is merged over the defaults; all default sections stay present |
| `CameraConfig.StrSetting` | src/camera_service.py:171-176 | a string setting exactly when the key is present and holds a string, and then that configured string |
| `CameraConfig.ShallowMergeDropsSectionDefaults` | src/camera_service.py:49-68 | an illustration of the merge's contract on one file: naming `upload` with only a host loses the default port, and a lookup then falls back to the call site's default |
| `CameraService.MaybeRun` | camera_service.py:94-98 | in dry-run nothing is executed and the status is 0; otherwise the command runs and its status is returned |
| `CameraService.SettingsOf` | src/camera_service.py:114-119 | missing sections fall back to interval 30, disconnect 50, shutdown 25 |
| `CameraService.Percent` | src/camera_service.py:134-139 | no report, or a `battery_percent` that is missing or not a number, gives no reading |
| `CameraService.BandMeaning` | src/camera_service.py:134-158 | shutdown below `shutdown_pct` is checked first; disconnect exactly in `[shutdown_pct, disconnect_pct)`; at or above `disconnect_pct` data flow for a reachable host and recording otherwise; reachability matters only there |
| `CameraService.RootTurnActions` | camera_service.py:129-164 | no reading: nothing; low: shutdown outside dry-run, then exit; middle: only `stop_all`; high and reachable: `start_data`, pause, `stop_all`; high and unreachable: `start_rec` |
| `CameraService.SleptMeaning` | camera_service.py:170-173 | the wait sleeps `interval` seconds unless STOP cuts it short |
| `CameraService.WaitForNextPoll` | camera_service.py:170-173 | the counter loop sleeps exactly the specified number of one-second sleeps and reports STOP exactly when it was raised |
| `CameraService.PrefixThen` | camera_service.py:126-173 | one iteration moves from the rest of the loop into the run so far |
| `CameraService.ServiceLoop` | src/camera_service.py:131-322 | the `while not STOP` loop gives the specified run |
| `CameraService.OnceRunsOneIteration` | camera_service.py:166-168 | with `--once` an iteration that does not `continue` is the last, with no sleep |
| `CameraService.LoopBounds` | src/camera_service.py:131-322 | never more iterations than observed, every wait at most `interval` sleeps, and no sleep under `--once` |
| `CameraService.RestartsIgnoreOnce` | src/camera_service.py:161-322 | iterations that all `continue` are all run, `--once` or not, without sleeping |
| `CameraService.RunRoot` | camera_service.py:101-173 | `main` of the root variant is the loop over its iterations with the configured settings and scripts |
| `CameraService.RootDryRunExecutesNothing` | camera_service.py:94-164 | in dry-run the root variant never executes any command |
| `CameraService.LimitsOf` | src/camera_service.py:242-249 | a command-line limit overrides the configured one; without it, a configured integer is the limit, `True`/`False` act as 1/0 and a null or missing value means no limit, for both the count and the byte limit |
| `CameraService.ConfiguredSelection` | src/camera_service.py:242-259 | a truthy `copy_subdirs` that cannot be iterated, or a limit that cannot be compared with an integer, raises inside the `try` and selects nothing; a falsy `copy_subdirs` searches `.`; a string one searches each of its characters; a missing or non-string strategy sorts as `newest` |
| `CameraService.CliLimitsBoundSelection` | src/camera_service.py:242-266 | the command-line limits bound the files selected |
| `CameraService.ChooseMount` | src/camera_service.py:192-212 | a non-empty `findmnt` target is used as it is, not through `MountedDevice`; otherwise the service's own mount is used through it |
| `CameraService.Removals` | src/camera_service.py:297-310 | one removal per staged entry |
| `CameraService.RemovalsCoverStaging` | src/camera_service.py:297-310 | every staged entry is removed, directories as trees |
| `CameraService.ClearStaging` | src/camera_service.py:297-310 | the cleanup loop removes the staged entries in listing order |
| `CameraService.FlowRules` | src/camera_service.py:192-310 | copies exactly when a mount path was obtained, `used + size <= total*9/10` with the size known, and some file was selected, and then through the list file as `copy_to_staging` does; only the service's own mount is released; staging is emptied exactly when the upload succeeded |
| `CameraService.SrcTurnActions` | src/camera_service.py:134-322 | the src iteration keeps the root decisions: shutdown first and only outside dry-run, `stop_all` in the middle band, `start_rec` for an unreachable host; when a device is found outside dry-run, `start_data` and then the upload flow |
| `CameraService.SrcDryRun` | src/camera_service.py:171-180 | in dry-run no device is waited for, so every data-flow iteration `continue`s without executing anything |
| `CameraService.SrcTurnIntended` | src/camera_service.py:177-180 | with the `continue` replaced by falling through, an iteration never skips the `--once` check and does the same actions; an iteration that ended in `continue` now ends normally, and every other iteration is unchanged |
| `CameraService.DryRunOnceNeverExits` | src/camera_service.py:177-322 | as written, `--dry-run --once` with enough battery and a reachable host runs every observed iteration and never exits after one |
| `CameraService.OnceExitsAfterOneIteration` | src/camera_service.py:315-318 | with the corrected iteration, `--once` ends the loop after the first iteration |
| `CameraService.RunSrc` | src/camera_service.py:102-322 | `main` of the src variant is the loop over the corrected iterations: never more iterations than polls, no sleep under `--once` |

## Left out

- Every external command (`lifepo4wered-cli`, `uhubctl`, `ping`, `battery-info.sh`, `mount`, `umount`, `findmnt`, `du`, `df`, `rsync`, `sudo`, `/sbin/shutdown`): each is an input exit status or output.
- `get_battery_info` and the socket-based `is_host_reachable` of both `camera_service.py` variants (camera_service.py:70-92): the report they return and the reachability are inputs of each iteration.
- The sysfs write of `set_camera_usb` (service.py:145-154) and the glue steps `mount_camera`, `start_camera_recording` and `disconnect_camera` (service.py:179-205): they only sequence commands.
- asyncio concurrency: `service_main` (service.py:298-311) and its background task, and the unbounded waits `wait_for_camera_usb_connect`, `wait_for_host` and `wait_for_no_host` (service.py:156-165,215-234). `wait_for_no_host` calls `is_host_reachable()` without `await` (service.py:230), so a coroutine is tested for truth and the wait never ends; this is not modelled.
- Signal handlers. STOP is an input: each iteration says after how many one-second sleeps of its wait STOP is raised, if at all. The `while not STOP` head is therefore always entered after a wait that did not stop.
- The wait for the camera to disconnect after the upload (src/camera_service.py:282-293): it only polls the detector until a wall-clock deadline.
- Wall-clock time: each poll of a wait reports its elapsed time, and a list of polls is what was observed. When the polls run out while a wait is still polling, the wait ends as `OutOfPolls`, the src iteration as `Unfinished` and the main loop as `OutOfPolls`. The short inner wait of `wait_for_camera_device` is the one exception: when its observed polls run out it counts as having found nothing, and the by-id scan follows.
- Filesystem walk order: `os.walk`, `glob` and `listdir` results are given sequences.
- argparse, logging, the `__main__` helpers and the hardware test scripts (`connect_test.py`, `src/connect_test.py`, `src/e2e_test_single_file.py`).
- YAML and JSON parsing: `load_config` receives what the parser returned. A top-level document that is not a mapping, and a battery report that is not a JSON object, are not modelled.
- Exceptions raised by `copy_to_staging` (its rsync failure is modelled by `Mounting.CopyToStaging`), `shutil.disk_usage` or the staging removals inside the src main loop: the flow assumes they complete.
- `Strings.Lower`, `Strings.StripLeft`, `Strings.StripRight`: ASCII only. Python's Unicode case mapping and Unicode whitespace are not modelled.
- `Strings.SplitLines`: splits on '\n' only, not on the other line boundaries `str.splitlines` knows.
- `Strings.ParseInt`: voltages are integer millivolts. `float()` of a decimal or exponent string and the `/1000.0` conversion (service.py:133-137) are not modelled.
- `CameraService.FlowRules`: `int(total * 0.9)` is stated as `total * 9 / 10`. The two can differ by one byte because of float rounding.
- `CameraConfig.IntSetting`: a value that is present but not an integer reads as the call site's default. Python would pass it on and fail, or compare it, later.
- `CameraService.SettingsOf`: its contract states only the defaults. The configured values go through `CameraConfig.IntSetting`, with the same caveat.
- `CameraService.Percent`: a boolean `battery_percent` counts as 1 or 0, as in Python. NaN and infinity are not modelled (reals have neither).
- `Uploader.UploadDir`: `os.geteuid`, `SUDO_USER`, whether staging is a directory and the `which` lookup are inputs. Sleeps are recorded, not taken.
- `Uploader.BackoffIsGeometric`: the delays are exact reals, not floats.
- `Mounting.Host.WithMountedDevice`: the body of the `with` block is an input outcome, not code.
- `Mounting.Host.MountBlockDevice`: `os.makedirs` also creates missing parents of the mount base; only the base and the mount point are added. A failing `makedirs` or `chmod` is not modelled.
- `Mounting.CopyToStaging`: the directories `ensure_dir` creates (the staging directory, and each file's parent in the file-by-file copy) are not modelled, `shutil.copy2` and `copytree` are taken to succeed, and the temporary file's name is an input.
- `FileSelection.Stat`: `st_mtime` is a float in Python and an integer here. Only its order matters to the sort, and only that is kept.
- A configuration value is an integer, a string, a boolean, a list of strings or null. Floats and nested mappings inside a section are not modelled.

## Findings

| source | as written | input that shows it | evidently intended | confidence | as-written member | corrected member |
|---|---|---|---|---|---|---|
| service.py:33-36 | `len(args.test)` is taken before checking for `None`; the parser leaves `test` as `None` when `--test` is not given | a start without `--test` | `run` returns False and `main` starts the service | not executed | `TestCommands.PlainStartNeverReachesMainLoop` | `TestCommands.TestRegistry.Run` |
| src/camera_service.py:168,177-180 | the `continue` after a failed import or when no device is found skips the `--once` exit and the inter-poll sleep; in dry-run no device is ever waited for | `--dry-run --once` with `battery_percent` at or above `disconnect_percent` and the host reachable | `--once` ends after one iteration | not executed | `CameraService.DryRunOnceNeverExits` | `CameraService.OnceExitsAfterOneIteration` |

Other behaviour of the code is modelled as written:

- `run_command` returns `''` on failure (service.py:54-57), so every caller that unpacks three values raises, and the `code != 0` checks after it can never fire. `Commands.HelpersNeverReturnFalse` states this.
- `copy_files_to_staging` calls `getsize` before checking that the source exists (service.py:269-276). A missing source therefore raises instead of returning. `LocalStaging.StepGuards` states this.
- The dry-run branch at src/camera_service.py:187-190 is unreachable. In dry-run the device is `None`, so the loop has already `continue`d.
- With no `hub_location` configured, `wait_for_camera_device` raises `ValueError` out of `main` (src/camera_service.py:171-176). The loop ends as `Raised`.
- The upload runs even when the 90% rule or an unknown size skipped the copy (src/camera_service.py:229-296).
