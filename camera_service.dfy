/** The camera service's main loop, in its two variants: the prototype in
    the repository root, which only switches the camera's ports, and the
    later one under `src/`, which also detects and mounts the camera,
    copies selected files to staging, uploads them and cleans up. Each
    iteration is a pure function of what the iteration observes; the loop
    is a method over the sequence of iterations. */
module CameraService {
  import opened Wrappers
  import opened Strings
  import opened PosixPath
  import opened CameraConfig
  import FileSelection
  import Mounting
  import DeviceDetection

  // ------------------------------------------------------------ commands

  /** A command `maybe_run` was given, and whether it was executed (it is
      only logged in dry-run mode). */
  datatype Invocation = Invocation(cmd: seq<string>, executed: bool)

  function Run(cmd: seq<string>, dryRun: bool): Invocation {
    Invocation(cmd, !dryRun)
  }

  /** `maybe_run`: in dry-run mode nothing is executed and the status is 0;
      otherwise the command runs and its exit status is returned. */
  function MaybeRun(cmd: seq<string>, dryRun: bool, exitCode: int): (r: (Invocation, int))
    ensures r.0.cmd == cmd
    ensures r.0.executed <==> !dryRun
    ensures dryRun ==> r.1 == 0
    ensures !dryRun ==> r.1 == exitCode
  {
    (Run(cmd, dryRun), if dryRun then 0 else exitCode)
  }

  const ShutdownCommand: seq<string> := ["/sbin/shutdown", "-h", "now"]

  /** The control scripts. */
  datatype Scripts = Scripts(startData: string, startRec: string, stopAll: string)

  /** The root variant keeps its scripts next to itself. */
  function RootScripts(baseDir: string): Scripts {
    Scripts(Join(baseDir, "start-for-data.sh"), Join(baseDir, "start-for-recording.sh"), Join(baseDir, "stop-all-ports.sh"))
  }

  /** The later variant uses the logged scripts in the repository's `bin`. */
  function SrcScripts(repoRoot: string): Scripts {
    var bin := Join(repoRoot, "bin");
    Scripts(Join(bin, "logged-start-for-data.sh"), Join(bin, "logged-start-for-recording.sh"),
            Join(bin, "logged-stop-all-ports.sh"))
  }

  /** What removing one staged entry does. */
  datatype Removal = RemoveTree(path: string) | RemoveFile(path: string)

  /** One observable step of an iteration. */
  datatype Action =
    | Exec(inv: Invocation)
    | Pause(seconds: nat)
    | CopyFiles(steps: seq<Mounting.CopyAction>)
    | ReleaseMount(path: string)
    | Upload(staging: string, retries: int)
    | Remove(removal: Removal)

  /** Nothing in the log was executed, and nothing but commands and pauses
      happened. */
  predicate OnlyLogged(log: seq<Action>) {
    forall k :: 0 <= k < |log| ==> (log[k].Exec? && !log[k].inv.executed) || log[k].Pause?
  }

  // ------------------------------------------------------------ settings

  datatype Settings = Settings(interval: int, disconnectPct: int, shutdownPct: int)

  /** The poll interval and thresholds, read with the defaults written in
      `main`. */
  function SettingsOf(c: Config): (s: Settings)
    ensures c == DefaultConfig ==> s == Settings(30, 50, 25)
    ensures "thresholds" !in c ==> s.disconnectPct == 50 && s.shutdownPct == 25
    ensures "poll" !in c ==> s.interval == 30
  {
    Settings(IntSetting(c, "poll", "interval_seconds", 30),
             IntSetting(c, "thresholds", "disconnect_percent", 50),
             IntSetting(c, "thresholds", "shutdown_percent", 25))
  }

  /** A JSON value of the battery report. Python counts `True` and `False`
      as the integers 1 and 0. */
  datatype Json = Number(x: real) | Boolean(b: bool) | Text(s: string) | JsonNull | Composite

  /** `info.get("battery_percent")` when it is an `int` or a `float`;
      `None` when the report is missing or the value is not numeric. */
  function Percent(info: Option<map<string, Json>>): (pct: Option<real>)
    ensures info.None? ==> pct.None?
    ensures info.Some? && "battery_percent" in info.value && info.value["battery_percent"].Number? ==>
      pct == Some(info.value["battery_percent"].x)
    ensures pct.Some? ==>
      info.Some? && "battery_percent" in info.value &&
      (info.value["battery_percent"].Number? || info.value["battery_percent"].Boolean?)
  {
    match info
    case None => None
    case Some(m) =>
      if "battery_percent" !in m then None
      else
        match m["battery_percent"]
        case Number(x) => Some(x)
        case Boolean(b) => Some(if b then 1.0 else 0.0)
        case _ => None
  }

  // ------------------------------------------------------------ the decision

  /** The control decision of one poll; both variants share it. */
  datatype Band = NoReading | Shutdown | Disconnect | DataFlow | Recording

  /** The shutdown threshold is checked first; reachability is consulted only
      when the percentage is at or above the disconnect threshold. */
  function BandOf(pct: Option<real>, s: Settings, reachable: bool): Band {
    if pct.None? then NoReading
    else if pct.value < s.shutdownPct as real then Shutdown
    else if pct.value < s.disconnectPct as real then Disconnect
    else if reachable then DataFlow
    else Recording
  }

  /** Each band in both directions, in terms of the percentage. */
  lemma BandMeaning(pct: Option<real>, s: Settings, reachable: bool)
    ensures BandOf(pct, s, reachable) == NoReading <==> pct.None?
    ensures BandOf(pct, s, reachable) == Shutdown <==> pct.Some? && pct.value < s.shutdownPct as real
    ensures BandOf(pct, s, reachable) == Disconnect <==>
      pct.Some? && s.shutdownPct as real <= pct.value < s.disconnectPct as real
    ensures BandOf(pct, s, reachable) == DataFlow <==>
      pct.Some? && s.shutdownPct as real <= pct.value && s.disconnectPct as real <= pct.value && reachable
    ensures BandOf(pct, s, reachable) == Recording <==>
      pct.Some? && s.shutdownPct as real <= pct.value && s.disconnectPct as real <= pct.value && !reachable
    ensures BandOf(pct, s, true).DataFlow? || BandOf(pct, s, true) == BandOf(pct, s, false)
  {
  }

  /** How an iteration ends: on to the `--once` check and the wait, `break`,
      `continue` (straight back to the loop condition), an exception that
      leaves `main`, or not at all within what was observed (the camera wait
      was still polling when its observed polls ran out). */
  datatype TurnEnd = Normal | Exit | Restart | Crashed | Unfinished

  datatype Turn = Turn(log: seq<Action>, end: TurnEnd)

  // ------------------------------------------------------------ root variant

  /** One iteration of the root variant, given the battery report and the
      reachability of the upload host. */
  function RootTurn(sc: Scripts, s: Settings, dryRun: bool, info: Option<map<string, Json>>, reachable: bool): Turn {
    match BandOf(Percent(info), s, reachable)
    case NoReading => Turn([], Normal)
    case Shutdown => Turn(if dryRun then [] else [Exec(Run(ShutdownCommand, false))], Exit)
    case Disconnect => Turn([Exec(Run([sc.stopAll], dryRun))], Normal)
    case DataFlow => Turn([Exec(Run([sc.startData], dryRun)), Pause(3), Exec(Run([sc.stopAll], dryRun))], Normal)
    case Recording => Turn([Exec(Run([sc.startRec], dryRun))], Normal)
  }

  /** The root iteration's actions for each battery band. */
  lemma RootTurnActions(sc: Scripts, s: Settings, dryRun: bool, info: Option<map<string, Json>>, reachable: bool)
    ensures var t := RootTurn(sc, s, dryRun, info, reachable); var pct := Percent(info);
      && (t.end == Exit <==> pct.Some? && pct.value < s.shutdownPct as real)
      && (t.end == Exit ==> (t.log == [] <==> dryRun) && (!dryRun ==> t.log == [Exec(Invocation(ShutdownCommand, true))]))
      && (pct.None? ==> t.log == [])
      && (pct.Some? && s.shutdownPct as real <= pct.value < s.disconnectPct as real ==>
            t.log == [Exec(Run([sc.stopAll], dryRun))])
      && (pct.Some? && s.shutdownPct as real <= pct.value && s.disconnectPct as real <= pct.value ==>
            t.log == if reachable then [Exec(Run([sc.startData], dryRun)), Pause(3), Exec(Run([sc.stopAll], dryRun))]
                     else [Exec(Run([sc.startRec], dryRun))])
      && t.end != Restart && t.end != Crashed && t.end != Unfinished
      && (dryRun ==> OnlyLogged(t.log))
  {
    BandMeaning(Percent(info), s, reachable);
  }

  // ------------------------------------------------------------ the loop

  /** One iteration as the loop sees it: its actions and end, and after how
      many one-second sleeps of the following wait STOP is raised (`None`:
      not during that wait). */
  datatype Round = Round(turn: Turn, stopAfter: Option<nat>)

  function Max(a: int, b: int): int {
    if a < b then b else a
  }

  /** The sleeps of the wait before the next poll. */
  function Slept(interval: int, stopAfter: Option<nat>): nat {
    if stopAfter.Some? && stopAfter.value < interval then stopAfter.value else Max(interval, 0)
  }

  /** Whether STOP is raised by the end of a wait of `slept` sleeps. */
  predicate StopRaised(stopAfter: Option<nat>, slept: nat) {
    stopAfter.Some? && stopAfter.value <= slept
  }

  /** The wait sleeps `interval` seconds unless STOP cuts it short, and it
      never sleeps after STOP. */
  lemma SleptMeaning(interval: int, stopAfter: Option<nat>)
    ensures Slept(interval, stopAfter) <= Max(interval, 0)
    ensures Slept(interval, stopAfter) < Max(interval, 0) ==> StopRaised(stopAfter, Slept(interval, stopAfter))
    ensures StopRaised(stopAfter, Slept(interval, stopAfter)) ==> Slept(interval, stopAfter) == stopAfter.value || stopAfter.value == interval
  {
  }

  /** The inter-poll wait: `while slept < interval and not STOP: sleep(1)`.
      Returns the sleeps taken and whether STOP is raised at the end. */
  method WaitForNextPoll(interval: int, stopAfter: Option<nat>) returns (slept: nat, stop: bool)
    ensures slept == Slept(interval, stopAfter)
    ensures stop <==> StopRaised(stopAfter, slept)
  {
    slept := 0;
    stop := StopRaised(stopAfter, slept);
    while slept < interval && !stop
      invariant slept <= Max(interval, 0)
      invariant stop <==> StopRaised(stopAfter, slept)
      invariant stopAfter.Some? ==> slept <= stopAfter.value
    {
      slept := slept + 1;
      stop := StopRaised(stopAfter, slept);
    }
  }

  /** How the loop ended. */
  datatype LoopEnd = Stopped | Exited | OnceDone | Raised | OutOfPolls

  /** Everything the loop did: the actions, the iterations run, the length
      of each wait, and the reason it ended. */
  datatype LoopRun = LoopRun(log: seq<Action>, ran: nat, sleeps: seq<nat>, end: LoopEnd)

  function Then(log: seq<Action>, sleeps: seq<nat>, rest: LoopRun): LoopRun {
    LoopRun(log + rest.log, 1 + rest.ran, sleeps + rest.sleeps, rest.end)
  }

  /** `while not STOP:` over the observed iterations; running out of them
      ends the run. STOP is raised only during waits, so a `continue` goes
      straight on to the next iteration. */
  function Loop(interval: int, once: bool, rounds: seq<Round>): LoopRun
    decreases |rounds|
  {
    if rounds == [] then LoopRun([], 0, [], OutOfPolls)
    else
      var t := rounds[0].turn;
      match t.end
      case Exit => LoopRun(t.log, 1, [], Exited)
      case Crashed => LoopRun(t.log, 1, [], Raised)
      case Unfinished => LoopRun(t.log, 1, [], OutOfPolls)
      case Restart => Then(t.log, [], Loop(interval, once, rounds[1..]))
      case Normal =>
        if once then LoopRun(t.log, 1, [], OnceDone)
        else
          var slept := Slept(interval, rounds[0].stopAfter);
          if StopRaised(rounds[0].stopAfter, slept) then LoopRun(t.log, 1, [slept], Stopped)
          else Then(t.log, [slept], Loop(interval, once, rounds[1..]))
  }

  /** The run so far followed by the rest of the loop. */
  function Prefix(log: seq<Action>, ran: nat, sleeps: seq<nat>, rest: LoopRun): LoopRun {
    LoopRun(log + rest.log, ran + rest.ran, sleeps + rest.sleeps, rest.end)
  }

  /** One iteration moves from the rest of the loop into the run so far. */
  lemma PrefixThen(log: seq<Action>, ran: nat, sleeps: seq<nat>, turnLog: seq<Action>, slept: seq<nat>, rest: LoopRun)
    ensures Prefix(log, ran, sleeps, Then(turnLog, slept, rest)) == Prefix(log + turnLog, ran + 1, sleeps + slept, rest)
  {
    assert log + (turnLog + rest.log) == log + turnLog + rest.log;
    assert sleeps + (slept + rest.sleeps) == sleeps + slept + rest.sleeps;
  }

  /** The main loop of both variants. */
  method ServiceLoop(interval: int, once: bool, rounds: seq<Round>) returns (run: LoopRun)
    ensures run == Loop(interval, once, rounds)
  {
    var log: seq<Action> := [];
    var sleeps: seq<nat> := [];
    var i := 0;
    while i < |rounds|
      invariant 0 <= i <= |rounds|
      invariant Loop(interval, once, rounds) == Prefix(log, i, sleeps, Loop(interval, once, rounds[i..]))
    {
      assert rounds[i..][1..] == rounds[i + 1..];
      var r := rounds[i];
      ghost var rest := Loop(interval, once, rounds[i + 1..]);
      match r.turn.end {
        case Exit =>
          return LoopRun(log + r.turn.log, i + 1, sleeps, Exited);
        case Crashed =>
          return LoopRun(log + r.turn.log, i + 1, sleeps, Raised);
        case Unfinished =>
          return LoopRun(log + r.turn.log, i + 1, sleeps, OutOfPolls);
        case Restart =>
          PrefixThen(log, i, sleeps, r.turn.log, [], rest);
          log := log + r.turn.log;
          i := i + 1;
        case Normal =>
          if once {
            return LoopRun(log + r.turn.log, i + 1, sleeps, OnceDone);
          }
          var slept, stop := WaitForNextPoll(interval, r.stopAfter);
          if stop {
            return LoopRun(log + r.turn.log, i + 1, sleeps + [slept], Stopped);
          }
          PrefixThen(log, i, sleeps, r.turn.log, [slept], rest);
          log := log + r.turn.log;
          sleeps := sleeps + [slept];
          i := i + 1;
      }
    }
    assert rounds[i..] == [];
    run := LoopRun(log, i, sleeps, OutOfPolls);
  }

  /** With `--once`, an iteration that does not `continue` is the last. */
  lemma OnceRunsOneIteration(interval: int, rounds: seq<Round>)
    requires rounds != [] && rounds[0].turn.end != Restart
    ensures Loop(interval, true, rounds).ran == 1
    ensures Loop(interval, true, rounds).sleeps == []
    ensures Loop(interval, true, rounds).log == rounds[0].turn.log
  {
  }

  /** The loop never runs more iterations than it observed, every wait is
      at most `interval` sleeps, and a stop by STOP follows a wait that STOP
      cut short or completed. */
  lemma {:induction false} LoopBounds(interval: int, once: bool, rounds: seq<Round>)
    ensures Loop(interval, once, rounds).ran <= |rounds|
    ensures forall k :: 0 <= k < |Loop(interval, once, rounds).sleeps| ==> Loop(interval, once, rounds).sleeps[k] <= Max(interval, 0)
    ensures once ==> Loop(interval, once, rounds).sleeps == []
    ensures Loop(interval, once, rounds).end == Stopped ==> !once
    decreases |rounds|
  {
    if rounds != [] {
      LoopBounds(interval, once, rounds[1..]);
      SleptMeaning(interval, rounds[0].stopAfter);
    }
  }

  /** Iterations that all `continue` are all run, one after the other,
      whatever `--once` says, and with no wait between them. */
  lemma {:induction false} RestartsIgnoreOnce(interval: int, once: bool, rounds: seq<Round>)
    requires forall k :: 0 <= k < |rounds| ==> rounds[k].turn.end == Restart
    ensures Loop(interval, once, rounds).ran == |rounds|
    ensures Loop(interval, once, rounds).sleeps == []
    ensures Loop(interval, once, rounds).end == OutOfPolls
    decreases |rounds|
  {
    if rounds != [] {
      RestartsIgnoreOnce(interval, once, rounds[1..]);
    }
  }

  /** What one root iteration observes. */
  datatype RootPoll = RootPoll(info: Option<map<string, Json>>, reachable: bool, stopAfter: Option<nat>)

  function RootRounds(sc: Scripts, s: Settings, dryRun: bool, polls: seq<RootPoll>): seq<Round> {
    seq(|polls|, i requires 0 <= i < |polls| =>
      Round(RootTurn(sc, s, dryRun, polls[i].info, polls[i].reachable), polls[i].stopAfter))
  }

  /** `main` of the root variant, after the configuration has been loaded. */
  method RunRoot(c: Config, baseDir: string, dryRun: bool, once: bool, polls: seq<RootPoll>) returns (run: LoopRun)
    ensures var s := SettingsOf(c);
      run == Loop(s.interval, once, RootRounds(RootScripts(baseDir), s, dryRun, polls))
  {
    var s := SettingsOf(c);
    var rounds := RootRounds(RootScripts(baseDir), s, dryRun, polls);
    run := ServiceLoop(s.interval, once, rounds);
  }

  /** In dry-run mode the root variant executes nothing at all. */
  lemma {:induction false} RootDryRunExecutesNothing(sc: Scripts, s: Settings, once: bool, polls: seq<RootPoll>)
    ensures OnlyLogged(Loop(s.interval, once, RootRounds(sc, s, true, polls)).log)
    decreases |polls|
  {
    var rounds := RootRounds(sc, s, true, polls);
    if polls != [] {
      RootTurnActions(sc, s, true, polls[0].info, polls[0].reachable);
      RootDryRunExecutesNothing(sc, s, once, polls[1..]);
      assert RootRounds(sc, s, true, polls[1..]) == rounds[1..];
      var t := rounds[0].turn;
      var rest := Loop(s.interval, once, rounds[1..]);
      assert OnlyLogged(t.log);
      assert OnlyLogged(t.log + rest.log) by {
        forall k | 0 <= k < |t.log + rest.log|
          ensures ((t.log + rest.log)[k].Exec? && !(t.log + rest.log)[k].inv.executed) || (t.log + rest.log)[k].Pause?
        {
          if k >= |t.log| {
            assert (t.log + rest.log)[k] == rest.log[k - |t.log|];
          }
        }
      }
    }
  }

  // ------------------------------------------------------------ src variant

  /** `--limit-files` and `--limit-bytes`. */
  datatype Cli = Cli(limitFiles: Option<int>, limitBytes: Option<int>)

  /** A transfer limit as `select_files_to_copy` compares it: none (an
      absent or null value), a number (Python compares `True` and `False` as
      1 and 0), or a value an `int` cannot be compared with (a string or a
      list). */
  datatype LimitSetting = NoLimit | Limit(n: int) | Unorderable

  /** A transfer limit from the `camera` section. */
  function ConfigLimit(c: Config, key: string): LimitSetting {
    match Lookup(c, "camera", key, Null)
    case Int(i) => Limit(i)
    case Bool(b) => Limit(if b then 1 else 0)
    case Null => NoLimit
    case _ => Unorderable
  }

  /** A command-line limit that is given overrides the configured one. */
  function EffectiveLimit(cli: Option<int>, c: Config, key: string): LimitSetting {
    if cli.Some? then Limit(cli.value) else ConfigLimit(c, key)
  }

  function Bound(l: LimitSetting): Option<int> {
    if l.Limit? then Some(l.n) else None
  }

  /** The limits handed to file selection when both can be compared. */
  function LimitsOf(c: Config, cli: Cli): (lim: FileSelection.Limits)
    ensures cli.limitFiles.Some? ==> lim.maxFiles == cli.limitFiles
    ensures cli.limitBytes.Some? ==> lim.maxBytes == cli.limitBytes
    ensures var f := Lookup(c, "camera", "transfer_max_files", Null);
      cli.limitFiles.None? ==>
        (f.Int? ==> lim.maxFiles == Some(f.i))
        && (f.Bool? ==> lim.maxFiles == Some(if f.b then 1 else 0))
        && (f.Null? ==> lim.maxFiles.None?)
    ensures var b := Lookup(c, "camera", "transfer_max_bytes", Null);
      cli.limitBytes.None? ==>
        (b.Int? ==> lim.maxBytes == Some(b.i))
        && (b.Bool? ==> lim.maxBytes == Some(if b.b then 1 else 0))
        && (b.Null? ==> lim.maxBytes.None?)
  {
    FileSelection.Limits(Bound(EffectiveLimit(cli.limitFiles, c, "transfer_max_files")),
                         Bound(EffectiveLimit(cli.limitBytes, c, "transfer_max_bytes")))
  }

  /** Either limit is one Python cannot compare with an `int`: the first
      candidate's check raises `TypeError`, which the `except` around the
      selection turns into an empty selection. Without candidates, or when
      a count limit of at most 0 breaks the loop before the byte check,
      nothing is selected either. */
  predicate LimitsUnorderable(c: Config, cli: Cli) {
    EffectiveLimit(cli.limitFiles, c, "transfer_max_files").Unorderable?
    || EffectiveLimit(cli.limitBytes, c, "transfer_max_bytes").Unorderable?
  }

  /** The one-character strings a string iterates over. */
  function Chars(s: string): (r: seq<string>)
    ensures |r| == |s|
    ensures forall k :: 0 <= k < |s| ==> r[k] == [s[k]]
  {
    seq(|s|, k requires 0 <= k < |s| => [s[k]])
  }

  /** The subdirectories `select_files_to_copy` iterates over:
      `copy_subdirs or []`, or `['.']` when that is empty. A falsy value
      searches the whole mount, a string is iterated character by character,
      and iterating a truthy number or `True` raises (`None`). */
  function SearchSubdirs(c: Config): Option<seq<string>> {
    match Lookup(c, "camera", "copy_subdirs", Null)
    case Strs(items) => Some(if items != [] then items else ["."])
    case Str(s) => Some(if s != "" then Chars(s) else ["."])
    case Int(i) => if i == 0 then Some(["."]) else None
    case Bool(b) => if b then None else Some(["."])
    case Null => Some(["."])
  }

  /** A string setting with the default written at the call site. */
  function StrOr(c: Config, section: string, key: string, default: string): string {
    match StrSetting(c, section, key)
    case Some(v) => v
    case None => default
  }

  function Strategy(c: Config): string {
    StrOr(c, "camera", "transfer_select_strategy", "newest")
  }

  function StagingDir(c: Config): string {
    StrOr(c, "paths", "local_staging", "/var/lib/camera_service/staging")
  }

  /** The files chosen for transfer from the walked mount, as candidates;
      a selection that raises leaves nothing selected. */
  function SelectedCandidates(c: Config, cli: Cli, tree: FileSelection.Tree): seq<FileSelection.Candidate> {
    match SearchSubdirs(c)
    case None => []
    case Some(dirs) =>
      if LimitsUnorderable(c, cli) then [] else FileSelection.Selection(tree, dirs, LimitsOf(c, cli), Strategy(c), [])
  }

  /** The relative paths handed to `copy_to_staging`. */
  function SelectedFiles(c: Config, cli: Cli, tree: FileSelection.Tree): seq<string> {
    FileSelection.Rels(SelectedCandidates(c, cli, tree))
  }

  /** How the configured values steer the selection: values that make the
      selection raise select nothing, a falsy `copy_subdirs` searches the
      whole mount, a string one searches each of its characters, `True` as
      the count limit allows one file, and a missing or non-string strategy
      sorts as `newest`. */
  lemma ConfiguredSelection(c: Config, cli: Cli, tree: FileSelection.Tree)
    ensures SearchSubdirs(c).None? || LimitsUnorderable(c, cli) ==> SelectedFiles(c, cli, tree) == []
    ensures var v := Lookup(c, "camera", "copy_subdirs", Null);
      (v.Null? || v == Strs([]) || v == Str("") || v == Int(0) || v == Bool(false)) ==> SearchSubdirs(c) == Some(["."])
    ensures var v := Lookup(c, "camera", "copy_subdirs", Null);
      v.Str? && v.s != "" ==>
        && SearchSubdirs(c).Some? && |SearchSubdirs(c).value| == |v.s|
        && forall k :: 0 <= k < |v.s| ==> SearchSubdirs(c).value[k] == [v.s[k]]
    ensures cli.limitFiles.None? && Lookup(c, "camera", "transfer_max_files", Null) == Bool(true) ==>
      |SelectedFiles(c, cli, tree)| <= 1
    ensures StrSetting(c, "camera", "transfer_select_strategy").None? ==>
      FileSelection.OrderOf(Strategy(c)) == FileSelection.NewestFirst
    ensures StrSetting(c, "camera", "transfer_select_strategy").Some? ==>
      Strategy(c) == StrSetting(c, "camera", "transfer_select_strategy").value
  {
    var sel := SelectedCandidates(c, cli, tree);
    if SearchSubdirs(c).Some? && !LimitsUnorderable(c, cli) {
      FileSelection.SelectionProperties(tree, SearchSubdirs(c).value, LimitsOf(c, cli), Strategy(c), []);
    }
  }

  /** The command-line limits bound the transfer even when the configuration
      sets others. */
  lemma CliLimitsBoundSelection(c: Config, cli: Cli, tree: FileSelection.Tree)
    ensures cli.limitFiles.Some? ==> |SelectedFiles(c, cli, tree)| == 0 || |SelectedFiles(c, cli, tree)| <= cli.limitFiles.value
    ensures cli.limitBytes.Some? && cli.limitBytes.value >= 0 ==>
      FileSelection.TotalSize(SelectedCandidates(c, cli, tree)) <= cli.limitBytes.value
  {
    var sel := SelectedCandidates(c, cli, tree);
    if SearchSubdirs(c).Some? && !LimitsUnorderable(c, cli) {
      FileSelection.SelectionProperties(tree, SearchSubdirs(c).value, LimitsOf(c, cli), Strategy(c), []);
    }
    if cli.limitBytes.Some? && cli.limitBytes.value >= 0 && sel == [] {
      assert FileSelection.TotalSize(sel) == 0;
    }
  }

  /** The mount the copy uses, and whether the service made it itself. */
  datatype Mount = Mount(path: string, viaContext: bool)

  /** A target `findmnt` prints is used as it is; otherwise the service
      mounts the device (`None`: the mount raised) and remembers that it
      has to release it. */
  function ChooseMount(findmnt: Option<string>, ownMount: Option<string>): (m: Mount)
    ensures findmnt.Some? && Strip(findmnt.value) != "" ==> m == Mount(Strip(findmnt.value), false)
    ensures m.viaContext <==> !(findmnt.Some? && Strip(findmnt.value) != "") && ownMount.Some?
    ensures m.viaContext ==> m.path == ownMount.value
    ensures !(findmnt.Some? && Strip(findmnt.value) != "") && ownMount.None? ==> m.path == ""
  {
    if findmnt.Some? && Strip(findmnt.value) != "" then Mount(Strip(findmnt.value), false)
    else
      match ownMount
      case Some(p) => Mount(p, true)
      case None => Mount("", false)
  }

  /** `shutil.disk_usage` of the staging filesystem. */
  datatype Disk = Disk(total: nat, used: nat)

  /** The 90% rule: copy only when the camera's size is known and staging
      would stay at or below 90% of its filesystem. */
  predicate CopyAllowed(size: Option<nat>, disk: Disk) {
    size.Some? && disk.used + size.value <= disk.total * 9 / 10
  }

  /** What the upload flow does once a device is known. */
  datatype Flow = Flow(mount: Mount, selected: seq<string>, copy: seq<Mounting.CopyAction>, removals: seq<Removal>)

  function RemovalOf(staging: string, e: Mounting.Entry): Removal {
    if e.isDir then RemoveTree(Join(staging, e.name)) else RemoveFile(Join(staging, e.name))
  }

  /** Removing every entry of the staging directory, in listing order. */
  function Removals(staging: string, entries: seq<Mounting.Entry>): (r: seq<Removal>)
    ensures |r| == |entries|
  {
    if entries == [] then []
    else Removals(staging, entries[..|entries| - 1]) + [RemovalOf(staging, entries[|entries| - 1])]
  }

  /** Every staged entry is removed, a directory as a tree. */
  lemma {:induction false} RemovalsCoverStaging(staging: string, entries: seq<Mounting.Entry>)
    ensures forall k :: 0 <= k < |entries| ==>
      Removals(staging, entries)[k] == if entries[k].isDir then RemoveTree(Join(staging, entries[k].name))
                                      else RemoveFile(Join(staging, entries[k].name))
  {
    if entries != [] {
      var init := entries[..|entries| - 1];
      RemovalsCoverStaging(staging, init);
      forall k | 0 <= k < |entries|
        ensures Removals(staging, entries)[k] == RemovalOf(staging, entries[k])
      {
        if k < |init| {
          assert entries[k] == init[k];
        }
      }
    }
  }

  /** The staging cleanup loop over `os.listdir(staging)`. */
  method ClearStaging(staging: string, entries: seq<Mounting.Entry>) returns (removed: seq<Removal>)
    ensures removed == Removals(staging, entries)
  {
    removed := [];
    var i := 0;
    while i < |entries|
      invariant 0 <= i <= |entries|
      invariant removed == Removals(staging, entries[..i])
    {
      assert entries[..i + 1][..i] == entries[..i];
      var path := Join(staging, entries[i].name);
      if entries[i].isDir {
        removed := removed + [RemoveTree(path)];
      } else {
        removed := removed + [RemoveFile(path)];
      }
      i := i + 1;
    }
    assert entries[..i] == entries;
  }

  /** What one src iteration observes: the battery report, the host's
      reachability, whether the helper modules imported, the polls of the
      camera wait, the output of `findmnt` (`None`: it failed), the path of
      the service's own mount (`None`: mounting raised), the size `du`
      reported (`None`: it failed), the staging filesystem, the walk of the
      mount, `which rsync`, the temporary list file, whether the upload
      succeeded, the staging listing at cleanup, and STOP during the wait. */
  datatype SrcPoll = SrcPoll(
    info: Option<map<string, Json>>, reachable: bool, modulesLoaded: bool,
    camera: seq<DeviceDetection.CameraPoll>, findmnt: Option<string>, ownMount: Option<string>,
    du: Option<nat>, disk: Disk, tree: FileSelection.Tree, rsyncPath: Option<string>, listFile: string,
    uploadOk: bool, stagingEntries: seq<Mounting.Entry>, stopAfter: Option<nat>)

  /** The mount, copy and cleanup decisions of the upload flow. */
  function FlowOf(c: Config, cli: Cli, p: SrcPoll): Flow {
    var staging := StagingDir(c);
    var m := ChooseMount(p.findmnt, p.ownMount);
    var sel := if m.path != "" && CopyAllowed(p.du, p.disk) then SelectedFiles(c, cli, p.tree) else [];
    var copy := if sel == [] then [] else Mounting.CopySteps(m.path, staging, true, p.rsyncPath, Some(sel), p.listFile, []);
    Flow(m, sel, copy, if p.uploadOk then Removals(staging, p.stagingEntries) else [])
  }

  /** Copying happens exactly when a mount path was obtained, the 90% rule
      allows it and some file was selected; staging is cleared exactly when
      the upload succeeded; only the service's own mount is released. */
  lemma FlowRules(c: Config, cli: Cli, p: SrcPoll)
    ensures var f := FlowOf(c, cli, p);
      && (f.copy != [] <==> f.mount.path != "" && CopyAllowed(p.du, p.disk) && SelectedFiles(c, cli, p.tree) != [])
      && (f.copy != [] ==> f.copy == Mounting.CopySteps(f.mount.path, StagingDir(c), true, p.rsyncPath,
                                                       Some(SelectedFiles(c, cli, p.tree)), p.listFile, []))
      && (p.du.None? ==> f.copy == [])
      && (f.removals != [] ==> p.uploadOk)
      && (p.uploadOk ==> f.removals == Removals(StagingDir(c), p.stagingEntries))
      && (!p.uploadOk ==> f.removals == [])
      && (p.findmnt.Some? && Strip(p.findmnt.value) != "" ==> !f.mount.viaContext && f.mount.path == Strip(p.findmnt.value))
  {
  }

  /** The actions of the upload flow, in the order `main` takes them. The
      generator behind `MountedDevice` releases only a non-empty path. */
  function FlowLog(c: Config, sc: Scripts, f: Flow): seq<Action> {
    var staging := StagingDir(c);
    [Exec(Run(["mkdir", "-p", staging], false))]
      + (if f.copy == [] then [] else [CopyFiles(f.copy)])
      + (if f.mount.viaContext && f.mount.path != "" then [ReleaseMount(f.mount.path)] else [])
      + [Exec(Run([sc.stopAll], false)), Upload(staging, IntSetting(c, "poll", "upload_retries", 3))]
      + seq(|f.removals|, k requires 0 <= k < |f.removals| => Remove(f.removals[k]))
  }

  /** The device the iteration waits for, by hub only; with no hub
      configured the wait raises `ValueError`, which leaves `main`. */
  function CameraWait(c: Config, polls: seq<DeviceDetection.CameraPoll>): DeviceDetection.WaitEnd {
    var timeout := Max(IntSetting(c, "poll", "mount_timeout_seconds", 20), 60);
    DeviceDetection.WaitForCamera(None, None, StrSetting(c, "camera", "hub_location"), timeout as real, polls)
  }

  /** One iteration of the src variant, as written: the import failure and
      the missing device end the iteration with `continue`. */
  function SrcTurn(c: Config, cli: Cli, sc: Scripts, dryRun: bool, p: SrcPoll): Turn {
    match BandOf(Percent(p.info), SettingsOf(c), p.reachable)
    case NoReading => Turn([], Normal)
    case Shutdown => Turn(if dryRun then [] else [Exec(Run(ShutdownCommand, false))], Exit)
    case Disconnect => Turn([Exec(Run([sc.stopAll], dryRun))], Normal)
    case Recording => Turn([Exec(Run([sc.startRec], dryRun))], Normal)
    case DataFlow =>
      var start := [Exec(Run([sc.startData], dryRun))];
      var stop := [Exec(Run([sc.stopAll], dryRun))];
      if !p.modulesLoaded then Turn(start + stop, Restart)
      else
        var wait := if dryRun then DeviceDetection.NoDevice else CameraWait(c, p.camera);
        if wait.NoMatcher? then Turn(start, Crashed)
        else if wait.OutOfPolls? then Turn(start, Unfinished)
        else if !(wait.Found? && wait.dev != "") then Turn(start + stop, Restart)
        else if dryRun then
          Turn(start + [Exec(Run(["mkdir", "-p", StagingDir(c)], true)), Exec(Run([sc.stopAll], true))], Normal)
        else Turn(start + FlowLog(c, sc, FlowOf(c, cli, p)), Normal)
  }

  /** The src iteration keeps the root's decisions outside the upload flow,
      and a device that is found leads to the upload flow. */
  lemma SrcTurnActions(c: Config, cli: Cli, sc: Scripts, dryRun: bool, p: SrcPoll)
    ensures var t := SrcTurn(c, cli, sc, dryRun, p); var s := SettingsOf(c); var pct := Percent(p.info);
      && (t.end == Exit <==> pct.Some? && pct.value < s.shutdownPct as real)
      && (t.end == Exit ==> (t.log == [] <==> dryRun))
      && (pct.None? ==> t == Turn([], Normal))
      && (pct.Some? && s.shutdownPct as real <= pct.value < s.disconnectPct as real ==>
            t == Turn([Exec(Run([sc.stopAll], dryRun))], Normal))
      && (pct.Some? && s.shutdownPct as real <= pct.value && s.disconnectPct as real <= pct.value && !p.reachable ==>
            t == Turn([Exec(Run([sc.startRec], dryRun))], Normal))
      && (BandOf(pct, s, p.reachable) == DataFlow && p.modulesLoaded && !dryRun && CameraWait(c, p.camera).Found? &&
          CameraWait(c, p.camera).dev != "" ==>
            t == Turn([Exec(Run([sc.startData], false))] + FlowLog(c, sc, FlowOf(c, cli, p)), Normal))
  {
    BandMeaning(Percent(p.info), SettingsOf(c), p.reachable);
  }

  /** In dry-run mode no device is waited for, so every data-flow iteration
      ends with `continue`: nothing is mounted, copied, uploaded or
      executed. */
  lemma SrcDryRun(c: Config, cli: Cli, sc: Scripts, p: SrcPoll)
    ensures var t := SrcTurn(c, cli, sc, true, p);
      && OnlyLogged(t.log)
      && (BandOf(Percent(p.info), SettingsOf(c), p.reachable) == DataFlow ==>
            t == Turn([Exec(Run([sc.startData], true)), Exec(Run([sc.stopAll], true))], Restart))
  {
    BandMeaning(Percent(p.info), SettingsOf(c), p.reachable);
  }

  /** The iteration with `continue` replaced by falling through to the
      `--once` check and the wait. */
  function SrcTurnIntended(c: Config, cli: Cli, sc: Scripts, dryRun: bool, p: SrcPoll): (t: Turn)
    ensures t.end != Restart
    ensures t.log == SrcTurn(c, cli, sc, dryRun, p).log
    ensures SrcTurn(c, cli, sc, dryRun, p).end == Restart ==> t.end == Normal
    ensures SrcTurn(c, cli, sc, dryRun, p).end != Restart ==> t == SrcTurn(c, cli, sc, dryRun, p)
  {
    var t := SrcTurn(c, cli, sc, dryRun, p);
    if t.end == Restart then Turn(t.log, Normal) else t
  }

  function SrcRoundsAsWritten(c: Config, cli: Cli, sc: Scripts, dryRun: bool, polls: seq<SrcPoll>): seq<Round> {
    seq(|polls|, i requires 0 <= i < |polls| => Round(SrcTurn(c, cli, sc, dryRun, polls[i]), polls[i].stopAfter))
  }

  function SrcRounds(c: Config, cli: Cli, sc: Scripts, dryRun: bool, polls: seq<SrcPoll>): seq<Round> {
    seq(|polls|, i requires 0 <= i < |polls| => Round(SrcTurnIntended(c, cli, sc, dryRun, polls[i]), polls[i].stopAfter))
  }

  /** As written, `--dry-run --once` with enough battery and a reachable
      host never exits after one iteration: every observed iteration runs,
      back to back, with no wait. */
  lemma DryRunOnceNeverExits(c: Config, cli: Cli, sc: Scripts, polls: seq<SrcPoll>)
    requires forall k :: 0 <= k < |polls| ==> BandOf(Percent(polls[k].info), SettingsOf(c), polls[k].reachable) == DataFlow
    ensures var run := Loop(SettingsOf(c).interval, true, SrcRoundsAsWritten(c, cli, sc, true, polls));
      run.ran == |polls| && run.sleeps == [] && run.end == OutOfPolls
  {
    var rounds := SrcRoundsAsWritten(c, cli, sc, true, polls);
    forall k | 0 <= k < |rounds|
      ensures rounds[k].turn.end == Restart
    {
      SrcDryRun(c, cli, sc, polls[k]);
    }
    RestartsIgnoreOnce(SettingsOf(c).interval, true, rounds);
  }

  /** With the corrected iteration, `--once` ends the loop after the first
      iteration whatever it observed. */
  lemma OnceExitsAfterOneIteration(c: Config, cli: Cli, sc: Scripts, dryRun: bool, polls: seq<SrcPoll>)
    requires polls != []
    ensures var run := Loop(SettingsOf(c).interval, true, SrcRounds(c, cli, sc, dryRun, polls));
      run.ran == 1 && run.sleeps == [] && run.log == SrcTurn(c, cli, sc, dryRun, polls[0]).log
  {
    var rounds := SrcRounds(c, cli, sc, dryRun, polls);
    assert rounds[0].turn == SrcTurnIntended(c, cli, sc, dryRun, polls[0]);
    OnceRunsOneIteration(SettingsOf(c).interval, rounds);
  }

  /** `main` of the src variant, after the configuration has been loaded,
      with the iteration corrected so that `--once` is honoured. */
  method RunSrc(c: Config, cli: Cli, repoRoot: string, dryRun: bool, once: bool, polls: seq<SrcPoll>) returns (run: LoopRun)
    ensures run == Loop(SettingsOf(c).interval, once, SrcRounds(c, cli, SrcScripts(repoRoot), dryRun, polls))
    ensures run.ran <= |polls|
    ensures once ==> run.sleeps == []
  {
    var s := SettingsOf(c);
    var rounds := SrcRounds(c, cli, SrcScripts(repoRoot), dryRun, polls);
    run := ServiceLoop(s.interval, once, rounds);
    LoopBounds(s.interval, once, rounds);
  }
}
