/** Battery and power handling of the service: parsing the power
    controller's `KEY = VALUE` report, deriving the battery summary, and the
    watchdog that cuts the camera's USB power when the battery runs low. */
module Power {
  import opened Wrappers
  import opened Strings
  import opened Commands

  /** `line.split('=', 1)` yields two parts. */
  predicate HasSeparator(line: string) {
    '=' in line
  }

  function KeyOf(line: string): string
    requires HasSeparator(line)
  {
    Strip(line[..IndexOf(line, '=').value])
  }

  function ValueOf(line: string): string
    requires HasSeparator(line)
  {
    Strip(line[IndexOf(line, '=').value + 1..])
  }

  /** One turn of the loop: `key, value = line.split('=', 1)` raises for a
      line without '='; otherwise the stripped pair is stored. */
  function AddLine(acc: Attempt<map<string, string>>, line: string): Attempt<map<string, string>> {
    if acc.Raised? then acc
    else if HasSeparator(line) then Done(acc.value[KeyOf(line) := ValueOf(line)])
    else Raised(MissingSeparator(line))
  }

  /** The map built from the report's lines, or the exception of the first
      line that has no '='. */
  function StatsOf(lines: seq<string>): Attempt<map<string, string>> {
    if lines == [] then Done(map[]) else AddLine(StatsOf(lines[..|lines| - 1]), lines[|lines| - 1])
  }

  lemma {:induction false} StatsStayRaised(lines: seq<string>, n: nat)
    requires n <= |lines|
    requires StatsOf(lines[..n]).Raised?
    ensures StatsOf(lines) == StatsOf(lines[..n])
    decreases |lines| - n
  {
    if n < |lines| {
      var m := |lines| - 1;
      if n == m {
        assert lines[..n] == lines[..|lines| - 1];
      } else {
        assert lines[..m][..n] == lines[..n];
        StatsStayRaised(lines[..m], n);
        assert lines[..|lines| - 1] == lines[..m];
      }
    } else {
      assert lines[..n] == lines;
    }
  }

  /** `read_stats_map`: the report is the standard output of
      `lifepo4wered-cli get`, which a failed command does not provide. */
  method ReadStatsMap(report: CommandResult) returns (r: Attempt<map<string, string>>)
    ensures report.Blank? ==> r == Raised(UnpackError)
    ensures report.Completed? ==> r == StatsOf(SplitLines(report.out))
  {
    var u := Unpack(report);
    if u.Raised? {
      return Raised(u.error);
    }
    var lines := SplitLines(u.value.out);
    var stats: map<string, string> := map[];
    var i := 0;
    while i < |lines|
      invariant 0 <= i <= |lines|
      invariant StatsOf(lines[..i]) == Done(stats)
    {
      assert lines[..i + 1][..i] == lines[..i];
      var line := lines[i];
      var sep := IndexOf(line, '=');
      if sep.None? {
        StatsStayRaised(lines, i + 1);
        return Raised(MissingSeparator(line));
      }
      var key := Strip(line[..sep.value]);
      var value := Strip(line[sep.value + 1..]);
      stats := stats[key := value];
      i := i + 1;
    }
    assert lines[..i] == lines;
    r := Done(stats);
  }

  /** The report parses exactly when every line has a '='. */
  lemma {:induction false} StatsOfDoneIff(lines: seq<string>)
    ensures StatsOf(lines).Done? <==> forall i :: 0 <= i < |lines| ==> HasSeparator(lines[i])
  {
    if lines != [] {
      var init := lines[..|lines| - 1];
      StatsOfDoneIff(init);
      assert forall j :: 0 <= j < |init| ==> lines[j] == init[j];
      assert StatsOf(lines) == AddLine(StatsOf(init), lines[|lines| - 1]);
    }
  }

  /** Otherwise the exception names the first line without one. */
  lemma {:induction false} StatsOfRaisesAtFirstBadLine(lines: seq<string>, i: nat)
    requires i < |lines| && !HasSeparator(lines[i])
    requires forall j :: 0 <= j < i ==> HasSeparator(lines[j])
    ensures StatsOf(lines) == Raised(MissingSeparator(lines[i]))
  {
    var prefix := lines[..i + 1];
    var init := lines[..i];
    assert prefix[..i] == init;
    StatsOfDoneIff(init);
    assert StatsOf(prefix) == AddLine(StatsOf(init), lines[i]);
    StatsStayRaised(lines, i + 1);
  }

  /** A key is in the map exactly when some line carries it. */
  lemma {:induction false} StatsKeysComeFromLines(lines: seq<string>, k: string)
    requires StatsOf(lines).Done?
    ensures forall i :: 0 <= i < |lines| ==> HasSeparator(lines[i])
    ensures k in StatsOf(lines).value <==> exists i :: 0 <= i < |lines| && HasSeparator(lines[i]) && KeyOf(lines[i]) == k
  {
    StatsOfDoneIff(lines);
    if lines != [] {
      var init := lines[..|lines| - 1];
      var last := lines[|lines| - 1];
      assert StatsOf(lines) == AddLine(StatsOf(init), last);
      StatsKeysComeFromLines(init, k);
      if k in StatsOf(lines).value {
        if k == KeyOf(last) {
          assert HasSeparator(lines[|lines| - 1]) && KeyOf(lines[|lines| - 1]) == k;
        } else {
          var i :| 0 <= i < |init| && HasSeparator(init[i]) && KeyOf(init[i]) == k;
          assert lines[i] == init[i];
        }
      }
    }
    forall i | 0 <= i < |lines| && HasSeparator(lines[i]) && KeyOf(lines[i]) == k
      ensures k in StatsOf(lines).value
    {
      StatsHoldLineKey(lines, i);
    }
  }

  lemma {:induction false} StatsHoldLineKey(lines: seq<string>, i: nat)
    requires StatsOf(lines).Done?
    requires i < |lines| && HasSeparator(lines[i])
    ensures KeyOf(lines[i]) in StatsOf(lines).value
  {
    var init := lines[..|lines| - 1];
    var last := lines[|lines| - 1];
    assert StatsOf(lines) == AddLine(StatsOf(init), last);
    if i < |lines| - 1 {
      assert lines[i] == init[i];
      StatsHoldLineKey(init, i);
    }
  }

  /** A key takes the value of the last line that carries it: later
      duplicates overwrite earlier ones. */
  lemma {:induction false} StatsLastDuplicateWins(lines: seq<string>, i: nat)
    requires StatsOf(lines).Done?
    requires i < |lines| && HasSeparator(lines[i])
    requires forall j :: i < j < |lines| && HasSeparator(lines[j]) ==> KeyOf(lines[j]) != KeyOf(lines[i])
    ensures KeyOf(lines[i]) in StatsOf(lines).value
    ensures StatsOf(lines).value[KeyOf(lines[i])] == ValueOf(lines[i])
  {
    var init := lines[..|lines| - 1];
    var last := lines[|lines| - 1];
    assert StatsOf(lines) == AddLine(StatsOf(init), last);
    if i < |lines| - 1 {
      assert lines[i] == init[i];
      assert forall j :: i < j < |init| ==> init[j] == lines[j];
      StatsLastDuplicateWins(init, i);
      assert KeyOf(last) != KeyOf(lines[i]);
    }
  }

  /** A key never contains '=': the split happens at the first one. */
  lemma KeyHasNoSeparator(line: string)
    requires HasSeparator(line)
    ensures var i := IndexOf(line, '=').value;
      '=' !in line[..i] && line == line[..i] + "=" + line[i + 1..]
  {
    var i := IndexOf(line, '=').value;
    assert line == line[..i] + [line[i]] + line[i + 1..];
  }

  // ------------------------------------------------------- battery summary

  /** `stats_map.get(key, '0')`. */
  function Reading(m: map<string, string>, key: string): string {
    if key in m then m[key] else "0"
  }

  /** The readings in the order the result dictionary evaluates them; the
      first one that does not parse raises. */
  function Numbers(m: map<string, string>, keys: seq<string>): (r: Attempt<seq<int>>)
    ensures r.Done? ==> |r.value| == |keys|
    ensures r.Done? ==> forall k :: 0 <= k < |keys| ==> ParseInt(Reading(m, keys[k])) == Some(r.value[k])
    ensures r.Done? <==> forall k :: 0 <= k < |keys| ==> ParseInt(Reading(m, keys[k])).Some?
  {
    if keys == [] then Done([])
    else
      match ParseInt(Reading(m, keys[0]))
      case None => Raised(InvalidNumber(Reading(m, keys[0])))
      case Some(v) =>
        match Numbers(m, keys[1..])
        case Raised(e) => Raised(e)
        case Done(vs) => Done([v] + vs)
  }

  const BatteryKeys: seq<string> := ["VBAT", "VBAT_BOOT", "VIN", "VOUT", "IOUT", "WAKE_TIME", "VIN", "VIN_THRESHOLD"]

  /** The result of `get_battery_stats`, voltages in millivolts and the
      current in milliamperes. */
  datatype BatteryStats = BatteryStats(batteryMv: int, bootMv: int, inputMv: int, outputMv: int,
                                       outputMa: int, wakeTimer: int, acPower: bool)

  function BatteryStatsOf(m: map<string, string>): Attempt<BatteryStats> {
    match Numbers(m, BatteryKeys)
    case Raised(e) => Raised(e)
    case Done(v) => Done(BatteryStats(v[0], v[1], v[2], v[3], v[4], v[5], v[6] >= v[7]))
  }

  /** Each field is the reading of its key, a missing key reading as "0",
      and AC power is on exactly when VIN reaches VIN_THRESHOLD. */
  lemma BatteryStatsMeaning(m: map<string, string>)
    ensures BatteryStatsOf(m).Done? <==> forall k :: 0 <= k < |BatteryKeys| ==> ParseInt(Reading(m, BatteryKeys[k])).Some?
    ensures var r := BatteryStatsOf(m);
      r.Done? ==>
        && Some(r.value.batteryMv) == ParseInt(Reading(m, "VBAT"))
        && Some(r.value.bootMv) == ParseInt(Reading(m, "VBAT_BOOT"))
        && Some(r.value.inputMv) == ParseInt(Reading(m, "VIN"))
        && Some(r.value.outputMv) == ParseInt(Reading(m, "VOUT"))
        && Some(r.value.outputMa) == ParseInt(Reading(m, "IOUT"))
        && Some(r.value.wakeTimer) == ParseInt(Reading(m, "WAKE_TIME"))
        && (r.value.acPower <==> ParseInt(Reading(m, "VIN")).value >= ParseInt(Reading(m, "VIN_THRESHOLD")).value)
  {
    var r := Numbers(m, BatteryKeys);
    if r.Done? {
      assert ParseInt(Reading(m, BatteryKeys[0])) == Some(r.value[0]);
      assert ParseInt(Reading(m, BatteryKeys[6])) == Some(r.value[6]);
      assert ParseInt(Reading(m, BatteryKeys[7])) == Some(r.value[7]);
    }
  }

  lemma ZeroParses()
    ensures ParseInt("0") == Some(0)
  {
    assert Strip("0") == "0";
    assert DigitsValue("0") == 0;
  }

  /** A report with neither VIN nor VIN_THRESHOLD reads both as 0, so the
      summary claims AC power. */
  lemma MissingInputReadsAsAcPower(m: map<string, string>)
    requires "VIN" !in m && "VIN_THRESHOLD" !in m
    requires BatteryStatsOf(m).Done?
    ensures BatteryStatsOf(m).value.acPower
    ensures BatteryStatsOf(m).value.inputMv == 0
  {
    ZeroParses();
    BatteryStatsMeaning(m);
  }

  /** `get_battery_stats`. */
  method GetBatteryStats(report: CommandResult) returns (r: Attempt<BatteryStats>)
    ensures report.Blank? ==> r == Raised(UnpackError)
    ensures report.Completed? ==>
      r == match StatsOf(SplitLines(report.out))
           case Raised(e) => Raised(e)
           case Done(m) => BatteryStatsOf(m)
  {
    var statsMap := ReadStatsMap(report);
    if statsMap.Raised? {
      return Raised(statsMap.error);
    }
    r := BatteryStatsOf(statsMap.value);
  }

  // --------------------------------------------------------------- watchdog

  /** The watchdog keeps sampling while on AC power or above the boot voltage. */
  predicate KeepsRunning(s: BatteryStats) {
    s.acPower || s.batteryMv > s.bootMv
  }

  /** Seconds slept before the next sample. */
  function PollDelay(s: BatteryStats): nat {
    if s.acPower then 60 else 20
  }

  datatype WatchdogEnd = PoweredOff(sample: nat) | SampleRaised(sample: nat, error: ServiceError) | StillRunning

  /** How many samples were followed by a sleep. */
  function SamplesSlept(end: WatchdogEnd, available: nat): nat {
    match end
    case PoweredOff(k) => k
    case SampleRaised(k, _) => k
    case StillRunning => available
  }

  /** `task_disconnect_on_low_battery` over the successive outcomes of
      `get_battery_stats`; the task is still running when they run out.
      Returns how it ended, the sleeps taken and how often port power was
      switched off. */
  method DisconnectOnLowBattery(samples: seq<Attempt<BatteryStats>>)
    returns (end: WatchdogEnd, sleeps: seq<nat>, powerOffs: nat)
    ensures end.PoweredOff? ==>
      end.sample < |samples| && samples[end.sample].Done? && !KeepsRunning(samples[end.sample].value)
    ensures end.SampleRaised? ==> end.sample < |samples| && samples[end.sample] == Raised(end.error)
    ensures SamplesSlept(end, |samples|) <= |samples|
    ensures |sleeps| == SamplesSlept(end, |samples|)
    ensures forall k :: 0 <= k < |sleeps| ==>
      samples[k].Done? && KeepsRunning(samples[k].value) && sleeps[k] == PollDelay(samples[k].value)
    ensures powerOffs == if end.PoweredOff? then 1 else 0
  {
    sleeps := [];
    powerOffs := 0;
    var i := 0;
    while i < |samples|
      invariant 0 <= i <= |samples|
      invariant |sleeps| == i
      invariant forall k :: 0 <= k < i ==>
        samples[k].Done? && KeepsRunning(samples[k].value) && sleeps[k] == PollDelay(samples[k].value)
    {
      var sample := samples[i];
      if sample.Raised? {
        return SampleRaised(i, sample.error), sleeps, powerOffs;
      }
      var stats := sample.value;
      if stats.acPower || stats.batteryMv > stats.bootMv {
        sleeps := sleeps + [if stats.acPower then 60 else 20];
        i := i + 1;
      } else {
        powerOffs := powerOffs + 1;
        return PoweredOff(i), sleeps, powerOffs;
      }
    }
    end := StillRunning;
  }
}
