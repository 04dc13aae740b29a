/** The service's registry of functions runnable by name from the command
    line (`--test NAME`), and the dispatch that decides between running one
    of them and starting the main loop. */
module TestCommands {
  import opened Wrappers

  /** The parsed arguments. The parser always defines `test`, with `None`
      when `--test` is not given, so `'test' in args` always holds. */
  datatype Args = Args(test: Option<string>)

  /** What `run` does. */
  datatype TestRun =
    | NoTest              // returns False
    | Ran(name: string)   // runs the function, returns True
    | UnknownTest(name: string) // raises ValueError
    | TestTypeError       // `len(None)` raises TypeError

  /** The names `@testable_function` registers in the service. */
  const ServiceTests: set<string> := {
    "get_local_space_stats", "read_stats_map", "get_battery_stats",
    "mount_camera", "start_camera_recording", "disconnect_camera",
    "is_host_reachable", "get_missing_files", "copy_files_to_staging"
  }

  /** `run` as written: with no `--test` the value is `None`, and taking its
      length raises before the empty-name check can return False. */
  function RunAsWritten(registered: set<string>, args: Args): TestRun {
    match args.test
    case None => TestTypeError
    case Some(name) =>
      if |name| == 0 then NoTest
      else if name in registered then Ran(name)
      else UnknownTest(name)
  }

  /** `run` as intended: no test name at all, or an empty one, returns False. */
  function RunIntended(registered: set<string>, args: Args): TestRun {
    match args.test
    case None => NoTest
    case Some(name) =>
      if |name| == 0 then NoTest
      else if name in registered then Ran(name)
      else UnknownTest(name)
  }

  /** The three outcomes of the intended `run`, each in both directions. */
  lemma RunIntendedMeaning(registered: set<string>, args: Args)
    ensures RunIntended(registered, args) == NoTest <==> args.test.None? || args.test.value == ""
    ensures RunIntended(registered, args).Ran? <==> args.test.Some? && args.test.value != "" && args.test.value in registered
    ensures RunIntended(registered, args).UnknownTest? <==>
      args.test.Some? && args.test.value != "" && args.test.value !in registered
    ensures RunIntended(registered, args).Ran? ==> RunIntended(registered, args).name == args.test.value
    ensures RunIntended(registered, args) != TestTypeError
  {
  }

  /** The two agree whenever `--test` is given; without it the written code
      raises TypeError where False was meant. */
  lemma RunAsWrittenDiffers(registered: set<string>, args: Args)
    ensures args.test.Some? ==> RunAsWritten(registered, args) == RunIntended(registered, args)
    ensures args.test.None? ==> RunAsWritten(registered, args) == TestTypeError && RunIntended(registered, args) == NoTest
  {
  }

  /** How `main` ends: a test ran, the main loop started, or an exception escaped. */
  datatype MainEnd = TestExited(name: string) | ServiceStarted | MainRaised(run: TestRun)

  function MainOf(run: TestRun): MainEnd {
    match run
    case Ran(n) => TestExited(n)
    case NoTest => ServiceStarted
    case _ => MainRaised(run)
  }

  /** As written, a plain start without `--test` never reaches the main
      loop; with the corrected `run` it does. */
  lemma PlainStartNeverReachesMainLoop()
    ensures MainOf(RunAsWritten(ServiceTests, Args(None))) == MainRaised(TestTypeError)
    ensures MainOf(RunIntended(ServiceTests, Args(None))) == ServiceStarted
  {
  }

  class TestRegistry {
    var registered: set<string>

    /** The registry after the service's module has been loaded. */
    constructor ()
      ensures registered == ServiceTests
    {
      registered := {};
      new;
      Register("get_local_space_stats");
      Register("read_stats_map");
      Register("get_battery_stats");
      Register("mount_camera");
      Register("start_camera_recording");
      Register("disconnect_camera");
      Register("is_host_reachable");
      Register("get_missing_files");
      Register("copy_files_to_staging");
    }

    /** `testable_function`: records the function under its name. */
    method Register(name: string)
      modifies this
      ensures registered == old(registered) + {name}
    {
      registered := registered + {name};
    }

    /** `run`, corrected so that a missing test name returns False. */
    method Run(args: Args) returns (r: TestRun)
      ensures r == RunIntended(registered, args)
      ensures r == NoTest <==> args.test.None? || args.test.value == ""
      ensures r.Ran? <==> args.test.Some? && args.test.value != "" && args.test.value in registered
    {
      match args.test {
        case None => r := NoTest;
        case Some(name) =>
          if |name| == 0 {
            r := NoTest;
          } else if name in registered {
            r := Ran(name);
          } else {
            r := UnknownTest(name);
          }
      }
    }
  }

  /** `main` over the corrected `run`: run the named test and exit, or
      start the service. As written, `main` agrees with it whenever `--test`
      is given, and without `--test` it raises `TypeError` instead of
      starting the service. */
  method Start(registry: TestRegistry, args: Args) returns (end: MainEnd)
    ensures end == MainOf(RunIntended(registry.registered, args))
    ensures end == ServiceStarted <==> args.test.None? || args.test.value == ""
    ensures MainOf(RunAsWritten(registry.registered, args)) ==
      if args.test.None? then MainRaised(TestTypeError) else end
  {
    var run := registry.Run(args);
    end := MainOf(run);
    RunAsWrittenDiffers(registry.registered, args);
  }
}
