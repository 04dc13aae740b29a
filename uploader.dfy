/** The uploader: building the rsync command line and running it with
    retries and exponential backoff. Both copies of the uploader implement
    the same logic; this module models it once. */
module Uploader {
  import opened Wrappers
  import opened Strings
  import opened PosixPath

  /** Python truthiness of an optional port: `None` and `0` are falsy. */
  predicate PortGiven(port: Option<int>) {
    port.Some? && port.value != 0
  }

  /** The transfer goes over ssh unless the host is absent, empty,
      `localhost` or `127.0.0.1`. */
  predicate IsRemote(host: Option<string>) {
    Truthy(host) && host.value != "localhost" && host.value != "127.0.0.1"
  }

  /** `shutil.which('rsync') or 'rsync'`. */
  function RsyncProgram(which: Option<string>): string {
    if Truthy(which) then which.value else "rsync"
  }

  const SshBase: seq<string> := ["ssh", "-o", "StrictHostKeyChecking=no", "-o", "UserKnownHostsFile=/dev/null"]

  /** The ssh invocation passed with `-e`; `keyIsFile` is whether the key
      path exists and is a regular file (an error while checking counts as
      no). */
  function SshParts(sshKey: Option<string>, keyIsFile: bool, port: Option<int>): seq<string> {
    SshBase
      + (if Truthy(sshKey) && keyIsFile then ["-i", sshKey.value] else [])
      + (if PortGiven(port) then ["-p", IntToString(port.value)] else [])
  }

  function Target(dest: string, host: Option<string>, user: Option<string>): string {
    if !IsRemote(host) then dest
    else if Truthy(user) then user.value + "@" + host.value + ":" + dest
    else host.value + ":" + dest
  }

  /** The command `build_rsync_command` returns. */
  function RsyncCommand(which: Option<string>, source: string, dest: string, sshKey: Option<string>, keyIsFile: bool,
                        host: Option<string>, user: Option<string>, port: Option<int>, compress: bool): seq<string>
  {
    [RsyncProgram(which), "-a", "--checksum", "--partial", "--inplace"]
      + (if compress then ["-z"] else [])
      + (if IsRemote(host) then ["-e", JoinWith(SshParts(sshKey, keyIsFile, port), " ")] else [])
      + [Join(source, ""), Target(dest, host, user)]
  }

  /** `build_rsync_command`, growing the list as the source does. */
  method BuildRsyncCommand(which: Option<string>, source: string, dest: string, sshKey: Option<string>, keyIsFile: bool,
                           host: Option<string>, user: Option<string>, port: Option<int>, compress: bool)
    returns (cmd: seq<string>)
    ensures cmd == RsyncCommand(which, source, dest, sshKey, keyIsFile, host, user, port, compress)
  {
    var rsync := RsyncProgram(which);
    cmd := [rsync, "-a", "--checksum", "--partial", "--inplace"];
    if compress {
      cmd := cmd + ["-z"];
    }
    ghost var options := cmd;
    assert options == [rsync, "-a", "--checksum", "--partial", "--inplace"] + (if compress then ["-z"] else []);
    var target: string;
    if IsRemote(host) {
      var sshParts := SshBase;
      if Truthy(sshKey) && keyIsFile {
        sshParts := sshParts + ["-i", sshKey.value];
      }
      if PortGiven(port) {
        sshParts := sshParts + ["-p", IntToString(port.value)];
      }
      assert sshParts == SshParts(sshKey, keyIsFile, port);
      cmd := cmd + ["-e", JoinWith(sshParts, " ")];
      if Truthy(user) {
        target := user.value + "@" + host.value + ":" + dest;
      } else {
        target := host.value + ":" + dest;
      }
    } else {
      target := dest;
    }
    assert cmd == options + (if IsRemote(host) then ["-e", JoinWith(SshParts(sshKey, keyIsFile, port), " ")] else []);
    assert target == Target(dest, host, user);
    var src := Join(source, "");
    cmd := cmd + [src, target];
  }

  /** `os.path.join(source, '')` is never the option `-z` or `-e`. */
  lemma TrailingSeparatorSource(source: string)
    ensures var src := Join(source, "");
      src != "-z" && src != "-e" && (source != "" ==> EndsWith(src, "/"))
  {
    var src := Join(source, "");
    if source != "" {
      JoinEmptyEndsWithSeparator(source);
      assert src[|src| - 1] == '/';
    }
  }

  /** What the command line promises: the fixed prefix, `-z` exactly when
      compressing, `-e ssh ...` exactly for a remote host, and the source
      with a trailing separator followed by the target last; a local target
      is the bare destination, a remote one `user@host:dest` or `host:dest`. */
  lemma RsyncCommandShape(which: Option<string>, source: string, dest: string, sshKey: Option<string>, keyIsFile: bool,
                          host: Option<string>, user: Option<string>, port: Option<int>, compress: bool)
    ensures var cmd := RsyncCommand(which, source, dest, sshKey, keyIsFile, host, user, port, compress);
      && 7 <= |cmd| <= 10
      && cmd[..5] == [RsyncProgram(which), "-a", "--checksum", "--partial", "--inplace"]
      && (compress <==> cmd[5] == "-z")
      && (IsRemote(host) <==> cmd[|cmd| - 4] == "-e")
      && (IsRemote(host) ==> cmd[|cmd| - 3] == JoinWith(SshParts(sshKey, keyIsFile, port), " "))
      && cmd[|cmd| - 2] == Join(source, "")
      && (!IsRemote(host) ==> cmd[|cmd| - 1] == dest)
      && (IsRemote(host) && Truthy(user) ==> cmd[|cmd| - 1] == user.value + "@" + host.value + ":" + dest)
      && (IsRemote(host) && !Truthy(user) ==> cmd[|cmd| - 1] == host.value + ":" + dest)
      && (host.None? || host.value in {"", "localhost", "127.0.0.1"} ==> |cmd| == if compress then 8 else 7)
  {
    TrailingSeparatorSource(source);
  }

  /** `-i key` is passed exactly for a given key that is a file, `-p port`
      exactly for a truthy port, and nothing else is added to the ssh
      invocation. */
  lemma SshPartsShape(sshKey: Option<string>, keyIsFile: bool, port: Option<int>)
    ensures var parts := SshParts(sshKey, keyIsFile, port);
      && parts[..5] == SshBase
      && (Truthy(sshKey) && keyIsFile <==> |parts| >= 7 && parts[5] == "-i")
      && (Truthy(sshKey) && keyIsFile ==> parts[6] == sshKey.value)
      && (PortGiven(port) <==> parts[|parts| - 2] == "-p")
      && (PortGiven(port) ==> parts[|parts| - 1] == IntToString(port.value))
      && |parts| == 5 + (if Truthy(sshKey) && keyIsFile then 2 else 0) + (if PortGiven(port) then 2 else 0)
  {
  }

  // ------------------------------------------------------------ upload_dir

  /** The keys of the upload configuration; `None` is a missing key. */
  datatype UploadConfig = UploadConfig(transfer: Option<string>, host: Option<string>, user: Option<string>,
                                       port: Option<int>, destPath: Option<string>, sshKey: Option<string>)

  /** What the uploader observes of its host: whether the staging directory
      exists, the effective uid, `SUDO_USER`, whether the key path is a file,
      and where `rsync` is on the path. */
  datatype Environment = Environment(stagingIsDir: bool, euid: int, sudoUser: Option<string>,
                                     keyIsFile: bool, which: Option<string>)

  /** How one run of the rsync command ends. */
  datatype RunOutcome = Succeeded | CalledProcessError | OtherError

  /** The outcome of run `k`; runs past the given ones keep failing. */
  function OutcomeAt(outcomes: seq<RunOutcome>, k: nat): RunOutcome {
    if k < |outcomes| then outcomes[k] else CalledProcessError
  }

  /** `upload_cfg.get('method', 'rsync')`. */
  function MethodOf(cfg: UploadConfig): string {
    if cfg.transfer.Some? then cfg.transfer.value else "rsync"
  }

  /** The guards at the top of `upload_dir`. */
  predicate UploadAllowed(staging: string, cfg: UploadConfig, env: Environment) {
    env.stagingIsDir && MethodOf(cfg) == "rsync" && Truthy(cfg.destPath)
  }

  /** An explicit user wins; without one, a root process takes `SUDO_USER`. */
  function RunAsUser(runAsUser: Option<string>, env: Environment): Option<string> {
    if runAsUser.None? && env.euid == 0 then env.sudoUser else runAsUser
  }

  function FinalCommand(staging: string, cfg: UploadConfig, env: Environment, runAsUser: Option<string>): seq<string>
    requires Truthy(cfg.destPath)
  {
    var cmd := RsyncCommand(env.which, staging, cfg.destPath.value, cfg.sshKey, env.keyIsFile,
                            cfg.host, cfg.user, cfg.port, true);
    var u := RunAsUser(runAsUser, env);
    if Truthy(u) then ["sudo", "-u", u.value, "--"] + cmd else cmd
  }

  function Pow(b: real, k: nat): real {
    if k == 0 then 1.0 else b * Pow(b, k - 1)
  }

  /** `upload_dir`. `outcomes` stands for the results of successive runs of
      the command; the method returns whether the upload succeeded, the
      commands it ran and the delays it slept, in order. */
  method UploadDir(staging: string, cfg: UploadConfig, env: Environment, dryRun: bool, retries: int,
                   backoffFactor: real, initialDelay: real, runAsUser: Option<string>, outcomes: seq<RunOutcome>)
    returns (ok: bool, runs: seq<seq<string>>, sleeps: seq<real>)
    ensures !UploadAllowed(staging, cfg, env) ==> !ok && runs == [] && sleeps == []
    ensures UploadAllowed(staging, cfg, env) && dryRun ==> ok == (retries >= 0) && runs == [] && sleeps == []
    ensures UploadAllowed(staging, cfg, env) ==>
      forall k :: 0 <= k < |runs| ==> runs[k] == FinalCommand(staging, cfg, env, runAsUser)
    ensures retries < 0 ==> !ok && runs == []
    ensures |runs| <= if retries < 0 then 0 else retries + 1
    ensures |sleeps| == if |runs| == 0 then 0 else |runs| - 1
    ensures forall k :: 0 <= k < |sleeps| ==> sleeps[k] == BackoffDelay(initialDelay, backoffFactor, k)
    ensures forall k :: 0 <= k < |runs| - 1 ==> OutcomeAt(outcomes, k) == CalledProcessError
    ensures runs != [] ==> (ok <==> OutcomeAt(outcomes, |runs| - 1) == Succeeded)
    ensures runs != [] && OutcomeAt(outcomes, |runs| - 1) == CalledProcessError ==> |runs| == retries + 1
    ensures UploadAllowed(staging, cfg, env) && !dryRun && retries >= 0 ==> 1 <= |runs| <= retries + 1
    ensures UploadAllowed(staging, cfg, env) && !dryRun ==> (ok <==> runs != [] && OutcomeAt(outcomes, |runs| - 1) == Succeeded)
    ensures UploadAllowed(staging, cfg, env) && !dryRun ==>
      forall k :: 0 <= k <= retries && OutcomeAt(outcomes, k) != CalledProcessError &&
                  (forall j :: 0 <= j < k ==> OutcomeAt(outcomes, j) == CalledProcessError) ==>
        |runs| == k + 1 && (ok <==> OutcomeAt(outcomes, k) == Succeeded)
  {
    runs := [];
    sleeps := [];
    if !env.stagingIsDir {
      return false, runs, sleeps;
    }
    var transfer := if cfg.transfer.Some? then cfg.transfer.value else "rsync";
    if transfer != "rsync" {
      return false, runs, sleeps;
    }
    if cfg.destPath.None? || cfg.destPath.value == "" {
      return false, runs, sleeps;
    }
    var cmd := BuildRsyncCommand(env.which, staging, cfg.destPath.value, cfg.sshKey, env.keyIsFile,
                                 cfg.host, cfg.user, cfg.port, true);
    var user := runAsUser;
    if user.None? && env.euid == 0 {
      user := env.sudoUser;
    }
    var finalCmd := cmd;
    if user.Some? && user.value != "" {
      finalCmd := ["sudo", "-u", user.value, "--"] + cmd;
    }
    var attempt := 0;
    var delay := initialDelay;
    while attempt <= retries
      invariant 0 <= attempt && (retries >= 0 ==> attempt <= retries) && (retries < 0 ==> attempt == 0)
      invariant !dryRun || attempt == 0
      invariant |runs| == attempt && |sleeps| == attempt
      invariant forall k :: 0 <= k < |runs| ==> runs[k] == finalCmd
      invariant forall k :: 0 <= k < attempt ==> OutcomeAt(outcomes, k) == CalledProcessError
      invariant forall k :: 0 <= k < |sleeps| ==> sleeps[k] == BackoffDelay(initialDelay, backoffFactor, k)
      invariant delay == BackoffDelay(initialDelay, backoffFactor, attempt)
      decreases retries - attempt
    {
      attempt := attempt + 1;
      if dryRun {
        return true, runs, sleeps;
      }
      runs := runs + [finalCmd];
      var outcome := OutcomeAt(outcomes, attempt - 1);
      match outcome {
        case Succeeded =>
          return true, runs, sleeps;
        case CalledProcessError =>
          if attempt > retries {
            return false, runs, sleeps;
          }
          sleeps := sleeps + [delay];
          delay := delay * backoffFactor;
        case OtherError =>
          return false, runs, sleeps;
      }
    }
    return false, runs, sleeps;
  }

  /** The delay before retry `k + 1`: the initial delay, multiplied by the
      backoff factor once per earlier retry. */
  function BackoffDelay(initialDelay: real, backoffFactor: real, k: nat): real {
    if k == 0 then initialDelay else BackoffDelay(initialDelay, backoffFactor, k - 1) * backoffFactor
  }

  /** The delays are `initial_delay * backoff_factor ** k`. */
  lemma {:induction false} BackoffIsGeometric(initialDelay: real, backoffFactor: real, k: nat)
    ensures BackoffDelay(initialDelay, backoffFactor, k) == initialDelay * Pow(backoffFactor, k)
  {
    if k > 0 {
      BackoffIsGeometric(initialDelay, backoffFactor, k - 1);
      var p := Pow(backoffFactor, k - 1);
      assert Pow(backoffFactor, k) == backoffFactor * p;
      assert (initialDelay * p) * backoffFactor == initialDelay * (backoffFactor * p);
    }
  }

  /** Scaling a positive delay by a factor of at least one keeps it positive
      and does not shrink it. */
  lemma ScaleGrows(d: real, f: real)
    requires d > 0.0 && f >= 1.0
    ensures d <= d * f
  {
    assert d * f - d == d * (f - 1.0);
    assert d * (f - 1.0) >= 0.0;
  }

  /** For a positive initial delay and a factor of at least one, the delays
      are positive and never shrink. */
  lemma {:induction false} BackoffGrows(initialDelay: real, backoffFactor: real, k: nat)
    requires initialDelay > 0.0 && backoffFactor >= 1.0
    ensures 0.0 < BackoffDelay(initialDelay, backoffFactor, k) <= BackoffDelay(initialDelay, backoffFactor, k + 1)
  {
    if k > 0 {
      BackoffGrows(initialDelay, backoffFactor, k - 1);
    }
    var d := BackoffDelay(initialDelay, backoffFactor, k);
    assert BackoffDelay(initialDelay, backoffFactor, k + 1) == d * backoffFactor;
    ScaleGrows(d, backoffFactor);
  }
}
