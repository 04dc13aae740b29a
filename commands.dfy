/** The result shape of the service's `run_command` and what it means for
    the callers that unpack it. */
module Commands {
  import opened Strings

  /** `run_command` returns the triple `(code, stdout, stderr)` (both
      stripped) on success, and the empty string on a non-zero exit. */
  datatype CommandResult = Completed(code: int, out: string, err: string) | Blank

  /** The exceptions the service's helpers can raise. */
  datatype ServiceError =
    | UnpackError                 // ValueError: unpacking '' into three names
    | KeyError(key: string)
    | InvalidNumber(text: string) // ValueError from int()/float()
    | FileNotFound(path: string)  // os.path.getsize on a missing file
    | MissingSeparator(line: string)

  /** `run_command`, given the exit status and raw output of the process. */
  function RunCommand(exitCode: int, stdout: string, stderr: string): (r: CommandResult)
    ensures r.Blank? <==> exitCode != 0
  {
    if exitCode != 0 then Blank else Completed(exitCode, Strip(stdout), Strip(stderr))
  }

  /** `code, out, err = await run_command(...)`. */
  datatype Unpacked = Unpacked(code: int, out: string, err: string)

  function Unpack(r: CommandResult): (u: Attempt<Unpacked>)
    ensures u.Done? <==> r.Completed?
  {
    match r
    case Completed(c, o, e) => Done(Unpacked(c, o, e))
    case Blank => Raised(UnpackError)
  }

  /** A value, or the exception raised instead. */
  datatype Attempt<T> = Done(value: T) | Raised(error: ServiceError)

  /** Unpacking fails exactly when the command failed, so a caller that got
      past the unpack always sees exit status 0 and its `code != 0` branch
      cannot run. */
  lemma UnpackAfterRunCommand(exitCode: int, stdout: string, stderr: string)
    ensures var u := Unpack(RunCommand(exitCode, stdout, stderr));
      && (u.Raised? <==> exitCode != 0)
      && (u.Raised? ==> u.error == UnpackError)
      && (u.Done? ==> u.value.code == 0 && u.value.out == Strip(stdout) && u.value.err == Strip(stderr))
  {
  }

  /** `set_usb_port_power`: `True` once `uhubctl` succeeds. */
  function SetUsbPortPower(exitCode: int, stdout: string, stderr: string): Attempt<bool> {
    match Unpack(RunCommand(exitCode, stdout, stderr))
    case Raised(e) => Raised(e)
    case Done(u) => if u.code != 0 then Done(false) else Done(true)
  }

  /** `is_host_reachable`: `code == 0` of one `ping`. */
  function IsHostReachable(exitCode: int, stdout: string, stderr: string): Attempt<bool> {
    match Unpack(RunCommand(exitCode, stdout, stderr))
    case Raised(e) => Raised(e)
    case Done(u) => Done(u.code == 0)
  }

  /** Because of the result shape, neither helper ever reports `False`: a
      failing command raises instead. */
  lemma HelpersNeverReturnFalse(exitCode: int, stdout: string, stderr: string)
    ensures SetUsbPortPower(exitCode, stdout, stderr) != Done(false)
    ensures IsHostReachable(exitCode, stdout, stderr) != Done(false)
    ensures exitCode == 0 <==> SetUsbPortPower(exitCode, stdout, stderr) == Done(true)
    ensures exitCode == 0 <==> IsHostReachable(exitCode, stdout, stderr) == Done(true)
  {
    UnpackAfterRunCommand(exitCode, stdout, stderr);
  }
}
