/** Finding the camera: a USB device by vendor/product id or hub location,
    its block device, the polling waits, and the configured detection order.
    Each sysfs or by-id listing is a snapshot given as input; the clock is
    the elapsed time read after each poll. */
module DeviceDetection {
  import opened Wrappers
  import opened Strings
  import opened PosixPath

  const UsbDevicesDir: string := "/sys/bus/usb/devices"
  const ByIdDir: string := "/dev/disk/by-id"

  /** The index of the first element satisfying `p`. */
  function FirstIndex<T>(s: seq<T>, p: T -> bool): (r: Option<nat>)
    ensures r.Some? ==> r.value < |s| && p(s[r.value])
    ensures r.Some? ==> forall j :: 0 <= j < r.value ==> !p(s[j])
    ensures r.None? ==> forall j :: 0 <= j < |s| ==> !p(s[j])
  {
    if s == [] then None
    else if p(s[0]) then Some(0)
    else
      match FirstIndex(s[1..], p)
      case None => None
      case Some(k) => Some(k + 1)
  }

  /** An index where `p` holds and before which it never does is the first. */
  lemma FirstIndexIs<T>(s: seq<T>, p: T -> bool, i: nat)
    requires i < |s| && p(s[i])
    requires forall j :: 0 <= j < i ==> !p(s[j])
    ensures FirstIndex(s, p) == Some(i)
  {
  }

  /** Where `p` never holds there is no first index. */
  lemma FirstIndexNone<T>(s: seq<T>, p: T -> bool)
    requires forall j :: 0 <= j < |s| ==> !p(s[j])
    ensures FirstIndex(s, p) == None
  {
  }

  /** `read_sysfs_file`: the stripped contents, `None` when unreadable. */
  function ReadSysfs(raw: Option<string>): Option<string> {
    match raw
    case None => None
    case Some(s) => Some(Strip(s))
  }

  /** An entry the glob of the USB devices directory lists (names with a
      leading dot are not listed): whether it is a directory and the raw
      contents of its `idVendor` and `idProduct` files. */
  datatype UsbEntry = UsbEntry(name: string, isDir: bool, idVendor: Option<string>, idProduct: Option<string>)

  function DevicePath(name: string): string {
    Join(UsbDevicesDir, name)
  }

  // -------------------------------------------------------- vid/pid

  /** Both ids read as non-empty and equal the query ignoring case. */
  predicate VidPidMatches(e: UsbEntry, vid: string, pid: string) {
    IdMatches(e.idVendor, vid) && IdMatches(e.idProduct, pid)
  }

  /** An id file that reads as non-empty and equals `want` ignoring case. */
  predicate IdMatches(raw: Option<string>, want: string) {
    var id := ReadSysfs(raw);
    Truthy(id) && Lower(id.value) == Lower(want)
  }

  function VidPidQuery(vid: string, pid: string): UsbEntry -> bool {
    (e: UsbEntry) => VidPidMatches(e, vid, pid)
  }

  /** `find_usb_device_by_vid_pid`. */
  function FirstVidPid(usb: seq<UsbEntry>, vid: string, pid: string): Option<string> {
    match FirstIndex(usb, VidPidQuery(vid, pid))
    case None => None
    case Some(i) => Some(DevicePath(usb[i].name))
  }

  /** The body of the vid/pid loop for one device: a missing or empty id
      skips it, otherwise both ids are compared ignoring case. */
  method MatchDevice(dev: UsbEntry, vid: string, pid: string) returns (hit: bool)
    ensures hit == VidPidMatches(dev, vid, pid)
  {
    var idv := ReadSysfs(dev.idVendor);
    var idp := ReadSysfs(dev.idProduct);
    if !Truthy(idv) || !Truthy(idp) {
      return false;
    }
    hit := Lower(idv.value) == Lower(vid) && Lower(idp.value) == Lower(pid);
  }

  method FindUsbByVidPid(usb: seq<UsbEntry>, vid: string, pid: string) returns (r: Option<string>)
    ensures r == FirstVidPid(usb, vid, pid)
  {
    var i := 0;
    while i < |usb|
      invariant 0 <= i <= |usb|
      invariant forall j :: 0 <= j < i ==> !VidPidMatches(usb[j], vid, pid)
    {
      var hit := MatchDevice(usb[i], vid, pid);
      FirstVidPidStep(usb, vid, pid, i);
      if hit {
        return Some(DevicePath(usb[i].name));
      }
      i := i + 1;
    }
    FirstVidPidNone(usb, vid, pid);
    return None;
  }

  /** The vid/pid match is the first listed device whose ids both read as
      non-empty and equal the query case-insensitively; there is none
      exactly when no listed device matches. */
  lemma FirstVidPidMeaning(usb: seq<UsbEntry>, vid: string, pid: string, i: nat)
    requires i < |usb| && VidPidMatches(usb[i], vid, pid)
    requires forall j :: 0 <= j < i ==> !VidPidMatches(usb[j], vid, pid)
    ensures FirstVidPid(usb, vid, pid) == Some(DevicePath(usb[i].name))
    ensures Truthy(ReadSysfs(usb[i].idVendor)) && Lower(ReadSysfs(usb[i].idVendor).value) == Lower(vid)
  {
    FirstIndexIs(usb, VidPidQuery(vid, pid), i);
  }

  /** One turn of the vid/pid loop: a match is the result, a miss extends
      the run of misses. */
  lemma FirstVidPidStep(usb: seq<UsbEntry>, vid: string, pid: string, i: nat)
    requires i < |usb|
    requires forall j :: 0 <= j < i ==> !VidPidMatches(usb[j], vid, pid)
    ensures VidPidMatches(usb[i], vid, pid) ==> FirstVidPid(usb, vid, pid) == Some(DevicePath(usb[i].name))
    ensures !VidPidMatches(usb[i], vid, pid) ==> forall j :: 0 <= j < i + 1 ==> !VidPidMatches(usb[j], vid, pid)
  {
    if VidPidMatches(usb[i], vid, pid) {
      FirstVidPidMeaning(usb, vid, pid, i);
    }
  }

  /** Nothing is found exactly when nothing matches. */
  lemma FirstVidPidNone(usb: seq<UsbEntry>, vid: string, pid: string)
    ensures FirstVidPid(usb, vid, pid).None? <==> forall j :: 0 <= j < |usb| ==> !VidPidMatches(usb[j], vid, pid)
  {
    var r := FirstIndex(usb, VidPidQuery(vid, pid));
    if r.Some? {
      assert VidPidMatches(usb[r.value], vid, pid);
    }
  }

  // ------------------------------------------------------------ hub

  /** `glob(f'/sys/bus/usb/devices/{hub}*')` lists the entry: its name
      starts with the location. */
  predicate HubGlobMatches(e: UsbEntry, hub: string) {
    StartsWith(e.name, hub)
  }

  function HubQuery(hub: string): UsbEntry -> bool {
    (e: UsbEntry) => HubGlobMatches(e, hub) && e.isDir
  }

  /** `find_usb_device_by_hub`, where `exactExists` is whether
      `/sys/bus/usb/devices/<hub>` exists. */
  function HubLookup(exactExists: bool, usb: seq<UsbEntry>, hub: string): Option<string> {
    if exactExists then Some(DevicePath(hub))
    else
      match FirstIndex(usb, HubQuery(hub))
      case None => None
      case Some(i) => Some(DevicePath(usb[i].name))
  }

  method FindUsbByHub(exactExists: bool, usb: seq<UsbEntry>, hub: string) returns (r: Option<string>)
    ensures r == HubLookup(exactExists, usb, hub)
  {
    var candidate := DevicePath(hub);
    if exactExists {
      return Some(candidate);
    }
    var i := 0;
    while i < |usb|
      invariant 0 <= i <= |usb|
      invariant forall j :: 0 <= j < i ==> !(HubGlobMatches(usb[j], hub) && usb[j].isDir)
    {
      if HubGlobMatches(usb[i], hub) && usb[i].isDir {
        return Some(DevicePath(usb[i].name));
      }
      i := i + 1;
    }
    return None;
  }

  /** The exact location wins whenever it exists; otherwise the result is
      the first prefix match that is a directory, and a prefix match that is
      not a directory is passed over. */
  lemma HubLookupMeaning(exactExists: bool, usb: seq<UsbEntry>, hub: string, i: nat)
    requires i < |usb| && HubGlobMatches(usb[i], hub) && usb[i].isDir
    requires forall j :: 0 <= j < i ==> !(HubGlobMatches(usb[j], hub) && usb[j].isDir)
    ensures HubLookup(exactExists, usb, hub) == if exactExists then Some(DevicePath(hub)) else Some(DevicePath(usb[i].name))
  {
    FirstIndexIs(usb, HubQuery(hub), i);
  }

  lemma HubLookupNone(exactExists: bool, usb: seq<UsbEntry>, hub: string)
    ensures HubLookup(exactExists, usb, hub).None? <==>
      !exactExists && forall j :: 0 <= j < |usb| ==> !(HubGlobMatches(usb[j], hub) && usb[j].isDir)
  {
    var r := FirstIndex(usb, HubQuery(hub));
    if r.Some? {
      assert HubGlobMatches(usb[r.value], hub) && usb[r.value].isDir;
    }
  }

  // ---------------------------------------------------- block device

  /** An entry of a `block` directory and whether `/dev/<entry>` exists. */
  datatype BlockEntry = BlockEntry(name: string, devExists: bool)

  /** One directory in `os.walk` order: whether it has a `block`
      subdirectory, and that subdirectory's listing. */
  datatype WalkDir = WalkDir(root: string, hasBlock: bool, block: seq<BlockEntry>)

  function DevNode(name: string): string {
    Join("/dev", name)
  }

  predicate DevExists(e: BlockEntry) {
    e.devExists
  }

  function FirstExisting(entries: seq<BlockEntry>): Option<string> {
    match FirstIndex(entries, DevExists)
    case None => None
    case Some(k) => Some(DevNode(entries[k].name))
  }

  predicate YieldsDevice(w: WalkDir) {
    w.hasBlock && FirstExisting(w.block).Some?
  }

  /** `find_block_device_for_usb_device` over the walk of the device's tree. */
  function FirstBlockDevice(walk: seq<WalkDir>): Option<string> {
    match FirstIndex(walk, YieldsDevice)
    case None => None
    case Some(i) => FirstExisting(walk[i].block)
  }

  method FindBlockDevice(walk: seq<WalkDir>) returns (r: Option<string>)
    ensures r == FirstBlockDevice(walk)
  {
    var i := 0;
    while i < |walk|
      invariant 0 <= i <= |walk|
      invariant forall j :: 0 <= j < i ==> !YieldsDevice(walk[j])
    {
      if walk[i].hasBlock {
        var entries := walk[i].block;
        var k := 0;
        while k < |entries|
          invariant 0 <= k <= |entries|
          invariant forall m :: 0 <= m < k ==> !entries[m].devExists
        {
          if entries[k].devExists {
            FirstIndexIs(entries, DevExists, k);
            return Some(DevNode(entries[k].name));
          }
          k := k + 1;
        }
      }
      i := i + 1;
    }
    return None;
  }

  /** The block device is `/dev/<entry>` for the first entry, in walk
      order, of a `block` directory whose node exists. */
  lemma FirstBlockDeviceAt(walk: seq<WalkDir>, i: nat, k: nat)
    requires i < |walk| && walk[i].hasBlock && k < |walk[i].block| && walk[i].block[k].devExists
    requires forall j :: 0 <= j < i ==> !YieldsDevice(walk[j])
    requires forall m :: 0 <= m < k ==> !walk[i].block[m].devExists
    ensures FirstBlockDevice(walk) == Some(DevNode(walk[i].block[k].name))
  {
    var entries := walk[i].block;
    FirstIndexIs(entries, DevExists, k);
    assert YieldsDevice(walk[i]);
    FirstIndexIs(walk, YieldsDevice, i);
  }

  /** No device exactly when no `block` directory has an entry whose node exists. */
  lemma FirstBlockDeviceNone(walk: seq<WalkDir>)
    ensures FirstBlockDevice(walk).None? <==>
      forall j, m :: 0 <= j < |walk| && 0 <= m < |walk[j].block| ==> !(walk[j].hasBlock && walk[j].block[m].devExists)
  {
    var r := FirstIndex(walk, YieldsDevice);
    if r.Some? {
      assert YieldsDevice(walk[r.value]);
      var f := FirstIndex(walk[r.value].block, DevExists);
      assert walk[r.value].block[f.value].devExists;
    } else {
      forall j, m | 0 <= j < |walk| && 0 <= m < |walk[j].block|
        ensures !(walk[j].hasBlock && walk[j].block[m].devExists)
      {
        assert !YieldsDevice(walk[j]);
        if walk[j].hasBlock {
          var f := FirstIndex(walk[j].block, DevExists);
          assert f.None?;
        }
      }
    }
  }

  // ------------------------------------------------------ waiting

  datatype Matcher = ByVidPid(vid: string, pid: string) | ByHub(hub: string)

  /** vid and pid win over the hub; with neither, `ValueError`. */
  function ChooseMatcher(vid: Option<string>, pid: Option<string>, hub: Option<string>): (m: Option<Matcher>)
    ensures m.None? <==> !(Truthy(vid) && Truthy(pid)) && !Truthy(hub)
    ensures Truthy(vid) && Truthy(pid) ==> m == Some(ByVidPid(vid.value, pid.value))
    ensures !(Truthy(vid) && Truthy(pid)) && Truthy(hub) ==> m == Some(ByHub(hub.value))
  {
    if Truthy(vid) && Truthy(pid) then Some(ByVidPid(vid.value, pid.value))
    else if Truthy(hub) then Some(ByHub(hub.value))
    else None
  }

  /** One poll: the USB devices listing, whether the exact hub path exists,
      the walk under each sysfs device path, and the elapsed time after it. */
  datatype Poll = Poll(usb: seq<UsbEntry>, hubExists: bool, walks: map<string, seq<WalkDir>>, elapsed: real)

  /** `os.walk` of a path that is not there yields nothing. */
  function WalkOf(p: Poll, path: string): seq<WalkDir> {
    if path in p.walks then p.walks[path] else []
  }

  function SysfsOf(m: Matcher, p: Poll): Option<string> {
    match m
    case ByVidPid(v, d) => FirstVidPid(p.usb, v, d)
    case ByHub(h) => HubLookup(p.hubExists, p.usb, h)
  }

  /** The block device one poll finds: `if sysfs:` and then `if dev:`. */
  function BlockOf(m: Matcher, p: Poll): Option<string> {
    var sysfs := SysfsOf(m, p);
    if !Truthy(sysfs) then None
    else
      var dev := FirstBlockDevice(WalkOf(p, sysfs.value));
      if Truthy(dev) then dev else None
  }

  /** How a wait ends: a device, `None` (for a polling wait: the deadline
      passed), `ValueError` for a missing matcher, or the observed polls ran
      out while the loop was still waiting. */
  datatype WaitEnd = Found(dev: string) | NoDevice | NoMatcher | OutOfPolls

  /** What one turn of a polling loop saw: the device found, if any, and
      the elapsed time when the deadline is checked. */
  datatype Tick = Tick(found: Option<string>, elapsed: real)

  /** A `while True` polling loop over the turns observed: a device ends it
      at once, otherwise a turn that ends past the deadline gives up; when
      the observed turns run out the loop is still waiting. It never raises. */
  function WaitLoop(timeout: real, ticks: seq<Tick>): (r: WaitEnd)
    ensures r != NoMatcher
  {
    if ticks == [] then OutOfPolls
    else if ticks[0].found.Some? then Found(ticks[0].found.value)
    else if ticks[0].elapsed > timeout then NoDevice
    else WaitLoop(timeout, ticks[1..])
  }

  /** The loop returns the first device found, provided no earlier turn
      ended past the deadline. */
  lemma {:induction false} WaitFoundAt(timeout: real, ticks: seq<Tick>, i: nat)
    requires i < |ticks| && ticks[i].found.Some?
    requires forall j :: 0 <= j < i ==> ticks[j].found.None? && ticks[j].elapsed <= timeout
    ensures WaitLoop(timeout, ticks) == Found(ticks[i].found.value)
  {
    if i > 0 {
      assert forall j :: 0 <= j < i - 1 ==> ticks[1..][j] == ticks[j + 1];
      WaitFoundAt(timeout, ticks[1..], i - 1);
    }
  }

  /** It gives up only at the first turn that ends past the deadline with
      nothing found: a turn that finds a device is never given up on. */
  lemma {:induction false} WaitTimesOutAt(timeout: real, ticks: seq<Tick>, i: nat)
    requires i < |ticks| && ticks[i].found.None? && ticks[i].elapsed > timeout
    requires forall j :: 0 <= j < i ==> ticks[j].found.None? && ticks[j].elapsed <= timeout
    ensures WaitLoop(timeout, ticks) == NoDevice
  {
    if i > 0 {
      assert forall j :: 0 <= j < i - 1 ==> ticks[1..][j] == ticks[j + 1];
      WaitTimesOutAt(timeout, ticks[1..], i - 1);
    }
  }

  /** The loop gives up only after a turn that ended past the deadline with
      nothing found, every earlier turn having found nothing within it. */
  lemma {:induction false} WaitNoDeviceOnlyPastDeadline(timeout: real, ticks: seq<Tick>)
    requires WaitLoop(timeout, ticks) == NoDevice
    ensures exists i :: 0 <= i < |ticks| && ticks[i].found.None? && ticks[i].elapsed > timeout &&
                        (forall j :: 0 <= j < i ==> ticks[j].found.None? && ticks[j].elapsed <= timeout)
  {
    if !(ticks[0].found.None? && ticks[0].elapsed > timeout) {
      WaitNoDeviceOnlyPastDeadline(timeout, ticks[1..]);
      var i :| 0 <= i < |ticks[1..]| && ticks[1..][i].found.None? && ticks[1..][i].elapsed > timeout &&
               (forall j :: 0 <= j < i ==> ticks[1..][j].found.None? && ticks[1..][j].elapsed <= timeout);
      assert ticks[i + 1] == ticks[1..][i];
      forall j | 0 <= j < i + 1
        ensures ticks[j].found.None? && ticks[j].elapsed <= timeout
      {
        if j > 0 {
          assert ticks[j] == ticks[1..][j - 1];
        }
      }
    }
  }

  /** The observed turns run out exactly when none of them found a device
      and all of them ended within the deadline. */
  lemma {:induction false} WaitOutOfPollsIff(timeout: real, ticks: seq<Tick>)
    ensures WaitLoop(timeout, ticks) == OutOfPolls <==>
      forall j :: 0 <= j < |ticks| ==> ticks[j].found.None? && ticks[j].elapsed <= timeout
  {
    if ticks != [] {
      WaitOutOfPollsIff(timeout, ticks[1..]);
      assert forall j :: 0 <= j < |ticks| - 1 ==> ticks[1..][j] == ticks[j + 1];
      if forall j :: 0 <= j < |ticks[1..]| ==> ticks[1..][j].found.None? && ticks[1..][j].elapsed <= timeout {
        assert forall j :: 1 <= j < |ticks| ==> ticks[j] == ticks[1..][j - 1];
      }
    }
  }

  /** A device comes only from some turn; `WaitFoundAt` says which one. */
  lemma {:induction false} WaitFoundComesFromTick(timeout: real, ticks: seq<Tick>)
    requires WaitLoop(timeout, ticks).Found?
    ensures exists i :: 0 <= i < |ticks| && ticks[i].found == Some(WaitLoop(timeout, ticks).dev)
  {
    if ticks[0].found.None? {
      WaitFoundComesFromTick(timeout, ticks[1..]);
      var i :| 0 <= i < |ticks[1..]| && ticks[1..][i].found == Some(WaitLoop(timeout, ticks[1..]).dev);
      assert ticks[i + 1] == ticks[1..][i];
    }
  }

  function BlockTicks(m: Matcher, polls: seq<Poll>): seq<Tick> {
    seq(|polls|, i requires 0 <= i < |polls| => Tick(BlockOf(m, polls[i]), polls[i].elapsed))
  }

  /** The wait loop of `wait_for_block_device` over the polls observed. */
  function WaitOutcome(m: Matcher, timeout: real, polls: seq<Poll>): WaitEnd {
    WaitLoop(timeout, BlockTicks(m, polls))
  }

  /** `wait_for_block_device`. */
  function WaitForBlock(vid: Option<string>, pid: Option<string>, hub: Option<string>, timeout: real, polls: seq<Poll>): WaitEnd {
    match ChooseMatcher(vid, pid, hub)
    case None => NoMatcher
    case Some(m) => WaitOutcome(m, timeout, polls)
  }

  method PollOnce(m: Matcher, p: Poll) returns (dev: Option<string>)
    ensures dev == BlockOf(m, p)
  {
    var sysfs: Option<string>;
    match m {
      case ByVidPid(v, d) => sysfs := FindUsbByVidPid(p.usb, v, d);
      case ByHub(h) => sysfs := FindUsbByHub(p.hubExists, p.usb, h);
    }
    dev := None;
    if Truthy(sysfs) {
      var found := FindBlockDevice(WalkOf(p, sysfs.value));
      if Truthy(found) {
        dev := found;
      }
    }
  }

  method WaitForBlockDevice(vid: Option<string>, pid: Option<string>, hub: Option<string>, timeout: real, polls: seq<Poll>)
    returns (r: WaitEnd)
    ensures r == WaitForBlock(vid, pid, hub, timeout, polls)
  {
    var matcher := ChooseMatcher(vid, pid, hub);
    if matcher.None? {
      return NoMatcher;
    }
    var m := matcher.value;
    ghost var ticks := BlockTicks(m, polls);
    var i := 0;
    while i < |polls|
      invariant 0 <= i <= |polls|
      invariant WaitLoop(timeout, ticks) == WaitLoop(timeout, ticks[i..])
    {
      assert ticks[i..][1..] == ticks[i + 1..];
      assert ticks[i] == Tick(BlockOf(m, polls[i]), polls[i].elapsed);
      var dev := PollOnce(m, polls[i]);
      if dev.Some? {
        return Found(dev.value);
      }
      if polls[i].elapsed > timeout {
        return NoDevice;
      }
      i := i + 1;
    }
    return OutOfPolls;
  }

  /** Whatever the snapshots, vid and pid are preferred over the hub, and
      `ValueError` comes exactly when neither is given. */
  lemma WaitForBlockChoosesMatcher(vid: Option<string>, pid: Option<string>, hub: Option<string>, timeout: real, polls: seq<Poll>)
    ensures WaitForBlock(vid, pid, hub, timeout, polls) == NoMatcher <==> !(Truthy(vid) && Truthy(pid)) && !Truthy(hub)
    ensures Truthy(vid) && Truthy(pid) ==>
      WaitForBlock(vid, pid, hub, timeout, polls) == WaitOutcome(ByVidPid(vid.value, pid.value), timeout, polls)
    ensures !(Truthy(vid) && Truthy(pid)) && Truthy(hub) ==>
      WaitForBlock(vid, pid, hub, timeout, polls) == WaitOutcome(ByHub(hub.value), timeout, polls)
  {
  }

  // ------------------------------------------------ camera wait (src)

  /** An entry of `/dev/disk/by-id`: its resolved path (`None` when resolving
      raised) and whether that path exists. */
  datatype ByIdEntry = ByIdEntry(name: string, resolved: Option<string>, realExists: bool)

  /** The names the camera wait accepts from `/dev/disk/by-id`. */
  predicate CameraIdName(name: string) {
    StartsWith(name, "usb-") || Contains(name, "NOVATEKN") || Contains(name, "vt-DSC")
  }

  predicate CameraPick(e: ByIdEntry) {
    CameraIdName(e.name) && e.resolved.Some? && e.realExists
  }

  /** An accepted entry whose resolved path has not been returned before. */
  predicate FreshPick(e: ByIdEntry, seen: set<string>) {
    CameraPick(e) && e.resolved.value !in seen
  }

  function FreshQuery(seen: set<string>): ByIdEntry -> bool {
    (e: ByIdEntry) => FreshPick(e, seen)
  }

  function FirstCameraById(entries: seq<ByIdEntry>, seen: set<string>): Option<string> {
    match FirstIndex(entries, FreshQuery(seen))
    case None => None
    case Some(i) => entries[i].resolved
  }

  /** One scan of `/dev/disk/by-id`; the path returned is added to `seen`. */
  method ScanById(es: seq<ByIdEntry>, seen: set<string>) returns (r: Option<string>, seenAfter: set<string>)
    ensures r == FirstCameraById(es, seen)
    ensures seenAfter == if r.Some? then seen + {r.value} else seen
  {
    var k := 0;
    while k < |es|
      invariant 0 <= k <= |es|
      invariant forall j :: 0 <= j < k ==> !FreshPick(es[j], seen)
    {
      var e := es[k];
      if CameraIdName(e.name) && e.resolved.Some? && e.realExists && e.resolved.value !in seen {
        FirstIndexIs(es, FreshQuery(seen), k);
        return e.resolved, seen + {e.resolved.value};
      }
      k := k + 1;
    }
    FirstIndexNone(es, FreshQuery(seen));
    return None, seen;
  }

  /** One outer poll: the short inner block-device wait, the by-id listing
      (`None`: the directory is missing), and the elapsed time after it. */
  datatype CameraPoll = CameraPoll(inner: seq<Poll>, byId: Option<seq<ByIdEntry>>, elapsed: real)

  const InnerTimeout: real := 0.1

  function CameraStep(m: Matcher, p: CameraPoll): Option<string> {
    var inner := WaitOutcome(m, InnerTimeout, p.inner);
    if inner.Found? && inner.dev != "" then Some(inner.dev)
    else
      match p.byId
      case None => None
      case Some(es) => FirstCameraById(es, {})
  }

  function CameraTicks(m: Matcher, polls: seq<CameraPoll>): seq<Tick> {
    seq(|polls|, i requires 0 <= i < |polls| => Tick(CameraStep(m, polls[i]), polls[i].elapsed))
  }

  /** The outer loop of `wait_for_camera_device` over the polls observed. */
  function CameraOutcome(m: Matcher, timeout: real, polls: seq<CameraPoll>): WaitEnd {
    WaitLoop(timeout, CameraTicks(m, polls))
  }

  /** `wait_for_camera_device`: the first inner wait raises `ValueError`
      when no matcher is configured, so the by-id fallback is never reached. */
  function WaitForCamera(vid: Option<string>, pid: Option<string>, hub: Option<string>, timeout: real, polls: seq<CameraPoll>): WaitEnd {
    match ChooseMatcher(vid, pid, hub)
    case None => NoMatcher
    case Some(m) => CameraOutcome(m, timeout, polls)
  }

  /** One outer poll of `wait_for_camera_device`: the short inner wait, then
      the by-id listing. */
  method CameraPollOnce(vid: Option<string>, pid: Option<string>, hub: Option<string>, m: Matcher, p: CameraPoll,
                        seen: set<string>)
    returns (dev: Option<string>, seenAfter: set<string>)
    requires ChooseMatcher(vid, pid, hub) == Some(m)
    requires seen == {}
    ensures dev == CameraStep(m, p)
    ensures dev.None? ==> seenAfter == {}
  {
    var inner := WaitForBlockDevice(vid, pid, hub, InnerTimeout, p.inner);
    assert inner == WaitOutcome(m, InnerTimeout, p.inner);
    seenAfter := seen;
    if inner.Found? && inner.dev != "" {
      return Some(inner.dev), seenAfter;
    }
    dev := None;
    if p.byId.Some? {
      dev, seenAfter := ScanById(p.byId.value, seen);
    }
  }

  method WaitForCameraDevice(vid: Option<string>, pid: Option<string>, hub: Option<string>, timeout: real, polls: seq<CameraPoll>)
    returns (r: WaitEnd)
    ensures r == WaitForCamera(vid, pid, hub, timeout, polls)
  {
    var matcher := ChooseMatcher(vid, pid, hub);
    if matcher.None? {
      return NoMatcher;
    }
    var m := matcher.value;
    var seen: set<string> := {};
    ghost var ticks := CameraTicks(m, polls);
    var i := 0;
    while i < |polls|
      invariant 0 <= i <= |polls|
      invariant WaitLoop(timeout, ticks) == WaitLoop(timeout, ticks[i..])
      invariant seen == {}
    {
      assert ticks[i..][1..] == ticks[i + 1..];
      assert ticks[i] == Tick(CameraStep(m, polls[i]), polls[i].elapsed);
      var dev;
      dev, seen := CameraPollOnce(vid, pid, hub, m, polls[i], seen);
      if dev.Some? {
        return Found(dev.value);
      }
      if polls[i].elapsed > timeout {
        return NoDevice;
      }
      i := i + 1;
    }
    return OutOfPolls;
  }

  /** A poll whose inner wait finds nothing falls back to the first accepted
      by-id entry whose resolved path exists; an entry with any other name is
      never picked. */
  lemma CameraStepFallback(m: Matcher, p: CameraPoll, k: nat)
    requires !WaitOutcome(m, InnerTimeout, p.inner).Found?
    requires p.byId.Some? && k < |p.byId.value| && CameraPick(p.byId.value[k])
    requires forall j :: 0 <= j < k ==> !CameraPick(p.byId.value[j])
    ensures CameraStep(m, p) == p.byId.value[k].resolved
    ensures CameraIdName(p.byId.value[k].name) && p.byId.value[k].realExists
  {
    FirstIndexIs(p.byId.value, FreshQuery({}), k);
  }

  /** A device the inner wait finds always wins over the by-id listing. */
  lemma CameraStepPrefersInner(m: Matcher, p: CameraPoll)
    ensures WaitOutcome(m, InnerTimeout, p.inner).Found? && WaitOutcome(m, InnerTimeout, p.inner).dev != "" ==>
      CameraStep(m, p) == Some(WaitOutcome(m, InnerTimeout, p.inner).dev)
    ensures !WaitOutcome(m, InnerTimeout, p.inner).Found? && p.byId.None? ==> CameraStep(m, p).None?
  {
  }

  // ------------------------------------------------------ detection

  /** `a or b` on optional strings. */
  function Or(a: Option<string>, b: Option<string>): (r: Option<string>)
    ensures Truthy(r) <==> Truthy(a) || Truthy(b)
    ensures Truthy(a) ==> r == a
    ensures !Truthy(a) ==> r == b
  {
    if Truthy(a) then a else b
  }

  function Get(section: map<string, string>, key: string): Option<string> {
    if key in section then Some(section[key]) else None
  }

  /** The configured ids: `vendor or idVendor`, `product or idProduct`, `hub_location`. */
  datatype CameraIds = CameraIds(vid: Option<string>, pid: Option<string>, hub: Option<string>)

  function IdsOf(camera: Option<map<string, string>>): CameraIds {
    var section := camera.GetOr(map[]);
    CameraIds(Or(Get(section, "vendor"), Get(section, "idVendor")),
              Or(Get(section, "product"), Get(section, "idProduct")),
              Get(section, "hub_location"))
  }

  predicate UsbPick(e: ByIdEntry) {
    StartsWith(e.name, "usb-") && e.resolved.Some? && e.realExists
  }

  /** `detect_camera_block_device`. The by-id names are in `os.walk` order,
      directories before files within each directory. */
  function Detect(camera: Option<map<string, string>>, timeout: real, polls: seq<Poll>, byIdWalk: seq<ByIdEntry>): WaitEnd {
    var ids := IdsOf(camera);
    if Truthy(ids.vid) && Truthy(ids.pid) then WaitOutcome(ByVidPid(ids.vid.value, ids.pid.value), timeout, polls)
    else if Truthy(ids.hub) then WaitOutcome(ByHub(ids.hub.value), timeout, polls)
    else
      match FirstIndex(byIdWalk, UsbPick)
      case None => NoDevice
      case Some(i) => Found(byIdWalk[i].resolved.value)
  }

  method DetectCameraBlockDevice(camera: Option<map<string, string>>, timeout: real, polls: seq<Poll>, byIdWalk: seq<ByIdEntry>)
    returns (r: WaitEnd)
    ensures r == Detect(camera, timeout, polls, byIdWalk)
  {
    var ids := IdsOf(camera);
    if Truthy(ids.vid) && Truthy(ids.pid) {
      r := WaitForBlockDevice(ids.vid, ids.pid, None, timeout, polls);
      return;
    }
    if Truthy(ids.hub) {
      r := WaitForBlockDevice(None, None, ids.hub, timeout, polls);
      return;
    }
    var i := 0;
    while i < |byIdWalk|
      invariant 0 <= i <= |byIdWalk|
      invariant forall j :: 0 <= j < i ==> !UsbPick(byIdWalk[j])
    {
      var e := byIdWalk[i];
      if StartsWith(e.name, "usb-") && e.resolved.Some? && e.realExists {
        FirstIndexIs(byIdWalk, UsbPick, i);
        return Found(e.resolved.value);
      }
      i := i + 1;
    }
    return NoDevice;
  }

  /** Detection order: vid&pid, else the hub, else the first `usb-` by-id
      entry resolving to an existing path; it never raises. */
  lemma DetectPrecedence(camera: Option<map<string, string>>, timeout: real, polls: seq<Poll>, byIdWalk: seq<ByIdEntry>)
    ensures var ids := IdsOf(camera);
      Truthy(ids.vid) && Truthy(ids.pid) ==>
        Detect(camera, timeout, polls, byIdWalk) == WaitForBlock(ids.vid, ids.pid, ids.hub, timeout, polls)
    ensures var ids := IdsOf(camera);
      !(Truthy(ids.vid) && Truthy(ids.pid)) && Truthy(ids.hub) ==>
        Detect(camera, timeout, polls, byIdWalk) == WaitForBlock(ids.vid, ids.pid, ids.hub, timeout, polls)
    ensures Detect(camera, timeout, polls, byIdWalk) != NoMatcher
    ensures var ids := IdsOf(camera);
      !(Truthy(ids.vid) && Truthy(ids.pid)) && !Truthy(ids.hub) ==>
        (Detect(camera, timeout, polls, byIdWalk).Found? <==> exists j :: 0 <= j < |byIdWalk| && UsbPick(byIdWalk[j]))
  {
    var ids := IdsOf(camera);
    if !(Truthy(ids.vid) && Truthy(ids.pid)) && !Truthy(ids.hub) {
      var f := FirstIndex(byIdWalk, UsbPick);
      if f.Some? {
        assert UsbPick(byIdWalk[f.value]);
      }
    }
  }

  /** `vendor` wins over `idVendor` when it is non-empty, and a missing
      `camera` section reads as empty, so detection falls to the by-id scan. */
  lemma IdsFallBack(camera: Option<map<string, string>>)
    ensures camera.Some? && "vendor" in camera.value && camera.value["vendor"] != "" ==> IdsOf(camera).vid == Some(camera.value["vendor"])
    ensures camera.Some? && ("vendor" !in camera.value || camera.value["vendor"] == "") ==> IdsOf(camera).vid == Get(camera.value, "idVendor")
    ensures camera.None? ==> IdsOf(camera) == CameraIds(None, None, None)
  {
  }
}
