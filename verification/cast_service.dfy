/** The cast orchestrator: the public operations of the service, each a sequential step
    on an immutable service value. Every operation that performs a side effect brackets
    it between a lock and an unlock of the status register; cancellation and encoder exit
    are single compare-and-swaps. Side effects whose result the model cannot compute
    (opening the discovery socket, starting the encoder, the SetAVTransportURI call) are
    parameters. */
module CastService {
  import opened Wrappers
  import opened Status
  import opened Registry
  import opened FlvIngest

  datatype Platform = Linux | Windows | Unsupported

  /** The `ffmpeg_process` field: no handle, or the handle of a started encoder and
      whether Kill has been sent to it. */
  datatype Encoder = NoEncoder | Spawned(killed: bool)

  datatype Service = Service(
    status: Register,
    devices: Devices,
    selected: Device,      // `select_device`
    filePath: string,      // `file_path`, served on GET /file
    encoder: Encoder,
    relay: Relay)          // the live relay session: `flv_header`, `flv_script`, `flv_video`, `is_need_key_frame`

  /** The service after an operation and the error the operation returned. */
  datatype Reply = Reply(svc: Service, out: Outcome)

  /** setURL: the renderer's answer to SetAVTransportURI for a device and a media URL. */
  type SetUrl = (Device, string) -> Outcome

  /** The URL of this host's HTTP server on `path`, as the device can reach it: scheme
      http, the device's local address as host, port 12345, then the path. */
  function CallbackUrl(d: Device, path: string): (u: string)
    ensures |u| == 13 + |d.localUrl| + |path|
    ensures u[..7] == "http://" && u[7..7 + |d.localUrl|] == d.localUrl
    ensures u[7 + |d.localUrl|..|u| - |path|] == ":12345" && u[|u| - |path|..] == path
  {
    "http://" + d.localUrl + ":12345" + path
  }

  /** Init: from 0 only. With the discovery socket open (`listen`) the registry starts
      empty, the relay's header buffer is a fresh zeroed one and the register ends at 1;
      otherwise it is unlocked back to 0 and the socket error returned. */
  function Init(svc: Service, listen: Outcome): (r: Reply)
    ensures svc.status.value != Uninit ==> r == Reply(svc, Fail("Lock Failed"))
    ensures svc.status.value == Uninit && listen.Pass? ==>
              r == Reply(svc.(status := Register(Ready), devices := map[],
                              relay := svc.relay.(header := InitialRelay().header)), Pass)
    ensures svc.status.value == Uninit && listen.Fail? ==> r == Reply(svc, listen)
  {
    var l := LockStatus(svc.status, Uninit);
    if l.out.Fail? then Reply(svc, l.out)
    else if listen.Fail? then Reply(svc.(status := UnLockStatus(l.reg, Uninit).reg), listen)
    else Reply(svc.(status := UnLockStatus(l.reg, Ready).reg, devices := map[],
                    relay := svc.relay.(header := InitialRelay().header)), Pass)
  }

  /** Selects the registered device `udn`. Proceeds only from 1 or 2; with `udn` registered
      it records the device and ends in 2, otherwise it restores the status it locked
      from and reports "No Such Device". From any other status it fails with no change. */
  function SelectDevice(svc: Service, udn: string): (r: Reply)
    ensures r.out.Pass? <==> (svc.status.value == Ready || svc.status.value == Selected) && udn in svc.devices
    ensures r.out.Pass? ==> r.svc == svc.(status := Register(Selected), selected := svc.devices[udn])
    ensures (svc.status.value == Ready || svc.status.value == Selected) && udn !in svc.devices ==>
              r == Reply(svc, Fail("No Such Device"))
    ensures !(svc.status.value == Ready || svc.status.value == Selected) ==> r == Reply(svc, Fail("Lock Failed"))
  {
    var m := LockMultiStatus(svc.status, [Ready, Selected]);
    if m.out.Fail? then Reply(svc, m.out)
    else if udn in svc.devices then
      Reply(svc.(status := UnLockStatus(m.reg, Selected).reg, selected := svc.devices[udn]), Pass)
    else
      Reply(svc.(status := UnLockStatus(m.reg, m.matched).reg), Fail("No Such Device"))
  }

  /** Selects by friendly name: the UDN field of some record with that name, or "" when
      none has it, is passed to SelectDevice. */
  method SelectDeviceByName(svc: Service, name: string) returns (r: Reply)
    ensures exists u :: r == SelectDevice(svc, u)
    ensures (forall k :: k in svc.devices ==> svc.devices[k].name != name) ==> r == SelectDevice(svc, "")
    ensures Consistent(svc.devices) && (exists k :: k in svc.devices && svc.devices[k].name == name)
            && (svc.status.value == Ready || svc.status.value == Selected) ==>
              r.out.Pass? && r.svc.status.value == Selected && r.svc.selected.name == name
    ensures (exists k :: k in svc.devices && svc.devices[k].name == name) ==>
              exists k :: k in svc.devices && svc.devices[k].name == name
                          && r == SelectDevice(svc, svc.devices[k].udn)
  {
    var udn := FindUdnByName(svc.devices, name);
    r := SelectDevice(svc, udn);
  }

  /** Casts a file: from 2 only. The path is recorded, the selected device is pointed at
      GET /file, and the register ends in 3 when that succeeds and back in 2 when it
      fails, with the call's error returned. */
  function CastFile(svc: Service, path: string, setUrl: SetUrl): (r: Reply)
    ensures svc.status.value != Selected ==> r == Reply(svc, Fail("Lock Failed"))
    ensures svc.status.value == Selected ==>
              && r.out == setUrl(svc.selected, CallbackUrl(svc.selected, "/file"))
              && r.svc == svc.(filePath := path,
                               status := Register(if r.out.Pass? then CastingFile else Selected))
  {
    var l := LockStatus(svc.status, Selected);
    if l.out.Fail? then Reply(svc, l.out)
    else
      var svc' := svc.(filePath := path);
      var err := setUrl(svc.selected, CallbackUrl(svc.selected, "/file"));
      if err.Pass? then Reply(svc'.(status := UnLockStatus(l.reg, CastingFile).reg), Pass)
      else Reply(svc'.(status := UnLockStatus(l.reg, Selected).reg), err)
  }

  /** Ends a file cast: exactly Assign(3, 2). */
  function CancelCastFile(svc: Service): (r: Reply)
    ensures r.out.Pass? <==> svc.status.value == CastingFile
    ensures r.out.Pass? ==> r.svc == svc.(status := Register(Selected))
    ensures r.out.Fail? ==> r == Reply(svc, Fail("Assign Failed"))
  {
    var a := Assign(svc.status, CastingFile, Selected);
    Reply(svc.(status := a.reg), a.out)
  }

  /** Casts the screen: from 2 only. On a supported platform the encoder is started
      (`start` is its outcome); if it starts, its handle is kept and the selected device
      is pointed at GET /live; the register ends in 4 on success and back in 2 on either
      failure. On an unsupported platform the operation returns without unlocking, so the
      register stays at -1. */
  function CastScreen(svc: Service, platform: Platform, start: Outcome, setUrl: SetUrl): (r: Reply)
    ensures svc.status.value != Selected ==> r == Reply(svc, Fail("Lock Failed"))
    ensures svc.status.value == Selected && platform == Unsupported ==>
              r == Reply(svc.(status := Register(LOCKSTATUS)), Fail("Not Supported Platform"))
    ensures svc.status.value == Selected && platform != Unsupported && start.Fail? ==> r == Reply(svc, start)
    ensures svc.status.value == Selected && platform != Unsupported && start.Pass? ==>
              && r.out == setUrl(svc.selected, CallbackUrl(svc.selected, "/live"))
              && r.svc == svc.(encoder := Spawned(false),
                               status := Register(if r.out.Pass? then CastingScreen else Selected))
  {
    var l := LockStatus(svc.status, Selected);
    if l.out.Fail? then Reply(svc, l.out)
    else if platform == Unsupported then Reply(svc.(status := l.reg), Fail("Not Supported Platform"))
    else if start.Fail? then Reply(svc.(status := UnLockStatus(l.reg, Selected).reg), start)
    else
      var svc' := svc.(encoder := Spawned(false));
      var err := setUrl(svc.selected, CallbackUrl(svc.selected, "/live"));
      if err.Pass? then Reply(svc'.(status := UnLockStatus(l.reg, CastingScreen).reg), Pass)
      else Reply(svc'.(status := UnLockStatus(l.reg, Selected).reg), err)
  }

  /** The watcher started by a successful screen cast: when the encoder exits, Assign(4, 2). */
  function EncoderExited(svc: Service): (r: Reply)
    ensures r.out.Pass? <==> svc.status.value == CastingScreen
    ensures r.out.Pass? ==> r.svc == svc.(status := Register(Selected))
    ensures r.out.Fail? ==> r == Reply(svc, Fail("Assign Failed"))
  {
    var a := Assign(svc.status, CastingScreen, Selected);
    Reply(svc.(status := a.reg), a.out)
  }

  /** Ends a screen cast: Kill is sent to any encoder handle, whatever the status, and
      then Assign(4, 2). The handle itself is kept. */
  function CancelCastScreen(svc: Service): (r: Reply)
    ensures r.svc.encoder == (if svc.encoder.Spawned? then Spawned(true) else NoEncoder)
    ensures r.out.Pass? <==> svc.status.value == CastingScreen
    ensures r.svc.status.value == (if r.out.Pass? then Selected else svc.status.value)
    ensures r.svc.(encoder := svc.encoder, status := svc.status) == svc
    ensures r.out.Fail? ==> r.out == Fail("Assign Failed")
  {
    var killed := if svc.encoder.Spawned? then Spawned(true) else NoEncoder;
    var a := Assign(svc.status, CastingScreen, Selected);
    Reply(svc.(encoder := killed, status := a.reg), a.out)
  }

  /** Everything that can happen to the service, with the outcomes of the side effects
      the model does not compute. Discovery builds a record from a descriptor and files
      it; listing evicts expired records. */
  datatype Op =
    | InitOp(listen: Outcome)
    | Discover(udn: string, name: string, urlBase: string, ctrlUrl: string, localUrl: string,
               maxAge: Option<int>, now: int)
    | List(now: int)
    | Select(udn: string)
    | CastFileOp(path: string, answer: Outcome)
    | CancelFile
    | CastScreenOp(platform: Platform, start: Outcome, answer: Outcome)
    | EncoderExit
    | CancelScreen

  function Apply(svc: Service, op: Op): Reply {
    match op
    case InitOp(listen) => Init(svc, listen)
    case Discover(udn, name, urlBase, ctrlUrl, localUrl, maxAge, now) =>
      Reply(svc.(devices := Upsert(svc.devices, NewDevice(udn, name, urlBase, ctrlUrl, localUrl, maxAge, now), now)), Pass)
    case List(now) => Reply(svc.(devices := Evict(svc.devices, now)), Pass)
    case Select(udn) => SelectDevice(svc, udn)
    case CastFileOp(path, answer) => CastFile(svc, path, (d: Device, u: string) => answer)
    case CancelFile => CancelCastFile(svc)
    case CastScreenOp(platform, start, answer) =>
      CastScreen(svc, platform, start, (d: Device, u: string) => answer)
    case EncoderExit => EncoderExited(svc)
    case CancelScreen => CancelCastScreen(svc)
  }

  function Run(svc: Service, ops: seq<Op>): Service
    decreases |ops|
  {
    if |ops| == 0 then svc else Run(Apply(svc, ops[0]).svc, ops[1..])
  }

  predicate Supported(op: Op) {
    !(op.CastScreenOp? && op.platform == Unsupported)
  }

  /** Every operation but the unsupported-platform screen cast takes a resting register
      to a resting register: -1 is never left behind. */
  lemma ApplyKeepsResting(svc: Service, op: Op)
    requires Resting(svc.status.value) && Supported(op)
    ensures Resting(Apply(svc, op).svc.status.value)
  {
  }

  /** Hence any run of such operations from a resting register ends resting, and a
      GetStatus after it never reads -1. */
  lemma {:induction false} RunKeepsResting(svc: Service, ops: seq<Op>)
    requires Resting(svc.status.value)
    requires forall i :: 0 <= i < |ops| ==> Supported(ops[i])
    ensures Resting(Run(svc, ops).status.value)
    ensures GetStatus(Run(svc, ops).status) != LOCKSTATUS as int
    decreases |ops|
  {
    if |ops| > 0 {
      ApplyKeepsResting(svc, ops[0]);
      RunKeepsResting(Apply(svc, ops[0]).svc, ops[1..]);
    }
  }

  /** Every record stays filed under its own UDN: Init empties the registry, discovery
      files under the record's UDN, listing only deletes, and nothing else touches it. */
  lemma {:induction false} RunKeepsConsistent(svc: Service, ops: seq<Op>)
    requires Consistent(svc.devices)
    ensures Consistent(Run(svc, ops).devices)
    decreases |ops|
  {
    if |ops| > 0 {
      if ops[0].Discover? {
        var o := ops[0];
        UpsertKeepsConsistent(svc.devices,
          NewDevice(o.udn, o.name, o.urlBase, o.ctrlUrl, o.localUrl, o.maxAge, o.now), o.now);
      }
      RunKeepsConsistent(Apply(svc, ops[0]).svc, ops[1..]);
    }
  }

  /** A register left at -1 stays there: every operation fails to lock or assign, so after
      a screen cast on an unsupported platform the service accepts no further transition. */
  lemma {:induction false} LockedStaysLocked(svc: Service, ops: seq<Op>)
    requires svc.status.value == LOCKSTATUS
    ensures Run(svc, ops).status.value == LOCKSTATUS
    decreases |ops|
  {
    if |ops| > 0 {
      assert Apply(svc, ops[0]).svc.status == svc.status;
      LockedStaysLocked(Apply(svc, ops[0]).svc, ops[1..]);
    }
  }

  lemma UnsupportedPlatformWedges(svc: Service, start: Outcome, setUrl: SetUrl, ops: seq<Op>)
    requires svc.status.value == Selected
    ensures CastScreen(svc, Unsupported, start, setUrl).svc.status.value == LOCKSTATUS
    ensures Run(CastScreen(svc, Unsupported, start, setUrl).svc, ops).status.value == LOCKSTATUS
  {
    LockedStaysLocked(CastScreen(svc, Unsupported, start, setUrl).svc, ops);
  }

  /** A file cast and its cancellation bring the register back to 2, and leave only the
      recorded path behind. */
  lemma CastFileThenCancel(svc: Service, path: string, setUrl: SetUrl)
    requires svc.status.value == Selected
    requires setUrl(svc.selected, CallbackUrl(svc.selected, "/file")).Pass?
    ensures CastFile(svc, path, setUrl).svc.status.value == CastingFile
    ensures CancelCastFile(CastFile(svc, path, setUrl).svc) == Reply(svc.(filePath := path), Pass)
  {
  }

  /** Cancelling a screen cast whose encoder has already exited on its own: the watcher
      has moved the register to 2, so the cancel's Assign(4, 2) fails and reports
      "Assign Failed", while the register rests at 2 as it should. */
  lemma CancelAfterEncoderExit(svc: Service)
    requires svc.status.value == CastingScreen
    ensures CancelCastScreen(EncoderExited(svc).svc).svc.status.value == Selected
    ensures CancelCastScreen(EncoderExited(svc).svc).out == Fail("Assign Failed")
  {
  }
}
