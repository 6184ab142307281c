/**
  The ESP side of provisioning as a machine: the session, the enable/status pair of
  zigbee_ota_control.c, the Zigbee callbacks and background tasks of zigbee_ota_cluster.c and the
  durable context of ota_check_auth.c. Every event is one function call or one stage of a task, with the
  P callback cut at its NVS writes and the counter cell between its read and its commit, so any order of
  events is an interleaving of the callback task with the workers, cut by restarts.
 */
module Device {
  import opened Wrappers
  import opened Bytes
  import opened ProvisionPlain
  import opened DeviceSession
  import opened Protocol

  predicate Terminal(status: nat) {
    status == PROVISIONING_COMPLETE || status == PROVISIONING_ERROR || status == PROVISIONING_TIMEOUT
  }

  /** The statuses that the OTA CHECK task and the download monitor report. */
  predicate FirmwareStatus(status: nat) { status in {0x21, 0x22, 0xA2, 0xB2, 0x2A} }

  /** apply_enable_task, one constructor for each place where it can be preempted. */
  datatype Apply =
    | Delayed(generation: nat)
    | Publishing(enabled: bool)
    | Reprovisioning
    | Announcing
    | Scheduling
    | Withdrawing

  /**
    zigbee_ota_hello_task; NoTask means s_hello_task_started is false. In Committing the task has read the
    counter cell and has not yet written it back.
   */
  datatype HelloTask =
    NoTask | Starting | Resetting | Reporting | Sending | Committing(read: nat) | Failing | Waiting | Expiring
    | Finishing

  /** The P callback between its visible effects. */
  datatype Callback = Free | Stored | Completing | Snapshotting | Disabling

  /** A P frame that was authenticated, and the configuration it carried. */
  datatype Authentic = Authentic(attempt: Attempt, config: Config)

  /**
    What proofs speak about: the attempts whose P frame was authenticated and stored, the attempts
    committed to the state record, the counters of the last H frame and of the last S frame, all counters
    ever taken from NVS, whether the callback of the last committed attempt ended, and whether a reset came
    before that attempt was copied to the durable context.
   */
  datatype History = History(
    authenticated: seq<Authentic>, completed: seq<Attempt>, lastHello: nat, lastStatus: nat, taken: seq<nat>,
    finished: bool, dropped: bool)

  /** The boot status task is only its `statusRead`: what it read from the counter cell and has to write back. */
  datatype Device = Device(
    cell: nat, session: Session, context: Option<StateRecord>,
    enable: bool, status: nat, generation: nat,
    applies: multiset<Apply>, responses: set<Attempt>, hello: HelloTask, statusRead: Option<nat>, reportPending: bool,
    callback: Callback, history: History)

  datatype Moved = Moved(dev: Device, sent: Option<Uplink>)

  datatype Event =
    | WriteEnable(requested: bool)
    | ReceiveChallenge(random: nat, signed: Option<Attempt>)
    | ReceiveProvisioning(sealed: Option<Attempt>, plain: seq<byte>)
    | ContinueCallback
    | RunApply(task: Apply)
    | RunHello(networkReady: bool, elapsed: bool)
    | RunResponse(attempt: Attempt)
    | RunInitialReport
    | RunFirmwareStatus(status: nat)
    | RunBootStatus(fits: bool)
    | LoadContext
    | Restart

  function FirstBoot(): Device {
    Device(0, Session(Idle, 0, 0, None, None, None), None, false, IDLE, 0,
           multiset{}, {}, NoTask, None, true, Free, History([], [], 0, 0, [], true, false))
  }

  // ----- pieces

  /** s_enable_generation is a uint32_t. */
  function NextGeneration(g: nat): nat { (g + 1) % 0x1_0000_0000 }

  function Publish(d: Device): Moved { Moved(d, Some(Control(d.enable, d.status))) }

  predicate ValidContext(r: Option<StateRecord>) { r.Some? && r.value.state == Provisioned && r.value.counter > 0 }

  /** ota_check_auth_snapshot_provisioning_context */
  function Snapshot(d: Device): Device {
    if ValidContext(d.session.record) then d.(context := d.session.record) else d
  }

  /** load_persisted_context: what the ESP derives its CHECK keys from. */
  function EffectiveContext(d: Device): Option<Attempt> {
    if ValidContext(d.context) then Some(Attempt(d.context.value.counter, d.context.value.random))
    else if ValidContext(d.session.record) then
      Some(Attempt(d.session.record.value.counter, d.session.record.value.random))
    else None
  }

  /** ... and its side effect, the recovery of a missing durable record. */
  function Recovered(d: Device): Device { if ValidContext(d.context) then d else Snapshot(d) }

  /** zigbee_ota_control_set_status up to and including the T frame. */
  function SetStatus(d: Device, status: nat): Moved {
    if d.status == status then Moved(d, None)
    else
      var d1 := d.(status := status);
      Publish(if Terminal(status) && d1.enable
              then d1.(enable := false, generation := NextGeneration(d1.generation))
              else d1)
  }

  /** zigbee_ota_control_set_enabled */
  function SetEnabled(d: Device, enabled: bool): Moved {
    var m := if d.enable != enabled
             then Publish(d.(enable := enabled, generation := NextGeneration(d.generation)))
             else Moved(d, None);
    if !enabled && d.session.state == Provisioned then m.(dev := Snapshot(m.dev)) else m
  }

  /** The second half of device_identity_next_enrollment_counter: the number above the one that was read. */
  function CommitCounter(d: Device, read: nat): Device {
    d.(cell := read + 1, history := d.history.(taken := d.history.taken + [read + 1]))
  }

  /** H|counter|signature fits a 100-byte frame (Frames.HelloBudget). */
  predicate HelloFits(counter: nat) { counter < 100_000_000_000 }

  /** send_secure_hello from its counter's commit on; a failure behind it does not give the number back. */
  function SendHello(d: Device, read: nat): (Device, bool) {
    var d1 := CommitCounter(d, read);
    if !HelloFits(d1.cell) then (d1, false)
    else match BeginHello(d1.session, d1.cell)
      case Failure(_) => (d1, false)
      case Success(s) => (d1.(session := s, history := d1.history.(lastHello := d1.cell)), true)
  }

  /** send_status of ota_boot_status.c from its counter's commit on. */
  function SendStatus(d: Device, read: nat, fits: bool): Moved {
    var d1 := CommitCounter(d, read).(statusRead := None);
    if fits then Moved(d1.(history := d1.history.(lastStatus := d1.cell)), Some(Status(d1.cell))) else Moved(d1, None)
  }

  predicate IsRecordOf(r: Option<StateRecord>, a: Attempt) {
    r == Some(StateRecord(Provisioned, a.counter, a.random))
  }

  /** The last committed attempt still has to be copied to the durable context by its callback. */
  predicate SnapshotDue(d: Device) {
    && d.callback in {Completing, Snapshotting, Disabling}
    && d.history.completed != [] && !IsRecordOf(d.context, Last(d.history.completed))
  }

  // ----- events

  function Step(d: Device, e: Event): Moved {
    match e
    case WriteEnable(b) => StepWriteEnable(d, b)
    case ReceiveChallenge(r, g) => StepChallenge(d, r, g)
    case ReceiveProvisioning(k, p) => StepProvisioning(d, k, p)
    case ContinueCallback => StepCallback(d)
    case RunApply(t) => if t in d.applies then StepApply(d.(applies := d.applies - multiset{t}), t) else Moved(d, None)
    case RunHello(n, x) => StepHello(d, n, x)
    case RunResponse(a) =>
      if a in d.responses then Moved(d.(responses := d.responses - {a}), Some(Response(a))) else Moved(d, None)
    case RunInitialReport =>
      if d.reportPending
      then Publish(d.(enable := false, status := IDLE, generation := NextGeneration(d.generation),
                      reportPending := false))
      else Moved(d, None)
    case RunFirmwareStatus(s) => if FirmwareStatus(s) then SetStatus(d, s) else Moved(d, None)
    case RunBootStatus(fits) =>
      if d.statusRead.None? then Moved(d.(statusRead := Some(d.cell)), None)
      else SendStatus(d, d.statusRead.value, fits)
    case LoadContext => Moved(Recovered(d), None)
    case Restart =>
      Moved(Device(d.cell, Restarted(d.session), d.context, false, IDLE, 0, multiset{}, {}, NoTask, None, true, Free,
                   d.history), None)
  }

  /** zigbee_ota_control_handle_set_attr */
  function StepWriteEnable(d: Device, requested: bool): Moved {
    if d.callback != Free then Moved(d, None)
    else
      var g := NextGeneration(d.generation);
      Moved(d.(enable := requested, generation := g, applies := d.applies + multiset{Delayed(g)}), None)
  }

  /** The A branch of process_secure_protocol; the answer leaves later, from its own task. */
  function StepChallenge(d: Device, random: nat, signed: Option<Attempt>): Moved {
    if d.callback != Free || !d.enable then Moved(d, None)
    else match AcceptChallenge(d.session, random, signed)
      case Failure(_) => Moved(d, None)
      case Success(s) =>
        Moved(d.(session := s, responses := d.responses + {Attempt(s.counter, s.random)}), None)
  }

  /** The P branch up to the first NVS write. */
  function StepProvisioning(d: Device, sealed: Option<Attempt>, plain: seq<byte>): Moved {
    if d.callback != Free || !d.enable then Moved(d, None)
    else match OpenProvisioning(d.session, sealed, plain)
      case Failure(_) => Moved(d, None)
      case Success(c) =>
        var h := d.history.(authenticated := d.history.authenticated + [Authentic(sealed.value, c)]);
        Moved(d.(session := StoreProvisioning(d.session, c), callback := Stored, history := h), None)
  }

  /** The rest of the P branch, one effect at a time. */
  function StepCallback(d: Device): Moved {
    match d.callback
    case Free => Moved(d, None)
    case Stored =>
      var done := Attempt(d.session.counter, d.session.random);
      var h := d.history.(completed := d.history.completed + [done], finished := false, dropped := false);
      Moved(d.(session := MarkProvisioned(d.session), callback := Completing, history := h), None)
    case Completing =>
      if d.status == PROVISIONING_COMPLETE then Moved(d.(callback := Disabling), None)
      else var m := SetStatus(d, PROVISIONING_COMPLETE); m.(dev := m.dev.(callback := Snapshotting))
    case Snapshotting =>
      Moved((if d.session.state == Provisioned then Snapshot(d) else d).(callback := Disabling), None)
    case Disabling =>
      var m := SetEnabled(d, false);
      m.(dev := m.dev.(callback := Free, history := m.dev.history.(finished := true)))
  }

  /** apply_enable_task, after the stage t was taken out of `applies`. */
  function StepApply(d: Device, t: Apply): Moved {
    match t
    case Delayed(g) =>
      if g == d.generation then Moved(d.(applies := d.applies + multiset{Publishing(d.enable)}), None)
      else Moved(d, None)
    case Publishing(enabled) =>
      Publish(d.(applies := d.applies + multiset{if enabled then Reprovisioning else Withdrawing}))
    case Reprovisioning =>
      var h := d.history.(dropped := d.history.dropped || SnapshotDue(d));
      var applies := d.applies + multiset{Announcing};
      Moved(d.(session := BeginReprovisioning(d.session), applies := applies, history := h), None)
    case Announcing =>
      SetStatus(d.(applies := d.applies + multiset{Scheduling}), PROVISIONING_STARTED)
    case Scheduling =>
      Moved(if d.enable && d.hello == NoTask then d.(hello := Starting) else d, None)
    case Withdrawing => Moved(d.(session := ResetForRetry(d.session)), None)
  }

  /** zigbee_ota_hello_task */
  function StepHello(d: Device, networkReady: bool, elapsed: bool): Moved {
    match d.hello
    case NoTask => Moved(d, None)
    case Starting => Moved(d.(hello := if d.enable then Resetting else Finishing), None)
    case Resetting => Moved(d.(session := ResetForRetry(d.session), hello := Reporting), None)
    case Reporting => SetStatus(d.(hello := if networkReady then Sending else Failing), PROVISIONING_STARTED)
    case Sending => Moved(d.(hello := if d.enable then Committing(d.cell) else Failing), None)
    case Committing(read) =>
      var (d1, ok) := SendHello(d, read);
      if ok then Moved(d1.(hello := Waiting), Some(Hello(d1.cell))) else Moved(d1.(hello := Failing), None)
    case Failing => SetStatus(d.(hello := Finishing), PROVISIONING_ERROR)
    case Waiting =>
      Moved(if !d.enable || d.session.state == Provisioned || elapsed then d.(hello := Expiring) else d, None)
    case Expiring =>
      if d.enable && d.session.state != Provisioned then SetStatus(d.(hello := Finishing), PROVISIONING_TIMEOUT)
      else Moved(d.(hello := Finishing), None)
    case Finishing =>
      var session := if d.session.state != Provisioned then ResetForRetry(d.session) else d.session;
      Moved(d.(hello := NoTask, session := session), None)
  }

  // ----- what holds in every state

  /**
    What agreement needs of the scheduler while a P callback is under way: between its two NVS writes
    no worker resets the session, and before its status report the HELLO task does not pass its own.
   */
  predicate Calm(d: Device, e: Event) {
    && (d.callback == Stored ==>
          && e !in {RunApply(Reprovisioning), RunApply(Withdrawing)}
          && !(e.RunHello? && d.hello in {Resetting, Finishing}))
    && (d.callback == Completing ==> !(e.RunHello? && e.networkReady && d.hello == Reporting))
  }

  /** A task that commits a counter finds the cell as it read it. */
  predicate InTurn(d: Device, e: Event) {
    && (e.RunHello? && d.hello.Committing? ==> d.hello.read == d.cell)
    && (e.RunBootStatus? && d.statusRead.Some? ==> d.statusRead.value == d.cell)
  }

  /** A task that commits a counter read no less than the last number of its kind of frame, H or S. */
  predicate Renews(d: Device, e: Event, hello: bool) {
    if hello then e.RunHello? && d.hello.Committing? ==> d.history.lastHello <= d.hello.read
    else e.RunBootStatus? && d.statusRead.Some? ==> d.history.lastStatus <= d.statusRead.value
  }

  function AttemptOf(r: StateRecord): Attempt { Attempt(r.counter, r.random) }

  /** Attempts with numbers above the floor, and commits from index `first` on. */
  datatype Window = Window(floor: nat, first: nat)

  /** Everything since the first boot. */
  const WHOLE := Window(0, 0)

  function Recent(h: History, w: Window): seq<Attempt> {
    if w.first <= |h.completed| then h.completed[w.first..] else []
  }

  ghost predicate Completed(c: seq<Attempt>, lastHello: nat) {
    Increasing(c) && (forall a :: a in c ==> 0 < a.counter <= lastHello)
  }

  ghost predicate InFlight(s: Session, responses: set<Attempt>, c: seq<Attempt>, lastHello: nat, floor: nat) {
    && (forall a :: a in responses && a.counter > floor ==> a.counter <= lastHello)
    && (s.state in {WaitChallenge, WaitProvisioning} ==>
          && s.counter == lastHello > 0
          && (forall a :: a in c ==> a.counter < s.counter))
    && (s.state == WaitProvisioning ==> s.key == Some(Attempt(s.counter, s.random)))
  }

  /** A record marked PROVISIONED is the last committed attempt, and the context is a committed one. */
  ghost predicate Records(record: Option<StateRecord>, context: Option<StateRecord>, completed: seq<Attempt>) {
    && (record.Some? && record.value.state == Provisioned ==>
          completed != [] && IsRecordOf(record, Last(completed)))
    && (context.Some? ==> context.value.state == Provisioned && AttemptOf(context.value) in completed)
  }

  /** The status byte 0x42 always belongs to the attempt of the last H frame. */
  ghost predicate StatusTells(status: nat, callback: Callback, hello: HelloTask, state: SecureState,
                              c: seq<Attempt>, lastHello: nat) {
    && (status == PROVISIONING_COMPLETE || callback == Completing ==> c != [] && Last(c).counter == lastHello)
    && (hello == Reporting || Greeting(hello) ==> state in {Idle, Provisioned})
    && (Greeting(hello) ==> status != PROVISIONING_COMPLETE && callback != Completing)
  }

  /** The HELLO task is inside send_secure_hello. */
  predicate Greeting(hello: HelloTask) { hello == Sending || hello.Committing? }

  /** What calm steps that renew H numbers keep, once a window is open. */
  ghost predicate InvSince(d: Device, w: Window) {
    var c := Recent(d.history, w);
    && w.first <= |d.history.completed|
    && Completed(c, d.history.lastHello)
    && InFlight(d.session, d.responses, c, d.history.lastHello, w.floor)
    && Records(d.session.record, d.context, d.history.completed)
    && (d.callback == Stored ==> d.session.state == WaitProvisioning)
    && StatusTells(d.status, d.callback, d.hello, d.session.state, c, d.history.lastHello)
  }

  ghost predicate Inv(d: Device) { InvSince(d, WHOLE) }

  /**
    A window can open whatever happened before: no attempt waits for its frames, the status is not 0x42, and
    no P callback stands before its commit or its report.
   */
  predicate Opening(d: Device) {
    && d.callback !in {Stored, Completing} && d.status != PROVISIONING_COMPLETE
    && d.session.state !in {WaitChallenge, WaitProvisioning}
  }

  lemma SetStatusKeeps(d: Device, status: nat, w: Window)
    requires InvSince(d, w) && status != PROVISIONING_COMPLETE
    ensures InvSince(SetStatus(d, status).dev, w)
  {
  }

  lemma SnapshotKeeps(d: Device, w: Window)
    requires InvSince(d, w)
    ensures InvSince(Snapshot(d), w)
  {
  }

  lemma ResetKeeps(d: Device, w: Window)
    requires InvSince(d, w) && d.callback != Stored
    ensures InvSince(d.(session := ResetForRetry(d.session)), w)
  {
  }

  lemma CallbackKeeps(d: Device, w: Window)
    requires InvSince(d, w)
    ensures InvSince(StepCallback(d).dev, w)
  {
    match d.callback
    case Free =>
    case Stored => CompletionKeeps(d, w);
    case Completing => CompletingKeeps(d, w);
    case Snapshotting => SnapshotKeeps(d, w);
    case Disabling => DisablingKeeps(d, w);
  }

  lemma CompletingKeeps(d: Device, w: Window)
    requires InvSince(d, w) && d.callback == Completing
    ensures InvSince(StepCallback(d).dev, w)
  {
    if d.status != PROVISIONING_COMPLETE { ReportedKeeps(d, SetStatus(d, PROVISIONING_COMPLETE).dev, w); }
  }

  lemma ReportedKeeps(d: Device, d': Device, w: Window)
    requires InvSince(d, w) && d.callback == Completing
    requires d' == d.(status := PROVISIONING_COMPLETE, enable := d'.enable, generation := d'.generation)
    ensures InvSince(d'.(callback := Snapshotting), w)
  {
  }

  lemma DisablingKeeps(d: Device, w: Window)
    requires InvSince(d, w) && d.callback == Disabling
    ensures InvSince(StepCallback(d).dev, w)
  {
    SnapshotKeeps(d, w);
    SnapshotKeeps(d.(enable := false, generation := NextGeneration(d.generation)), w);
  }

  lemma CompletionKeeps(d: Device, w: Window)
    requires InvSince(d, w) && d.callback == Stored
    ensures InvSince(StepCallback(d).dev, w)
  {
    var done := Attempt(d.session.counter, d.session.random);
    var h := StepCallback(d).dev.history;
    assert forall a :: a in Recent(h, w) ==> a in Recent(d.history, w) || a == done;
    assert forall a :: a in d.history.completed ==> a in h.completed;
    assert Recent(h, w) == Recent(d.history, w) + [done];
  }

  lemma ApplyKeeps(d: Device, t: Apply, w: Window)
    requires InvSince(d, w) && Calm(d, RunApply(t))
    ensures InvSince(StepApply(d, t).dev, w)
  {
    match t
    case Withdrawing => ResetKeeps(d, w);
    case Announcing => SetStatusKeeps(d.(applies := d.applies + multiset{Scheduling}), PROVISIONING_STARTED, w);
    case _ =>
  }

  lemma SendHelloKeeps(d: Device, read: nat, w: Window)
    requires InvSince(d, w) && d.hello == Committing(read) && d.history.lastHello <= read
    ensures InvSince(SendHello(d, read).0.(hello := if SendHello(d, read).1 then Waiting else Failing), w)
  {
  }

  lemma ReportingKeeps(d: Device, networkReady: bool, w: Window)
    requires InvSince(d, w) && d.hello == Reporting && (networkReady ==> d.callback != Completing)
    ensures InvSince(SetStatus(d.(hello := if networkReady then Sending else Failing), PROVISIONING_STARTED).dev, w)
  {
    SetStatusKeeps(d.(hello := Failing), PROVISIONING_STARTED, w);
    if networkReady { ReadyKeeps(d, SetStatus(d.(hello := Sending), PROVISIONING_STARTED).dev, w); }
  }

  lemma ReadyKeeps(d: Device, d': Device, w: Window)
    requires InvSince(d, w) && d.hello == Reporting && d.callback != Completing
    requires d' == d.(hello := Sending, status := PROVISIONING_STARTED)
    ensures InvSince(d', w)
  {
  }

  lemma SendingKeeps(d: Device, networkReady: bool, elapsed: bool, w: Window)
    requires InvSince(d, w) && Greeting(d.hello) && Renews(d, RunHello(networkReady, elapsed), true)
    ensures InvSince(StepHello(d, networkReady, elapsed).dev, w)
  {
    if d.hello.Committing? { SendHelloKeeps(d, d.hello.read, w); }
  }

  lemma ResettingKeeps(d: Device, networkReady: bool, elapsed: bool, w: Window)
    requires InvSince(d, w) && d.hello in {Resetting, Finishing} && d.callback != Stored
    ensures InvSince(StepHello(d, networkReady, elapsed).dev, w)
  {
    ResetKeeps(d, w);
    ResetKeeps(d.(hello := NoTask), w);
  }

  lemma EndingKeeps(d: Device, status: nat, w: Window)
    requires InvSince(d, w) && d.hello in {Failing, Expiring} && status != PROVISIONING_COMPLETE
    ensures InvSince(d.(hello := Finishing), w) && InvSince(SetStatus(d.(hello := Finishing), status).dev, w)
  {
    SetStatusKeeps(d.(hello := Finishing), status, w);
  }

  lemma ReportingErrorKeeps(d: Device, networkReady: bool, elapsed: bool, w: Window)
    requires InvSince(d, w) && d.hello in {Failing, Expiring}
    ensures InvSince(StepHello(d, networkReady, elapsed).dev, w)
  {
    EndingKeeps(d, PROVISIONING_ERROR, w);
    EndingKeeps(d, PROVISIONING_TIMEOUT, w);
  }

  lemma IdleHelloKeeps(d: Device, networkReady: bool, elapsed: bool, w: Window)
    requires InvSince(d, w) && d.hello in {NoTask, Starting, Waiting}
    ensures InvSince(StepHello(d, networkReady, elapsed).dev, w)
  {
  }

  lemma HelloKeeps(d: Device, networkReady: bool, elapsed: bool, w: Window)
    requires InvSince(d, w)
    requires Calm(d, RunHello(networkReady, elapsed)) && Renews(d, RunHello(networkReady, elapsed), true)
    ensures InvSince(StepHello(d, networkReady, elapsed).dev, w)
  {
    if d.hello in {Resetting, Finishing} { ResettingKeeps(d, networkReady, elapsed, w); }
    else if d.hello == Reporting { ReportingKeeps(d, networkReady, w); }
    else if Greeting(d.hello) { SendingKeeps(d, networkReady, elapsed, w); }
    else if d.hello in {Failing, Expiring} { ReportingErrorKeeps(d, networkReady, elapsed, w); }
    else { IdleHelloKeeps(d, networkReady, elapsed, w); }
  }

  lemma RestartKeeps(d: Device, w: Window)
    requires InvSince(d, w)
    ensures InvSince(Step(d, Restart).dev, w)
  {
  }

  lemma BootStatusKeeps(d: Device, fits: bool, w: Window)
    requires InvSince(d, w)
    ensures InvSince(Step(d, RunBootStatus(fits)).dev, w)
  {
    if d.statusRead.Some? { StatusKeeps(d, d.statusRead.value, fits, w); }
  }

  lemma StatusKeeps(d: Device, read: nat, fits: bool, w: Window)
    requires InvSince(d, w)
    ensures InvSince(SendStatus(d, read, fits).dev, w)
  {
  }

  lemma StepKeeps(d: Device, e: Event, w: Window)
    requires InvSince(d, w) && Calm(d, e) && Renews(d, e, true)
    ensures InvSince(Step(d, e).dev, w)
  {
    match e
    case ContinueCallback => CallbackKeeps(d, w);
    case RunApply(t) => ApplyKeeps(d.(applies := d.applies - multiset{t}), t, w);
    case RunHello(n, x) => HelloKeeps(d, n, x, w);
    case RunFirmwareStatus(s) => if FirmwareStatus(s) { SetStatusKeeps(d, s, w); }
    case RunBootStatus(fits) => BootStatusKeeps(d, fits, w);
    case LoadContext => SnapshotKeeps(d, w);
    case Restart => RestartKeeps(d, w);
    case _ =>
  }

  // ----- single steps, as the rest of the system sees them

  /** A T frame carries the flag and the status that the device has after the step. */
  lemma SentTellsStatus(d: Device, e: Event)
    ensures var m := Step(d, e);
            match m.sent
            case None => true
            case Some(Control(enabled, status)) => enabled == m.dev.enable && status == m.dev.status
            case Some(Response(a)) => a in d.responses
            case Some(Hello(c)) => c == m.dev.history.lastHello && c > 0 && d.hello == Committing(c - 1) && e.RunHello?
            case Some(Status(c)) =>
              c == m.dev.history.lastStatus && c > 0 && d.statusRead == Some(c - 1) && e.RunBootStatus?
  {
  }

  /** What the two worker tasks never touch: the stored configuration, the durable context, the P callback. */
  ghost predicate Background(d: Device, d': Device) {
    && d'.context == d.context && d'.session.prov == d.session.prov && d'.callback == d.callback
    && d'.history.completed == d.history.completed && d'.responses == d.responses
    && d'.history.authenticated == d.history.authenticated && d'.history.finished == d.history.finished
    && (d'.session.state == WaitProvisioning ==> d'.session == d.session)
  }

  lemma SetStatusIsBackground(d: Device, status: nat)
    ensures Background(d, SetStatus(d, status).dev) && SetStatus(d, status).dev.session == d.session
  {
  }

  lemma SendHelloIsBackground(d: Device, read: nat)
    ensures Background(d, SendHello(d, read).0)
  {
  }

  lemma HelloIsBackground(d: Device, networkReady: bool, elapsed: bool)
    ensures Background(d, StepHello(d, networkReady, elapsed).dev)
  {
    match d.hello
    case Reporting =>
      SetStatusIsBackground(d.(hello := if networkReady then Sending else Failing), PROVISIONING_STARTED);
    case Committing(read) => SendHelloIsBackground(d, read);
    case Failing => SetStatusIsBackground(d.(hello := Finishing), PROVISIONING_ERROR);
    case Expiring => SetStatusIsBackground(d.(hello := Finishing), PROVISIONING_TIMEOUT);
    case _ =>
  }

  lemma ApplyIsBackground(d: Device, t: Apply)
    ensures Background(d, StepApply(d, t).dev)
  {
    if t.Announcing? {
      SetStatusIsBackground(d.(applies := d.applies + multiset{Scheduling}), PROVISIONING_STARTED);
    }
  }

  /** Completed attempts are never forgotten, and the last H number only changes with a new H frame. */
  ghost predicate Grows(d: Device, e: Event, d': Device) {
    && (Renews(d, e, true) ==> d.history.lastHello <= d'.history.lastHello)
    && (d'.history.completed == d.history.completed
        || (d.callback == Stored
            && d'.history.completed == d.history.completed + [Attempt(d.session.counter, d.session.random)]))
  }

  lemma HelloGrows(d: Device, networkReady: bool, elapsed: bool)
    ensures Grows(d, RunHello(networkReady, elapsed), StepHello(d, networkReady, elapsed).dev)
  {
  }

  lemma ApplyGrows(d: Device, t: Apply)
    ensures Grows(d, RunApply(t), StepApply(d, t).dev)
  {
  }

  lemma CallbackGrows(d: Device)
    ensures Grows(d, ContinueCallback, StepCallback(d).dev)
  {
  }

  lemma HistoryGrows(d: Device, e: Event)
    ensures Grows(d, e, Step(d, e).dev)
  {
    match e
    case ContinueCallback => CallbackGrows(d);
    case RunHello(n, x) => HelloGrows(d, n, x);
    case RunApply(t) => ApplyGrows(d.(applies := d.applies - multiset{t}), t);
    case _ =>
  }

  /** An attempt that waits for its P frame, or for its response to leave, entered with a valid A frame. */
  ghost predicate Sourced(d: Device, d': Device, signed: Option<Attempt>) {
    && (d'.session.state == WaitProvisioning ==>
          || (d.session.state == WaitProvisioning
              && d'.session.counter == d.session.counter && d'.session.random == d.session.random)
          || signed == Some(Attempt(d'.session.counter, d'.session.random)))
    && d'.responses <= d.responses + (if signed.Some? then {signed.value} else {})
  }

  lemma CallbackSourced(d: Device)
    ensures Sourced(d, StepCallback(d).dev, None)
  {
  }

  lemma StepSourced(d: Device, e: Event)
    ensures Sourced(d, Step(d, e).dev, if e.ReceiveChallenge? then e.signed else None)
  {
    match e
    case RunHello(n, x) => HelloIsBackground(d, n, x);
    case RunApply(t) => ApplyIsBackground(d.(applies := d.applies - multiset{t}), t);
    case ContinueCallback => CallbackSourced(d);
    case _ =>
  }
}
