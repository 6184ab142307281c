/**
  What a failed, cut or replayed provisioning attempt leaves behind on the ESP: the stored
  configuration, the durable CHECK context and the counter cell, over all runs of the device.
 */
module LastKnownGood {
  import opened Wrappers
  import opened Bytes
  import opened Protocol
  import opened ProvisionPlain
  import opened DeviceSession
  import opened Device

  function Run(d: Device, evs: seq<Event>): Device
    decreases |evs|
  {
    if evs == [] then d else Step(Run(d, evs[..|evs| - 1]), evs[|evs| - 1]).dev
  }

  predicate CalmRun(d: Device, evs: seq<Event>)
    decreases |evs|
  {
    evs != [] ==> CalmRun(d, evs[..|evs| - 1]) && Calm(Run(d, evs[..|evs| - 1]), evs[|evs| - 1])
  }

  predicate RenewingRun(d: Device, evs: seq<Event>, hello: bool)
    decreases |evs|
  {
    evs != [] ==>
      RenewingRun(d, evs[..|evs| - 1], hello) && Renews(Run(d, evs[..|evs| - 1]), evs[|evs| - 1], hello)
  }

  lemma {:induction false} RunKeeps(d: Device, evs: seq<Event>, w: Window)
    requires InvSince(d, w) && CalmRun(d, evs) && RenewingRun(d, evs, true)
    ensures InvSince(Run(d, evs), w)
    decreases |evs|
  {
    if evs != [] {
      RunKeeps(d, evs[..|evs| - 1], w);
      StepKeeps(Run(d, evs[..|evs| - 1]), evs[|evs| - 1], w);
    }
  }

  // ----- what a single event can overwrite, in any state

  /** A P frame that the session authenticates and the parser accepts. */
  predicate Accepts(d: Device, e: Event) {
    && e.ReceiveProvisioning? && d.callback == Free && d.enable
    && OpenProvisioning(d.session, e.sealed, e.plain).Success?
  }

  /** The P callback is about to copy the state record to the durable context. */
  predicate CopiesContext(d: Device, e: Event) {
    e.ContinueCallback? && d.callback in {Snapshotting, Disabling} && d.session.state == Provisioned
    && ValidContext(d.session.record)
  }

  /** A CHECK arrives while the durable context is missing but the state record is complete. */
  predicate Recovers(d: Device, e: Event) {
    e.LoadContext? && !ValidContext(d.context) && ValidContext(d.session.record)
  }

  lemma CallbackCopies(d: Device)
    ensures var d' := StepCallback(d).dev;
            && d'.session.prov == d.session.prov
            && d'.context == if CopiesContext(d, ContinueCallback) then d.session.record else d.context
  {
    match d.callback
    case Completing => SetStatusIsBackground(d, PROVISIONING_COMPLETE);
    case Disabling => DisablingCopies(d);
    case _ =>
  }

  lemma DisablingCopies(d: Device)
    ensures var d' := SetEnabled(d, false).dev;
            && d'.session == d.session
            && d'.context == if d.session.state == Provisioned && ValidContext(d.session.record)
                             then d.session.record else d.context
  {
  }

  /** prov_v2 changes exactly when an authentic P frame with another configuration is accepted. */
  lemma ProvisioningChanges(d: Device, e: Event)
    ensures var d' := Step(d, e).dev;
            d'.session.prov == if Accepts(d, e) then Some(OpenProvisioning(d.session, e.sealed, e.plain).value)
                               else d.session.prov
  {
    match e
    case ContinueCallback => CallbackCopies(d);
    case RunHello(n, x) => HelloIsBackground(d, n, x);
    case RunApply(t) => ApplyIsBackground(d.(applies := d.applies - multiset{t}), t);
    case _ =>
  }

  /** context_v1 changes only to the state record, in a P callback or when a CHECK recovers it. */
  lemma ContextChanges(d: Device, e: Event)
    ensures Step(d, e).dev.context == if CopiesContext(d, e) || Recovers(d, e) then d.session.record else d.context
  {
    match e
    case ContinueCallback => CallbackCopies(d);
    case RunHello(n, x) => HelloIsBackground(d, n, x);
    case RunApply(t) => ApplyIsBackground(d.(applies := d.applies - multiset{t}), t);
    case _ =>
  }

  // ----- over whole runs

  ghost predicate AcceptsNothing(d: Device, evs: seq<Event>)
    decreases |evs|
  {
    evs != [] ==> AcceptsNothing(d, evs[..|evs| - 1]) && !Accepts(Run(d, evs[..|evs| - 1]), evs[|evs| - 1])
  }

  /** The callback only leaves Free when a P frame is accepted. */
  lemma StaysFree(d: Device, e: Event)
    requires d.callback == Free && !Accepts(d, e)
    ensures Step(d, e).dev.callback == Free
  {
    match e
    case RunHello(n, x) => HelloIsBackground(d, n, x);
    case RunApply(t) => ApplyIsBackground(d.(applies := d.applies - multiset{t}), t);
    case _ =>
  }

  /**
    Last known good: as long as no P frame is accepted, any mixture of toggles, stale or forged
    frames, timeouts and restarts leaves the configuration and an existing CHECK context alone.
   */
  lemma {:induction false} FailedAttemptsChangeNothing(d: Device, evs: seq<Event>)
    requires d.callback == Free && AcceptsNothing(d, evs)
    ensures var d' := Run(d, evs);
            && d'.callback == Free && d'.session.prov == d.session.prov
            && (ValidContext(d.context) ==> d'.context == d.context)
    decreases |evs|
  {
    if evs != [] {
      var d1, e := Run(d, evs[..|evs| - 1]), evs[|evs| - 1];
      FailedAttemptsChangeNothing(d, evs[..|evs| - 1]);
      ProvisioningChanges(d1, e);
      ContextChanges(d1, e);
      StaysFree(d1, e);
    }
  }

  // ----- what holds in every run, however the tasks of the ESP interleave

  /** The stored configuration is the one of the last authenticated P frame. */
  ghost predicate Holds(prov: Option<Config>, authenticated: seq<Authentic>) {
    prov == if authenticated == [] then None else Some(authenticated[|authenticated| - 1].config)
  }

  ghost predicate Sound(d: Device) {
    && Records(d.session.record, d.context, d.history.completed)
    && Holds(d.session.prov, d.history.authenticated)
  }

  lemma SetStatusKeepsSound(d: Device, status: nat)
    requires Sound(d)
    ensures Sound(SetStatus(d, status).dev)
  {
  }

  lemma ResetsKeepSound(d: Device)
    requires Sound(d)
    ensures Sound(d.(session := BeginReprovisioning(d.session)))
    ensures Sound(d.(session := ResetForRetry(d.session)))
  {
  }

  lemma SendHelloKeepsSound(d: Device, read: nat)
    requires Sound(d)
    ensures Sound(SendHello(d, read).0)
  {
  }

  lemma SendingKeepsSound(d: Device, networkReady: bool, elapsed: bool)
    requires Sound(d) && Greeting(d.hello)
    ensures Sound(StepHello(d, networkReady, elapsed).dev)
  {
    if d.hello.Committing? { SendHelloKeepsSound(d, d.hello.read); }
  }

  lemma HelloKeepsSound(d: Device, networkReady: bool, elapsed: bool)
    requires Sound(d)
    ensures Sound(StepHello(d, networkReady, elapsed).dev)
  {
    match d.hello
    case Resetting => ResetsKeepSound(d);
    case Finishing => ResetsKeepSound(d);
    case Sending => SendingKeepsSound(d, networkReady, elapsed);
    case Committing(_) => SendingKeepsSound(d, networkReady, elapsed);
    case Reporting =>
      SetStatusKeepsSound(d.(hello := if networkReady then Sending else Failing), PROVISIONING_STARTED);
    case Failing => SetStatusKeepsSound(d.(hello := Finishing), PROVISIONING_ERROR);
    case Expiring => SetStatusKeepsSound(d.(hello := Finishing), PROVISIONING_TIMEOUT);
    case _ =>
  }

  lemma ApplyKeepsSound(d: Device, t: Apply)
    requires Sound(d)
    ensures Sound(StepApply(d, t).dev)
  {
    ResetsKeepSound(d);
    SetStatusKeepsSound(d.(applies := d.applies + multiset{Scheduling}), PROVISIONING_STARTED);
  }

  lemma CommitKeepsSound(d: Device)
    requires Sound(d) && d.callback == Stored
    ensures Sound(StepCallback(d).dev)
  {
    var c := d.history.completed;
    assert forall a :: a in c ==> a in c + [Attempt(d.session.counter, d.session.random)];
  }

  lemma SnapshotKeepsSound(d: Device)
    requires Sound(d)
    ensures Sound(Snapshot(d))
  {
  }

  lemma DisablingKeepsSound(d: Device)
    requires Sound(d)
    ensures Sound(SetEnabled(d, false).dev)
  {
    SnapshotKeepsSound(d);
  }

  lemma CallbackKeepsSound(d: Device)
    requires Sound(d)
    ensures Sound(StepCallback(d).dev)
  {
    match d.callback
    case Stored => CommitKeepsSound(d);
    case Completing => SetStatusKeepsSound(d, PROVISIONING_COMPLETE);
    case Snapshotting => SnapshotKeepsSound(d);
    case Disabling => DisablingKeepsSound(d);
    case Free =>
  }

  lemma FrameKeepsSound(d: Device, e: Event)
    requires Sound(d) && (e.ReceiveChallenge? || e.ReceiveProvisioning?)
    ensures Sound(Step(d, e).dev)
  {
  }

  lemma StepKeepsSound(d: Device, e: Event)
    requires Sound(d)
    ensures Sound(Step(d, e).dev)
  {
    match e
    case ReceiveChallenge(_, _) => FrameKeepsSound(d, e);
    case ReceiveProvisioning(_, _) => FrameKeepsSound(d, e);
    case ContinueCallback => CallbackKeepsSound(d);
    case RunHello(n, x) => HelloKeepsSound(d, n, x);
    case RunApply(t) => ApplyKeepsSound(d.(applies := d.applies - multiset{t}), t);
    case RunFirmwareStatus(status) => SetStatusKeepsSound(d, status);
    case LoadContext => SnapshotKeepsSound(d);
    case _ =>
  }

  /** A finished callback is not on its way to another report. */
  ghost predicate Over(d: Device) { d.history.finished ==> d.callback in {Free, Stored} }

  ghost predicate AllSound(d: Device) { Sound(d) && RecordWaits(d.session) && Copied(d) && Over(d) }

  lemma {:induction false} RunKeepsSound(d: Device, evs: seq<Event>)
    requires AllSound(d)
    ensures AllSound(Run(d, evs))
    decreases |evs|
  {
    if evs != [] {
      var d1, e := Run(d, evs[..|evs| - 1]), evs[|evs| - 1];
      RunKeepsSound(d, evs[..|evs| - 1]);
      StepKeepsSound(d1, e);
      StepKeepsWaiting(d1, e);
      StepKeepsCopied(d1, e);
      StepKeepsOver(d1, e);
    }
  }

  lemma StepKeepsOver(d: Device, e: Event)
    requires Over(d)
    ensures Over(Step(d, e).dev)
  {
    match e
    case RunHello(n, x) => HelloIsBackground(d, n, x);
    case RunApply(t) => ApplyIsBackground(d.(applies := d.applies - multiset{t}), t);
    case _ =>
  }

  /**
    In every run: a record marked PROVISIONED is the last committed attempt, the durable context is a
    committed one, and the stored configuration came with the last P frame that was authenticated.
   */
  lemma RecordsTell(evs: seq<Event>)
    ensures var d := Run(FirstBoot(), evs); var c, auth := d.history.completed, d.history.authenticated;
            && (d.session.record.Some? && d.session.record.value.state == Provisioned ==>
                  c != [] && IsRecordOf(d.session.record, Last(c)))
            && (d.context.Some? ==> AttemptOf(d.context.value) in c)
            && d.session.prov == (if auth == [] then None else Some(auth[|auth| - 1].config))
  {
    RunKeepsSound(FirstBoot(), evs);
  }

  // ----- the counter of the durable context

  /** Session, state record and durable context in the order of their counters. */
  ghost predicate Ordered(s: Session, context: Option<StateRecord>) {
    && (s.counter > 0 ==> s.record.Some? && s.record.value.counter == s.counter)
    && (context.Some? ==>
          && ValidContext(context)
          && (s.counter > 0 ==> context.value.counter <= s.counter)
          && (ValidContext(s.record) ==> context.value.counter <= s.record.value.counter))
  }

  /** A HELLO task that commits a number does not fall behind the durable context. */
  predicate KeepsUp(d: Device, e: Event) {
    e.RunHello? && d.hello.Committing? && d.context.Some? ==> d.context.value.counter <= d.hello.read + 1
  }

  predicate KeepsUpRun(d: Device, evs: seq<Event>)
    decreases |evs|
  {
    evs != [] ==> KeepsUpRun(d, evs[..|evs| - 1]) && KeepsUp(Run(d, evs[..|evs| - 1]), evs[|evs| - 1])
  }

  lemma HelloKeepsOrdered(d: Device, networkReady: bool, elapsed: bool)
    requires Ordered(d.session, d.context) && KeepsUp(d, RunHello(networkReady, elapsed))
    ensures var d' := StepHello(d, networkReady, elapsed).dev; Ordered(d'.session, d'.context)
  {
    HelloIsBackground(d, networkReady, elapsed);
    if d.hello.Committing? {
    } else {
      HelloResets(d, networkReady, elapsed);
    }
  }

  lemma ApplyKeepsOrdered(d: Device, t: Apply)
    requires Ordered(d.session, d.context)
    ensures var d' := StepApply(d, t).dev; Ordered(d'.session, d'.context)
  {
    ApplyIsBackground(d, t);
  }

  lemma CallbackKeepsOrdered(d: Device)
    requires Ordered(d.session, d.context)
    ensures var d' := StepCallback(d).dev; Ordered(d'.session, d'.context)
  {
    CallbackCopies(d);
  }

  lemma StepKeepsOrdered(d: Device, e: Event)
    requires Ordered(d.session, d.context) && KeepsUp(d, e)
    ensures var d' := Step(d, e).dev; Ordered(d'.session, d'.context)
  {
    match e
    case ContinueCallback => CallbackKeepsOrdered(d);
    case RunHello(n, x) => HelloKeepsOrdered(d, n, x);
    case RunApply(t) => ApplyKeepsOrdered(d.(applies := d.applies - multiset{t}), t);
    case _ =>
  }

  lemma ContextNeverGoesBack(d: Device, e: Event)
    requires Ordered(d.session, d.context) && d.context.Some?
    ensures var d' := Step(d, e).dev; d'.context.Some? && d.context.value.counter <= d'.context.value.counter
  {
    ContextChanges(d, e);
  }

  /**
    The durable context, once there, stays there, and its counter never goes back, however the tasks
    interleave, as long as no HELLO task commits a number below it.
   */
  lemma {:induction false} ContextMonotone(d: Device, evs: seq<Event>)
    requires Ordered(d.session, d.context) && d.context.Some? && KeepsUpRun(d, evs)
    ensures var d' := Run(d, evs);
            && Ordered(d'.session, d'.context)
            && d'.context.Some? && d.context.value.counter <= d'.context.value.counter
    decreases |evs|
  {
    if evs != [] {
      ContextMonotone(d, evs[..|evs| - 1]);
      StepKeepsOrdered(Run(d, evs[..|evs| - 1]), evs[|evs| - 1]);
      ContextNeverGoesBack(Run(d, evs[..|evs| - 1]), evs[|evs| - 1]);
    }
  }

  // ----- what a calm scheduler adds

  ghost predicate WasAuthenticated(authenticated: seq<Authentic>, a: Attempt) {
    exists i | 0 <= i < |authenticated| :: authenticated[i].attempt == a
  }

  ghost predicate LastAuthenticated(authenticated: seq<Authentic>, a: Attempt) {
    authenticated != [] && authenticated[|authenticated| - 1].attempt == a
  }

  /**
    From the commit of index `first` on, only authenticated attempts are committed, and a complete record
    belongs to the stored configuration.
   */
  ghost predicate VouchedSince(d: Device, first: nat) {
    var c, auth := d.history.completed, d.history.authenticated;
    && first <= |c|
    && (forall i | first <= i < |c| :: WasAuthenticated(auth, c[i]))
    && (d.callback == Stored ==>
          && d.session.state == WaitProvisioning
          && LastAuthenticated(auth, Attempt(d.session.counter, d.session.random)))
    && (first < |c| && d.session.record.Some? && d.session.record.value.state == Provisioned ==>
          LastAuthenticated(auth, AttemptOf(d.session.record.value)))
  }

  /** What the workers and the status reports leave of the session's record. */
  ghost predicate NoNewRecord(d: Device, d': Device) {
    && d'.callback == d.callback && d'.history.completed == d.history.completed
    && d'.history.authenticated == d.history.authenticated
    && (d'.session.record.Some? && d'.session.record.value.state == Provisioned ==>
          d'.session.record == d.session.record)
    && (d.callback == Stored ==>
          && d'.session.state == d.session.state
          && d'.session.counter == d.session.counter && d'.session.random == d.session.random)
  }

  lemma NoNewRecordKeepsVouched(d: Device, d': Device, first: nat)
    requires VouchedSince(d, first) && NoNewRecord(d, d')
    ensures VouchedSince(d', first)
  {
  }

  lemma HelloWritesNoRecord(d: Device, networkReady: bool, elapsed: bool)
    requires Calm(d, RunHello(networkReady, elapsed)) && (d.callback == Stored ==> d.session.state == WaitProvisioning)
    ensures NoNewRecord(d, StepHello(d, networkReady, elapsed).dev)
  {
    HelloIsBackground(d, networkReady, elapsed);
    if d.callback == Stored {
      HelloSpares(d, networkReady, elapsed);
    } else {
      HelloRecords(d, networkReady, elapsed);
    }
  }

  lemma HelloRecords(d: Device, networkReady: bool, elapsed: bool)
    ensures var s := StepHello(d, networkReady, elapsed).dev.session;
            s.record.Some? && s.record.value.state == Provisioned ==> s.record == d.session.record
  {
    HelloSession(d, networkReady, elapsed);
  }

  lemma HelloResets(d: Device, networkReady: bool, elapsed: bool)
    requires !d.hello.Committing?
    ensures StepHello(d, networkReady, elapsed).dev.session in {d.session, BeginReprovisioning(d.session)}
  {
  }

  /** All that the HELLO task does to a session: nothing, a reset, or the start of an attempt. */
  lemma HelloSession(d: Device, networkReady: bool, elapsed: bool)
    ensures var s := StepHello(d, networkReady, elapsed).dev.session;
            || s in {d.session, BeginReprovisioning(d.session)}
            || (d.hello.Committing? && s == SendHello(d, d.hello.read).0.session)
  {
    if d.hello.Committing? {
    } else {
      HelloResets(d, networkReady, elapsed);
    }
  }

  /** A session that waits for its P frame is out of reach of the HELLO task, except for its resets. */
  lemma HelloSpares(d: Device, networkReady: bool, elapsed: bool)
    requires d.session.state == WaitProvisioning && d.hello !in {Resetting, Finishing}
    ensures StepHello(d, networkReady, elapsed).dev.session == d.session
  {
  }

  lemma ApplyWritesNoRecord(d: Device, t: Apply)
    requires Calm(d, RunApply(t))
    ensures NoNewRecord(d, StepApply(d, t).dev)
  {
    ApplyIsBackground(d, t);
  }

  lemma CommitKeepsVouched(d: Device, first: nat)
    requires VouchedSince(d, first) && d.callback == Stored
    ensures VouchedSince(StepCallback(d).dev, first)
  {
    var a, auth := Attempt(d.session.counter, d.session.random), d.history.authenticated;
    assert auth[|auth| - 1].attempt == a;
    assert forall i | 0 <= i < |d.history.completed| :: (d.history.completed + [a])[i] == d.history.completed[i];
  }

  lemma AcceptanceKeepsVouched(d: Device, sealed: Option<Attempt>, plain: seq<byte>, first: nat)
    requires VouchedSince(d, first) && RecordWaits(d.session)
    ensures VouchedSince(StepProvisioning(d, sealed, plain).dev, first)
  {
    var auth, auth' := d.history.authenticated, StepProvisioning(d, sealed, plain).dev.history.authenticated;
    assert forall i | 0 <= i < |auth| :: auth'[i] == auth[i];
    forall i | first <= i < |d.history.completed|
      ensures WasAuthenticated(auth', d.history.completed[i])
    {
      var j :| 0 <= j < |auth| && auth[j].attempt == d.history.completed[i];
      assert auth'[j].attempt == d.history.completed[i];
    }
  }

  /** While an attempt is under way the state record says so. */
  ghost predicate RecordWaits(s: Session) {
    s.state in {WaitChallenge, WaitProvisioning} ==> s.record.Some? && s.record.value.state == s.state
  }

  lemma StepKeepsWaiting(d: Device, e: Event)
    requires RecordWaits(d.session)
    ensures RecordWaits(Step(d, e).dev.session)
  {
    match e
    case RunHello(n, x) => HelloKeepsWaiting(d, n, x);
    case RunApply(t) => ApplyKeepsWaiting(d.(applies := d.applies - multiset{t}), t);
    case _ =>
  }

  lemma HelloKeepsWaiting(d: Device, networkReady: bool, elapsed: bool)
    requires RecordWaits(d.session)
    ensures RecordWaits(StepHello(d, networkReady, elapsed).dev.session)
  {
    HelloSession(d, networkReady, elapsed);
  }

  lemma ApplyKeepsWaiting(d: Device, t: Apply)
    requires RecordWaits(d.session)
    ensures RecordWaits(StepApply(d, t).dev.session)
  {
  }

  lemma ReportKeepsVouched(d: Device, first: nat)
    requires VouchedSince(d, first) && d.callback in {Completing, Snapshotting, Disabling, Free}
    ensures VouchedSince(StepCallback(d).dev, first)
  {
  }

  lemma StepKeepsVouched(d: Device, e: Event, first: nat)
    requires Calm(d, e) && VouchedSince(d, first) && RecordWaits(d.session)
    ensures VouchedSince(Step(d, e).dev, first)
  {
    match e
    case ReceiveProvisioning(k, p) => AcceptanceKeepsVouched(d, k, p, first);
    case ContinueCallback =>
      if d.callback == Stored { CommitKeepsVouched(d, first); } else { ReportKeepsVouched(d, first); }
    case RunHello(n, x) =>
      HelloWritesNoRecord(d, n, x);
      NoNewRecordKeepsVouched(d, Step(d, e).dev, first);
    case RunApply(t) => ApplyKeepsVouched(d.(applies := d.applies - multiset{t}), t, first);
    case _ => RestKeepsVouched(d, e, first);
  }

  lemma ApplyKeepsVouched(d: Device, t: Apply, first: nat)
    requires Calm(d, RunApply(t)) && VouchedSince(d, first) && RecordWaits(d.session)
    ensures VouchedSince(StepApply(d, t).dev, first)
  {
    ApplyWritesNoRecord(d, t);
    NoNewRecordKeepsVouched(d, StepApply(d, t).dev, first);
  }

  lemma RestKeepsVouched(d: Device, e: Event, first: nat)
    requires VouchedSince(d, first) && RecordWaits(d.session)
    requires !(e.ReceiveProvisioning? || e.ContinueCallback? || e.RunHello? || e.RunApply?)
    ensures VouchedSince(Step(d, e).dev, first)
  {
  }

  lemma {:induction false} RunKeepsVouched(d: Device, evs: seq<Event>, first: nat)
    requires CalmRun(d, evs) && VouchedSince(d, first) && AllSound(d)
    ensures VouchedSince(Run(d, evs), first)
    decreases |evs|
  {
    if evs != [] {
      RunKeepsVouched(d, evs[..|evs| - 1], first);
      RunKeepsSound(d, evs[..|evs| - 1]);
      StepKeepsVouched(Run(d, evs[..|evs| - 1]), evs[|evs| - 1], first);
    }
  }

  /** A bound for the numbers of finitely many attempts. */
  lemma {:induction false} Bound(rs: set<Attempt>) returns (n: nat)
    ensures forall a :: a in rs ==> a.counter <= n
  {
    if rs == {} {
      n := 0;
    } else {
      var r :| r in rs;
      n := Bound(rs - {r});
      n := if r.counter > n then r.counter else n;
    }
  }

  lemma OpeningOpens(d: Device, floor: nat)
    requires Opening(d) && Sound(d) && forall a :: a in d.responses ==> a.counter <= floor
    ensures InvSince(d, Window(floor, |d.history.completed|))
  {
  }

  /**
    From any state of any run in which no P callback stands before its commit: as long as the scheduler is
    calm, the ESP commits only attempts that it authenticated, and a record of such a commit belongs to the
    stored configuration. It commits them in counter order if a window is open and H numbers renew.
   */
  lemma CommitsAreAuthentic(base: seq<Event>, evs: seq<Event>)
    requires Run(FirstBoot(), base).callback != Stored && CalmRun(Run(FirstBoot(), base), evs)
    ensures var d0 := Run(FirstBoot(), base); var d := Run(d0, evs);
            var h, first := d.history, |d0.history.completed|;
            && first <= |h.completed|
            && (forall i | first <= i < |h.completed| :: WasAuthenticated(h.authenticated, h.completed[i]))
            && (first < |h.completed| && d.session.record.Some? && d.session.record.value.state == Provisioned ==>
                  LastAuthenticated(h.authenticated, AttemptOf(d.session.record.value)))
            && (Opening(d0) && RenewingRun(d0, evs, true) ==> Increasing(h.completed[first..]))
  {
    var d0 := Run(FirstBoot(), base);
    RunKeepsSound(FirstBoot(), base);
    RunKeepsVouched(d0, evs, |d0.history.completed|);
    if Opening(d0) && RenewingRun(d0, evs, true) {
      var floor := Bound(d0.responses);
      OpeningOpens(d0, floor);
      RunKeeps(d0, evs, Window(floor, |d0.history.completed|));
    }
  }

  // ----- which keys the ESP has when the callback is through

  /**
    The record of the last commit waits to be copied, is copied, or was reset too early. The commit of a
    session that was reset has the number 0, and no keys come from it.
   */
  ghost predicate Copied(d: Device) {
    var c := d.history.completed;
    c != [] && Last(c).counter > 0 ==>
      && (d.callback in {Completing, Snapshotting, Disabling} && !d.history.dropped ==>
            IsRecordOf(d.context, Last(c)) || (d.session.state == Provisioned && IsRecordOf(d.session.record, Last(c))))
      && (d.history.finished && !d.history.dropped ==> IsRecordOf(d.context, Last(c)))
      && (d.history.dropped ==> !IsRecordOf(d.context, Last(c)) && !ValidContext(d.session.record))
  }

  lemma HelloKeepsCopied(d: Device, networkReady: bool, elapsed: bool)
    requires Copied(d)
    ensures Copied(StepHello(d, networkReady, elapsed).dev)
  {
    HelloIsBackground(d, networkReady, elapsed);
    HelloRecords(d, networkReady, elapsed);
    HelloKeepsProvisioned(d, networkReady, elapsed);
  }

  lemma HelloKeepsProvisioned(d: Device, networkReady: bool, elapsed: bool)
    ensures var d' := StepHello(d, networkReady, elapsed).dev;
            && (d.session.state == Provisioned ==> d'.session == d.session)
            && d'.history.dropped == d.history.dropped
  {
  }

  lemma ApplyKeepsCopied(d: Device, t: Apply)
    requires Copied(d)
    ensures Copied(StepApply(d, t).dev)
  {
  }

  lemma ReportKeepsCopied(d: Device)
    requires Sound(d) && Copied(d) && d.callback in {Completing, Snapshotting, Disabling, Free}
    ensures Copied(StepCallback(d).dev)
  {
    var c := d.history.completed;
    if c != [] {
      assert Last(c) in c;
    }
  }

  lemma RestKeepsCopied(d: Device, e: Event)
    requires Copied(d) && !e.ContinueCallback? && !e.RunHello? && !e.RunApply? && !e.LoadContext?
    ensures Copied(Step(d, e).dev)
  {
  }

  lemma StepKeepsCopied(d: Device, e: Event)
    requires Sound(d) && Copied(d)
    ensures Copied(Step(d, e).dev)
  {
    match e
    case ContinueCallback => if d.callback != Stored { ReportKeepsCopied(d); }
    case RunHello(n, x) => HelloKeepsCopied(d, n, x);
    case RunApply(t) => ApplyKeepsCopied(d.(applies := d.applies - multiset{t}), t);
    case LoadContext =>
    case _ => RestKeepsCopied(d, e);
  }

  /**
    In every run, however the tasks interleave: after a P callback that ran to its end the ESP derives its CHECK
    keys from the attempt it committed last, exactly if no reset came while that attempt was still to be copied,
    and none before the commit that left it without a number.
   */
  lemma KeysAfterCallback(evs: seq<Event>)
    ensures var d := Run(FirstBoot(), evs); var h := d.history;
            h.completed != [] && h.finished ==>
              (EffectiveContext(d) == Some(Last(h.completed)) <==> !h.dropped && Last(h.completed).counter > 0)
  {
    RunKeepsSound(FirstBoot(), evs);
  }

  // ----- power loss inside the P callback

  /** The device after k further effects of a P callback whose configuration is already stored. */
  function AfterEffects(d: Device, k: nat): Device {
    if k == 0 then d else Step(AfterEffects(d, k - 1), ContinueCallback).dev
  }

  lemma RestartKeepsKeys(d: Device)
    ensures var d' := Step(d, Restart).dev;
            EffectiveContext(d') == EffectiveContext(d) && d'.history == d.history
  {
  }

  /** Effect 1: the state record now names the new attempt; an older durable context hides it. */
  lemma MarkEffect(d: Device)
    requires Inv(d) && d.callback == Stored
    ensures var a := Attempt(d.session.counter, d.session.random); var d1 := StepCallback(d).dev;
            && EffectiveContext(d) != Some(a)
            && d1.callback == Completing && d1.session.state == Provisioned && IsRecordOf(d1.session.record, a)
            && d1.context == d.context && a.counter > 0
            && d1.history.completed == d.history.completed + [a]
            && (EffectiveContext(d1) == Some(a) <==> d.context.None?)
  {
    if d.context.Some? {
      assert AttemptOf(d.context.value) in d.history.completed;
    }
    if d.history.completed != [] {
      assert Last(d.history.completed) in d.history.completed;
    }
  }

  /** Effect 2: the T frame; records are as before. */
  lemma ReportEffect(d: Device)
    requires d.callback == Completing
    ensures var d' := StepCallback(d).dev;
            && d'.callback in {Snapshotting, Disabling}
            && d'.session == d.session && d'.context == d.context && d'.history == d.history
  {
  }

  /** Effects 3 and 4: the record is copied. */
  lemma CopyEffect(d: Device, a: Attempt)
    requires d.callback in {Snapshotting, Disabling, Free}
    requires d.session.state == Provisioned && IsRecordOf(d.session.record, a) && a.counter > 0
    requires d.callback == Free ==> IsRecordOf(d.context, a)
    ensures var d' := StepCallback(d).dev;
            && d'.callback in {Disabling, Free} && d'.session == d.session && IsRecordOf(d'.context, a)
            && d'.history.completed == d.history.completed && EffectiveContext(d') == Some(a)
  {
  }

  /** Where the callback of attempt a stands after k effects, seen from the state d0 it started in. */
  ghost predicate Progress(d0: Device, a: Attempt, k: nat, d: Device) {
    if k == 0 then d == d0
    else
      && d.history.completed == d0.history.completed + [a]
      && d.session.state == Provisioned && IsRecordOf(d.session.record, a)
      && if k == 1 then d.callback == Completing && d.context == d0.context
         else if k == 2 then d.callback in {Snapshotting, Disabling} && d.context == d0.context
         else d.callback in {Disabling, Free} && IsRecordOf(d.context, a)
  }

  lemma {:induction false} EffectsProgress(d: Device, k: nat)
    requires Inv(d) && d.callback == Stored
    ensures Progress(d, Attempt(d.session.counter, d.session.random), k, AfterEffects(d, k))
  {
    var a := Attempt(d.session.counter, d.session.random);
    if k > 0 {
      EffectsProgress(d, k - 1);
      var d1 := AfterEffects(d, k - 1);
      if k == 1 { MarkEffect(d); } else if k == 2 { ReportEffect(d1); } else { CopyEffect(d1, a); }
    }
  }

  /**
    Effect 1 commits the state record, 2 sends T|0|42, 3 and 4 copy the record to the durable
    context. A restart before effect 1 leaves the old keys; from effect 3 on the new ones; in
    between, when the server may already have been told, the ESP uses the new keys exactly if it
    had no older durable context.
   */
  lemma CutCallback(d: Device, k: nat)
    requires Inv(d) && d.callback == Stored
    ensures var a := Attempt(d.session.counter, d.session.random);
            var d' := Step(AfterEffects(d, k), Restart).dev;
            && (EffectiveContext(d') == Some(a) <==> (k >= 3 || (k >= 1 && d.context.None?)))
            && d'.history.completed == (if k == 0 then d.history.completed else d.history.completed + [a])
  {
    EffectsProgress(d, k);
    RestartKeepsKeys(AfterEffects(d, k));
    MarkEffect(d);
  }

  /**
    The first provisioning, cut after its record was committed: the next CHECK, not accept_provisioning,
    writes the durable context.
   */
  lemma RecoveryWritesContext(d: Device)
    requires Inv(d) && d.callback == Stored && d.context.None?
    ensures var a := Attempt(d.session.counter, d.session.random);
            var d' := Step(AfterEffects(d, 1), Restart).dev;
            d'.context.None? && Recovers(d', LoadContext) && IsRecordOf(Step(d', LoadContext).dev.context, a)
  {
    EffectsProgress(d, 1);
    MarkEffect(d);
    RestartRecovers(AfterEffects(d, 1), Attempt(d.session.counter, d.session.random));
  }

  lemma RestartRecovers(d: Device, a: Attempt)
    requires IsRecordOf(d.session.record, a) && a.counter > 0 && d.context == None
    ensures var d' := Step(d, Restart).dev;
            d'.context == None && Recovers(d', LoadContext) && IsRecordOf(Step(d', LoadContext).dev.context, a)
  {
  }

  // ----- runs step by step

  /** Some run leads from one state to the other. */
  ghost predicate Leads(d0: Device, d: Device) { exists evs :: Run(d0, evs) == d }

  lemma Takes(d0: Device, d: Device, e: Event, d': Device)
    requires Leads(d0, d) && Step(d, e).dev == d'
    ensures Leads(d0, d')
  {
    var evs :| Run(d0, evs) == d;
    assert (evs + [e])[..|evs + [e]| - 1] == evs;
    assert Run(d0, evs + [e]) == d';
  }
}
