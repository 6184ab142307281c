/**
  The NVS cell that numbers H and S frames. device_identity_next_enrollment_counter reads it, and writes it
  back, without a lock, in the HELLO task and in the boot status task, so a commit may come late.
 */
module CounterCell {
  import opened Wrappers
  import opened Bytes
  import opened Protocol
  import opened ProvisionPlain
  import opened DeviceSession
  import opened Device
  import opened LastKnownGood

  ghost predicate Rising(a: seq<nat>) { forall i, j | 0 <= i < j < |a| :: a[i] < a[j] }

  predicate InTurnRun(d: Device, evs: seq<Event>)
    decreases |evs|
  {
    evs != [] ==> InTurnRun(d, evs[..|evs| - 1]) && InTurn(Run(d, evs[..|evs| - 1]), evs[|evs| - 1])
  }

  // ----- single steps

  /** The number that a step commits. */
  function Commits(d: Device, e: Event): Option<nat> {
    match e
    case RunHello(_, _) => if d.hello.Committing? then Some(d.hello.read + 1) else None
    case RunBootStatus(_) => if d.statusRead.Some? then Some(d.statusRead.value + 1) else None
    case _ => None
  }

  /** A commit moves the cell to its number, nothing else does, and H and S frames carry that number. */
  ghost predicate Carried(d: Device, e: Event, m: Moved) {
    && (match Commits(d, e)
        case Some(n) => m.dev.cell == n && m.dev.history.taken == d.history.taken + [n]
        case None => m.dev.cell == d.cell && m.dev.history.taken == d.history.taken)
    && (m.sent.Some? && (m.sent.value.Hello? || m.sent.value.Status?) ==> Commits(d, e) == Some(m.sent.value.counter))
    && (m.dev.history.lastHello != d.history.lastHello ==> Commits(d, e) == Some(m.dev.history.lastHello))
    && (m.dev.history.lastStatus != d.history.lastStatus ==> Commits(d, e) == Some(m.dev.history.lastStatus))
    && (m.dev.hello.Committing? ==> m.dev.hello == d.hello || m.dev.hello.read == d.cell == m.dev.cell)
    && (m.dev.statusRead.Some? ==> m.dev.statusRead == d.statusRead || m.dev.statusRead.value == d.cell == m.dev.cell)
  }

  lemma SetStatusCarried(d: Device, status: nat)
    ensures var d' := SetStatus(d, status).dev;
            && d'.cell == d.cell && d'.history == d.history && d'.hello == d.hello && d'.statusRead == d.statusRead
            && (SetStatus(d, status).sent.Some? ==> SetStatus(d, status).sent.value.Control?)
  {
  }

  lemma HelloCarried(d: Device, networkReady: bool, elapsed: bool)
    ensures Carried(d, RunHello(networkReady, elapsed), StepHello(d, networkReady, elapsed))
  {
    match d.hello
    case Reporting => SetStatusCarried(d.(hello := if networkReady then Sending else Failing), PROVISIONING_STARTED);
    case Failing => SetStatusCarried(d.(hello := Finishing), PROVISIONING_ERROR);
    case Expiring => SetStatusCarried(d.(hello := Finishing), PROVISIONING_TIMEOUT);
    case _ =>
  }

  lemma ApplyCarried(d: Device, t: Apply)
    ensures Carried(d, RunApply(t), StepApply(d, t))
  {
    if t.Announcing? {
      SetStatusCarried(d.(applies := d.applies + multiset{Scheduling}), PROVISIONING_STARTED);
    }
  }

  lemma CallbackCarried(d: Device)
    ensures Carried(d, ContinueCallback, StepCallback(d))
  {
  }

  lemma FramesCarryTaken(d: Device, e: Event)
    ensures Carried(d, e, Step(d, e))
  {
    match e
    case ContinueCallback => CallbackCarried(d);
    case RunHello(n, x) => HelloCarried(d, n, x);
    case RunApply(t) => ApplyCarried(d.(applies := d.applies - multiset{t}), t);
    case RunFirmwareStatus(status) => SetStatusCarried(d, status);
    case _ =>
  }

  // ----- when the numbers rise

  /** The cell holds the last number, and what the two tasks read is not above it. */
  ghost predicate Numbered(d: Device) {
    var t := d.history.taken;
    && Rising(t)
    && d.cell == (if t == [] then 0 else t[|t| - 1])
    && (d.hello.Committing? ==> d.hello.read <= d.cell)
    && (d.statusRead.Some? ==> d.statusRead.value <= d.cell)
  }

  lemma AppendRises(t: seq<nat>, n: nat)
    requires Rising(t)
    ensures Rising(t + [n]) <==> (t == [] || t[|t| - 1] < n)
  {
    if Rising(t + [n]) && t != [] {
      assert (t + [n])[|t| - 1] < (t + [n])[|t|];
    }
  }

  lemma StepNumbers(d: Device, e: Event)
    requires Numbered(d)
    ensures if InTurn(d, e) then Numbered(Step(d, e).dev) else !Rising(Step(d, e).dev.history.taken)
  {
    FramesCarryTaken(d, e);
    if Commits(d, e).Some? {
      AppendRises(d.history.taken, Commits(d, e).value);
    }
  }

  lemma PrefixRises(t: seq<nat>, n: nat)
    requires Rising(t + [n])
    ensures Rising(t)
  {
    assert forall i | 0 <= i < |t| :: t[i] == (t + [n])[i];
  }

  lemma {:induction false} NumbersTell(evs: seq<Event>)
    ensures var d := Run(FirstBoot(), evs);
            if InTurnRun(FirstBoot(), evs) then Numbered(d) else !Rising(d.history.taken)
  {
    if evs != [] {
      var before, e := evs[..|evs| - 1], evs[|evs| - 1];
      var d := Run(FirstBoot(), before);
      NumbersTell(before);
      if InTurnRun(FirstBoot(), before) {
        StepNumbers(d, e);
      } else {
        FramesCarryTaken(d, e);
        if Rising(Step(d, e).dev.history.taken) && Commits(d, e).Some? {
          PrefixRises(d.history.taken, Commits(d, e).value);
        }
      }
    }
  }

  /**
    Over every run with restarts, the numbers taken from the cell rise strictly if and only if every task
    that commits one finds the cell as it read it.
   */
  lemma NumbersRiseExactlyInTurn(evs: seq<Event>)
    ensures Rising(Run(FirstBoot(), evs).history.taken) <==> InTurnRun(FirstBoot(), evs)
  {
    NumbersTell(evs);
  }

  /**
    From every state in which the HELLO task is about to send and the status task about to read: both read,
    both commit, and an S frame and an H frame with the same number leave the ESP.
   */
  lemma TwoFramesShareNumber(d: Device)
    requires d.hello == Sending && d.enable && d.session.state == Idle && d.statusRead.None? && HelloFits(d.cell + 1)
    ensures var d1 := Step(d, RunHello(true, false)).dev;
            var d2 := Step(d1, RunBootStatus(true)).dev;
            var m3 := Step(d2, RunBootStatus(true));
            var m4 := Step(m3.dev, RunHello(true, false));
            && m3.sent == Some(Status(d.cell + 1)) && m4.sent == Some(Hello(d.cell + 1))
            && InTurn(d2, RunBootStatus(true)) && !InTurn(m3.dev, RunHello(true, false))
  {
  }

  /**
    From every state in which the status task has read the cell: the HELLO task may take as many numbers as
    it likes, the late commit of the status task sets the cell to one above what that task had read.
   */
  lemma {:induction false} LateCommitSetsBack(d: Device, evs: seq<Event>, fits: bool)
    requires d.statusRead.Some? && forall i | 0 <= i < |evs| :: !evs[i].RunBootStatus? && !evs[i].Restart?
    ensures Step(Run(d, evs), RunBootStatus(fits)).dev.cell == d.statusRead.value + 1
  {
    ReadIsKept(d, evs);
    FramesCarryTaken(Run(d, evs), RunBootStatus(fits));
  }

  lemma {:induction false} ReadIsKept(d: Device, evs: seq<Event>)
    requires forall i | 0 <= i < |evs| :: !evs[i].RunBootStatus? && !evs[i].Restart?
    ensures Run(d, evs).statusRead == d.statusRead
    decreases |evs|
  {
    if evs != [] {
      ReadIsKept(d, evs[..|evs| - 1]);
      OthersKeepRead(Run(d, evs[..|evs| - 1]), evs[|evs| - 1]);
    }
  }

  lemma OthersKeepRead(d: Device, e: Event)
    requires !e.RunBootStatus? && !e.Restart?
    ensures Step(d, e).dev.statusRead == d.statusRead
  {
    match e
    case RunHello(n, x) => HelloKeepsRead(d, n, x);
    case _ =>
  }

  lemma HelloKeepsRead(d: Device, networkReady: bool, elapsed: bool)
    ensures StepHello(d, networkReady, elapsed).dev.statusRead == d.statusRead
  {
  }

  // ----- what runs in turn keep

  ghost predicate RecordBelow(r: Option<StateRecord>, cell: nat) { r.Some? ==> r.value.counter <= cell }

  /** Authenticated attempts had their counters from the cell. */
  ghost predicate Dated(authenticated: seq<Authentic>, cell: nat) {
    forall i | 0 <= i < |authenticated| :: authenticated[i].attempt.counter <= cell
  }

  /** No number anywhere on the ESP is above the cell. */
  ghost predicate Below(d: Device) {
    && d.session.counter <= d.cell && RecordBelow(d.session.record, d.cell) && RecordBelow(d.context, d.cell)
    && Dated(d.history.authenticated, d.cell)
    && d.history.lastHello <= d.cell && d.history.lastStatus <= d.cell
  }

  lemma HelloKeepsBelow(d: Device, networkReady: bool, elapsed: bool)
    requires Below(d) && InTurn(d, RunHello(networkReady, elapsed))
    ensures Below(StepHello(d, networkReady, elapsed).dev)
  {
    HelloIsBackground(d, networkReady, elapsed);
    HelloCarried(d, networkReady, elapsed);
    HelloSession(d, networkReady, elapsed);
  }

  lemma ApplyKeepsBelow(d: Device, t: Apply)
    requires Below(d)
    ensures Below(StepApply(d, t).dev)
  {
    ApplyIsBackground(d, t);
  }

  lemma CallbackRecords(d: Device)
    requires d.session.counter <= d.cell && RecordBelow(d.session.record, d.cell)
    ensures var s := StepCallback(d).dev.session; s.counter <= d.cell && RecordBelow(s.record, d.cell)
  {
    match d.callback
    case Completing => SetStatusIsBackground(d, PROVISIONING_COMPLETE);
    case Disabling => DisablingCopies(d);
    case _ =>
  }

  lemma CallbackKeepsBelow(d: Device)
    requires Below(d)
    ensures Below(StepCallback(d).dev)
  {
    CallbackCopies(d);
    CallbackRecords(d);
    CallbackCarried(d);
    CallbackAuthenticatesNothing(d);
  }

  lemma CallbackAuthenticatesNothing(d: Device)
    ensures StepCallback(d).dev.history.authenticated == d.history.authenticated
  {
  }

  lemma BootStatusKeepsBelow(d: Device, fits: bool)
    requires Below(d) && InTurn(d, RunBootStatus(fits))
    ensures Below(Step(d, RunBootStatus(fits)).dev)
  {
  }

  lemma FrameKeepsBelow(d: Device, e: Event)
    requires Below(d) && (e.ReceiveChallenge? || e.ReceiveProvisioning?)
    ensures Below(Step(d, e).dev)
  {
  }

  lemma StepKeepsBelow(d: Device, e: Event)
    requires Below(d) && InTurn(d, e)
    ensures Below(Step(d, e).dev)
  {
    match e
    case ContinueCallback => CallbackKeepsBelow(d);
    case RunHello(n, x) => HelloKeepsBelow(d, n, x);
    case RunApply(t) => ApplyKeepsBelow(d.(applies := d.applies - multiset{t}), t);
    case RunBootStatus(fits) => BootStatusKeepsBelow(d, fits);
    case RunFirmwareStatus(status) => SetStatusIsBackground(d, status); SetStatusCarried(d, status);
    case ReceiveChallenge(_, _) => FrameKeepsBelow(d, e);
    case ReceiveProvisioning(_, _) => FrameKeepsBelow(d, e);
    case _ =>
  }

  /**
    In a run in turn no H number and no S number is ever below an earlier one of its kind, and none falls
    behind the durable context: what the results on agreement, freshness and the context ask for.
   */
  lemma {:induction false} InTurnRunsRenew(d: Device, evs: seq<Event>)
    requires Below(d) && InTurnRun(d, evs)
    ensures RenewingRun(d, evs, true) && RenewingRun(d, evs, false) && KeepsUpRun(d, evs) && Below(Run(d, evs))
    decreases |evs|
  {
    if evs != [] {
      InTurnRunsRenew(d, evs[..|evs| - 1]);
      StepKeepsBelow(Run(d, evs[..|evs| - 1]), evs[|evs| - 1]);
    }
  }

  // ----- a number that falls behind the durable context

  /** The challenge and the P frame of an attempt whose H frame was just sent. */
  lemma AttemptAccepted(d0: Device, d: Device, a: Attempt, plain: seq<byte>)
    requires Leads(d0, d) && d.callback == Free && d.enable && Parse(plain).Success?
    requires d.session.state == WaitChallenge && d.session.counter == a.counter
    ensures exists d' :: Leads(d0, d') && d'.callback == Stored && a == Attempt(d'.session.counter, d'.session.random)
  {
    var d1 := Step(d, ReceiveChallenge(a.random, Some(a))).dev;
    Takes(d0, d, ReceiveChallenge(a.random, Some(a)), d1);
    assert d1.session.state == WaitProvisioning && d1.session.key == Some(a) && d1.callback == Free && d1.enable;
    Takes(d0, d1, ReceiveProvisioning(Some(a), plain), Step(d1, ReceiveProvisioning(Some(a), plain)).dev);
  }

  /**
    From every state in which the HELLO task is about to commit a number below that of the durable context,
    an attempt with that number can turn the context back.
   */
  lemma LowerNumberTurnsContextBack(d: Device, random: nat, plain: seq<byte>)
    requires !KeepsUp(d, RunHello(true, false)) && HelloFits(d.hello.read + 1) && d.session.state == Idle
    requires d.callback == Free && d.enable && Parse(plain).Success?
    ensures exists evs :: var a := Attempt(d.hello.read + 1, random);
              IsRecordOf(Run(d, evs).context, a) && a.counter < d.context.value.counter
  {
    var a := Attempt(d.hello.read + 1, random);
    var d1 := Step(d, RunHello(true, false)).dev;
    assert Run(d, []) == d;
    Takes(d, d, RunHello(true, false), d1);
    AttemptAccepted(d, d1, a, plain);
    var d3 :| Leads(d, d3) && d3.callback == Stored && a == Attempt(d3.session.counter, d3.session.random);
    CallbackCopiesRecord(d, d3, a);
  }

  lemma CallbackCopiesRecord(d0: Device, d: Device, a: Attempt)
    requires Leads(d0, d) && d.callback == Stored && a == Attempt(d.session.counter, d.session.random) && a.counter > 0
    ensures exists evs :: IsRecordOf(Run(d0, evs).context, a)
  {
    var d1 := StepCallback(d).dev;
    var d2 := StepCallback(d1).dev;
    var d3 := StepCallback(d2).dev;
    Takes(d0, d, ContinueCallback, d1);
    Takes(d0, d1, ContinueCallback, d2);
    Takes(d0, d2, ContinueCallback, d3);
    assert IsRecordOf(d1.session.record, a) && d1.callback == Completing && d1.session.state == Provisioned;
    ReportEffect(d1);
    CopyEffect(d2, a);
    var evs :| Run(d0, evs) == d3;
  }
}
