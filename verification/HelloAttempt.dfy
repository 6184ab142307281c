/**
  What statuses do to Enable OTA (zigbee_ota_control.c), and the HELLO task from its start to its end when no
  other task of the ESP and no frame comes between its stages (zigbee_ota_cluster.c).
 */
module HelloAttempt {
  import opened Wrappers
  import opened Bytes
  import opened Protocol
  import opened ProvisionPlain
  import opened DeviceSession
  import opened Device

  /**
    A new status switches Enable OTA off exactly if it is 0x42, 0xC2 or 0xC6, the number of the commands
    advances exactly if the flag changed, and the T frame tells flag and status; a known status does nothing.
   */
  lemma EndingStatusesDisable(d: Device, s: nat)
    ensures d.status == s ==> SetStatus(d, s) == Moved(d, None)
    ensures d.status != s ==>
              var on := d.enable && s !in {0x42, 0xC2, 0xC6};
              var g := if on == d.enable then d.generation else (d.generation + 1) % 0x1_0000_0000;
              SetStatus(d, s) == Moved(d.(status := s, enable := on, generation := g), Some(Control(on, s)))
  {
  }

  /** Writing the flag: a T frame and the next command number exactly if it changes, the context copied when off. */
  lemma FlagWritesExactly(d: Device, on: bool)
    ensures var g := if on == d.enable then d.generation else (d.generation + 1) % 0x1_0000_0000;
            var m := SetEnabled(d, on);
            && m.sent == (if on == d.enable then None else Some(Control(on, d.status)))
            && m.dev == d.(enable := on, generation := g, context := m.dev.context)
            && (on || d.session.state != Provisioned ==> m.dev.context == d.context)
            && (!on && d.session.state == Provisioned && ValidContext(d.session.record) ==>
                  m.dev.context == d.session.record)
  {
  }

  /** The reports of CHECK and download leave Enable OTA alone, and no other value is reported there. */
  lemma FirmwareReportsKeepFlag(d: Device, s: nat)
    ensures var m := Step(d, RunFirmwareStatus(s));
            if s in {0x21, 0x22, 0xA2, 0xB2, 0x2A} && s != d.status
            then m == Moved(d.(status := s), Some(Control(d.enable, s)))
            else m == Moved(d, None)
  {
  }

  /**
    A restart forgets everything but what NVS holds: it is a first boot with this cell, these records and this
    configuration, and the ESP counts as provisioned exactly if it has a configuration.
   */
  lemma RestartIsBoot(d: Device)
    ensures var state := if d.session.prov.Some? then Provisioned else Idle;
            var session := FirstBoot().session.(state := state, record := d.session.record, prov := d.session.prov);
            Step(d, Restart)
            == Moved(FirstBoot().(cell := d.cell, session := session, context := d.context, history := d.history), None)
  {
  }

  /** The report behind a boot, whatever came before it: flag off, status 0, and delayed commands are void. */
  lemma BootReportClears(d: Device)
    ensures var g := (d.generation + 1) % 0x1_0000_0000;
            Step(d, RunInitialReport)
            == if d.reportPending
               then Moved(d.(enable := false, status := 0, generation := g, reportPending := false),
                          Some(Control(false, 0)))
               else Moved(d, None)
  {
  }

  /** A HELLO task starts in exactly one way: the apply task of a command finds the flag on and no other such task. */
  lemma HelloStartsExactly(d: Device, e: Event)
    requires d.hello != Starting
    ensures Step(d, e).dev.hello == Starting
            <==> e == RunApply(Scheduling) && Scheduling in d.applies && d.enable && d.hello == NoTask
  {
  }

  /** An A frame is accepted exactly while the flag is on, no P callback runs and the session waits for this pair. */
  lemma ChallengesTakenExactly(d: Device, random: nat, signed: Option<Attempt>)
    ensures var a, s := Attempt(d.session.counter, random), d.session;
            Step(d, ReceiveChallenge(random, signed))
            == if d.callback == Free && d.enable && s.state == WaitChallenge && signed == Some(a) then
                 var record := Some(StateRecord(WaitProvisioning, a.counter, a.random));
                 Moved(d.(session := Session(WaitProvisioning, a.counter, a.random, Some(a), record, s.prov),
                          responses := d.responses + {a}), None)
               else Moved(d, None)
  {
  }

  /** ... and a P frame exactly while it waits for this sealed pair, if its plaintext parses. */
  lemma FramesTakenExactly(d: Device, sealed: Option<Attempt>, plain: seq<byte>)
    ensures var a, s, c := Attempt(d.session.counter, d.session.random), d.session, Parse(plain);
            Step(d, ReceiveProvisioning(sealed, plain))
            == if && d.callback == Free && d.enable && s.state == WaitProvisioning
                  && s.key == Some(a) && sealed == Some(a) && c.Success? then
                 var h := d.history.(authenticated := d.history.authenticated + [Authentic(a, c.value)]);
                 Moved(d.(session := s.(prov := Some(c.value)), callback := Stored, history := h), None)
               else Moved(d, None)
  {
  }

  // ----- the HELLO task alone

  function Rank(h: HelloTask): nat {
    match h
    case NoTask => 0
    case Finishing => 1
    case Expiring => 2
    case Failing => 2
    case Waiting => 3
    case Committing(_) => 4
    case Sending => 5
    case Reporting => 6
    case Resetting => 7
    case Starting => 8
  }

  lemma RankFalls(d: Device, ready: bool)
    requires d.hello != NoTask
    ensures Rank(StepHello(d, ready, true).dev.hello) < Rank(d.hello)
  {
  }

  /** The remaining stages of a HELLO task whose time is over when it waits, and the frames it sends. */
  function Alone(d: Device, ready: bool): (Device, seq<Uplink>)
    decreases Rank(d.hello)
  {
    if d.hello == NoTask then (d, [])
    else
      RankFalls(d, ready);
      var m := StepHello(d, ready, true);
      var (f, sent) := Alone(m.dev, ready);
      (f, AsFrames(m.sent) + sent)
  }

  /** One stage, with its outcome named. */
  lemma Stage(d: Device, ready: bool, d': Device, sent: Option<Uplink>)
    requires d.hello != NoTask && StepHello(d, ready, true) == Moved(d', sent)
    ensures Alone(d, ready) == (Alone(d', ready).0, AsFrames(sent) + Alone(d', ready).1)
    ensures sent == None ==> Alone(d, ready) == Alone(d', ready)
  {
    RankFalls(d, ready);
    assert [] + Alone(d', ready).1 == Alone(d', ready).1;
  }

  /** The session behind an attempt that came to nothing. */
  function Dropped(s: Session): Session {
    if s.state == Provisioned then s else Session(Idle, 0, 0, None, Some(StateRecord(Idle, 0, 0)), s.prov)
  }

  /** The end of an attempt that reports status s: Enable OTA goes off, the session is idle. */
  function Over(d: Device, s: nat): Device {
    d.(hello := NoTask, session := Dropped(d.session), status := s, enable := false,
       generation := (d.generation + 1) % 0x1_0000_0000)
  }

  lemma Finishes(d: Device, ready: bool)
    requires d.hello == Finishing
    ensures Alone(d, ready) == (d.(hello := NoTask, session := Dropped(d.session)), [])
  {
    Stage(d, ready, d.(hello := NoTask, session := Dropped(d.session)), None);
  }

  /** An attempt whose time is over: the ESP reports 0xC6 with the flag off and forgets the attempt. */
  lemma ExpiredAttemptEnds(d: Device, ready: bool)
    requires d.hello == Waiting && d.enable && d.session.state != Provisioned && d.status != 0xC6
    ensures Alone(d, ready) == (Over(d, 0xC6), [Control(false, 0xC6)])
  {
    var d1, d2 := d.(hello := Expiring), Over(d, 0xC6).(hello := Finishing, session := d.session);
    Stage(d, ready, d1, None);
    Stage(d1, ready, d2, Some(Control(false, 0xC6)));
    Finishes(d2, ready);
    assert [Control(false, 0xC6)] + [] == [Control(false, 0xC6)];
    assert d2.(hello := NoTask, session := Dropped(d.session)) == Over(d, 0xC6);
  }

  /** A HELLO task waits exactly as long as the flag is on, the session is not provisioned and there is time. */
  lemma WaitEndsExactly(d: Device, ready: bool, elapsed: bool)
    requires d.hello == Waiting
    ensures d.enable && d.session.state != Provisioned && !elapsed <==> StepHello(d, ready, elapsed) == Moved(d, None)
    ensures !d.enable || d.session.state == Provisioned ==>
              && StepHello(d, ready, false) == StepHello(d, ready, true)
              && Alone(d, ready) == (d.(hello := NoTask, session := Dropped(d.session)), [])
  {
    if !d.enable || d.session.state == Provisioned {
      Stage(d, ready, d.(hello := Expiring), None);
      Stage(d.(hello := Expiring), ready, d.(hello := Finishing), None);
      Finishes(d.(hello := Finishing), ready);
    }
  }

  /** An attempt that could not send its H frame. */
  lemma FailedAttemptEnds(d: Device, ready: bool)
    requires d.hello == Failing && d.enable && d.status != 0xC2
    ensures Alone(d, ready) == (Over(d, 0xC2), [Control(false, 0xC2)])
  {
    var d1 := Over(d, 0xC2).(hello := Finishing, session := d.session);
    Stage(d, ready, d1, Some(Control(false, 0xC2)));
    Finishes(d1, ready);
    assert [Control(false, 0xC2)] + [] == [Control(false, 0xC2)];
    assert d1.(hello := NoTask, session := Dropped(d.session)) == Over(d, 0xC2);
  }

  /** A counter is taken, whether or not an H frame can leave. */
  function Taken(d: Device): Device {
    d.(cell := d.cell + 1, history := d.history.(taken := d.history.taken + [d.cell + 1]))
  }

  /** The H frame left: the session waits for its challenge. */
  function Sent(d: Device): Device {
    var n := d.cell + 1;
    var s := Session(WaitChallenge, n, 0, None, Some(StateRecord(WaitChallenge, n, 0)), d.session.prov);
    Taken(d).(session := s, history := Taken(d).history.(lastHello := n))
  }

  predicate CanSend(d: Device) { d.session.state == Idle && d.cell + 1 < 100_000_000_000 }

  lemma HelloStage(d: Device)
    requires d.hello == Committing(d.cell) && d.enable
    ensures StepHello(d, true, true) == if CanSend(d) then Moved(Sent(d).(hello := Waiting), Some(Hello(d.cell + 1)))
                                        else Moved(Taken(d).(hello := Failing), None)
  {
  }

  lemma SendingStage(d: Device)
    requires d.hello == Sending && d.enable
    ensures Alone(d, true) == Alone(d.(hello := Committing(d.cell)), true)
  {
    Stage(d, true, d.(hello := Committing(d.cell)), None);
  }

  lemma Sends(d: Device)
    requires d.hello == Sending && d.enable && d.status == 0x41
    ensures Alone(d, true) == if CanSend(d) then (Over(Sent(d), 0xC6), [Hello(d.cell + 1), Control(false, 0xC6)])
                              else (Over(Taken(d), 0xC2), [Control(false, 0xC2)])
  {
    SendingStage(d);
    if CanSend(d) { AwaitsInVain(d); } else { CannotSend(d); }
  }

  lemma AwaitsInVain(d: Device)
    requires d.enable && CanSend(d) && d.status == 0x41
    ensures Alone(d.(hello := Committing(d.cell)), true)
            == (Over(Sent(d), 0xC6), [Hello(d.cell + 1), Control(false, 0xC6)])
  {
    var d1, d2 := d.(hello := Committing(d.cell)), Sent(d).(hello := Waiting);
    HelloStage(d1);
    Stage(d1, true, d2, Some(Hello(d.cell + 1)));
    ExpiredAttemptEnds(d2, true);
    assert [Hello(d.cell + 1)] + [Control(false, 0xC6)] == [Hello(d.cell + 1), Control(false, 0xC6)];
  }

  lemma CannotSend(d: Device)
    requires d.enable && !CanSend(d) && d.status == 0x41
    ensures Alone(d.(hello := Committing(d.cell)), true) == (Over(Taken(d), 0xC2), [Control(false, 0xC2)])
  {
    var d1, d2 := d.(hello := Committing(d.cell)), Taken(d).(hello := Failing);
    HelloStage(d1);
    Stage(d1, true, d2, None);
    FailedAttemptEnds(d2, true);
  }

  /** A HELLO task behind its status report. */
  lemma Reports(d: Device, ready: bool)
    requires d.hello == Reporting && d.enable
    ensures var d1 := d.(hello := if ready then Sending else Failing, status := 0x41);
            Alone(d, ready) == (Alone(d1, ready).0,
                                (if d.status == 0x41 then [] else [Control(true, 0x41)]) + Alone(d1, ready).1)
  {
    var d1 := d.(hello := if ready then Sending else Failing, status := 0x41);
    Stage(d, ready, d1, if d.status == 0x41 then None else Some(Control(true, 0x41)));
  }

  /** How the rest of an attempt ends in which only its time runs out, and the frames it still sends. */
  function Outcome(d: Device, ready: bool): (Device, seq<Uplink>) {
    if ready && CanSend(d) then (Over(Sent(d), 0xC6), [Hello(d.cell + 1), Control(false, 0xC6)])
    else (Over(if ready then Taken(d) else d, 0xC2), [Control(false, 0xC2)])
  }

  lemma ReportedAttemptEnds(d: Device, ready: bool)
    requires d.hello == Reporting && d.enable
    ensures Alone(d, ready) == (Outcome(d, ready).0,
                                (if d.status == 0x41 then [] else [Control(true, 0x41)]) + Outcome(d, ready).1)
  {
    Reports(d, ready);
    if ready { SendsFrom(d); } else { FailsFrom(d); }
  }

  lemma SendsFrom(d: Device)
    requires d.enable
    ensures Alone(d.(hello := Sending, status := 0x41), true) == Outcome(d, true)
  {
    Sends(d.(hello := Sending, status := 0x41));
  }

  lemma FailsFrom(d: Device)
    requires d.enable
    ensures Alone(d.(hello := Failing, status := 0x41), false) == Outcome(d, false)
  {
    FailedAttemptEnds(d.(hello := Failing, status := 0x41), false);
  }

  /**
    A whole HELLO task that nobody answers or disturbs, from any state: it reports 0x41, takes one counter and
    sends its H frame if the network is there, and ends with Enable OTA off: with 0xC6 when its time is over,
    with 0xC2 when no H frame could leave. Switched off before it starts, it sends nothing.
   */
  lemma UnansweredAttemptEnds(d: Device, ready: bool)
    requires d.hello == Starting
    ensures var d1 := d.(session := Dropped(d.session));
            Alone(d, ready)
            == if d.enable then (Outcome(d1, ready).0,
                                 (if d.status == 0x41 then [] else [Control(true, 0x41)]) + Outcome(d1, ready).1)
               else (d1.(hello := NoTask), [])
  {
    if d.enable {
      var d1 := d.(session := Dropped(d.session));
      Begins(d, ready);
      ReportedAttemptEnds(d1.(hello := Reporting), ready);
      OutcomeForgets(d1, ready);
    } else {
      NeverBegins(d, ready);
    }
  }

  lemma OutcomeForgets(d: Device, ready: bool)
    ensures Outcome(d.(hello := Reporting), ready) == Outcome(d, ready)
  {
  }

  lemma NeverBegins(d: Device, ready: bool)
    requires d.hello == Starting && !d.enable
    ensures Alone(d, ready) == (d.(session := Dropped(d.session), hello := NoTask), [])
  {
    Stage(d, ready, d.(hello := Finishing), None);
    Finishes(d.(hello := Finishing), ready);
  }

  lemma Begins(d: Device, ready: bool)
    requires d.hello == Starting && d.enable
    ensures Alone(d, ready) == Alone(d.(session := Dropped(d.session), hello := Reporting), ready)
  {
    Stage(d, ready, d.(hello := Resetting), None);
    Stage(d.(hello := Resetting), ready, d.(session := Dropped(d.session), hello := Reporting), None);
  }
}
