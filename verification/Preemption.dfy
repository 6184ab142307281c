/**
  Why ProvisioningRun.Agreement asks the ESP's workers to be calm: an excluded step, before the commit or
  behind it, can always be continued to a run that breaks agreement.
 */
module Preemption {
  import opened Wrappers
  import opened Bytes
  import opened Protocol
  import opened ProvisionPlain
  import opened DeviceSession
  import opened Device
  import CounterFreshness
  import opened Continuation
  import I = Interference
  import L = LastKnownGood
  import Listener
  import P = ProvisioningRun

  // ----- every excluded step before the commit

  /** The callback is between its NVS writes while the server waits for the end of this attempt. */
  ghost predicate AtRisk(s: P.System) {
    && s.dev.callback == Stored && s.server.callback == Listener.Ready
    && s.server.session.Some? && s.server.session.value.state == Listener.ProvisioningSent
    && s.server.session.value.attempt == Attempt(s.dev.session.counter, s.dev.session.random)
  }

  /** The ESP's own next two effects: it commits an attempt (0, 0) and reports completion. */
  lemma ResetThenReport(base: seq<P.Event>, s: P.System)
    requires Leads(base, s) && s.dev.callback == Stored && s.dev.status != PROVISIONING_COMPLETE
    requires s.dev.session == BeginReprovisioning(s.dev.session)
    ensures exists d :: Leads(base, s.(dev := d, up := s.up + [P.DONE])) && d.session.prov == s.dev.session.prov
              && d.history.completed == s.dev.history.completed + [Attempt(0, 0)]
              && d.context == s.dev.context && !ValidContext(d.session.record)
  {
    var d1 := StepCallback(s.dev).dev;
    var d2 := StepCallback(d1).dev;
    Moves(base, s, ContinueCallback, d1, None);
    assert s.up + [] == s.up;
    Moves(base, s.(dev := d1), ContinueCallback, d2, Some(P.DONE));
  }

  lemma ExcludedOnSystem(evs: seq<P.Event>, e: Event)
    requires P.CalmRun(evs) && P.RenewingRun(evs, true) && AtRisk(P.Run(evs))
    requires I.Possible(P.Run(evs).dev, e) && !Calm(P.Run(evs).dev, e)
    ensures var s, t := P.Run(evs), P.Run(evs + [P.OnDevice(e)]);
            && t.server == s.server && t.up == s.up && t.dev.callback == Stored && t.dev.history == s.dev.history
            && t.dev.session == BeginReprovisioning(s.dev.session) && t.dev.context == s.dev.context
            && t.dev.status != PROVISIONING_COMPLETE
            && (forall a :: a in s.dev.history.completed ==> a.counter < s.dev.session.counter)
  {
    var s := P.Run(evs);
    P.RunKeeps(evs);
    assert (evs + [P.OnDevice(e)])[..|evs|] == evs;
    I.ExcludedStepsReset(s.dev, e);
    WaitingIsNew(s.dev);
  }

  lemma WaitingIsNew(d: Device)
    requires Inv(d) && d.callback == Stored
    ensures d.status != PROVISIONING_COMPLETE && d.session.counter > 0
    ensures forall a :: a in d.history.completed ==> a.counter < d.session.counter
  {
    if d.history.completed != [] {
      assert Last(d.history.completed) in d.history.completed;
    }
  }

  /**
    From every calmly reached state at risk, every excluded step can be continued, calmly, so that the
    server makes the attempt's context durable and the ESP never commits it.
   */
  lemma ExcludedStepBreaksAgreement(evs: seq<P.Event>, e: Event)
    requires P.CalmRun(evs) && P.RenewingRun(evs, true) && AtRisk(P.Run(evs))
    requires I.Possible(P.Run(evs).dev, e) && !Calm(P.Run(evs).dev, e)
    ensures var a := P.Run(evs).server.session.value.attempt; var base := evs + [P.OnDevice(e)];
            exists more :: P.CalmAfter(base, more) && Disagrees(P.Run(base + more), a)
  {
    var s, base := P.Run(evs), evs + [P.OnDevice(e)];
    var a, t := s.server.session.value.attempt, P.Run(base);
    P.RunKeeps(evs);
    WaitingIsNew(s.dev);
    ExcludedOnSystem(evs, e);
    LeadsNowhere(base);
    ResetThenReport(base, t);
    var d :| Leads(base, t.(dev := d, up := t.up + [P.DONE])) && d.session.prov == t.dev.session.prov
             && d.history.completed == t.dev.history.completed + [Attempt(0, 0)]
             && d.context == t.dev.context && !ValidContext(d.session.record);
    var u := t.(dev := d, up := t.up + [P.DONE]);
    LosesFront(base, u, |t.up|);
    assert u.up[|t.up|..] == [P.DONE];
    ServerSaves(base, u.(up := [P.DONE]), s.server.session.value);
    LeadsToDisagreement(base, u.(server := Saved(t.server, a), last := Some(P.DONE), up := [P.DONE][1..]), a);
  }

  // ----- the excluded status report behind the commit

  /** The ESP after a callback that reported completion and ended. */
  function Ended(d: Device, d': Device): Device {
    d.(callback := Free, status := PROVISIONING_COMPLETE, enable := false, generation := d'.generation,
       context := d'.context, history := d.history.(finished := true))
  }

  lemma CallbackEnds(base: seq<P.Event>, s: P.System) returns (t: P.System)
    requires Leads(base, s) && s.dev.callback == Completing && s.dev.status != PROVISIONING_COMPLETE
    ensures Leads(base, t) && t == s.(dev := Ended(s.dev, t.dev), up := s.up + [P.DONE])
  {
    var s1 := Acts(base, s, ContinueCallback);
    t := CallbackCloses(base, s1);
  }

  lemma CallbackCloses(base: seq<P.Event>, s: P.System) returns (t: P.System)
    requires Leads(base, s) && s.dev.callback == Snapshotting && !s.dev.enable && s.dev.status == PROVISIONING_COMPLETE
    ensures Leads(base, t) && t == s.(dev := Ended(s.dev, t.dev))
  {
    var s1 := Acts(base, s, ContinueCallback);
    assert s1 == s.(dev := s.dev.(callback := Disabling, context := s1.dev.context));
    t := Acts(base, s1, ContinueCallback);
    assert t.up == s1.up;
  }

  /** Switched off, the ESP repeats a status 0x42, and the server takes it for the end of its session. */
  lemma StatusRepeated(base: seq<P.Event>, s: P.System, a: Attempt) returns (t: P.System)
    requires Leads(base, s) && s.dev.callback == Free && s.dev.status == PROVISIONING_COMPLETE && a.counter > 0
    requires s.server.callback == Listener.Ready && s.server.session == Some(Pending(a, Listener.ProvisioningSent))
    ensures Leads(base, t) && t.server.context == Some(a)
            && t.dev.history.completed == s.dev.history.completed
            && t.dev.history.authenticated == s.dev.history.authenticated
  {
    var s1 := Switched(base, s, false);
    var s2 := LosesAllBut(base, s1, s.up, P.DONE);
    ServerSaves(base, s2, Pending(a, Listener.ProvisioningSent));
    t := s2.(server := Saved(s2.server, a), last := Some(P.DONE), up := s2.up[1..]);
  }

  /** The callback has still to report, and the HELLO task is already about to send. */
  ghost predicate Overtaken(s: P.System) {
    && s.dev.callback == Completing && s.dev.hello == Sending && s.dev.status != PROVISIONING_COMPLETE
    && s.dev.history.lastHello <= s.dev.cell && s.server.helloMark <= s.dev.cell && HelloFits(s.dev.cell + 1)
  }

  lemma OvertakenBreaks(base: seq<P.Event>, s: P.System) returns (t: P.System)
    requires Leads(base, s) && Overtaken(s)
    ensures Leads(base, t) && t.server.context == Some(Attempt(s.dev.cell + 1, 7))
            && t.dev.history.completed == s.dev.history.completed
            && t.dev.history.authenticated == s.dev.history.authenticated
  {
    var s1 := CallbackEnds(base, s);
    var s2 := Switched(base, s1, true);
    var s3 := SessionCleared(base, s2);
    var s4 := AttemptGoes(base, s3, []);
    t := StatusRepeated(base, s4, Attempt(s.dev.cell + 1, 7));
  }

  lemma ReportOvertakes(evs: seq<P.Event>, e: Event)
    requires P.CalmRun(evs) && P.RenewingRun(evs, true)
    requires var d := P.Run(evs).dev;
             d.callback == Completing && !Calm(d, e) && d.history.lastHello <= d.cell && HelloFits(d.cell + 1)
    ensures var t := P.Run(evs + [P.OnDevice(e)]);
            Overtaken(t) && t.dev.history == P.Run(evs).dev.history && t.dev.cell == P.Run(evs).dev.cell
  {
    assert (evs + [P.OnDevice(e)])[..|evs|] == evs;
    CounterFreshness.RunKeepsLine(evs, true);
  }

  /** A number above all H numbers belongs to no attempt that was committed or authenticated. */
  lemma NewNumberIsForeign(evs: seq<P.Event>, a: Attempt)
    requires P.CalmRun(evs) && P.RenewingRun(evs, true) && a.counter > P.Run(evs).dev.history.lastHello
    ensures var h := P.Run(evs).dev.history;
            a !in h.completed && !L.WasAuthenticated(h.authenticated, a)
  {
    var s := P.Run(evs);
    P.RunKeeps(evs);
    P.RunDelivers(evs);
    CounterFreshness.RunKeepsLine(evs, true);
    forall i | 0 <= i < |s.dev.history.authenticated|
      ensures s.dev.history.authenticated[i].attempt != a
    {
      assert P.FromServer(s.dev.history.authenticated[i], s.sealed);
    }
  }

  /** A calm continuation ends in a disagreement about an attempt that was never authenticated either. */
  ghost predicate Refuted(base: seq<P.Event>, a: Attempt) {
    exists more ::
      && P.CalmAfter(base, more) && Disagrees(P.Run(base + more), a)
      && !L.WasAuthenticated(P.Run(base + more).dev.history.authenticated, a)
  }

  lemma OvertakenIsRefuted(base: seq<P.Event>, s: P.System, a: Attempt)
    requires Leads(base, s) && Overtaken(s) && a == Attempt(s.dev.cell + 1, 7)
    requires a !in s.dev.history.completed && !L.WasAuthenticated(s.dev.history.authenticated, a)
    ensures Refuted(base, a)
  {
    var t := OvertakenBreaks(base, s);
    LeadsToDisagreement(base, t, a);
    var more :| P.CalmAfter(base, more) && P.Run(base + more) == t && Disagrees(P.Run(base + more), a);
  }

  /**
    From every calmly reached state in which the HELLO task and the P callback of a committed attempt both
    stand before their status reports, and the cell was not moved back: if the HELLO task reports first, a
    calm continuation makes the server store the context of the next attempt, which the ESP never commits
    and whose P frame it never authenticates.
   */
  lemma DisturbedReportBreaksAgreement(evs: seq<P.Event>, e: Event)
    requires P.CalmRun(evs) && P.RenewingRun(evs, true)
    requires var d := P.Run(evs).dev;
             d.callback == Completing && !Calm(d, e) && d.history.lastHello <= d.cell && HelloFits(d.cell + 1)
    ensures Refuted(evs + [P.OnDevice(e)], Attempt(P.Run(evs).dev.cell + 1, 7))
  {
    var base, a := evs + [P.OnDevice(e)], Attempt(P.Run(evs).dev.cell + 1, 7);
    ReportOvertakes(evs, e);
    NewNumberIsForeign(evs, a);
    LeadsNowhere(base);
    OvertakenIsRefuted(base, P.Run(base), a);
  }

  // ----- such states are reached

  const FIRST := Attempt(1, 7)

  /** The first attempt is sealed, and provisioning is switched on once more. */
  lemma FrameSealed(plain: seq<byte>) returns (t: P.System)
    ensures Leads([], t) && (FIRST, plain) in t.sealed && Reprovisioning in t.dev.applies
    ensures t.server.callback == Listener.Ready
            && t.server.session == Some(Pending(FIRST, Listener.ProvisioningSent))
    ensures var d := t.dev;
            && (d.callback, d.hello, d.enable, d.cell, d.history.lastHello) == (Free, Waiting, true, 1, 1)
            && (d.session.state, d.session.counter, d.session.random) == (WaitProvisioning, 1, 7)
            && d.session.key == Some(FIRST)
  {
    var s0 := FirstSending();
    var s1 := AttemptGoes([], s0, plain);
    t := Switched([], s1, true);
  }

  /** ... up to the first NVS write of its P callback. */
  lemma FrameStored(plain: seq<byte>) returns (t: P.System)
    requires Parse(plain).Success?
    ensures Leads([], t) && AtRisk(t) && t.server.session.value.attempt == FIRST
    ensures Reprovisioning in t.dev.applies
            && (t.dev.hello, t.dev.enable, t.dev.cell, t.dev.history.lastHello) == (Waiting, true, 1, 1)
  {
    var s := FrameSealed(plain);
    t := Acts([], s, ReceiveProvisioning(Some(FIRST), plain));
  }

  /**
    A whole run for every provisioning plaintext: switched on twice, the ESP resets the session between
    the two NVS writes, and the server stores a context that the ESP never has.
   */
  lemma DisturbedCallbackBreaksAgreement(plain: seq<byte>)
    requires Parse(plain).Success?
    ensures exists evs :: Disagrees(P.Run(evs), FIRST)
  {
    var s := FrameStored(plain);
    var evs := Reached(s);
    var base := evs + [P.OnDevice(RunApply(Reprovisioning))];
    ExcludedStepBreaksAgreement(evs, RunApply(Reprovisioning));
    var more :| P.CalmAfter(base, more) && Disagrees(P.Run(base + more), FIRST);
  }

  /** The HELLO task of an attempt that was committed ends and leaves the session alone. */
  lemma HelloLeaves(base: seq<P.Event>, s: P.System) returns (t: P.System)
    requires Leads(base, s) && s.dev.hello == Waiting && s.dev.callback != Stored
    requires s.dev.session.state == DeviceSession.Provisioned
    ensures Leads(base, t) && t == s.(dev := s.dev.(hello := NoTask))
  {
    var s1 := Acts(base, s, RunHello(true, false));
    assert s1 == s.(dev := s.dev.(hello := Expiring));
    var s2 := Acts(base, s1, RunHello(true, false));
    assert s2 == s.(dev := s.dev.(hello := Finishing));
    t := Acts(base, s2, RunHello(true, false));
    assert t.up == s.up;
  }

  /** A calm run to a state in which both stand before their reports, for every provisioning plaintext. */
  lemma ReportIsDue(plain: seq<byte>) returns (evs: seq<P.Event>)
    requires Parse(plain).Success?
    ensures P.CalmRun(evs) && P.RenewingRun(evs, true)
    ensures var d := P.Run(evs).dev;
            && d.callback == Completing && d.hello == Reporting && !Calm(d, RunHello(true, false))
            && d.history.lastHello <= d.cell && HelloFits(d.cell + 1)
  {
    var s0 := FrameStored(plain);
    var s1 := Acts([], s0, ContinueCallback);
    var s2 := HelloLeaves([], s1);
    var s3 := SessionCleared([], s2);
    var s4 := AttemptScheduled([], s3);
    var s5 := HelloComes([], s4);
    evs := Reached(s5);
  }
}
