/**
  What the ESP's workers can do to a P callback that is under way: which steps between its two NVS
  writes do harm, and what is left when they do.
 */
module Interference {
  import opened Wrappers
  import opened Bytes
  import opened Protocol
  import opened DeviceSession
  import opened Device
  import opened LastKnownGood
  import opened CounterCell

  // ----- between the two NVS writes

  /** A step of a task that exists. */
  predicate Possible(d: Device, e: Event) { e.RunApply? ==> e.task in d.applies }

  /** Steps of other tasks only; the callback itself does not move, and the power stays on. */
  predicate Intervenes(d: Device, evs: seq<Event>)
    decreases |evs|
  {
    evs != [] ==>
      var before, e := evs[..|evs| - 1], evs[|evs| - 1];
      Intervenes(d, before) && Possible(Run(d, before), e) && !e.ContinueCallback? && !e.Restart?
  }

  /** The session still is the one whose P frame was authenticated. */
  ghost predicate Spared(d0: Device, d: Device) {
    && d.callback == Stored && d.history.completed == d0.history.completed
    && d.session.state == WaitProvisioning
    && d.session.counter == d0.session.counter && d.session.random == d0.session.random
  }

  /** The session was reset, or is already another one; with renewed H numbers, of a later number. */
  ghost predicate Spoiled(d0: Device, d: Device, renewed: bool) {
    && d.callback == Stored && d.history.completed == d0.history.completed
    && d.session.state in {DeviceSession.Idle, WaitChallenge} && d.session.random == 0
    && (renewed ==> d.session.counter == 0 || d.session.counter > d0.history.lastHello)
  }

  lemma HelloSparesSession(d: Device, networkReady: bool, elapsed: bool)
    requires d.callback == Stored && d.session.state == WaitProvisioning && d.hello !in {Resetting, Finishing}
    ensures Spared(d, StepHello(d, networkReady, elapsed).dev)
  {
    HelloIsBackground(d, networkReady, elapsed);
    HelloSpares(d, networkReady, elapsed);
  }

  lemma ApplySparesSession(d: Device, t: Apply)
    requires d.callback == Stored && d.session.state == WaitProvisioning && t !in {Reprovisioning, Withdrawing}
    ensures Spared(d, StepApply(d, t).dev)
  {
  }

  lemma CalmStepsSpare(d: Device, e: Event)
    requires d.session.state == WaitProvisioning && d.callback == Stored && Calm(d, e)
    requires !e.ContinueCallback? && !e.Restart?
    ensures Spared(d, Step(d, e).dev)
  {
    match e
    case RunHello(n, x) => HelloSparesSession(d, n, x);
    case RunApply(t) => ApplySparesSession(d.(applies := d.applies - multiset{t}), t);
    case _ =>
  }

  /** What an excluded step does: it resets the session, sends nothing and reports nothing. */
  ghost predicate OnlyResets(d: Device, m: Moved) {
    && m.sent == None && m.dev.callback == Stored && m.dev.history == d.history
    && m.dev.session == BeginReprovisioning(d.session)
    && m.dev.status == d.status && m.dev.context == d.context && m.dev.cell == d.cell
  }

  lemma ExcludedHelloResets(d: Device, networkReady: bool, elapsed: bool)
    requires d.session.state == WaitProvisioning && d.callback == Stored && d.hello in {Resetting, Finishing}
    ensures OnlyResets(d, StepHello(d, networkReady, elapsed))
  {
  }

  lemma ExcludedApplyResets(d: Device, t: Apply)
    requires d.session.state == WaitProvisioning && d.callback == Stored && t in {Reprovisioning, Withdrawing}
    ensures OnlyResets(d, StepApply(d, t))
  {
  }

  lemma ExcludedStepsReset(d: Device, e: Event)
    requires d.session.state == WaitProvisioning && d.callback == Stored && Possible(d, e) && !Calm(d, e)
    ensures OnlyResets(d, Step(d, e))
  {
    if e.RunHello? {
      ExcludedHelloResets(d, e.networkReady, e.elapsed);
    } else {
      ExcludedApplyResets(d.(applies := d.applies - multiset{e.task}), e.task);
    }
  }

  lemma HelloStaysSpoiled(d0: Device, d: Device, networkReady: bool, elapsed: bool, renewed: bool)
    requires Spoiled(d0, d, renewed) && d0.history.lastHello <= d.history.lastHello
    ensures Spoiled(d0, StepHello(d, networkReady, elapsed).dev,
                    renewed && Renews(d, RunHello(networkReady, elapsed), true))
  {
    HelloIsBackground(d, networkReady, elapsed);
    HelloSession(d, networkReady, elapsed);
  }

  lemma StaysSpoiled(d0: Device, d: Device, e: Event, renewed: bool)
    requires Spoiled(d0, d, renewed) && !e.ContinueCallback? && !e.Restart?
    requires renewed ==> d0.history.lastHello <= d.history.lastHello
    ensures Spoiled(d0, Step(d, e).dev, renewed && Renews(d, e, true))
  {
    match e
    case RunHello(n, x) =>
      if renewed { HelloStaysSpoiled(d0, d, n, x, true); } else { HelloStaysSpoiled(d, d, n, x, false); }
    case _ =>
  }

  lemma {:induction false} RunRaisesLastHello(d: Device, evs: seq<Event>)
    requires RenewingRun(d, evs, true)
    ensures d.history.lastHello <= Run(d, evs).history.lastHello
    decreases |evs|
  {
    if evs != [] {
      RunRaisesLastHello(d, evs[..|evs| - 1]);
      HistoryGrows(Run(d, evs[..|evs| - 1]), evs[|evs| - 1]);
    }
  }

  lemma {:induction false} SparedOrSpoiled(d: Device, evs: seq<Event>)
    requires d.session.state == WaitProvisioning && d.callback == Stored && Intervenes(d, evs)
    ensures if CalmRun(d, evs) then Spared(d, Run(d, evs)) else Spoiled(d, Run(d, evs), RenewingRun(d, evs, true))
    decreases |evs|
  {
    if evs != [] {
      var before, e := evs[..|evs| - 1], evs[|evs| - 1];
      var d1 := Run(d, before);
      SparedOrSpoiled(d, before);
      if !CalmRun(d, before) {
        if RenewingRun(d, before, true) { RunRaisesLastHello(d, before); }
        StaysSpoiled(d, d1, e, RenewingRun(d, before, true));
      } else if Calm(d1, e) {
        CalmStepsSpare(d1, e);
      } else {
        ExcludedStepsReset(d1, e);
      }
    }
  }

  /**
    Whatever steps of other tasks fall between the two NVS writes, in any number, the commit adds exactly
    the attempt whose P frame was authenticated if and only if Device.Calm allowed every one of them. Only
    for the random 0, which a reset also leaves, does this ask for renewed H numbers.
   */
  lemma StoredAttemptSurvivesExactlyCalmSteps(d: Device, evs: seq<Event>)
    requires Inv(d) && d.callback == Stored && Intervenes(d, evs)
    requires d.session.random != 0 || RenewingRun(d, evs, true)
    ensures var a := Attempt(d.session.counter, d.session.random);
            Step(Run(d, evs), ContinueCallback).dev.history.completed == d.history.completed + [a] <==> CalmRun(d, evs)
  {
    var d1 := Run(d, evs);
    SparedOrSpoiled(d, evs);
    var c, a, b := d.history.completed, Attempt(d.session.counter, d.session.random),
                   Attempt(d1.session.counter, d1.session.random);
    assert (c + [a])[|c|] == a && (c + [b])[|c|] == b;
  }

  // ----- behind the commit

  function Callbacks(d: Device, k: nat): Device {
    if k == 0 then d else StepCallback(Callbacks(d, k - 1)).dev
  }

  ghost predicate Bypassed(d: Device, context: Option<StateRecord>, c: seq<Attempt>) {
    && d.callback != Stored && d.session.state == DeviceSession.Idle && !ValidContext(d.session.record)
    && d.context == context && d.history.completed == c
  }

  lemma {:induction false} CallbacksBypass(d: Device, k: nat)
    requires Bypassed(d, d.context, d.history.completed)
    ensures Bypassed(Callbacks(d, k), d.context, d.history.completed)
  {
    if k > 0 {
      CallbacksBypass(d, k - 1);
    }
  }

  /**
    A reset between the commit and the copy: none of the further effects of the callback stores the new
    context, and the keys of the committed attempt are lost.
   */
  lemma LateResetLosesContext(d: Device, k: nat)
    requires SnapshotDue(d) && Reprovisioning in d.applies
    ensures var d' := Callbacks(Step(d, RunApply(Reprovisioning)).dev, k);
            && d'.context == d.context && d'.history.completed == d.history.completed
            && EffectiveContext(d') != Some(Last(d'.history.completed))
  {
    CallbacksBypass(Step(d, RunApply(Reprovisioning)).dev, k);
  }

  /** Once the new context is copied, the same reset leaves it and the keys alone. */
  lemma ResetBehindCopyIsHarmless(d: Device)
    requires d.callback in {Completing, Snapshotting, Disabling} && d.history.completed != [] && !SnapshotDue(d)
    requires Last(d.history.completed).counter > 0
    ensures var d' := Step(d, RunApply(Reprovisioning)).dev;
            && d'.context == d.context && d'.history == d.history
            && EffectiveContext(d') == Some(Last(d.history.completed))
  {
  }

  // ----- last known good, lost

  function Swapped(m: multiset<Apply>, a: Apply, b: Apply): multiset<Apply> { m - multiset{a} + multiset{b} }

  lemma SwapTwice(m: multiset<Apply>, a: Apply, b: Apply, c: Apply)
    requires a in m
    ensures b in Swapped(m, a, b) && Swapped(Swapped(m, a, b), b, c) == Swapped(m, a, c)
  {
  }

  /** Both resets, one of the HELLO task that ends its attempt and one of the apply task. */
  lemma SessionReset(d0: Device, d: Device)
    requires Leads(d0, d) && Turned(d)
    ensures Leads(d0, d.(session := BeginReprovisioning(d.session), hello := NoTask,
                         applies := Swapped(d.applies, Reprovisioning, Announcing)))
  {
    var d1 := d.(session := BeginReprovisioning(d.session), hello := NoTask);
    var d2 := d1.(applies := Swapped(d.applies, Reprovisioning, Announcing));
    Takes(d0, d, RunHello(true, false), d1);
    Takes(d0, d1, RunApply(Reprovisioning), d2);
  }

  lemma Announced(d0: Device, d: Device)
    requires Leads(d0, d) && Announcing in d.applies
    ensures Leads(d0, d.(applies := Swapped(d.applies, Announcing, Scheduling), status := PROVISIONING_STARTED))
  {
    var d3 := d.(applies := Swapped(d.applies, Announcing, Scheduling), status := PROVISIONING_STARTED);
    AnnouncingMoves(d, d3);
    Takes(d0, d, RunApply(Announcing), d3);
  }

  lemma Scheduled(d0: Device, d: Device)
    requires Leads(d0, d) && Scheduling in d.applies && d.enable && d.hello == NoTask
    ensures Leads(d0, d.(applies := d.applies - multiset{Scheduling}, hello := Starting))
  {
    Takes(d0, d, RunApply(Scheduling), d.(applies := d.applies - multiset{Scheduling}, hello := Starting));
  }

  lemma NextScheduled(d0: Device, d: Device)
    requires Leads(d0, d) && Announcing in d.applies && d.enable && d.hello == NoTask
    ensures Leads(d0, d.(applies := d.applies - multiset{Announcing}, status := PROVISIONING_STARTED,
                         hello := Starting))
  {
    Announced(d0, d);
    Scheduled(d0, d.(applies := Swapped(d.applies, Announcing, Scheduling), status := PROVISIONING_STARTED));
    assert Swapped(d.applies, Announcing, Scheduling) - multiset{Scheduling} == d.applies - multiset{Announcing};
  }

  /** The HELLO task ends its attempt and the apply task starts the next one, all inside one P callback. */
  lemma NextAttemptScheduled(d0: Device, d: Device)
    requires Leads(d0, d) && Turned(d)
    ensures Leads(d0, d.(session := BeginReprovisioning(d.session), status := PROVISIONING_STARTED,
                         applies := d.applies - multiset{Reprovisioning}, hello := Starting))
  {
    SessionReset(d0, d);
    NextScheduled(d0, d.(session := BeginReprovisioning(d.session), hello := NoTask,
                         applies := Swapped(d.applies, Reprovisioning, Announcing)));
    assert Swapped(d.applies, Reprovisioning, Announcing) - multiset{Announcing}
           == d.applies - multiset{Reprovisioning};
  }

  lemma AnnouncingMoves(d: Device, d': Device)
    requires Announcing in d.applies
    requires d' == d.(applies := Swapped(d.applies, Announcing, Scheduling), status := PROVISIONING_STARTED)
    ensures Step(d, RunApply(Announcing)).dev == d'
  {
  }

  /** A P callback between its NVS writes, while provisioning was switched off and on again. */
  ghost predicate Turned(d: Device) {
    && d.callback == Stored && d.session.state == WaitProvisioning && d.enable
    && d.hello == Finishing && Reprovisioning in d.applies
  }

  lemma HelloPrepared(d0: Device, d: Device)
    requires Leads(d0, d) && d.hello == Starting && d.enable && d.status == PROVISIONING_STARTED
    requires d.session.state == DeviceSession.Idle && d.session == BeginReprovisioning(d.session)
    ensures Leads(d0, d.(hello := Sending))
  {
    var d1, d2, d3 := d.(hello := Resetting), d.(hello := Reporting), d.(hello := Sending);
    Takes(d0, d, RunHello(true, false), d1);
    Takes(d0, d1, RunHello(true, false), d2);
    Takes(d0, d2, RunHello(true, false), d3);
  }

  lemma NextHelloSent(d0: Device, d: Device)
    requires Leads(d0, d) && d.hello == Sending && d.enable && d.session.state == DeviceSession.Idle
             && HelloFits(d.cell + 1)
    ensures var (d', ok) := SendHello(d, d.cell); ok && Leads(d0, d'.(hello := Waiting))
  {
    Takes(d0, d, RunHello(true, false), d.(hello := Committing(d.cell)));
    Takes(d0, d.(hello := Committing(d.cell)), RunHello(true, false), SendHello(d, d.cell).0.(hello := Waiting));
  }

  ghost predicate ForeignKeys(d0: Device, d: Device) {
    var foreign := Attempt(d0.cell + 1, 0);
    && EffectiveContext(d) == Some(foreign) && d.context.Some? && AttemptOf(d.context.value) == foreign
    && !WasAuthenticated(d.history.authenticated, foreign)
  }

  lemma CommitStoresForeignKeys(d0: Device, c: Device, d: Device)
    requires Leads(d0, d) && d.callback == Stored && d.session.counter == c.cell + 1 && d.session.random == 0
    requires d.status != PROVISIONING_COMPLETE && Dated(d.history.authenticated, c.cell)
    ensures exists evs :: ForeignKeys(c, Run(d0, evs))
  {
    var d1 := StepCallback(d).dev;
    var d2 := StepCallback(d1).dev;
    var d3 := StepCallback(d2).dev;
    Takes(d0, d, ContinueCallback, d1);
    Takes(d0, d1, ContinueCallback, d2);
    Takes(d0, d2, ContinueCallback, d3);
    ForeignRecord(d, c);
    var evs :| Run(d0, evs) == d3;
    assert ForeignKeys(c, Run(d0, evs));
  }

  lemma ForeignRecord(d: Device, c: Device)
    requires d.callback == Stored && d.session.counter == c.cell + 1 && d.session.random == 0
    requires d.status != PROVISIONING_COMPLETE && Dated(d.history.authenticated, c.cell)
    ensures ForeignKeys(c, StepCallback(StepCallback(StepCallback(d).dev).dev).dev)
  {
    var d1 := StepCallback(d).dev;
    var d2 := StepCallback(d1).dev;
    assert IsRecordOf(d1.session.record, Attempt(c.cell + 1, 0)) && d1.callback == Completing;
    assert d2.callback == Snapshotting && d2.session == d1.session
           && d2.history.authenticated == d.history.authenticated;
  }

  /**
    From any state in which provisioning was switched off and on again while a P callback is between its
    two NVS writes, whatever durable context the ESP had: a run ends with a durable context and keys of a
    pair that was never authenticated.
   */
  lemma ResetInsideCallbackDestroysKeys(d0: Device, d: Device)
    requires Leads(d0, d) && Turned(d) && HelloFits(d.cell + 1) && Dated(d.history.authenticated, d.cell)
    ensures exists evs :: ForeignKeys(d, Run(d0, evs))
  {
    var c := d.(session := BeginReprovisioning(d.session), status := PROVISIONING_STARTED,
                applies := d.applies - multiset{Reprovisioning}, hello := Starting);
    NextAttemptScheduled(d0, d);
    HelloPrepared(d0, c);
    NextHelloSent(d0, c.(hello := Sending));
    CommitStoresForeignKeys(d0, d, SendHello(c.(hello := Sending), c.cell).0.(hello := Waiting));
  }

  /** Provisioning is on, an attempt waits for its P frame, and the HELLO task waits for its end. */
  ghost predicate Waits(d: Device) {
    && d.callback == Free && d.session.state == WaitProvisioning && d.enable && d.hello == Waiting
  }

  ghost predicate TurnedFrom(d: Device, t: Device, x: Authentic) {
    && Leads(d, t) && Turned(t) && t.cell == d.cell && t.context == d.context
    && t.history.authenticated == d.history.authenticated + [x]
  }

  /** Switched off: the HELLO task gives up, and is about to reset the session. */
  lemma SwitchedOff(d: Device, g: nat)
    requires Waits(d) && g == NextGeneration(d.generation)
    ensures Leads(d, d.(enable := false, generation := g, applies := d.applies + multiset{Delayed(g)},
                        hello := Finishing))
  {
    var d1 := d.(enable := false, generation := g, applies := d.applies + multiset{Delayed(g)});
    assert Run(d, []) == d;
    Takes(d, d, WriteEnable(false), d1);
    Takes(d, d1, RunHello(true, false), d1.(hello := Expiring));
    Takes(d, d1.(hello := Expiring), RunHello(true, false), d1.(hello := Finishing));
  }

  /** Switched on again: the apply task is about to reset the session. */
  lemma SwitchedOn(d0: Device, d: Device, g: nat)
    requires Leads(d0, d) && d.callback == Free && g == NextGeneration(d.generation)
    ensures var m := d.applies + multiset{Delayed(g)};
            Leads(d0, d.(enable := true, generation := g, applies := Swapped(m, Delayed(g), Reprovisioning)))
  {
    var m := d.applies + multiset{Delayed(g)};
    var d4 := d.(enable := true, generation := g, applies := m);
    var d5 := d4.(applies := Swapped(m, Delayed(g), Publishing(true)));
    var d6 := d4.(applies := Swapped(m, Delayed(g), Reprovisioning));
    Takes(d0, d, WriteEnable(true), d4);
    SwapTwice(m, Delayed(g), Publishing(true), Reprovisioning);
    Takes(d0, d4, RunApply(Delayed(g)), d5);
    Takes(d0, d5, RunApply(Publishing(true)), d6);
  }

  /** The toggles and the P frame that lead from there into such a callback. */
  lemma TogglesTurn(d: Device, sealed: Option<Attempt>, plain: seq<byte>)
    requires Waits(d) && OpenProvisioning(d.session, sealed, plain).Success?
    ensures exists t :: TurnedFrom(d, t, Authentic(sealed.value, OpenProvisioning(d.session, sealed, plain).value))
  {
    var g1 := NextGeneration(d.generation);
    var d3 := d.(enable := false, generation := g1, applies := d.applies + multiset{Delayed(g1)}, hello := Finishing);
    var g2 := NextGeneration(g1);
    var m := d3.applies + multiset{Delayed(g2)};
    SwitchedOff(d, g1);
    SwitchedOn(d, d3, g2);
    var d6 := d3.(enable := true, generation := g2, applies := Swapped(m, Delayed(g2), Reprovisioning));
    AcceptanceTurns(d, d6, sealed, plain);
  }

  lemma AcceptanceTurns(d: Device, t: Device, sealed: Option<Attempt>, plain: seq<byte>)
    requires Leads(d, t) && t.callback == Free && t.enable && t.hello == Finishing && Reprovisioning in t.applies
    requires t.session == d.session && t.history == d.history && t.cell == d.cell && t.context == d.context
    requires OpenProvisioning(d.session, sealed, plain).Success?
    ensures exists u :: TurnedFrom(d, u, Authentic(sealed.value, OpenProvisioning(d.session, sealed, plain).value))
  {
    var u := Step(t, ReceiveProvisioning(sealed, plain)).dev;
    Takes(d, t, ReceiveProvisioning(sealed, plain), u);
    assert TurnedFrom(d, u, Authentic(sealed.value, OpenProvisioning(d.session, sealed, plain).value));
  }

  lemma SameForeign(t: Device, d: Device, u: Device)
    requires t.cell == d.cell && ForeignKeys(t, u)
    ensures ForeignKeys(d, u)
  {
  }

  /**
    Last known good, lost: from every state in which an attempt waits for its P frame, and for every frame
    that it accepts, switching provisioning off and on at the wrong moment can replace whatever durable
    context the ESP had by a pair that was never authenticated. No number is above the cell, as in every run
    in turn (CounterCell.InTurnRunsRenew), so that the number of this pair is new.
   */
  lemma TogglingCanDestroyKeys(d: Device, sealed: Option<Attempt>, plain: seq<byte>)
    requires Below(d) && Waits(d) && HelloFits(d.cell + 1) && OpenProvisioning(d.session, sealed, plain).Success?
    ensures exists evs :: ForeignKeys(d, Run(d, evs))
  {
    TogglesTurn(d, sealed, plain);
    var x := Authentic(sealed.value, OpenProvisioning(d.session, sealed, plain).value);
    var t :| TurnedFrom(d, t, x);
    ResetInsideCallbackDestroysKeys(d, t);
    var evs :| ForeignKeys(t, Run(d, evs));
    SameForeign(t, d, Run(d, evs));
  }
}
