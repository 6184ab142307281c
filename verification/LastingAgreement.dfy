/**
  What becomes of a concluded attempt: as long as the ESP commits no further one, nothing that scheduler,
  counter cell, channels, user and restarts can do takes the agreement away.
 */
module LastingAgreement {
  import opened Wrappers
  import opened Protocol
  import opened DeviceSession
  import Device
  import LastKnownGood
  import Listener
  import opened ProvisioningRun

  // ----- the ESP behind its last commit

  predicate Waits(s: Session) { s.state in {WaitChallenge, WaitProvisioning} }

  /** A status 0x42 is that of the last commit: what waits under it has no later number. */
  ghost predicate DeviceLasts(d: Device.Device, top: nat) {
    && d.callback in {Device.Free, Device.Stored} && d.history.finished && !d.history.dropped
    && (Device.Greeting(d.hello) ==> d.status != PROVISIONING_COMPLETE)
    && (d.status == PROVISIONING_COMPLETE ==>
          (Waits(d.session) ==> d.session.counter <= top) && (forall r :: r in d.responses ==> r.counter <= top))
  }

  lemma SetStatusLasts(d: Device.Device, status: nat, top: nat)
    requires DeviceLasts(d, top) && status != PROVISIONING_COMPLETE
    ensures DeviceLasts(Device.SetStatus(d, status).dev, top)
  {
  }

  lemma ReportingLasts(d: Device.Device, networkReady: bool, top: nat)
    requires DeviceLasts(d, top) && d.hello == Device.Reporting
    ensures var d' := d.(hello := if networkReady then Device.Sending else Device.Failing);
            DeviceLasts(Device.SetStatus(d', PROVISIONING_STARTED).dev, top)
  {
  }

  lemma SendingLasts(d: Device.Device, networkReady: bool, elapsed: bool, top: nat)
    requires DeviceLasts(d, top) && Device.Greeting(d.hello)
    ensures DeviceLasts(Device.StepHello(d, networkReady, elapsed).dev, top)
  {
  }

  lemma HelloLasts(d: Device.Device, networkReady: bool, elapsed: bool, top: nat)
    requires DeviceLasts(d, top)
    ensures DeviceLasts(Device.StepHello(d, networkReady, elapsed).dev, top)
  {
    match d.hello
    case Reporting => ReportingLasts(d, networkReady, top);
    case Sending => SendingLasts(d, networkReady, elapsed, top);
    case Committing(_) => SendingLasts(d, networkReady, elapsed, top);
    case Failing => SetStatusLasts(d.(hello := Device.Finishing), PROVISIONING_ERROR, top);
    case Expiring => SetStatusLasts(d.(hello := Device.Finishing), PROVISIONING_TIMEOUT, top);
    case _ =>
  }

  lemma ApplyLasts(d: Device.Device, t: Device.Apply, top: nat)
    requires DeviceLasts(d, top)
    ensures DeviceLasts(Device.StepApply(d, t).dev, top)
  {
  }

  lemma FrameLasts(d: Device.Device, ev: Device.Event, top: nat)
    requires DeviceLasts(d, top) && (ev.ReceiveChallenge? || ev.ReceiveProvisioning?)
    ensures DeviceLasts(Device.Step(d, ev).dev, top)
  {
  }

  lemma StepLasts(d: Device.Device, ev: Device.Event, top: nat)
    requires DeviceLasts(d, top) && Device.Step(d, ev).dev.history.completed == d.history.completed
    ensures DeviceLasts(Device.Step(d, ev).dev, top)
  {
    match ev
    case RunHello(n, x) => HelloLasts(d, n, x, top);
    case RunApply(t) => ApplyLasts(d.(applies := d.applies - multiset{t}), t, top);
    case RunFirmwareStatus(status) => if Device.FirmwareStatus(status) { SetStatusLasts(d, status, top); }
    case ReceiveChallenge(_, _) => FrameLasts(d, ev, top);
    case ReceiveProvisioning(_, _) => FrameLasts(d, ev, top);
    case _ =>
  }

  // ----- channels and server

  /** Status and frames say nothing about attempts numbered above the last commit. */
  ghost predicate SaysNothing(s: System, top: nat) {
    var u := Stream(s);
    && (forall i, j | 0 <= i < j < |u| :: u[i].Response? && u[i].attempt.counter > top ==> u[j] != DONE)
    && (s.dev.status == PROVISIONING_COMPLETE || DONE in u ==>
          forall x :: Answered(x, s.server) ==> x.counter <= top)
    && (s.dev.status == PROVISIONING_COMPLETE ==>
          forall i | 0 <= i < |u| :: u[i].Response? ==> u[i].attempt.counter <= top)
  }

  /** The server has the context of attempt a, and its session was taken out. */
  ghost predicate Keeps(e: Listener.Entry, a: Attempt) {
    e.context == Some(a) && !e.callback.Taken? && a in e.removed
  }

  ghost predicate Lasting(s: System, a: Attempt) {
    && Based(s) && DeviceLasts(s.dev, a.counter)
    && s.dev.history.completed != [] && Last(s.dev.history.completed) == a
    && SaysNothing(s, a.counter) && Keeps(s.server, a)
  }

  lemma StatusComesFromCommit(d: Device.Device, ev: Device.Event)
    requires d.callback in {Device.Free, Device.Stored}
    ensures Device.Step(d, ev).dev.status == PROVISIONING_COMPLETE ==> d.status == PROVISIONING_COMPLETE
  {
    match ev
    case RunHello(n, x) => HelloStatus(d, n, x);
    case _ =>
  }

  lemma HelloStatus(d: Device.Device, networkReady: bool, elapsed: bool)
    ensures Device.StepHello(d, networkReady, elapsed).dev.status == PROVISIONING_COMPLETE ==>
              d.status == PROVISIONING_COMPLETE
  {
  }

  lemma DeviceSaysNothing(s: System, ev: Device.Event, a: Attempt)
    requires Lasting(s, a) && CanArrive(s, ev)
    ensures SaysNothing(Step(s, OnDevice(ev)), a.counter)
  {
    var m, t := Device.Step(s.dev, ev), Step(s, OnDevice(ev));
    Device.SentTellsStatus(s.dev, ev);
    StatusComesFromCommit(s.dev, ev);
    assert Stream(t) == Stream(s) + Frame(m);
  }

  lemma DeviceKeepsLasting(s: System, ev: Device.Event, a: Attempt)
    requires Lasting(s, a) && CanArrive(s, ev)
    requires Device.Step(s.dev, ev).dev.history.completed == s.dev.history.completed
    ensures Lasting(Step(s, OnDevice(ev)), a)
  {
    DeviceKeepsBased(s, ev);
    StepLasts(s.dev, ev, a.counter);
    DeviceSaysNothing(s, ev, a);
  }

  lemma CutSaysNothing(s: System, t: System, k: nat, top: nat)
    requires SaysNothing(s, top) && k < |Stream(s)| && t.server == s.server && t.dev == s.dev
    requires Stream(t) == Stream(s)[..k] + Stream(s)[k + 1..]
    ensures SaysNothing(t, top)
  {
    CutIndices(Stream(s), k);
    assert DONE in Stream(t) ==> DONE in Stream(s);
  }

  lemma LoseKeepsLasting(s: System, i: nat, a: Attempt)
    requires Lasting(s, a)
    ensures Lasting(Step(s, Lose(i)), a)
  {
    LoseKeepsBased(s, i);
    if i < |s.up| {
      var head := if s.last.Some? then [s.last.value] else [];
      StreamCut(head, s.up, i);
      CutSaysNothing(s, Step(s, Lose(i)), |head| + i, a.counter);
    }
  }

  lemma PopKeepsLasting(s: System, a: Attempt)
    requires Lasting(s, a) && s.up != []
    ensures Lasting(Popped(s), a)
  {
    PopKeepsBased(s);
    PopCuts(s);
    if s.last.Some? {
      CutSaysNothing(s, Popped(s), 0, a.counter);
    }
  }

  /** T|0|42 finds no session to finish: it could only be the one that was taken out before. */
  lemma NothingFinishes(s: System, a: Attempt)
    requires Lasting(s, a) && DONE in Stream(s)
    ensures !Listener.CanFinish(s.server.session)
  {
  }

  lemma RedeliverKeepsLasting(s: System, a: Attempt)
    requires Lasting(s, a) && s.server.callback == Listener.Ready && s.last.Some?
    ensures Lasting(Step(s, Redeliver), a)
  {
    var f, u := s.last.value, Stream(s);
    var e := Listener.Receive(s.server, f).entry;
    assert u[0] == f;
    RedeliverKeepsBased(s);
    if f == DONE { NothingFinishes(s, a); }
    forall x | Answered(x, e) && (s.dev.status == PROVISIONING_COMPLETE || DONE in u)
      ensures x.counter <= a.counter
    {
      ReceiveAnswers(s.server, f, x);
      if f == Response(x) && DONE in u {
        var j :| 0 <= j < |u| && u[j] == DONE;
        assert u[0].Response?;
      }
    }
    assert Stream(Step(s, Redeliver)) == u;
    ReceiveKeeps(s.server, f, a);
  }

  lemma ReceiveKeeps(e: Listener.Entry, f: Uplink, a: Attempt)
    requires Keeps(e, a) && e.callback == Listener.Ready && (f == DONE ==> !Listener.CanFinish(e.session))
    ensures Keeps(Listener.Receive(e, f).entry, a)
  {
  }

  lemma ContinueKeeps(e: Listener.Entry, o: Listener.Oracle, a: Attempt)
    requires Keeps(e, a)
    ensures Keeps(Listener.Continue(e, o).entry, a)
  {
  }

  lemma ProceedKeepsLasting(s: System, o: Listener.Oracle, a: Attempt)
    requires Lasting(s, a)
    ensures Lasting(Step(s, Proceed(o)), a)
  {
    ProceedKeepsBased(s, o);
    ContinueKeeps(s.server, o, a);
    forall x | Answered(x, Listener.Continue(s.server, o).entry)
      ensures Answered(x, s.server)
    {
      AnsweredShrinks(s.server, o, x);
    }
    assert Stream(Step(s, Proceed(o))) == Stream(s);
  }

  lemma TimeoutKeepsLasting(s: System, e: Event, a: Attempt)
    requires Lasting(s, a) && (e.Tick? || e.ServerRestart?)
    ensures Lasting(Step(s, e), a)
  {
    StepKeepsBased(s, e);
    assert Stream(Step(s, e)) == Stream(s);
    assert forall x :: Answered(x, Step(s, e).server) ==> Answered(x, s.server);
  }

  lemma StepKeepsLasting(s: System, e: Event, a: Attempt)
    requires Lasting(s, a) && Step(s, e).dev.history.completed == s.dev.history.completed
    ensures Lasting(Step(s, e), a)
  {
    match e
    case OnDevice(ev) => if CanArrive(s, ev) { DeviceKeepsLasting(s, ev, a); }
    case Deliver =>
      if s.server.callback == Listener.Ready && s.up != [] {
        PopKeepsLasting(s, a);
        RedeliverKeepsLasting(Popped(s), a);
      }
    case Redeliver => if s.server.callback == Listener.Ready && s.last.Some? { RedeliverKeepsLasting(s, a); }
    case Lose(i) => LoseKeepsLasting(s, i, a);
    case Proceed(o) => ProceedKeepsLasting(s, o, a);
    case Tick(_) => TimeoutKeepsLasting(s, e, a);
    case ServerRestart => TimeoutKeepsLasting(s, e, a);
  }

  // ----- where it starts

  /** The end of an attempt of the window, from which on nothing is asked of the scheduler. */
  ghost predicate Closes(s: System, w: Device.Window) {
    && Concluded(s) && !s.dev.history.dropped && s.server.context.value.counter > w.floor
    && s.dev.callback in {Device.Free, Device.Stored} && Commits(s, w) != []
  }

  lemma LastOfWindow(s: System, w: Device.Window, x: Attempt)
    requires InvSince(s, w) && Closes(s, w) && Settled(x, Commits(s, w))
    ensures x.counter <= Last(s.dev.history.completed).counter
  {
    if x in Commits(s, w) { NoneAboveLast(Commits(s, w), x); }
  }

  lemma ServerStarts(s: System, w: Device.Window)
    requires InvSince(s, w) && Closes(s, w)
    ensures Keeps(s.server, Last(s.dev.history.completed))
  {
    var e, a := s.server, Last(s.dev.history.completed);
    assert e.context == Some(Last(e.saved)) && Last(e.saved) in e.saved;
    forall x | x in Commits(s, w)
      ensures x.counter <= a.counter
    {
      NoneAboveLast(Commits(s, w), x);
    }
  }

  /** Under a status 0x42 the last H number is that of the last commit. */
  lemma StatusStarts(s: System, w: Device.Window)
    requires InvSince(s, w) && Closes(s, w) && s.dev.status == PROVISIONING_COMPLETE
    ensures var top := Last(s.dev.history.completed).counter;
            && (forall x :: Answered(x, s.server) ==> x.counter <= top)
            && (forall i | 0 <= i < |Stream(s)| ::
                  Stream(s)[i].Response? ==> Stream(s)[i].attempt.counter <= top)
  {
  }

  lemma SilenceStarts(s: System, w: Device.Window)
    requires InvSince(s, w) && Closes(s, w)
    ensures SaysNothing(s, Last(s.dev.history.completed).counter)
  {
    var u, top := Stream(s), Last(s.dev.history.completed).counter;
    forall i, j | 0 <= i < j < |u| && u[i].Response? && u[i].attempt.counter > top
      ensures u[j] != DONE
    {
      if u[j] == DONE { LastOfWindow(s, w, u[i].attempt); }
    }
    forall x | Answered(x, s.server) && DONE in u
      ensures x.counter <= top
    {
      if x.counter > w.floor { LastOfWindow(s, w, x); }
    }
    if s.dev.status == PROVISIONING_COMPLETE { StatusStarts(s, w); }
  }

  lemma LastingStarts(s: System, w: Device.Window)
    requires InvSince(s, w) && Closes(s, w)
    ensures Lasting(s, Last(s.dev.history.completed))
  {
    ServerStarts(s, w);
    SilenceStarts(s, w);
  }

  // ----- the result

  /** From the end of an attempt on, whatever happens: no further commit, or the agreement stands. */
  lemma {:induction false} LastsFrom(evs: seq<Event>, more: seq<Event>)
    requires var s := Run(evs); s.dev.history.completed != [] && Lasting(s, Last(s.dev.history.completed))
    ensures var s, t := Run(evs), Run(evs + more);
            && s.dev.history.completed <= t.dev.history.completed
            && (t.dev.history.completed == s.dev.history.completed ==> Lasting(t, Last(s.dev.history.completed)))
    decreases |more|
  {
    if more == [] {
      assert evs + more == evs;
    } else {
      var before, e := more[..|more| - 1], more[|more| - 1];
      var s, t := Run(evs), Run(evs + before);
      LastsFrom(evs, before);
      RunExtends(evs, more);
      if e.OnDevice? { Device.HistoryGrows(t.dev, e.event); }
      if Step(t, e).dev.history.completed == s.dev.history.completed {
        assert |t.dev.history.completed| <= |s.dev.history.completed|;
        assert t.dev.history.completed == s.dev.history.completed;
        StepKeepsLasting(t, e, Last(s.dev.history.completed));
      }
    }
  }

  /**
    The agreement lasts. From any state in which a window opens, an attempt is concluded by calm steps with
    renewed H numbers, and copied. Then, whatever happens, calm or not, with late counter commits, resets inside
    a later P callback, replays and restarts: as long as the ESP commits no further attempt, server context and
    ESP keys stay those of that attempt.
   */
  lemma KeyAgreementLasts(base: seq<Event>, attempt: seq<Event>, more: seq<Event>)
    requires Device.Opening(Run(base).dev) && CalmAfter(base, attempt)
    requires var s := Run(base + attempt);
             Concluded(s) && !s.dev.history.dropped && s.server.context.value.counter > Run(base).server.helloMark
    ensures var s, t := Run(base + attempt), Run(base + attempt + more);
            && s.dev.history.completed <= t.dev.history.completed
            && (t.dev.history.completed == s.dev.history.completed ==>
                  && Concluded(t) && !t.dev.history.dropped
                  && Device.EffectiveContext(t.dev) == t.server.context == s.server.context)
  {
    var s, t, w := Run(base + attempt), Run(base + attempt + more), WindowOf(Run(base));
    WindowOpens(base);
    WindowKeeps(base, attempt, w);
    AgreementInWindow(base, attempt);
    RunProjects(base + attempt);
    LastKnownGood.RunKeepsSound(Device.FirstBoot(), Projected(base + attempt));
    LastingStarts(s, w);
    LastsFrom(base + attempt, more);
    if t.dev.history.completed == s.dev.history.completed {
      KeyAgreement(base + attempt + more);
    }
  }
}
