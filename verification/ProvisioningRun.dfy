/**
  Server, ESP and channels together. The uplink is a queue that may lose frames and may deliver the
  last one again, but keeps their order. The downlink keeps nothing: any challenge the server
  signed and any plaintext it sealed may arrive at any time, any number of times, or never, next to
  frames that carry no valid signature or seal.
 */
module ProvisioningRun {
  import opened Wrappers
  import opened Bytes
  import opened Protocol
  import opened DeviceSession
  import opened ProvisionPlain
  import Device
  import LastKnownGood
  import Listener

  datatype System = System(
    dev: Device.Device, server: Listener.Entry,
    up: seq<Uplink>, last: Option<Uplink>,
    signed: set<Attempt>, sealed: set<(Attempt, seq<byte>)>)

  datatype Event =
    | OnDevice(event: Device.Event)
    | Deliver
    | Redeliver
    | Lose(index: nat)
    | Proceed(oracle: Listener.Oracle)
    | Tick(now: int)
    | ServerRestart

  function Start(): System {
    System(Device.FirstBoot(), Listener.ServerRun([]), [], None, {}, {})
  }

  /** Unforgeability: what verifies or decrypts on the ESP came from the server. */
  predicate CanArrive(s: System, e: Device.Event) {
    match e
    case ReceiveChallenge(_, Some(a)) => a in s.signed
    case ReceiveProvisioning(Some(k), plain) => (k, plain) in s.sealed
    case _ => true
  }

  function Frame(m: Device.Moved): seq<Uplink> { if m.sent.Some? then [m.sent.value] else [] }

  function NewlySigned(sent: Option<Downlink>): set<Attempt> {
    if sent.Some? && sent.value.Challenge? then {sent.value.attempt} else {}
  }

  function NewlySealed(sent: Option<Downlink>): set<(Attempt, seq<byte>)> {
    if sent.Some? && sent.value.Provisioning? then {(sent.value.sealed, sent.value.plain)} else {}
  }

  function Step(s: System, e: Event): System {
    match e
    case OnDevice(ev) =>
      if !CanArrive(s, ev) then s
      else var m := Device.Step(s.dev, ev); s.(dev := m.dev, up := s.up + Frame(m))
    case Deliver =>
      if s.server.callback != Listener.Ready || s.up == [] then s
      else s.(server := Listener.Receive(s.server, s.up[0]).entry, last := Some(s.up[0]), up := s.up[1..])
    case Redeliver =>
      if s.server.callback != Listener.Ready || s.last.None? then s
      else s.(server := Listener.Receive(s.server, s.last.value).entry)
    case Lose(i) => if i < |s.up| then s.(up := s.up[..i] + s.up[i + 1..]) else s
    case Proceed(o) =>
      var r := Listener.Continue(s.server, o);
      s.(server := r.entry, signed := s.signed + NewlySigned(r.sent), sealed := s.sealed + NewlySealed(r.sent))
    case Tick(now) => s.(server := Listener.Timeout(s.server, now))
    case ServerRestart => s.(server := Listener.Restarted(s.server))
  }

  function Run(evs: seq<Event>): System {
    if evs == [] then Start() else Step(Run(evs[..|evs| - 1]), evs[|evs| - 1])
  }

  predicate CalmStep(s: System, e: Event) { e.OnDevice? ==> Device.Calm(s.dev, e.event) }

  /** The workers of the ESP never reset the session of a P callback before its commit (Device.Calm). */
  predicate CalmRun(evs: seq<Event>) {
    evs != [] ==> CalmRun(evs[..|evs| - 1]) && CalmStep(Run(evs[..|evs| - 1]), evs[|evs| - 1])
  }

  predicate RenewingStep(s: System, e: Event, hello: bool) { e.OnDevice? ==> Device.Renews(s.dev, e.event, hello) }

  /** No H number, or no S number, that the ESP commits is below an earlier one of its kind (Device.Renews). */
  predicate RenewingRun(evs: seq<Event>, hello: bool) {
    evs != [] ==>
      RenewingRun(evs[..|evs| - 1], hello) && RenewingStep(Run(evs[..|evs| - 1]), evs[|evs| - 1], hello)
  }

  /** The second part of a run is calm, and its H numbers renew. */
  predicate CalmAfter(base: seq<Event>, more: seq<Event>) {
    more != [] ==>
      CalmAfter(base, more[..|more| - 1]) && Allowed(Run(base + more[..|more| - 1]), more[|more| - 1])
  }

  predicate Allowed(s: System, e: Event) { CalmStep(s, e) && RenewingStep(s, e, true) }

  // ----- the uplink as one sequence: the frame delivered last, then the frames under way

  function Stream(s: System): seq<Uplink> { (if s.last.Some? then [s.last.value] else []) + s.up }

  const DONE: Uplink := Control(false, PROVISIONING_COMPLETE)

  /** The attempts for which the server already holds a response. */
  ghost predicate Answered(a: Attempt, e: Listener.Entry) {
    || (e.session.Some? && e.session.value.state == Listener.ProvisioningSent && a == e.session.value.attempt)
    || (e.callback.ResponseRead? && a == e.callback.signed)
    || (e.callback.ResponseVerified? && a == e.callback.session.attempt)
    || (e.callback.ProvisioningDue? && a == e.callback.session.attempt)
  }

  lemma CutIndices(u: seq<Uplink>, k: nat)
    requires k < |u|
    ensures var v := u[..k] + u[k + 1..]; forall i | 0 <= i < |v| :: v[i] == u[if i < k then i else i + 1]
  {
  }

  lemma StreamCut(head: seq<Uplink>, up: seq<Uplink>, i: nat)
    requires i < |up|
    ensures var u, k := head + up, |head| + i; head + (up[..i] + up[i + 1..]) == u[..k] + u[k + 1..]
  {
  }

  /** The first half of a delivery: the frame leaves the queue. */
  function Popped(s: System): System
    requires s.up != []
  {
    s.(last := Some(s.up[0]), up := s.up[1..])
  }

  lemma PopCuts(s: System)
    requires s.up != []
    ensures var u := Stream(s); Stream(Popped(s)) == if s.last.Some? then u[..0] + u[1..] else u
  {
  }

  /** A section of the callback holds no response that it did not hold before. */
  lemma AnsweredShrinks(e: Listener.Entry, o: Listener.Oracle, a: Attempt)
    requires Listener.Disciplined(e) && Answered(a, Listener.Continue(e, o).entry)
    ensures Answered(a, e)
  {
  }

  lemma ReceiveAnswers(e: Listener.Entry, f: Uplink, a: Attempt)
    requires e.callback == Listener.Ready && Answered(a, Listener.Receive(e, f).entry)
    ensures Answered(a, e) || f == Response(a)
  {
  }

  // ----- what holds in every run: all that counts goes back to a signature of the server

  ghost predicate Signatures(signed: set<Attempt>, sealed: set<(Attempt, seq<byte>)>, started: seq<Attempt>) {
    (forall a :: a in signed ==> a in started) && (forall p :: p in sealed ==> p.0 in started)
  }

  /** The ESP only acts on what the server signed. */
  ghost predicate Grounded(d: Device.Device, signed: set<Attempt>) {
    && (d.session.state == WaitProvisioning ==> Attempt(d.session.counter, d.session.random) in signed)
    && (forall a :: a in d.responses ==> a in signed)
  }

  ghost predicate FramesSigned(u: seq<Uplink>, signed: set<Attempt>) {
    forall i | 0 <= i < |u| :: u[i].Response? ==> u[i].attempt in signed
  }

  ghost predicate HeardSigned(e: Listener.Entry, signed: set<Attempt>) {
    forall a :: Answered(a, e) ==> a in signed
  }

  ghost predicate Based(s: System) {
    && Listener.Disciplined(s.server)
    && Signatures(s.signed, s.sealed, s.server.started)
    && Grounded(s.dev, s.signed)
    && FramesSigned(Stream(s), s.signed)
    && HeardSigned(s.server, s.signed)
  }

  lemma GroundedKeeps(s: System, ev: Device.Event)
    requires Grounded(s.dev, s.signed) && CanArrive(s, ev)
    ensures Grounded(Device.Step(s.dev, ev).dev, s.signed)
  {
    Device.StepSourced(s.dev, ev);
  }

  lemma DeviceKeepsBased(s: System, ev: Device.Event)
    requires Based(s) && CanArrive(s, ev)
    ensures Based(Step(s, OnDevice(ev)))
  {
    var m := Device.Step(s.dev, ev);
    Device.SentTellsStatus(s.dev, ev);
    GroundedKeeps(s, ev);
    assert Stream(Step(s, OnDevice(ev))) == Stream(s) + Frame(m);
  }

  lemma LoseKeepsBased(s: System, i: nat)
    requires Based(s)
    ensures Based(Step(s, Lose(i)))
  {
    if i < |s.up| {
      var head := if s.last.Some? then [s.last.value] else [];
      StreamCut(head, s.up, i);
      CutIndices(Stream(s), |head| + i);
    }
  }

  lemma PopKeepsBased(s: System)
    requires Based(s) && s.up != []
    ensures Based(Popped(s))
  {
    PopCuts(s);
    if s.last.Some? { CutIndices(Stream(s), 0); }
  }

  lemma RedeliverKeepsBased(s: System)
    requires Based(s) && s.server.callback == Listener.Ready && s.last.Some?
    ensures Based(Step(s, Redeliver))
  {
    var f := s.last.value;
    var e := Listener.Receive(s.server, f).entry;
    assert Stream(s)[0] == f;
    Listener.ReceiveKeeps(s.server, f);
    forall a | Answered(a, e)
      ensures a in s.signed
    {
      ReceiveAnswers(s.server, f, a);
    }
    assert Stream(Step(s, Redeliver)) == Stream(s);
  }

  lemma ProceedSigns(s: System, r: Listener.Served)
    requires Based(s) && s.server.started <= r.entry.started
    requires r.sent.Some? ==> match r.sent.value
                 case Challenge(a) => a in s.server.started
                 case Provisioning(k, _) => k in s.server.started
    ensures Signatures(s.signed + NewlySigned(r.sent), s.sealed + NewlySealed(r.sent), r.entry.started)
  {
    var t, t' := s.server.started, r.entry.started;
    assert forall a :: a in t ==> a in t';
  }

  lemma ProceedKeepsBased(s: System, o: Listener.Oracle)
    requires Based(s)
    ensures Based(Step(s, Proceed(o)))
  {
    var r := Listener.Continue(s.server, o);
    Listener.ContinueKeeps(s.server, o);
    Listener.ContinueSends(s.server, o);
    ProceedSigns(s, r);
    forall a | Answered(a, r.entry)
      ensures a in s.signed
    {
      AnsweredShrinks(s.server, o, a);
    }
    assert Stream(Step(s, Proceed(o))) == Stream(s);
  }

  lemma TableKeepsBased(s: System, e: Event)
    requires Based(s) && (e.Tick? || e.ServerRestart?)
    ensures Based(Step(s, e))
  {
    if e.Tick? { Listener.TimeoutKeeps(s.server, e.now); } else { Listener.RestartKeeps(s.server); }
    assert Stream(Step(s, e)) == Stream(s);
  }

  lemma StepKeepsBased(s: System, e: Event)
    requires Based(s)
    ensures Based(Step(s, e))
  {
    match e
    case OnDevice(ev) => if CanArrive(s, ev) { DeviceKeepsBased(s, ev); }
    case Deliver =>
      if s.server.callback == Listener.Ready && s.up != [] {
        PopKeepsBased(s);
        RedeliverKeepsBased(Popped(s));
      }
    case Redeliver => if s.server.callback == Listener.Ready && s.last.Some? { RedeliverKeepsBased(s); }
    case Lose(i) => LoseKeepsBased(s, i);
    case Proceed(o) => ProceedKeepsBased(s, o);
    case Tick(_) => TableKeepsBased(s, e);
    case ServerRestart => TableKeepsBased(s, e);
  }

  /**
    In every run, however the tasks interleave: the server keeps its session discipline, and every response on
    the ESP, on its way or held by the server, and every attempt that waits for its P frame, was signed.
   */
  lemma {:induction false} RunIsBased(evs: seq<Event>)
    ensures Based(Run(evs))
  {
    if evs != [] {
      RunIsBased(evs[..|evs| - 1]);
      StepKeepsBased(Run(evs[..|evs| - 1]), evs[|evs| - 1]);
    }
  }

  // ----- what calm steps keep for the attempts of a window

  /** Committed, or overtaken by a later committed attempt. */
  ghost predicate Settled(a: Attempt, completed: seq<Attempt>) {
    a in completed || (completed != [] && a.counter < Last(completed).counter)
  }

  ghost predicate Numbered(u: seq<Uplink>, lastHello: nat, floor: nat) {
    forall i | 0 <= i < |u| :: u[i].Response? && u[i].attempt.counter > floor ==> u[i].attempt.counter <= lastHello
  }

  /** A T|0|42 behind a response speaks of that attempt or of a later one. */
  ghost predicate InOrder(u: seq<Uplink>, completed: seq<Attempt>, floor: nat) {
    forall i, j | 0 <= i < j < |u| ::
      u[i].Response? && u[i].attempt.counter > floor && u[j] == DONE ==> Settled(u[i].attempt, completed)
  }

  ghost predicate Claims(u: seq<Uplink>, e: Listener.Entry, completed: seq<Attempt>, floor: nat) {
    DONE in u ==> forall a :: Answered(a, e) && a.counter > floor ==> Settled(a, completed)
  }

  ghost predicate Heard(e: Listener.Entry, lastHello: nat, floor: nat) {
    forall a :: Answered(a, e) && a.counter > floor ==> a.counter <= lastHello
  }

  ghost predicate Confirmed(e: Listener.Entry, completed: seq<Attempt>, floor: nat) {
    && (e.callback.Taken? && e.callback.session.attempt.counter > floor ==> e.callback.session.attempt in completed)
    && (forall a :: a in e.saved && a.counter > floor ==> a in completed)
  }

  ghost predicate AllIn(completed: seq<Attempt>, signed: set<Attempt>) { forall a :: a in completed ==> a in signed }

  /** The commits of the window. */
  function Commits(s: System, w: Device.Window): seq<Attempt> { Device.Recent(s.dev.history, w) }

  ghost predicate InvSince(s: System, w: Device.Window) {
    var c, u, h := Commits(s, w), Stream(s), s.dev.history.lastHello;
    && Based(s) && Device.InvSince(s.dev, w)
    && AllIn(c, s.signed)
    && Numbered(u, h, w.floor)
    && InOrder(u, c, w.floor)
    && Claims(u, s.server, c, w.floor)
    && Confirmed(s.server, c, w.floor)
    && Heard(s.server, h, w.floor)
  }

  /** Since the first boot. */
  ghost predicate Inv(s: System) { InvSince(s, Device.WHOLE) }

  // ----- steps of the ESP

  lemma SettledGrows(a: Attempt, before: seq<Attempt>, after: seq<Attempt>)
    requires Settled(a, before) && before <= after && Increasing(after)
    ensures Settled(a, after)
  {
    if before != [] && a.counter < Last(before).counter && |before| < |after| {
      assert Last(before) == after[|before| - 1];
    }
  }

  lemma OrderSurvives(u: seq<Uplink>, before: seq<Attempt>, after: seq<Attempt>, floor: nat)
    requires InOrder(u, before, floor) && before <= after && Increasing(after)
    ensures InOrder(u, after, floor)
  {
    forall i, j | 0 <= i < j < |u| && u[i].Response? && u[i].attempt.counter > floor && u[j] == DONE
      ensures Settled(u[i].attempt, after)
    {
      SettledGrows(u[i].attempt, before, after);
    }
  }

  lemma ClaimsSurvive(u: seq<Uplink>, e: Listener.Entry, before: seq<Attempt>, after: seq<Attempt>, floor: nat)
    requires Claims(u, e, before, floor) && before <= after && Increasing(after)
    ensures Claims(u, e, after, floor)
  {
    forall a | DONE in u && Answered(a, e) && a.counter > floor
      ensures Settled(a, after)
    {
      SettledGrows(a, before, after);
    }
  }

  /** When the ESP reports completion, every attempt signed so far and not newer is settled. */
  lemma DoneSettles(d: Device.Device, w: Device.Window, signed: set<Attempt>, started: seq<Attempt>, a: Attempt)
    requires Device.InvSince(d, w) && d.status == PROVISIONING_COMPLETE
    requires AllIn(Device.Recent(d.history, w), signed) && (forall x :: x in signed ==> x in started)
    requires Increasing(started) && a in started && a.counter <= d.history.lastHello
    ensures Settled(a, Device.Recent(d.history, w))
  {
    var l := Last(Device.Recent(d.history, w));
    assert l in Device.Recent(d.history, w) && l in started;
    if a.counter == l.counter {
      var i, j :| 0 <= i < |started| && 0 <= j < |started| && started[i] == a && started[j] == l;
      assert i == j;
    }
  }

  /** What a window has seen committed only grows, by signed attempts. */
  lemma CommitsGrow(s: System, ev: Device.Event, w: Device.Window)
    requires InvSince(s, w) && CanArrive(s, ev)
    ensures var c, c' := Commits(s, w), Device.Recent(Device.Step(s.dev, ev).dev.history, w);
            c <= c' && AllIn(c', s.signed)
  {
    var h, h' := s.dev.history, Device.Step(s.dev, ev).dev.history;
    var a := Attempt(s.dev.session.counter, s.dev.session.random);
    Device.HistoryGrows(s.dev, ev);
    if h'.completed != h.completed {
      assert h'.completed[w.first..] == h.completed[w.first..] + [a];
      assert forall x :: x in h'.completed[w.first..] ==> x in h.completed[w.first..] || x == a;
    }
  }

  lemma DeviceKeepsNumbered(s: System, ev: Device.Event, w: Device.Window)
    requires InvSince(s, w) && CanArrive(s, ev) && Device.Renews(s.dev, ev, true)
    ensures var m := Device.Step(s.dev, ev);
            Numbered(Stream(s) + Frame(m), m.dev.history.lastHello, w.floor) &&
            Heard(s.server, m.dev.history.lastHello, w.floor)
  {
    var m := Device.Step(s.dev, ev);
    Device.SentTellsStatus(s.dev, ev);
    Device.HistoryGrows(s.dev, ev);
  }

  lemma AppendOrder(u: seq<Uplink>, v: Uplink, completed: seq<Attempt>, floor: nat)
    requires InOrder(u, completed, floor)
    requires v == DONE ==>
               forall i | 0 <= i < |u| ::
                 u[i].Response? && u[i].attempt.counter > floor ==> Settled(u[i].attempt, completed)
    ensures InOrder(u + [v], completed, floor)
  {
  }

  lemma DeviceKeepsOrder(s: System, ev: Device.Event, w: Device.Window)
    requires InvSince(s, w) && CanArrive(s, ev) && Device.Calm(s.dev, ev) && Device.Renews(s.dev, ev, true)
    ensures var m := Device.Step(s.dev, ev); var c := Device.Recent(m.dev.history, w);
            InOrder(Stream(s) + Frame(m), c, w.floor) && Claims(Stream(s) + Frame(m), s.server, c, w.floor)
  {
    var m := Device.Step(s.dev, ev);
    var u, c, c' := Stream(s), Commits(s, w), Device.Recent(m.dev.history, w);
    Device.StepKeeps(s.dev, ev, w);
    CommitsGrow(s, ev, w);
    OrderSurvives(u, c, c', w.floor);
    ClaimsSurvive(u, s.server, c, c', w.floor);
    DeviceReports(s, ev, w);
    if m.sent.None? {
      assert u + Frame(m) == u;
    } else {
      AppendOrder(u, m.sent.value, c', w.floor);
    }
  }

  /** A T|0|42 that leaves the ESP settles every response on its way and every one the server holds. */
  lemma DeviceReports(s: System, ev: Device.Event, w: Device.Window)
    requires InvSince(s, w) && CanArrive(s, ev) && Device.Calm(s.dev, ev) && Device.Renews(s.dev, ev, true)
    ensures var m := Device.Step(s.dev, ev); var c := Device.Recent(m.dev.history, w);
            m.sent == Some(DONE) ==>
              && (forall i | 0 <= i < |Stream(s)| ::
                    Stream(s)[i].Response? && Stream(s)[i].attempt.counter > w.floor ==>
                      Settled(Stream(s)[i].attempt, c))
              && (forall a :: Answered(a, s.server) && a.counter > w.floor ==> Settled(a, c))
  {
    var m := Device.Step(s.dev, ev);
    Device.StepKeeps(s.dev, ev, w);
    Device.SentTellsStatus(s.dev, ev);
    CommitsGrow(s, ev, w);
    DeviceKeepsNumbered(s, ev, w);
    if m.sent == Some(DONE) {
      forall a | a in s.server.started && a.counter <= m.dev.history.lastHello
        ensures Settled(a, Device.Recent(m.dev.history, w))
      {
        DoneSettles(m.dev, w, s.signed, s.server.started, a);
      }
      forall a | Answered(a, s.server) && a.counter > w.floor
        ensures Settled(a, Device.Recent(m.dev.history, w))
      {
        assert a in s.signed;
      }
      assert forall i | 0 <= i < |Stream(s)| :: (Stream(s) + Frame(m))[i] == Stream(s)[i];
    }
  }

  /** The pieces of the invariant after a step of the ESP. */
  lemma Assembled(s: System, m: Device.Moved, w: Device.Window)
    requires InvSince(s, w) && Based(s.(dev := m.dev, up := s.up + Frame(m))) && Device.InvSince(m.dev, w)
    requires var c, u, h := Device.Recent(m.dev.history, w), Stream(s) + Frame(m), m.dev.history.lastHello;
             && Commits(s, w) <= c && AllIn(c, s.signed)
             && Numbered(u, h, w.floor) && InOrder(u, c, w.floor)
             && Claims(u, s.server, c, w.floor) && Heard(s.server, h, w.floor)
    ensures InvSince(s.(dev := m.dev, up := s.up + Frame(m)), w)
  {
    assert Stream(s.(dev := m.dev, up := s.up + Frame(m))) == Stream(s) + Frame(m);
    assert forall a :: a in Commits(s, w) ==> a in Device.Recent(m.dev.history, w);
  }

  lemma DeviceKeeps(s: System, ev: Device.Event, w: Device.Window)
    requires InvSince(s, w) && CanArrive(s, ev) && Device.Calm(s.dev, ev) && Device.Renews(s.dev, ev, true)
    ensures InvSince(Step(s, OnDevice(ev)), w)
  {
    DeviceKeepsBased(s, ev);
    Device.StepKeeps(s.dev, ev, w);
    CommitsGrow(s, ev, w);
    DeviceKeepsNumbered(s, ev, w);
    DeviceKeepsOrder(s, ev, w);
    Assembled(s, Device.Step(s.dev, ev), w);
  }

  // ----- steps of the channel and the server

  lemma CutKeeps(u: seq<Uplink>, k: nat, s: System, w: Device.Window)
    requires k < |u|
    requires Numbered(u, s.dev.history.lastHello, w.floor) && InOrder(u, Commits(s, w), w.floor)
             && Claims(u, s.server, Commits(s, w), w.floor)
    ensures var v := u[..k] + u[k + 1..];
            Numbered(v, s.dev.history.lastHello, w.floor) && InOrder(v, Commits(s, w), w.floor)
                && Claims(v, s.server, Commits(s, w), w.floor)
  {
    var v := u[..k] + u[k + 1..];
    CutIndices(u, k);
    assert DONE in v ==> DONE in u;
  }

  lemma LoseKeeps(s: System, i: nat, w: Device.Window)
    requires InvSince(s, w)
    ensures InvSince(Step(s, Lose(i)), w)
  {
    LoseKeepsBased(s, i);
    if i < |s.up| {
      var head := if s.last.Some? then [s.last.value] else [];
      StreamCut(head, s.up, i);
      CutKeeps(Stream(s), |head| + i, s, w);
    }
  }

  lemma TableKeeps(s: System, e: Event, w: Device.Window)
    requires InvSince(s, w) && (e.Tick? || e.ServerRestart?)
    ensures InvSince(Step(s, e), w)
  {
    TableKeepsBased(s, e);
    assert Stream(Step(s, e)) == Stream(s);
    assert forall x :: Answered(x, Step(s, e).server) ==> Answered(x, s.server);
  }

  /** T|0|42 for a session of the window means that the ESP committed exactly this session's attempt. */
  lemma FinishIsTrue(s: System, w: Device.Window)
    requires InvSince(s, w) && DONE in Stream(s) && Listener.CanFinish(s.server.session)
    requires s.server.session.value.attempt.counter > w.floor
    ensures s.server.session.value.attempt in Commits(s, w)
  {
    var a, c := s.server.session.value.attempt, Commits(s, w);
    assert Answered(a, s.server);
    assert Settled(a, c);
    if c != [] {
      assert Last(c) in c && Last(c) in s.signed && Last(c) in s.server.started;
    }
  }

  lemma ReceiveClaims(s: System, f: Uplink, w: Device.Window)
    requires InvSince(s, w) && s.server.callback == Listener.Ready && s.last == Some(f)
    ensures var e := Listener.Receive(s.server, f).entry;
            && Claims(Stream(s), e, Commits(s, w), w.floor)
            && Confirmed(e, Commits(s, w), w.floor)
            && Heard(e, s.dev.history.lastHello, w.floor)
  {
    var e, u := Listener.Receive(s.server, f).entry, Stream(s);
    assert u[0] == f;
    if f == DONE && Listener.CanFinish(s.server.session) && s.server.session.value.attempt.counter > w.floor {
      FinishIsTrue(s, w);
    }
    forall a | Answered(a, e) && a.counter > w.floor
      ensures a.counter <= s.dev.history.lastHello && (DONE in u ==> Settled(a, Commits(s, w)))
    {
      ReceiveAnswers(s.server, f, a);
      if f == Response(a) && DONE in u {
        var j :| 0 <= j < |u| && u[j] == DONE;
        assert u[0].Response?;
      }
    }
  }

  lemma RedeliverKeeps(s: System, w: Device.Window)
    requires InvSince(s, w) && s.server.callback == Listener.Ready && s.last.Some?
    ensures InvSince(Step(s, Redeliver), w)
  {
    RedeliverKeepsBased(s);
    ReceiveClaims(s, s.last.value, w);
    assert Stream(Step(s, Redeliver)) == Stream(s);
  }

  lemma PopKeeps(s: System, w: Device.Window)
    requires InvSince(s, w) && s.up != []
    ensures InvSince(Popped(s), w)
  {
    PopKeepsBased(s);
    PopCuts(s);
    if s.last.Some? { CutKeeps(Stream(s), 0, s, w); }
  }

  lemma ProceedConfirms(e: Listener.Entry, o: Listener.Oracle, completed: seq<Attempt>, floor: nat)
    requires Confirmed(e, completed, floor)
    ensures Confirmed(Listener.Continue(e, o).entry, completed, floor)
  {
    var e' := Listener.Continue(e, o).entry;
    assert forall a :: a in e'.saved ==> a in e.saved || (e.callback.Taken? && a == e.callback.session.attempt);
  }

  lemma ProceedKeeps(s: System, o: Listener.Oracle, w: Device.Window)
    requires InvSince(s, w)
    ensures InvSince(Step(s, Proceed(o)), w)
  {
    var e' := Listener.Continue(s.server, o).entry;
    ProceedKeepsBased(s, o);
    ProceedConfirms(s.server, o, Commits(s, w), w.floor);
    forall a | Answered(a, e')
      ensures Answered(a, s.server)
    {
      AnsweredShrinks(s.server, o, a);
    }
    assert Stream(Step(s, Proceed(o))) == Stream(s);
  }

  lemma StepKeeps(s: System, e: Event, w: Device.Window)
    requires InvSince(s, w) && Allowed(s, e)
    ensures InvSince(Step(s, e), w)
  {
    match e
    case OnDevice(ev) => if CanArrive(s, ev) { DeviceKeeps(s, ev, w); }
    case Deliver =>
      if s.server.callback == Listener.Ready && s.up != [] {
        PopKeeps(s, w);
        RedeliverKeeps(Popped(s), w);
      }
    case Redeliver => if s.server.callback == Listener.Ready && s.last.Some? { RedeliverKeeps(s, w); }
    case Lose(i) => LoseKeeps(s, i, w);
    case Proceed(o) => ProceedKeeps(s, o, w);
    case Tick(_) => TableKeeps(s, e, w);
    case ServerRestart => TableKeeps(s, e, w);
  }

  lemma {:induction false} RunKeeps(evs: seq<Event>)
    requires CalmRun(evs) && RenewingRun(evs, true)
    ensures Inv(Run(evs))
  {
    if evs != [] {
      RunKeeps(evs[..|evs| - 1]);
      StepKeeps(Run(evs[..|evs| - 1]), evs[|evs| - 1], Device.WHOLE);
    }
  }

  lemma RunExtends(base: seq<Event>, more: seq<Event>)
    requires more != []
    ensures Run(base + more) == Step(Run(base + more[..|more| - 1]), more[|more| - 1])
  {
    assert (base + more)[..|base + more| - 1] == base + more[..|more| - 1];
  }

  lemma {:induction false} WindowKeeps(base: seq<Event>, more: seq<Event>, w: Device.Window)
    requires InvSince(Run(base), w) && CalmAfter(base, more)
    ensures InvSince(Run(base + more), w)
    decreases |more|
  {
    if more == [] {
      assert base + more == base;
    } else {
      var before, e := more[..|more| - 1], more[|more| - 1];
      WindowKeeps(base, before, w);
      RunExtends(base, more);
      StepKeeps(Run(base + before), e, w);
    }
  }

  /** The window that opens in a state: what the server accepts and the ESP commits from now on. */
  function WindowOf(s: System): Device.Window {
    Device.Window(s.server.helloMark, |s.dev.history.completed|)
  }

  // ----- the run that the ESP takes part in

  /** The events of the ESP in a run of the system. */
  function Projected(evs: seq<Event>): seq<Device.Event> {
    if evs == [] then []
    else
      var before, e := evs[..|evs| - 1], evs[|evs| - 1];
      Projected(before) + if e.OnDevice? && CanArrive(Run(before), e.event) then [e.event] else []
  }

  lemma {:induction false} RunProjects(evs: seq<Event>)
    ensures Run(evs).dev == LastKnownGood.Run(Device.FirstBoot(), Projected(evs))
  {
    if evs != [] {
      var before, e := evs[..|evs| - 1], evs[|evs| - 1];
      RunProjects(before);
      if e.OnDevice? && CanArrive(Run(before), e.event) {
        assert Projected(evs)[..|Projected(evs)| - 1] == Projected(before);
      } else {
        assert Projected(evs) == Projected(before);
      }
    }
  }

  /** An authenticated frame that the server sealed. */
  ghost predicate FromServer(x: Device.Authentic, sealed: set<(Attempt, seq<byte>)>) {
    exists plain :: (x.attempt, plain) in sealed && Parse(plain) == Success(x.config)
  }

  ghost predicate Delivered(authenticated: seq<Device.Authentic>, sealed: set<(Attempt, seq<byte>)>) {
    forall i | 0 <= i < |authenticated| :: FromServer(authenticated[i], sealed)
  }

  lemma MoreSealed(authenticated: seq<Device.Authentic>, sealed: set<(Attempt, seq<byte>)>,
                   more: set<(Attempt, seq<byte>)>)
    requires Delivered(authenticated, sealed) && sealed <= more
    ensures Delivered(authenticated, more)
  {
    forall i | 0 <= i < |authenticated|
      ensures FromServer(authenticated[i], more)
    {
      assert FromServer(authenticated[i], sealed);
    }
  }

  lemma DeviceDelivers(s: System, ev: Device.Event)
    requires Delivered(s.dev.history.authenticated, s.sealed) && CanArrive(s, ev)
    ensures Delivered(Device.Step(s.dev, ev).dev.history.authenticated, s.sealed)
  {
    match ev
    case RunHello(n, x) => Device.HelloIsBackground(s.dev, n, x);
    case RunApply(t) => Device.ApplyIsBackground(s.dev.(applies := s.dev.applies - multiset{t}), t);
    case ReceiveProvisioning(k, plain) => AcceptanceDelivers(s, k, plain);
    case _ =>
  }

  lemma AcceptanceDelivers(s: System, k: Option<Attempt>, plain: seq<byte>)
    requires Delivered(s.dev.history.authenticated, s.sealed) && CanArrive(s, Device.ReceiveProvisioning(k, plain))
    ensures Delivered(Device.StepProvisioning(s.dev, k, plain).dev.history.authenticated, s.sealed)
  {
    var auth, auth' := s.dev.history.authenticated, Device.StepProvisioning(s.dev, k, plain).dev.history.authenticated;
    if auth' != auth {
      assert (k.value, plain) in s.sealed && Parse(plain) == Success(auth'[|auth|].config);
      assert FromServer(auth'[|auth|], s.sealed);
    }
  }

  lemma StepDelivers(s: System, e: Event)
    requires Delivered(s.dev.history.authenticated, s.sealed)
    ensures Delivered(Step(s, e).dev.history.authenticated, Step(s, e).sealed)
  {
    if e.OnDevice? {
      if CanArrive(s, e.event) { DeviceDelivers(s, e.event); }
    } else {
      MoreSealed(s.dev.history.authenticated, s.sealed, Step(s, e).sealed);
    }
  }

  lemma {:induction false} RunDelivers(evs: seq<Event>)
    ensures Delivered(Run(evs).dev.history.authenticated, Run(evs).sealed)
  {
    if evs != [] {
      RunDelivers(evs[..|evs| - 1]);
      StepDelivers(Run(evs[..|evs| - 1]), evs[|evs| - 1]);
    }
  }

  // ----- results over whole runs

  /**
    In every run the ESP stores a configuration only as the server sealed it for the same attempt: what
    is stored came with the last frame that was authenticated.
   */
  lemma ConfigurationsAreSealed(evs: seq<Event>)
    ensures var s := Run(evs);
            && Delivered(s.dev.history.authenticated, s.sealed)
            && LastKnownGood.Holds(s.dev.session.prov, s.dev.history.authenticated)
  {
    RunDelivers(evs);
    RunProjects(evs);
    LastKnownGood.RunKeepsSound(Device.FirstBoot(), Projected(evs));
  }

  /** Any state in which a window opens starts one, whatever happened before. */
  lemma WindowOpens(base: seq<Event>)
    requires Device.Opening(Run(base).dev)
    ensures InvSince(Run(base), WindowOf(Run(base)))
  {
    var s := Run(base);
    RunIsBased(base);
    RunProjects(base);
    LastKnownGood.RunKeepsSound(Device.FirstBoot(), Projected(base));
    LastKnownGood.OpeningOpens(s.dev, s.server.helloMark);
  }

  lemma StepVouches(s: System, e: Event, first: nat)
    requires LastKnownGood.VouchedSince(s.dev, first) && LastKnownGood.RecordWaits(s.dev.session) && CalmStep(s, e)
    ensures LastKnownGood.VouchedSince(Step(s, e).dev, first)
  {
    if e.OnDevice? && CanArrive(s, e.event) {
      LastKnownGood.StepKeepsVouched(s.dev, e.event, first);
    }
  }

  lemma {:induction false} WindowVouches(base: seq<Event>, more: seq<Event>)
    requires Run(base).dev.callback != Device.Stored && CalmAfter(base, more)
    ensures LastKnownGood.VouchedSince(Run(base + more).dev, |Run(base).dev.history.completed|)
    decreases |more|
  {
    if more == [] {
      assert base + more == base;
    } else {
      var before, e := more[..|more| - 1], more[|more| - 1];
      WindowVouches(base, before);
      RunExtends(base, more);
      RunProjects(base + before);
      LastKnownGood.RunKeepsSound(Device.FirstBoot(), Projected(base + before));
      StepVouches(Run(base + before), e, |Run(base).dev.history.completed|);
    }
  }

  lemma NoneAboveLast(c: seq<Attempt>, a: Attempt)
    requires Increasing(c) && a in c
    ensures a.counter <= Last(c).counter
  {
    var i :| 0 <= i < |c| && c[i] == a;
  }

  /**
    Agreement, whatever happened before: from any state in which a window opens, as long as the scheduler is
    calm and H numbers renew, a context that the server made durable for an H frame it accepted in the window
    is the attempt of a P frame that the ESP authenticated, stored and committed in the window, and the ESP has
    committed nothing older since.
   */
  lemma AgreementInWindow(base: seq<Event>, more: seq<Event>)
    requires Device.Opening(Run(base).dev) && CalmAfter(base, more)
    ensures var s := Run(base + more); var h := s.dev.history; var c := Commits(s, WindowOf(Run(base)));
            s.server.context.Some? && s.server.context.value.counter > Run(base).server.helloMark ==>
              && LastKnownGood.WasAuthenticated(h.authenticated, s.server.context.value)
              && s.server.context.value in c && s.server.context.value.counter <= Last(c).counter
  {
    var s, w := Run(base + more), WindowOf(Run(base));
    WindowOpens(base);
    WindowKeeps(base, more, w);
    WindowVouches(base, more);
    if s.server.context.Some? && s.server.context.value.counter > w.floor {
      assert s.server.context == Some(Last(s.server.saved)) && Last(s.server.saved) in s.server.saved;
      NoneAboveLast(Commits(s, w), s.server.context.value);
      var i :| 0 <= i < |Commits(s, w)| && Commits(s, w)[i] == s.server.context.value;
      assert Commits(s, w)[i] == s.dev.history.completed[w.first + i];
    }
  }

  lemma {:induction false} CalmFromBoot(evs: seq<Event>)
    requires CalmRun(evs) && RenewingRun(evs, true)
    ensures CalmAfter([], evs)
  {
    if evs != [] {
      CalmFromBoot(evs[..|evs| - 1]);
      assert [] + evs[..|evs| - 1] == evs[..|evs| - 1];
    }
  }

  /** A context of the server has a number that the ESP took from its cell. */
  lemma ContextIsNumbered(evs: seq<Event>)
    ensures Run(evs).server.context.Some? ==> Run(evs).server.context.value.counter > 0
  {
    RunIsBased(evs);
    var e := Run(evs).server;
    if e.context.Some? {
      assert Last(e.saved) in e.saved;
    }
  }

  /**
    Agreement: a context the server made durable is the attempt of a P frame that the ESP authenticated,
    stored and committed, and the ESP has committed nothing older since.
   */
  lemma Agreement(evs: seq<Event>)
    requires CalmRun(evs) && RenewingRun(evs, true)
    ensures var s := Run(evs); var h := s.dev.history;
            s.server.context.Some? ==>
              && LastKnownGood.WasAuthenticated(h.authenticated, s.server.context.value)
              && s.server.context.value in h.completed
              && s.server.context.value.counter <= Last(h.completed).counter
  {
    assert [] + evs == evs;
    CalmFromBoot(evs);
    AgreementInWindow([], evs);
    ContextIsNumbered(evs);
  }

  /** The server saved the attempt that the ESP committed last, and the ESP's callback for it ended. */
  predicate Concluded(s: System) {
    var h := s.dev.history;
    h.completed != [] && h.finished && s.server.context == Some(Last(h.completed))
  }

  /**
    Key agreement, in every run and whatever the scheduler does: after a concluded attempt both sides derive
    their CHECK keys from it, exactly if no reset of the session came while the ESP still had to copy the
    attempt to its durable context.
   */
  lemma KeyAgreement(evs: seq<Event>)
    requires Concluded(Run(evs))
    ensures var s := Run(evs); Device.EffectiveContext(s.dev) == s.server.context <==> !s.dev.history.dropped
  {
    RunProjects(evs);
    ContextIsNumbered(evs);
    LastKnownGood.KeysAfterCallback(Projected(evs));
  }
}
