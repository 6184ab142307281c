/**
  The server side of provisioning (mqtt_listener.py): the session table behind its lock, the MQTT
  callback thread, the timeout thread and the two rows of the certificate table that provisioning
  writes. The callback thread is one thread; between two of its lock sections or transactions the
  timeout thread may run.
 */
module Listener {
  import opened Wrappers
  import opened Bytes
  import opened Protocol

  const MAX_COUNTER := 0x7fff_ffff_ffff_ffff
  const SESSION_TIMEOUT_SECONDS := 120

  datatype SessionState = WaitResponse | ProvisioningSent

  /**
    SecureSession. The attempt stands for the object: one device never gets two sessions with the
    same counter (lemma SessionsDiffer).
   */
  datatype Pending = Pending(attempt: Attempt, state: SessionState, created: int)

  // ----- one lock section or transaction each

  /** `if pending_sessions.get(d) is session: pop` */
  function Discarded(entry: Option<Pending>, s: Pending): Option<Pending> {
    if entry.Some? && entry.value.attempt == s.attempt then None else entry
  }

  /** Lines 350-354: the session is stored unless one is there. */
  function Stored(entry: Option<Pending>, s: Pending): Option<Pending> {
    if entry.Some? then entry else Some(s)
  }

  /** Lines 297-302 */
  predicate CanAdvance(entry: Option<Pending>, s: Pending) {
    entry.Some? && entry.value.attempt == s.attempt && entry.value.state == WaitResponse
  }

  function Advanced(entry: Option<Pending>, s: Pending): Option<Pending> {
    if CanAdvance(entry, s) then Some(entry.value.(state := ProvisioningSent)) else entry
  }

  /** Lines 200-205: only a session whose P frame was sent is taken out. */
  predicate CanFinish(entry: Option<Pending>) { entry.Some? && entry.value.state == ProvisioningSent }

  function Finished(entry: Option<Pending>): Option<Pending> { if CanFinish(entry) then None else entry }

  predicate Overdue(entry: Option<Pending>, now: int) {
    entry.Some? && now - entry.value.created >= SESSION_TIMEOUT_SECONDS
  }

  /** Lines 163-166 */
  function Expired(entry: Option<Pending>, now: int): Option<Pending> { if Overdue(entry, now) then None else entry }

  function TakenFor(looked: bool, entry: Option<Pending>, now: int): Option<Pending> {
    if looked && Overdue(entry, now) then entry else None
  }

  /** UPDATE ... SET last_hello_counter=? WHERE last_hello_counter < ? */
  function Raised(mark: nat, counter: nat): nat { if mark < counter then counter else mark }

  // ----- the table and its lock sections as they run

  function Get<K, V>(m: map<K, V>, k: K): Option<V> { if k in m then Some(m[k]) else None }

  type DeviceId = string

  class SessionTable {
    var pending: map<DeviceId, Pending>

    constructor ()
      ensures pending == map[]
    {
      pending := map[];
    }

    method Store(d: DeviceId, s: Pending) returns (ok: bool)
      modifies this
      ensures ok <==> d !in old(pending)
      ensures Get(pending, d) == Stored(Get(old(pending), d), s)
      ensures pending - {d} == old(pending) - {d}
    {
      if d in pending { return false; }
      pending := pending[d := s];
      return true;
    }

    method Advance(d: DeviceId, s: Pending) returns (ok: bool)
      modifies this
      ensures ok <==> CanAdvance(Get(old(pending), d), s)
      ensures Get(pending, d) == Advanced(Get(old(pending), d), s)
      ensures pending - {d} == old(pending) - {d}
    {
      if d !in pending { return false; }
      var current := pending[d];
      if current.attempt != s.attempt || current.state != WaitResponse { return false; }
      pending := pending[d := current.(state := ProvisioningSent)];
      return true;
    }

    method Discard(d: DeviceId, s: Pending)
      modifies this
      ensures Get(pending, d) == Discarded(Get(old(pending), d), s)
      ensures pending - {d} == old(pending) - {d}
    {
      if d in pending && pending[d].attempt == s.attempt {
        pending := pending - {d};
      }
    }

    method TakeFinished(d: DeviceId) returns (taken: Option<Pending>)
      modifies this
      ensures taken == if CanFinish(Get(old(pending), d)) then Get(old(pending), d) else None
      ensures Get(pending, d) == Finished(Get(old(pending), d))
      ensures pending - {d} == old(pending) - {d}
    {
      if d !in pending || pending[d].state != ProvisioningSent { return None; }
      taken := Some(pending[d]);
      pending := pending - {d};
    }

    /** One round of session_timeout_loop over list(pending_sessions.items()). */
    method TakeExpired(now: int, items: seq<DeviceId>) returns (expired: map<DeviceId, Pending>)
      requires forall d :: d in items <==> d in pending
      requires forall i, j | 0 <= i < j < |items| :: items[i] != items[j]
      modifies this
      ensures forall d :: Get(pending, d) == Expired(Get(old(pending), d), now)
      ensures forall d :: Get(expired, d) == TakenFor(true, Get(old(pending), d), now)
    {
      expired := map[];
      for k := 0 to |items|
        invariant Swept(old(pending), pending, expired, items[k..], now)
      {
        var d := items[k];
        assert items[k..] == [d] + items[k + 1..];
        SweepOne(old(pending), pending, expired, d, items[k + 1..], now);
        if now - pending[d].created >= SESSION_TIMEOUT_SECONDS {
          expired := expired[d := pending[d]];
          pending := pending - {d};
        }
      }
    }
  }

  /** The timeout loop has dealt with all devices but those in `rest`. */
  ghost predicate Swept(before: map<DeviceId, Pending>, pending: map<DeviceId, Pending>,
                        expired: map<DeviceId, Pending>, rest: seq<DeviceId>, now: int) {
    && (forall d :: Get(pending, d) == if d in rest then Get(before, d) else Expired(Get(before, d), now))
    && (forall d :: Get(expired, d) == TakenFor(d !in rest, Get(before, d), now))
    && (forall d :: d in rest ==> d in before)
  }

  lemma SweepOne(before: map<DeviceId, Pending>, pending: map<DeviceId, Pending>, expired: map<DeviceId, Pending>,
                 d: DeviceId, rest: seq<DeviceId>, now: int)
    requires Swept(before, pending, expired, [d] + rest, now) && d !in rest
    ensures d in pending
    ensures if now - pending[d].created >= SESSION_TIMEOUT_SECONDS
            then Swept(before, pending - {d}, expired[d := pending[d]], rest, now)
            else Swept(before, pending, expired, rest, now)
  {
    assert d in [d] + rest && Get(pending, d) == Get(before, d);
    assert forall x :: x in [d] + rest <==> x == d || x in rest;
  }

  // ----- the callback thread for one device, from section to section

  /** Where on_message stands while it works on a frame of this device. */
  datatype Callback =
    | Ready
    | HelloChecked(counter: nat)
    | HelloAccepted(counter: nat)
    | ChallengeBuilt(session: Pending)
    | ChallengeStored(session: Pending)
    | ResponseRead(session: Pending, signed: Attempt)
    | ResponseVerified(session: Pending)
    | ProvisioningDue(session: Pending)
    | Dropping(session: Pending)
    | Taken(session: Pending)

  /** What the server keeps for one device; the last three are history for the proofs. */
  datatype Entry = Entry(
    helloMark: nat, statusMark: nat, context: Option<Attempt>, session: Option<Pending>, callback: Callback,
    started: seq<Attempt>, removed: seq<Attempt>, saved: seq<Attempt>)

  /** What the world decides for one section of the callback. */
  datatype Oracle = Oracle(
    registered: bool,         // the certificate row exists, fits the ecosystem and is in its validity period
    random: nat,              // os.urandom(8)
    now: int,                 // time.monotonic()
    built: bool,              // the attempt was noted in the activity tables and the challenge was built
    plain: Option<seq<byte>>, // the provisioning plaintext, or an exception while it is built
    published: bool,          // the broker took the message
    noted: bool,              // the activity tables took the news of a published message
    committed: bool)          // the context transaction committed

  datatype Served = Served(entry: Entry, sent: Option<Downlink>)

  function Idle(e: Entry): Served { Served(e.(callback := Ready), None) }

  function Pop(e: Entry, after: Option<Pending>): Entry {
    e.(session := after,
       removed := if e.session.Some? && after.None? then e.removed + [e.session.value.attempt] else e.removed)
  }

  /**
    on_message up to the end of its first section. Status frames go to status_listener.py; one that
    it refuses for another reason than its counter counts as lost.
   */
  function Receive(e: Entry, frame: Uplink): Served
    requires e.callback == Ready
  {
    match frame
    case Hello(c) => if e.session.Some? then Idle(e) else Served(e.(callback := HelloChecked(c)), None)
    case Response(a) =>
      if e.session.None? || e.session.value.state != WaitResponse then Idle(e)
      else Served(e.(callback := ResponseRead(e.session.value, a)), None)
    case Control(enabled, status) =>
      if enabled || status != PROVISIONING_COMPLETE || !CanFinish(e.session) then Idle(e)
      else Served(Pop(e, Finished(e.session)).(callback := Taken(e.session.value)), None)
    case Status(c) =>
      Served(e.(statusMark := if 0 < c <= MAX_COUNTER then Raised(e.statusMark, c) else e.statusMark), None)
  }

  /** The next section of on_message. */
  function Continue(e: Entry, o: Oracle): Served {
    match e.callback
    case Ready => Served(e, None)
    case HelloChecked(c) =>
      if c == 0 || c > MAX_COUNTER || !o.registered || c <= e.helloMark then Idle(e)
      else Served(e.(helloMark := Raised(e.helloMark, c), callback := HelloAccepted(c)), None)
    case HelloAccepted(c) =>
      if !o.built then Idle(e)
      else Served(e.(callback := ChallengeBuilt(Pending(Attempt(c, o.random), WaitResponse, o.now))), None)
    case ChallengeBuilt(s) =>
      if e.session.Some? then Idle(e)
      else Served(e.(session := Stored(e.session, s), started := e.started + [s.attempt],
                     callback := ChallengeStored(s)), None)
    case ChallengeStored(s) =>
      Served(e.(callback := if o.published && o.noted then Ready else Dropping(s)),
             if o.published then Some(Challenge(s.attempt)) else None)
    case ResponseRead(s, signed) =>
      Served(e.(callback := if signed == s.attempt then ResponseVerified(s) else Dropping(s)), None)
    case ResponseVerified(s) =>
      if !o.built || !CanAdvance(e.session, s) then Idle(e)
      else Served(e.(session := Advanced(e.session, s), callback := ProvisioningDue(s)), None)
    case ProvisioningDue(s) =>
      var sent := o.plain.Some? && o.published;
      Served(e.(callback := if sent && o.noted then Ready else Dropping(s)),
             if sent then Some(Provisioning(s.attempt, o.plain.value)) else None)
    case Dropping(s) => Idle(Pop(e, Discarded(e.session, s)))
    case Taken(s) =>
      if o.committed && s.attempt.counter > 0
      then Idle(e.(context := Some(s.attempt), saved := e.saved + [s.attempt]))
      else Idle(e)
  }

  /** The timeout thread, between any two sections of the callback. */
  function Timeout(e: Entry, now: int): Entry { Pop(e, Expired(e.session, now)) }

  /** A restart of the listener: the table and the callback are lost, the rows stay. */
  function Restarted(e: Entry): Entry { Pop(e, None).(callback := Ready) }

  datatype ServerEvent = Arrive(frame: Uplink) | Proceed(oracle: Oracle) | Tick(now: int) | Reboot

  function ServerStep(e: Entry, ev: ServerEvent): Entry {
    match ev
    case Arrive(f) => if e.callback == Ready then Receive(e, f).entry else e
    case Proceed(o) => Continue(e, o).entry
    case Tick(now) => Timeout(e, now)
    case Reboot => Restarted(e)
  }

  function ServerRun(evs: seq<ServerEvent>): Entry {
    if evs == [] then Entry(0, 0, None, None, Ready, [], [], [])
    else ServerStep(ServerRun(evs[..|evs| - 1]), evs[|evs| - 1])
  }

  // ----- session discipline

  ghost predicate Fresh(c: nat, started: seq<Attempt>) { c > 0 && forall a :: a in started ==> a.counter < c }

  /** Sessions start in counter order at or below the mark. */
  ghost predicate Starts(mark: nat, started: seq<Attempt>) {
    Increasing(started) && forall a :: a in started ==> 0 < a.counter <= mark
  }

  /** Sessions are removed once each, and only removed ones are saved, in counter order. */
  ghost predicate Ledger(started: seq<Attempt>, removed: seq<Attempt>, saved: seq<Attempt>, context: Option<Attempt>) {
    && Distinct(removed) && (forall a :: a in removed ==> a in started)
    && Increasing(saved) && (forall a :: a in saved ==> a in removed)
    && context == (if saved == [] then None else Some(Last(saved)))
  }

  /** The session in the table is the latest one started and was never removed. */
  ghost predicate Current(session: Option<Pending>, mark: nat, started: seq<Attempt>, removed: seq<Attempt>) {
    session.Some? ==>
      && started != [] && session.value.attempt == Last(started)
      && session.value.attempt.counter == mark
      && session.value.attempt !in removed
  }

  ghost predicate IsLatest(s: Pending, started: seq<Attempt>) { started != [] && s.attempt == Last(started) }

  ghost predicate Position(c: Callback, session: Option<Pending>, mark: nat,
                           started: seq<Attempt>, removed: seq<Attempt>, saved: seq<Attempt>) {
    match c
    case Ready => true
    case HelloChecked(_) => session.None?
    case HelloAccepted(c) => session.None? && c == mark && Fresh(c, started)
    case ChallengeBuilt(s) =>
      session.None? && s.attempt.counter == mark && s.state == WaitResponse && Fresh(s.attempt.counter, started)
    case ChallengeStored(s) => IsLatest(s, started)
    case ResponseRead(s, _) => IsLatest(s, started)
    case ResponseVerified(s) => IsLatest(s, started)
    case ProvisioningDue(s) => IsLatest(s, started)
    case Dropping(s) => IsLatest(s, started)
    case Taken(s) =>
      && session.None? && removed != [] && s.attempt == Last(removed)
      && forall a :: a in saved ==> a.counter < s.attempt.counter
  }

  ghost predicate Disciplined(e: Entry) {
    && Starts(e.helloMark, e.started)
    && Ledger(e.started, e.removed, e.saved, e.context)
    && Current(e.session, e.helloMark, e.started, e.removed)
    && Position(e.callback, e.session, e.helloMark, e.started, e.removed, e.saved)
  }

  lemma ReceiveKeeps(e: Entry, f: Uplink)
    requires Disciplined(e) && e.callback == Ready
    ensures Disciplined(Receive(e, f).entry)
  {
    PopKeeps(e, None);
  }

  lemma PopKeeps(e: Entry, after: Option<Pending>)
    requires Disciplined(e) && (after == e.session || after == None)
    ensures var r := Pop(e, after).removed;
            Ledger(e.started, r, e.saved, e.context) && Current(after, e.helloMark, e.started, r)
  {
  }

  lemma StoreKeeps(e: Entry, o: Oracle)
    requires Disciplined(e) && e.callback.ChallengeBuilt?
    ensures Disciplined(Continue(e, o).entry)
  {
    var s := e.callback.session;
    var started := e.started + [s.attempt];
    assert forall a :: a in started ==> a in e.started || a == s.attempt;
    assert s.attempt !in e.started;
  }

  lemma DropKeeps(e: Entry, o: Oracle)
    requires Disciplined(e) && e.callback.Dropping?
    ensures Disciplined(Continue(e, o).entry)
  {
    PopKeeps(e, Discarded(e.session, e.callback.session));
  }

  lemma SaveKeeps(e: Entry, o: Oracle)
    requires Disciplined(e) && e.callback.Taken?
    ensures Disciplined(Continue(e, o).entry)
  {
    var s := e.callback.session;
    var saved := e.saved + [s.attempt];
    assert forall a :: a in saved ==> a in e.saved || a == s.attempt;
    assert forall i | 0 <= i < |e.saved| :: e.saved[i] in e.saved;
  }

  lemma ContinueKeeps(e: Entry, o: Oracle)
    requires Disciplined(e)
    ensures Disciplined(Continue(e, o).entry)
  {
    match e.callback
    case ChallengeBuilt(_) => StoreKeeps(e, o);
    case Dropping(_) => DropKeeps(e, o);
    case Taken(_) => SaveKeeps(e, o);
    case ResponseVerified(_) =>
    case _ => SilentKeeps(e, o);
  }

  /** The sections that leave the table alone. */
  lemma SilentKeeps(e: Entry, o: Oracle)
    requires Disciplined(e)
    requires !(e.callback.ChallengeBuilt? || e.callback.Dropping? || e.callback.Taken? || e.callback.ResponseVerified?)
    ensures Disciplined(Continue(e, o).entry)
  {
    assert e.callback.HelloChecked? ==> forall a :: a in e.started ==> a.counter <= e.helloMark;
  }

  /** Only started sessions are published, and starts are never forgotten. */
  lemma ContinueSends(e: Entry, o: Oracle)
    requires Disciplined(e)
    ensures var r := Continue(e, o);
            && e.started <= r.entry.started
            && (r.sent.Some? ==> match r.sent.value
                 case Challenge(a) => a in e.started && r.entry.started == e.started
                 case Provisioning(k, _) => k in e.started && r.entry.started == e.started)
  {
    if e.started != [] {
      assert Last(e.started) in e.started;
    }
  }

  lemma TimeoutKeeps(e: Entry, now: int)
    requires Disciplined(e)
    ensures Disciplined(Timeout(e, now))
  {
  }

  lemma RestartKeeps(e: Entry)
    requires Disciplined(e)
    ensures Disciplined(Restarted(e))
  {
    PopKeeps(e, None);
  }

  /** The discipline holds after every interleaving of frames, callback sections, timeouts and restarts. */
  lemma {:induction false} RunKeeps(evs: seq<ServerEvent>)
    ensures Disciplined(ServerRun(evs))
  {
    if evs != [] {
      RunKeeps(evs[..|evs| - 1]);
      var e := ServerRun(evs[..|evs| - 1]);
      match evs[|evs| - 1]
      case Arrive(f) => if e.callback == Ready { ReceiveKeeps(e, f); }
      case Proceed(o) => ContinueKeeps(e, o);
      case Tick(now) => TimeoutKeeps(e, now);
      case Reboot => RestartKeeps(e);
    }
  }

  /**
    Session discipline: sessions of one device have increasing counters, each leaves the table at
    most once, only removed sessions are saved, in increasing counter order, and the durable
    context is the last one saved. A session still in the table was never removed or saved.
   */
  lemma SessionDiscipline(evs: seq<ServerEvent>)
    ensures var e := ServerRun(evs);
            && Increasing(e.started) && Distinct(e.removed) && Increasing(e.saved)
            && (forall a :: a in e.saved ==> a in e.removed) && (forall a :: a in e.removed ==> a in e.started)
            && e.context == (if e.saved == [] then None else Some(Last(e.saved)))
            && (e.session.Some? ==> e.session.value.attempt !in e.removed && e.session.value.attempt !in e.saved)
            && (e.callback.ChallengeBuilt? ==> e.session.None?)
  {
    RunKeeps(evs);
  }

  /** The timeout thread takes a session out exactly if it is at least 120 seconds old, in every run. */
  lemma SessionsTimeOutExactly(evs: seq<ServerEvent>, now: int)
    ensures var e := ServerRun(evs);
            ServerRun(evs + [Tick(now)])
            == if e.session.Some? && now - e.session.value.created >= 120
               then e.(session := None, removed := e.removed + [e.session.value.attempt]) else e
  {
    assert (evs + [Tick(now)])[..|evs|] == evs;
  }

  /** Sessions of one device never share a counter, so the attempt identifies the session object. */
  lemma SessionsDiffer(evs: seq<ServerEvent>, a: Attempt, b: Attempt)
    requires a in ServerRun(evs).started && b in ServerRun(evs).started
    ensures a.counter == b.counter ==> a == b
  {
    RunKeeps(evs);
  }

  /**
    A context is saved only by the callback that took a session out in state PROVISIONING_SENT, and
    it takes it out only on T|0|42, in the same section that reads the state.
   */
  lemma OnlyFinishSaves(e: Entry, ev: ServerEvent)
    ensures var f := ServerStep(e, ev);
            && (f.saved != e.saved || f.context != e.context ==>
                  ev.Proceed? && e.callback.Taken? && f.saved == e.saved + [e.callback.session.attempt]
                  && f.context == Some(e.callback.session.attempt))
            && (f.callback.Taken? && f.callback != e.callback ==>
                  && ev == Arrive(Control(false, PROVISIONING_COMPLETE))
                  && e.session == Some(f.callback.session) && f.callback.session.state == ProvisioningSent
                  && f.session == None && f.removed == e.removed + [f.callback.session.attempt])
  {
  }
}
