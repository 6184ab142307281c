/**
  on_message of mqtt_listener.py as it runs when no other thread comes between its sections: each
  branch changes the session table and the certificate rows exactly as the machine of Listener does
  from the arrival of the frame until the callback is ready again.
 */
module ListenerCallbacks {
  import opened Wrappers
  import opened Protocol
  import opened Listener

  function Rank(c: Callback): nat {
    match c
    case Ready => 0
    case HelloChecked(_) => 5
    case HelloAccepted(_) => 4
    case ChallengeBuilt(_) => 3
    case ChallengeStored(_) => 2
    case ResponseRead(_, _) => 5
    case ResponseVerified(_) => 4
    case ProvisioningDue(_) => 2
    case Dropping(_) => 1
    case Taken(_) => 1
  }

  /** The remaining sections of the callback, one after another; the frames it publishes. */
  function Finish(e: Entry, o: Oracle): (Entry, seq<Downlink>)
    decreases Rank(e.callback)
  {
    if e.callback == Ready then (e, [])
    else
      var r := Continue(e, o);
      var (f, sent) := Finish(r.entry, o);
      (f, (if r.sent.Some? then [r.sent.value] else []) + sent)
  }

  lemma FinishStep(e: Entry, o: Oracle)
    ensures e.callback == Ready ==> Finish(e, o) == (e, [])
    ensures e.callback != Ready ==>
              var r := Continue(e, o);
              Finish(e, o) == (Finish(r.entry, o).0,
                               (if r.sent.Some? then [r.sent.value] else []) + Finish(r.entry, o).1)
    ensures e.callback != Ready && Continue(e, o).sent == None ==> Finish(e, o) == Finish(Continue(e, o).entry, o)
  {
    if e.callback != Ready {
      var f := Finish(Continue(e, o).entry, o);
      assert [] + f.1 == f.1;
    }
  }

  /** A response that verifies, in a table that nobody else touches. */
  lemma ResponseFinishes(e: Entry, s: Pending, o: Oracle)
    requires e.session == Some(s) && s.state == WaitResponse && o.built
    ensures var due := e.(session := Some(s.(state := ProvisioningSent)), callback := ProvisioningDue(s));
            Finish(e.(callback := ResponseRead(s, s.attempt)), o) == Finish(due, o)
  {
    var e1 := e.(callback := ResponseRead(s, s.attempt));
    var e2 := e.(callback := ResponseVerified(s));
    FinishStep(e1, o);
    FinishStep(e2, o);
    assert Continue(e1, o) == Served(e2, None);
  }

  /** A hello that is accepted, up to the publication of the challenge. */
  lemma HelloFinishes(e: Entry, c: nat, o: Oracle)
    requires e.session == None && 0 < c <= MAX_COUNTER && o.registered && o.built && e.helloMark < c
    ensures var s := Pending(Attempt(c, o.random), WaitResponse, o.now);
            var stored := e.(helloMark := c, session := Some(s), started := e.started + [s.attempt],
                             callback := ChallengeStored(s));
            Finish(e.(callback := HelloChecked(c)), o) == Finish(stored, o)
  {
    var s := Pending(Attempt(c, o.random), WaitResponse, o.now);
    var e1 := e.(callback := HelloChecked(c));
    var e2 := e.(helloMark := c, callback := HelloAccepted(c));
    var e3 := e.(helloMark := c, callback := ChallengeBuilt(s));
    FinishStep(e1, o);
    FinishStep(e2, o);
    FinishStep(e3, o);
    assert Continue(e1, o) == Served(e2, None) && Continue(e2, o) == Served(e3, None);
  }

  // ----- what each frame comes to

  /**
    A response, in a table that nobody else touches. It is ignored unless a session waits for it, and verifies
    exactly if it is the session's own attempt; then the P frame leaves exactly if its plaintext was built and the
    broker took it. The session stays, as PROVISIONING_SENT, exactly if that news was noted as well, and as it was
    if the attempt could not be noted before; in every other case it is removed.
   */
  lemma ResponseComesTo(e: Entry, a: Attempt, o: Oracle)
    requires e.callback == Ready
    ensures var (f, sent) := Finish(Receive(e, Response(a)).entry, o);
            match e.session
            case Some(Pending(b, WaitResponse, created)) =>
              if a == b && !o.built then f == e && sent == []
              else if a == b && o.plain.Some? && o.published then
                && sent == [Provisioning(b, o.plain.value)]
                && f == if o.noted then e.(session := Some(Pending(b, ProvisioningSent, created)))
                        else e.(session := None, removed := e.removed + [b])
              else sent == [] && f == e.(session := None, removed := e.removed + [b])
            case _ => f == e && sent == []
  {
    if e.session.Some? && e.session.value.state == WaitResponse {
      WaitedResponse(e, e.session.value, a, o);
    } else {
      FinishStep(e, o);
    }
  }

  lemma WaitedResponse(e: Entry, s: Pending, a: Attempt, o: Oracle)
    requires e.callback == Ready && e.session == Some(s) && s.state == WaitResponse
    ensures var sent := if a == s.attempt && o.built && o.plain.Some? && o.published
                        then [Provisioning(s.attempt, o.plain.value)] else [];
            Finish(e.(callback := ResponseRead(s, a)), o)
            == (if a == s.attempt && !o.built then e
                else if sent != [] && o.noted then e.(session := Some(s.(state := ProvisioningSent)))
                else e.(session := None, removed := e.removed + [s.attempt]), sent)
  {
    FinishStep(e.(callback := ResponseRead(s, a)), o);
    if a != s.attempt {
      DroppedSession(e, s, o);
    } else if !o.built {
      FinishStep(e.(callback := ResponseVerified(s)), o);
    } else {
      ResponseFinishes(e, s, o);
      var s' := s.(state := ProvisioningSent);
      FinishStep(e.(session := Some(s'), callback := ProvisioningDue(s)), o);
      DroppedSession(e.(session := Some(s')), s, o);
      if o.plain.Some? {
        var frame := Provisioning(s.attempt, o.plain.value);
        assert [frame] + [] == [frame];
      }
    }
  }

  lemma DroppedSession(e: Entry, s: Pending, o: Oracle)
    requires e.callback == Ready && e.session.Some? && e.session.value.attempt == s.attempt
    ensures Finish(e.(callback := Dropping(s)), o) == (e.(session := None, removed := e.removed + [s.attempt]), [])
  {
    FinishStep(e.(callback := Dropping(s)), o);
  }

  /**
    An H frame, in a table that nobody else touches: ignored while there is a session. Else its counter is accepted
    exactly if it is above the mark, is not 0 and fits 63 bits, and the device is registered; then the A frame
    leaves exactly if it was built and the broker took it, and the session stays exactly if that was noted.
   */
  lemma HelloComesTo(e: Entry, c: nat, o: Oracle)
    requires e.callback == Ready
    ensures var (f, sent) := Finish(Receive(e, Hello(c)).entry, o);
            var accepted := e.session.None? && 0 < c < 0x8000_0000_0000_0000 && e.helloMark < c && o.registered;
            var s := Pending(Attempt(c, o.random), WaitResponse, o.now);
            if !accepted then f == e && sent == []
            else if !o.built then f == e.(helloMark := c) && sent == []
            else
              && sent == (if o.published then [Challenge(s.attempt)] else [])
              && f == if o.published && o.noted
                      then e.(helloMark := c, started := e.started + [s.attempt], session := Some(s))
                      else e.(helloMark := c, started := e.started + [s.attempt], removed := e.removed + [s.attempt])
  {
    var s := Pending(Attempt(c, o.random), WaitResponse, o.now);
    FinishStep(e, o);
    FinishStep(e.(callback := HelloChecked(c)), o);
    FinishStep(e.(helloMark := c, callback := HelloAccepted(c)), o);
    if e.session.None? && 0 < c <= MAX_COUNTER && o.registered && o.built && e.helloMark < c {
      HelloFinishes(e, c, o);
      var stored := e.(helloMark := c, session := Some(s), started := e.started + [s.attempt]);
      FinishStep(stored.(callback := ChallengeStored(s)), o);
      DroppedSession(stored, s, o);
    }
  }

  /**
    A T frame: exactly 0x42 with the flag off ends a session whose P frame was sent, and its attempt becomes the
    durable context exactly if the transaction commits.
   */
  lemma ControlComesTo(e: Entry, enabled: bool, status: nat, o: Oracle)
    requires e.callback == Ready
    ensures var (f, sent) := Finish(Receive(e, Control(enabled, status)).entry, o);
            sent == [] &&
            match e.session
            case Some(Pending(a, ProvisioningSent, _)) =>
              f == if enabled || status != 0x42 then e
                   else if o.committed && a.counter > 0 then
                     e.(session := None, removed := e.removed + [a], context := Some(a), saved := e.saved + [a])
                   else e.(session := None, removed := e.removed + [a])
            case _ => f == e
  {
    FinishStep(e, o);
    FinishStep(Receive(e, Control(enabled, status)).entry, o);
  }

  /** An S frame: a number that fits 63 bits raises the mark of its kind exactly if it is above it. */
  lemma StatusComesTo(e: Entry, c: nat)
    requires e.callback == Ready
    ensures Receive(e, Status(c))
            == Served(if c < 0x8000_0000_0000_0000 && e.statusMark < c then e.(statusMark := c) else e, None)
  {
  }

  class ProvisioningServer {
    const sessions: SessionTable
    var helloMarks: map<DeviceId, nat>
    var contexts: map<DeviceId, Attempt>

    constructor (table: SessionTable)
      ensures sessions == table && helloMarks == map[] && contexts == map[]
    {
      sessions := table;
      helloMarks, contexts := map[], map[];
    }

    /** The machine state of one device; `rest` supplies the history. */
    ghost function View(d: DeviceId, rest: Entry): Entry
      reads this, sessions
    {
      rest.(helloMark := if d in helloMarks then helloMarks[d] else 0,
            context := Get(contexts, d), session := Get(sessions.pending, d))
    }

    /** accept_hello_counter */
    method AcceptHelloCounter(d: DeviceId, counter: nat) returns (ok: bool)
      modifies this`helloMarks
      ensures var before := if d in old(helloMarks) then old(helloMarks)[d] else 0;
              && (ok <==> before < counter)
              && (if d in helloMarks then helloMarks[d] else 0) == Raised(before, counter)
      ensures helloMarks - {d} == old(helloMarks) - {d}
    {
      var before := if d in helloMarks then helloMarks[d] else 0;
      ok := before < counter;
      if ok {
        helloMarks := helloMarks[d := counter];
      }
    }

    /** handle_control_state */
    method HandleControlState(d: DeviceId, enabled: bool, status: nat, o: Oracle, ghost e: Entry)
      requires View(d, e) == e && e.callback == Ready
      modifies this`contexts, sessions
      ensures var f := Finish(Receive(e, Control(enabled, status)).entry, o).0; View(d, f) == f
      ensures sessions.pending - {d} == old(sessions.pending) - {d} && contexts - {d} == old(contexts) - {d}
    {
      if enabled || status != PROVISIONING_COMPLETE { return; }
      var taken := sessions.TakeFinished(d);
      if taken.None? { return; }
      if o.committed && taken.value.attempt.counter > 0 {
        contexts := contexts[d := taken.value.attempt];
      }
    }

    /** The R branch. */
    method HandleResponse(d: DeviceId, signed: Attempt, o: Oracle, ghost e: Entry) returns (sent: seq<Downlink>)
      requires View(d, e) == e && e.callback == Ready
      modifies sessions
      ensures var f := Finish(Receive(e, Response(signed)).entry, o); View(d, f.0) == f.0 && sent == f.1
      ensures sessions.pending - {d} == old(sessions.pending) - {d}
    {
      sent := [];
      if d !in sessions.pending || sessions.pending[d].state != WaitResponse { return; }
      var session := sessions.pending[d];
      ghost var read := e.(callback := ResponseRead(session, signed));
      FinishStep(read, o);
      FinishStep(Continue(read, o).entry, o);
      if signed != session.attempt {
        sessions.Discard(d, session);
        return;
      }
      FinishStep(e.(callback := ResponseVerified(session)), o);
      if !o.built { return; }
      ResponseFinishes(e, session, o);
      ghost var due := e.(session := Some(session.(state := ProvisioningSent)), callback := ProvisioningDue(session));
      FinishStep(due, o);
      FinishStep(Continue(due, o).entry, o);
      var advanced := sessions.Advance(d, session);
      if o.plain.Some? && o.published {
        sent := [Provisioning(session.attempt, o.plain.value)];
      }
      if o.plain.None? || !o.published || !o.noted {
        sessions.Discard(d, session);
      }
    }

    /** The H branch. */
    method HandleHello(d: DeviceId, counter: nat, o: Oracle, ghost e: Entry) returns (sent: seq<Downlink>)
      requires View(d, e) == e && e.callback == Ready
      modifies this`helloMarks, sessions
      ensures var f := Finish(Receive(e, Hello(counter)).entry, o); View(d, f.0) == f.0 && sent == f.1
      ensures sessions.pending - {d} == old(sessions.pending) - {d} && helloMarks - {d} == old(helloMarks) - {d}
    {
      sent := [];
      if d in sessions.pending { return; }
      FinishStep(e.(callback := HelloChecked(counter)), o);
      if counter == 0 || counter > MAX_COUNTER || !o.registered { return; }
      var accepted := AcceptHelloCounter(d, counter);
      if !accepted { return; }
      var session := Pending(Attempt(counter, o.random), WaitResponse, o.now);
      FinishStep(e.(helloMark := counter, callback := HelloAccepted(counter)), o);
      if !o.built { return; }
      HelloFinishes(e, counter, o);
      ghost var kept := e.(helloMark := counter, session := Some(session), started := e.started + [session.attempt],
                           callback := ChallengeStored(session));
      FinishStep(kept, o);
      FinishStep(Continue(kept, o).entry, o);
      var stored := sessions.Store(d, session);
      if o.published {
        sent := [Challenge(session.attempt)];
      }
      if !o.published || !o.noted {
        sessions.Discard(d, session);
      }
    }
  }
}
