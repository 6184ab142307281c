/**
  No session of the server waits in vain for its own doing: in every run, a session in the table is one whose
  frame left, or the callback thread is just about to send that frame or to remove the session.
 */
module ServedSessions {
  import opened Wrappers
  import opened Bytes
  import opened Protocol
  import opened ProvisioningRun
  import Listener

  /** The callback has still to publish the frame of this session, or to remove it. */
  predicate InHand(c: Listener.Callback, p: Listener.Pending) {
    match c
    case ChallengeStored(s) => s.attempt == p.attempt && p.state.WaitResponse?
    case ProvisioningDue(s) => s.attempt == p.attempt && p.state.ProvisioningSent?
    case Dropping(s) => s.attempt == p.attempt
    case _ => false
  }

  ghost predicate Sealed(a: Attempt, sealed: set<(Attempt, seq<byte>)>) { exists p :: p in sealed && p.0 == a }

  /** The frame of this session left: A for WAIT_RESPONSE, P for PROVISIONING_SENT. */
  ghost predicate FrameLeft(p: Listener.Pending, signed: set<Attempt>, sealed: set<(Attempt, seq<byte>)>) {
    match p.state
    case WaitResponse => p.attempt in signed
    case ProvisioningSent => Sealed(p.attempt, sealed)
  }

  ghost predicate Served(e: Listener.Entry, signed: set<Attempt>, sealed: set<(Attempt, seq<byte>)>) {
    e.session.Some? ==> FrameLeft(e.session.value, signed, sealed) || InHand(e.callback, e.session.value)
  }

  lemma MoreFrames(p: Listener.Pending, signed: set<Attempt>, sealed: set<(Attempt, seq<byte>)>,
                   signed': set<Attempt>, sealed': set<(Attempt, seq<byte>)>)
    requires FrameLeft(p, signed, sealed) && signed <= signed' && sealed <= sealed'
    ensures FrameLeft(p, signed', sealed')
  {
  }

  lemma ReceiveKeepsServed(e: Listener.Entry, f: Uplink, signed: set<Attempt>, sealed: set<(Attempt, seq<byte>)>)
    requires Served(e, signed, sealed) && e.callback == Listener.Ready
    ensures Served(Listener.Receive(e, f).entry, signed, sealed)
  {
  }

  lemma ProceedKeepsServed(s: System, o: Listener.Oracle)
    requires Listener.Disciplined(s.server) && Served(s.server, s.signed, s.sealed)
    ensures var t := Step(s, Proceed(o)); Served(t.server, t.signed, t.sealed)
  {
    var e, t := s.server, Step(s, Proceed(o));
    if t.server.session.Some? {
      if t.server.session == e.session && FrameLeft(e.session.value, s.signed, s.sealed) {
        MoreFrames(e.session.value, s.signed, s.sealed, t.signed, t.sealed);
      } else if e.callback.ProvisioningDue? && t.server.callback == Listener.Ready {
        assert (e.callback.session.attempt, o.plain.value) in t.sealed;
      }
    }
  }

  lemma StepKeepsServed(s: System, e: Event)
    requires Listener.Disciplined(s.server) && Served(s.server, s.signed, s.sealed)
    ensures var t := Step(s, e); Served(t.server, t.signed, t.sealed)
  {
    match e
    case Deliver =>
      if s.server.callback == Listener.Ready && s.up != [] {
        ReceiveKeepsServed(s.server, s.up[0], s.signed, s.sealed);
      }
    case Redeliver =>
      if s.server.callback == Listener.Ready && s.last.Some? {
        ReceiveKeepsServed(s.server, s.last.value, s.signed, s.sealed);
      }
    case Proceed(o) => ProceedKeepsServed(s, o);
    case _ =>
  }

  lemma {:induction false} RunKeepsServed(evs: seq<Event>)
    ensures var s := Run(evs); Served(s.server, s.signed, s.sealed)
  {
    if evs != [] {
      RunKeepsServed(evs[..|evs| - 1]);
      RunIsBased(evs[..|evs| - 1]);
      StepKeepsServed(Run(evs[..|evs| - 1]), evs[|evs| - 1]);
    }
  }

  /**
    In every run, calm or not: whenever the callback thread is at rest, a session in WAIT_RESPONSE is one whose
    challenge was sent, and a session in PROVISIONING_SENT one for which a plaintext was sealed and sent. So no
    attempt whose own frame could not be built or published blocks the following H frames.
   */
  lemma SessionsAreServed(evs: seq<Event>)
    requires Run(evs).server.callback == Listener.Ready && Run(evs).server.session.Some?
    ensures var s := Run(evs); var p := s.server.session.value;
            match p.state
            case WaitResponse => p.attempt in s.signed
            case ProvisioningSent => exists plain :: (p.attempt, plain) in s.sealed
  {
    RunKeepsServed(evs);
    var s := Run(evs);
    var p := s.server.session.value;
    if p.state.ProvisioningSent? {
      var q :| q in s.sealed && q.0 == p.attempt;
      assert (p.attempt, q.1) in s.sealed;
    }
  }
}
