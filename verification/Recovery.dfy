/**
  No run is a dead end: whatever disturbed it, a calm continuation provisions the ESP anew and ends with the
  same context on both sides.
 */
module Recovery {
  import opened Wrappers
  import opened Bytes
  import opened Protocol
  import opened ProvisionPlain
  import opened DeviceSession
  import opened Device
  import opened Continuation
  import Preemption
  import Listener
  import P = ProvisioningRun

  /** The cell is at or above every H number that was sent and accepted, and the next number fits its frame. */
  predicate CanGreet(s: P.System) {
    s.dev.history.lastHello <= s.dev.cell && s.server.helloMark <= s.dev.cell && s.dev.cell + 1 < 100_000_000_000
  }

  /** The ESP restarts, and provisioning is switched on. */
  lemma RestartsToStart(base: seq<P.Event>, s: P.System) returns (t: P.System)
    requires Leads(base, s)
    ensures Leads(base, t) && t.server == s.server && t.signed == s.signed && t.sealed == s.sealed
    ensures var d := t.dev;
            && d.callback == Free && d.hello == NoTask && d.enable && d.session.state == DeviceSession.Idle
            && Announcing in d.applies && d.cell == s.dev.cell && d.history.lastHello == s.dev.history.lastHello
  {
    var s1 := Acts(base, s, Restart);
    var s2 := Switched(base, s1, true);
    t := SessionCleared(base, s2);
  }

  /** Its HELLO task is about to send. */
  lemma RestartsToSend(base: seq<P.Event>, s: P.System) returns (t: P.System)
    requires Leads(base, s)
    ensures Leads(base, t) && t.server == s.server && t.signed == s.signed && t.sealed == s.sealed
    ensures var d := t.dev;
            && d.callback == Free && d.hello == Sending && d.enable && d.session.state == DeviceSession.Idle
            && d.status == PROVISIONING_STARTED && d.cell == s.dev.cell
            && d.history.lastHello == s.dev.history.lastHello
  {
    var s1 := RestartsToStart(base, s);
    var s2 := AttemptScheduled(base, s1);
    var s3 := HelloComes(base, s2);
    t := HelloReports(base, s3);
  }

  /** H, challenge, response: the plaintext is sealed for the new attempt. */
  lemma AttemptSeals(base: seq<P.Event>, s: P.System, a: Attempt, plain: seq<byte>) returns (t: P.System)
    requires Leads(base, s) && CanGreet(s) && a == Attempt(s.dev.cell + 1, 7)
    requires s.dev.callback == Free && s.dev.enable && s.dev.hello == Sending
    requires s.dev.session.state == DeviceSession.Idle
    ensures Leads(base, t) && (a, plain) in t.sealed && t.up == []
    ensures t.server.callback == Listener.Ready && t.server.session == Some(Pending(a, Listener.ProvisioningSent))
    ensures var d := t.dev;
            && d.callback == Free && d.enable && d.status == s.dev.status && d.session.state == WaitProvisioning
            && a == Attempt(d.session.counter, d.session.random) && d.session.key == Some(a)
  {
    t := AttemptGoes(base, s, plain);
  }

  /** The ESP accepts the sealed frame and commits the attempt. */
  lemma FrameCommits(base: seq<P.Event>, s: P.System, a: Attempt, plain: seq<byte>, c: Config) returns (t: P.System)
    requires Leads(base, s) && s.dev.callback == Free && s.dev.enable && (a, plain) in s.sealed
    requires s.dev.session.state == WaitProvisioning && s.dev.session.key == Some(a)
    requires a == Attempt(s.dev.session.counter, s.dev.session.random) && Parse(plain) == Success(c)
    requires s.dev.status == PROVISIONING_STARTED
    ensures Leads(base, t) && t.server == s.server && t.up == s.up
    ensures var d := t.dev;
            && d.callback == Completing && d.status == PROVISIONING_STARTED && d.session.prov == Some(c)
            && d.history.completed == s.dev.history.completed + [a] && !d.history.dropped
  {
    var s1 := Acts(base, s, ReceiveProvisioning(Some(a), plain));
    assert s1.up == s.up && s1.dev.callback == Stored;
    t := Acts(base, s1, ContinueCallback);
    assert t.up == s.up;
  }

  /** The callback ends, and the server saves the context. */
  lemma AttemptConcludes(base: seq<P.Event>, s: P.System, a: Attempt) returns (t: P.System)
    requires Leads(base, s) && s.dev.callback == Completing && s.dev.status == PROVISIONING_STARTED && s.up == []
    requires s.server.callback == Listener.Ready && s.server.session == Some(Pending(a, Listener.ProvisioningSent))
    requires s.dev.history.completed != [] && Last(s.dev.history.completed) == a && a.counter > 0
    ensures Leads(base, t) && P.Concluded(t) && t.server.context == Some(a)
            && t.dev.history.dropped == s.dev.history.dropped && t.dev.session == s.dev.session
  {
    var s1 := Preemption.CallbackEnds(base, s);
    assert s1.up == [P.DONE];
    ServerSaves(base, s1, Pending(a, Listener.ProvisioningSent));
    t := s1.(server := Saved(s1.server, a), last := Some(P.DONE), up := s1.up[1..]);
  }

  /** A concluded state with this context and configuration on both sides. */
  ghost predicate Agreed(evs: seq<P.Event>, a: Attempt, c: Config) {
    var s := P.Run(evs);
    P.Concluded(s) && s.server.context == Some(a) && EffectiveContext(s.dev) == Some(a) && s.dev.session.prov == Some(c)
  }

  /**
    From every state of every run, calm or not, in which the counter cell was not moved back, and for every
    plaintext that parses, a calm continuation provisions the ESP: both sides then have the context of a new
    attempt, with the next number of the cell, and the ESP stores exactly this configuration.
   */
  lemma EveryRunCanConclude(evs: seq<P.Event>, plain: seq<byte>, c: Config)
    requires CanGreet(P.Run(evs)) && Parse(plain) == Success(c)
    ensures exists more :: P.CalmAfter(evs, more) && Agreed(evs + more, Attempt(P.Run(evs).dev.cell + 1, 7), c)
  {
    var s, a := P.Run(evs), Attempt(P.Run(evs).dev.cell + 1, 7);
    LeadsNowhere(evs);
    var s1 := RestartsToSend(evs, s);
    var s2 := AttemptSeals(evs, s1, a, plain);
    var s3 := FrameCommits(evs, s2, a, plain, c);
    var s4 := AttemptConcludes(evs, s3, a);
    LeadsToAgreement(evs, s4, a, c);
  }

  lemma LeadsToAgreement(evs: seq<P.Event>, s: P.System, a: Attempt, c: Config)
    requires Leads(evs, s) && P.Concluded(s) && s.server.context == Some(a) && s.dev.session.prov == Some(c)
    requires !s.dev.history.dropped
    ensures exists more :: P.CalmAfter(evs, more) && Agreed(evs + more, a, c)
  {
    var more :| P.CalmAfter(evs, more) && P.Run(evs + more) == s;
    P.KeyAgreement(evs + more);
  }
}
