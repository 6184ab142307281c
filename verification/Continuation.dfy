/**
  Continuations of a run that take no step which agreement excludes, put together from stretches: what the
  server does with one frame, and what the ESP's tasks do when they run in the order of the stages.
 */
module Continuation {
  import opened Wrappers
  import opened Bytes
  import opened Protocol
  import opened DeviceSession
  import opened Device
  import L = LastKnownGood
  import Listener
  import P = ProvisioningRun

  /** A calm continuation of the run leads to this state. */
  ghost predicate Leads(base: seq<P.Event>, s: P.System) {
    exists more :: P.CalmAfter(base, more) && P.Run(base + more) == s
  }

  lemma LeadsNowhere(base: seq<P.Event>)
    ensures Leads(base, P.Run(base))
  {
    assert base + [] == base;
    assert P.CalmAfter(base, []);
  }

  lemma Extend(base: seq<P.Event>, s: P.System, e: P.Event)
    requires Leads(base, s) && P.Allowed(s, e)
    ensures Leads(base, P.Step(s, e))
  {
    var more :| P.CalmAfter(base, more) && P.Run(base + more) == s;
    var longer := more + [e];
    assert longer[..|longer| - 1] == more;
    P.RunExtends(base, longer);
  }

  /** One step of the ESP, with its outcome named. */
  lemma Moves(base: seq<P.Event>, s: P.System, ev: Event, d: Device, sent: Option<Uplink>)
    requires Leads(base, s) && P.CanArrive(s, ev) && Calm(s.dev, ev) && Renews(s.dev, ev, true)
    requires Step(s.dev, ev) == Moved(d, sent)
    ensures Leads(base, s.(dev := d, up := s.up + if sent.Some? then [sent.value] else []))
  {
    Extend(base, s, P.OnDevice(ev));
  }

  /** One section of the server's callback, with its outcome named. */
  lemma Proceeds(base: seq<P.Event>, s: P.System, o: Listener.Oracle, e: Listener.Entry, sent: Option<Downlink>)
    requires Leads(base, s) && Listener.Continue(s.server, o) == Listener.Served(e, sent)
    ensures Leads(base, s.(server := e, signed := s.signed + P.NewlySigned(sent),
                           sealed := s.sealed + P.NewlySealed(sent)))
  {
    Extend(base, s, P.Proceed(o));
  }

  lemma {:induction false} LosesFront(base: seq<P.Event>, s: P.System, k: nat)
    requires Leads(base, s) && k <= |s.up|
    ensures Leads(base, s.(up := s.up[k..]))
    decreases k
  {
    if k == 0 {
      assert s.(up := s.up[0..]) == s;
    } else {
      Extend(base, s, P.Lose(0));
      var s1 := s.(up := s.up[1..]);
      assert s.up[..0] + s.up[1..] == s.up[1..];
      LosesFront(base, s1, k - 1);
      assert s1.up[k - 1..] == s.up[k..];
    }
  }

  // ----- the server's part, whatever the ESP does

  function Willing(plain: seq<byte>): Listener.Oracle {
    Listener.Oracle(true, 7, 0, true, Some(plain), true, true, true)
  }

  function Pending(a: Attempt, state: Listener.SessionState): Listener.Pending { Listener.Pending(a, state, 0) }

  function Challenged(e: Listener.Entry, a: Attempt): Listener.Entry {
    e.(helloMark := a.counter, session := Some(Pending(a, Listener.WaitResponse)), started := e.started + [a],
       callback := Listener.Ready)
  }

  /** The server answers a fresh H with a challenge. */
  lemma ServerChallenges(base: seq<P.Event>, s: P.System, a: Attempt, plain: seq<byte>)
    requires Leads(base, s) && s.up == [Hello(a.counter)] && s.server.callback == Listener.Ready
    requires s.server.session == None && s.server.helloMark < a.counter <= Listener.MAX_COUNTER && a.random == 7
    ensures Leads(base, s.(server := Challenged(s.server, a), last := Some(Hello(a.counter)), up := [],
                           signed := s.signed + {a}))
  {
    var o, e, p := Willing(plain), s.server, Pending(a, Listener.WaitResponse);
    var e1 := e.(callback := Listener.HelloChecked(a.counter));
    var e2 := e.(helloMark := a.counter, callback := Listener.HelloAccepted(a.counter));
    var e3 := e2.(callback := Listener.ChallengeBuilt(p));
    var e4 := Challenged(e, a).(callback := Listener.ChallengeStored(p));
    Extend(base, s, P.Deliver);
    var s1 := s.(server := e1, last := Some(Hello(a.counter)), up := []);
    Proceeds(base, s1, o, e2, None);
    Proceeds(base, s1.(server := e2), o, e3, None);
    Proceeds(base, s1.(server := e3), o, e4, None);
    Proceeds(base, s1.(server := e4), o, Challenged(e, a), Some(Challenge(a)));
  }

  function Sealing(e: Listener.Entry, a: Attempt): Listener.Entry {
    e.(session := Some(Pending(a, Listener.ProvisioningSent)), callback := Listener.Ready)
  }

  /** The server verifies the answer and seals the plaintext. */
  lemma ServerSeals(base: seq<P.Event>, s: P.System, a: Attempt, plain: seq<byte>)
    requires Leads(base, s) && s.up == [Response(a)] && s.server.callback == Listener.Ready
    requires s.server.session == Some(Pending(a, Listener.WaitResponse))
    ensures Leads(base, s.(server := Sealing(s.server, a), last := Some(Response(a)), up := [],
                           sealed := s.sealed + {(a, plain)}))
  {
    var o, e, p := Willing(plain), s.server, Pending(a, Listener.WaitResponse);
    var e1 := e.(callback := Listener.ResponseRead(p, a));
    var e2 := e.(callback := Listener.ResponseVerified(p));
    var e3 := Sealing(e, a).(callback := Listener.ProvisioningDue(p));
    Extend(base, s, P.Deliver);
    var s1 := s.(server := e1, last := Some(Response(a)), up := []);
    Proceeds(base, s1, o, e2, None);
    Proceeds(base, s1.(server := e2), o, e3, None);
    Proceeds(base, s1.(server := e3), o, Sealing(e, a), Some(Provisioning(a, plain)));
  }

  function Saved(e: Listener.Entry, a: Attempt): Listener.Entry {
    e.(session := None, context := Some(a), removed := e.removed + [a], saved := e.saved + [a],
        callback := Listener.Ready)
  }

  /** The server takes T|0|42 for the end of its session and saves the context. */
  lemma ServerSaves(base: seq<P.Event>, s: P.System, p: Listener.Pending)
    requires Leads(base, s) && s.up != [] && s.up[0] == P.DONE && s.server.callback == Listener.Ready
    requires s.server.session == Some(p) && p.state == Listener.ProvisioningSent && p.attempt.counter > 0
    ensures Leads(base, s.(server := Saved(s.server, p.attempt), last := Some(P.DONE), up := s.up[1..]))
  {
    var e := s.server;
    var e1 := e.(session := None, removed := e.removed + [p.attempt], callback := Listener.Taken(p));
    Extend(base, s, P.Deliver);
    var s1 := s.(server := e1, last := Some(P.DONE), up := s.up[1..]);
    Proceeds(base, s1, Willing([]), Saved(e, p.attempt), None);
  }

  // ----- breaking agreement

  /** The server has the context of the attempt, the ESP never committed it and has other keys or none. */
  ghost predicate Disagrees(s: P.System, a: Attempt) {
    s.server.context == Some(a) && a !in s.dev.history.completed && EffectiveContext(s.dev) != Some(a)
  }

  lemma LeadsToDisagreement(base: seq<P.Event>, s: P.System, a: Attempt)
    requires Leads(base, s) && s.server.context == Some(a) && a !in s.dev.history.completed
    ensures exists more :: P.CalmAfter(base, more) && P.Run(base + more) == s && Disagrees(P.Run(base + more), a)
  {
    var more :| P.CalmAfter(base, more) && P.Run(base + more) == s;
    P.RunProjects(base + more);
    L.RecordsTell(P.Projected(base + more));
  }

  // ----- stretches of the ESP's tasks

  /** One step of the ESP. */
  lemma Acts(base: seq<P.Event>, s: P.System, ev: Event) returns (t: P.System)
    requires Leads(base, s) && P.CanArrive(s, ev) && Calm(s.dev, ev) && Renews(s.dev, ev, true)
    ensures t == P.Step(s, P.OnDevice(ev)) && Leads(base, t)
  {
    t := P.Step(s, P.OnDevice(ev));
    Extend(base, s, P.OnDevice(ev));
  }

  /** The ESP after a command: the flag is written, and an apply task is under way. */
  function Commanded(s: P.System, t: P.System, enabled: bool): P.System {
    s.(dev := s.dev.(enable := enabled, generation := t.dev.generation, applies := t.dev.applies), up := t.up)
  }

  function NextStage(enabled: bool): Apply { if enabled then Reprovisioning else Withdrawing }

  /** A command is written and its apply task comes up to the T frame that it publishes. */
  lemma CommandComes(base: seq<P.Event>, s: P.System, enabled: bool) returns (t: P.System)
    requires Leads(base, s) && s.dev.callback == Free
    ensures Leads(base, t) && t == Commanded(s, s.(dev := t.dev), enabled) && Publishing(enabled) in t.dev.applies
  {
    var g := NextGeneration(s.dev.generation);
    var s1 := Acts(base, s, WriteEnable(enabled));
    assert s1.up == s.up && Delayed(g) in s1.dev.applies;
    t := Acts(base, s1, RunApply(Delayed(g)));
    assert t.up == s.up;
  }

  /** Provisioning is switched on or off; the next stage of the apply task would reset the session. */
  lemma Switched(base: seq<P.Event>, s: P.System, enabled: bool) returns (t: P.System)
    requires Leads(base, s) && s.dev.callback == Free
    ensures Leads(base, t) && t == Commanded(s, t, enabled).(up := s.up + [Control(enabled, s.dev.status)])
            && NextStage(enabled) in t.dev.applies
  {
    var s1 := CommandComes(base, s, enabled);
    t := Acts(base, s1, RunApply(Publishing(enabled)));
  }

  /** The ESP after the reset of the apply task. */
  function Cleared(s: P.System, t: P.System): P.System {
    s.(dev := s.dev.(session := BeginReprovisioning(s.dev.session), applies := t.dev.applies,
                     history := s.dev.history.(dropped := t.dev.history.dropped)))
  }

  /** ... and it does so for a command that switched provisioning on. */
  lemma SessionCleared(base: seq<P.Event>, s: P.System) returns (t: P.System)
    requires Leads(base, s) && s.dev.callback != Stored && s.dev.enable && Reprovisioning in s.dev.applies
    ensures Leads(base, t) && t == Cleared(s, t) && Announcing in t.dev.applies
  {
    t := Acts(base, s, RunApply(Reprovisioning));
    assert t.up == s.up;
  }

  /** All frames in front of the last one are lost. */
  lemma LosesAllBut(base: seq<P.Event>, s: P.System, u: seq<Uplink>, f: Uplink) returns (t: P.System)
    requires Leads(base, s) && s.up == u + [f]
    ensures Leads(base, t) && t == s.(up := [f])
  {
    LosesFront(base, s, |u|);
    assert s.up[|u|..] == [f];
    t := s.(up := [f]);
  }

  /** The ESP after its next H frame. */
  function HelloSent(d: Device): Device {
    var n := d.cell + 1;
    d.(cell := n, hello := Waiting, session := Persisted(Session(WaitChallenge, n, 0, None, None, d.session.prov)),
       history := d.history.(lastHello := n, taken := d.history.taken + [n]))
  }

  function Greeted(s: P.System): P.System {
    s.(dev := HelloSent(s.dev), up := s.up + [Hello(s.dev.cell + 1)])
  }

  lemma HelloMoves(d: Device)
    requires d.hello == Committing(d.cell) && d.session.state == DeviceSession.Idle && HelloFits(d.cell + 1)
    ensures StepHello(d, true, false) == Moved(HelloSent(d), Some(Hello(d.cell + 1)))
  {
  }

  lemma HelloGoes(base: seq<P.Event>, s: P.System) returns (t: P.System)
    requires Leads(base, s) && s.dev.callback == Free && s.dev.enable && s.dev.hello == Sending
    requires s.dev.session.state == DeviceSession.Idle && s.dev.history.lastHello <= s.dev.cell
    requires HelloFits(s.dev.cell + 1)
    ensures Leads(base, t) && t == Greeted(s)
  {
    var s1 := Acts(base, s, RunHello(true, false));
    assert s1 == s.(dev := s.dev.(hello := Committing(s.dev.cell)));
    HelloMoves(s1.dev);
    t := Acts(base, s1, RunHello(true, false));
  }

  /** The server, restarted, answers this H frame with a challenge. */
  lemma ChallengeGoes(base: seq<P.Event>, s: P.System, u: seq<Uplink>, a: Attempt, plain: seq<byte>)
      returns (t: P.System)
    requires Leads(base, s) && s.up == u + [Hello(a.counter)] && a.random == 7
    requires s.server.helloMark < a.counter && HelloFits(a.counter)
    ensures Leads(base, t) && t == s.(server := Challenged(Listener.Restarted(s.server), a),
                                      last := Some(Hello(a.counter)), up := [], signed := s.signed + {a})
  {
    var s1 := LosesAllBut(base, s, u, Hello(a.counter));
    Extend(base, s1, P.ServerRestart);
    var s2 := P.Step(s1, P.ServerRestart);
    assert s2 == s1.(server := s2.server) && s2.server.session == None && s2.server.callback == Listener.Ready;
    ServerChallenges(base, s2, a, plain);
    t := s2.(server := Challenged(s2.server, a), last := Some(Hello(a.counter)), up := [], signed := s.signed + {a});
  }

  /** The ESP with an accepted challenge. */
  function Challenging(d: Device, d': Device, a: Attempt): Device {
    var s := d.session.(state := WaitProvisioning, counter := a.counter, random := a.random, key := Some(a));
    d.(session := Persisted(s), responses := d'.responses)
  }

  /** The ESP accepts the challenge and its response leaves. */
  lemma ResponseGoes(base: seq<P.Event>, s: P.System, a: Attempt) returns (t: P.System)
    requires Leads(base, s) && s.dev.callback == Free && s.dev.enable && a in s.signed && s.up == []
    requires s.dev.session.state == WaitChallenge && s.dev.session.counter == a.counter
    ensures Leads(base, t) && t == s.(dev := Challenging(s.dev, t.dev, a), up := [Response(a)])
  {
    var s1 := Acts(base, s, ReceiveChallenge(a.random, Some(a)));
    assert s1.up == [] && a in s1.dev.responses;
    t := Acts(base, s1, RunResponse(a));
  }

  /** After an attempt up to the sealed P frame, from the HELLO task's next counter on. */
  function Waits(s: P.System, t: P.System, plain: seq<byte>): P.System {
    var a := Attempt(s.dev.cell + 1, 7);
    P.System(Challenging(Greeted(s).dev, t.dev, a), Sealing(Challenged(Listener.Restarted(s.server), a), a),
             [], Some(Response(a)), s.signed + {a}, s.sealed + {(a, plain)})
  }

  /** A whole attempt: H, challenge, response, and the server seals the plaintext. */
  lemma AttemptGoes(base: seq<P.Event>, s: P.System, plain: seq<byte>) returns (t: P.System)
    requires Leads(base, s) && s.dev.callback == Free && s.dev.enable && s.dev.hello == Sending
    requires s.dev.session.state == DeviceSession.Idle && HelloFits(s.dev.cell + 1)
    requires s.dev.history.lastHello <= s.dev.cell && s.server.helloMark <= s.dev.cell
    ensures Leads(base, t) && t == Waits(s, t, plain)
  {
    var a := Attempt(s.dev.cell + 1, 7);
    var s1 := HelloGoes(base, s);
    var s2 := ChallengeGoes(base, s1, s.up, a, plain);
    var s3 := ResponseGoes(base, s2, a);
    ServerSeals(base, s3, a, plain);
    t := s3.(server := Sealing(s3.server, a), last := Some(Response(a)), up := [], sealed := s3.sealed + {(a, plain)});
  }

  /** Behind an announcement, sent or already known. */
  function Announced(d: Device): Device {
    d.(status := PROVISIONING_STARTED, applies := d.applies - multiset{Announcing} + multiset{Scheduling})
  }

  lemma AnnouncingMoves(d: Device)
    requires Announcing in d.applies
    ensures Step(d, RunApply(Announcing)).dev == Announced(d)
  {
  }

  lemma AttemptAnnounced(base: seq<P.Event>, s: P.System) returns (t: P.System)
    requires Leads(base, s) && s.dev.callback != Stored && s.dev.enable && Announcing in s.dev.applies
    ensures Leads(base, t) && t == s.(dev := Announced(s.dev), up := t.up)
  {
    AnnouncingMoves(s.dev);
    t := Acts(base, s, RunApply(Announcing));
  }

  lemma AttemptScheduled(base: seq<P.Event>, s: P.System) returns (t: P.System)
    requires Leads(base, s) && s.dev.callback != Stored && s.dev.hello == NoTask && s.dev.enable
    requires Announcing in s.dev.applies
    ensures Leads(base, t) && t == s.(dev := s.dev.(status := PROVISIONING_STARTED, applies := t.dev.applies,
                                                    hello := Starting), up := t.up)
  {
    var s1 := AttemptAnnounced(base, s);
    t := Acts(base, s1, RunApply(Scheduling));
  }

  /** A HELLO task comes to its status report. */
  lemma HelloComes(base: seq<P.Event>, s: P.System) returns (t: P.System)
    requires Leads(base, s) && s.dev.callback != Stored && s.dev.hello == Starting && s.dev.enable
    requires s.dev.session.state == DeviceSession.Idle
    ensures Leads(base, t) && t == s.(dev := s.dev.(hello := Reporting, session := ResetForRetry(s.dev.session)))
  {
    var s1 := Acts(base, s, RunHello(true, false));
    assert s1.dev == s.dev.(hello := Resetting) && s1.up == s.up;
    t := Acts(base, s1, RunHello(true, false));
    assert t.up == s.up;
  }

  lemma HelloReports(base: seq<P.Event>, s: P.System) returns (t: P.System)
    requires Leads(base, s) && s.dev.callback == Free && s.dev.hello == Reporting
    requires s.dev.status == PROVISIONING_STARTED
    ensures Leads(base, t) && t == s.(dev := s.dev.(hello := Sending))
  {
    t := Acts(base, s, RunHello(true, false));
    assert t.up == s.up;
  }

  // ----- from the first boot

  function FirstGreeting(d: Device): Device {
    FirstBoot().(session := BeginReprovisioning(FirstBoot().session), enable := true, status := PROVISIONING_STARTED,
                 generation := d.generation, applies := d.applies, hello := Sending,
                 history := FirstBoot().history.(dropped := d.history.dropped))
  }

  /** The user switches provisioning on, and the HELLO task comes up to its first H frame. */
  lemma FirstSending() returns (s: P.System)
    ensures Leads([], s) && s == P.Start().(dev := FirstGreeting(s.dev), up := s.up)
  {
    LeadsNowhere([]);
    var s1 := Switched([], P.Run([]), true);
    var s2 := SessionCleared([], s1);
    var s3 := AttemptScheduled([], s2);
    var s4 := HelloComes([], s3);
    s := HelloReports([], s4);
  }

  lemma {:induction false} CalmFromStart(evs: seq<P.Event>)
    requires P.CalmAfter([], evs)
    ensures P.CalmRun(evs) && P.RenewingRun(evs, true)
  {
    if evs != [] {
      assert [] + evs[..|evs| - 1] == evs[..|evs| - 1];
      CalmFromStart(evs[..|evs| - 1]);
    }
  }

  lemma Reached(s: P.System) returns (evs: seq<P.Event>)
    requires Leads([], s)
    ensures P.CalmRun(evs) && P.RenewingRun(evs, true) && P.Run(evs) == s
  {
    evs :| P.CalmAfter([], evs) && P.Run([] + evs) == s;
    assert [] + evs == evs;
    CalmFromStart(evs);
  }
}
