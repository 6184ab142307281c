/**
  Why ProvisioningRun.Agreement asks H numbers to renew: a late commit of the boot status task makes the
  HELLO task send a number a second time, and an old attempt of that number, replayed to its end, confirms
  a later one that the ESP never committed.
 */
module RepeatedNumbers {
  import opened Wrappers
  import opened Bytes
  import opened Protocol
  import opened ProvisionPlain
  import opened DeviceSession
  import opened Device
  import opened Continuation
  import CounterCell
  import Listener
  import P = ProvisioningRun

  // ----- from one attempt to the next

  /** The HELLO task moved on to this stage, and session, flag and status may have changed. */
  function Passed(s: P.System, t: P.System, hello: HelloTask): P.System {
    s.(dev := s.dev.(session := t.dev.session, enable := t.dev.enable, status := t.dev.status,
                     generation := t.dev.generation, applies := t.dev.applies, hello := hello,
                     history := s.dev.history.(dropped := t.dev.history.dropped)),
       up := t.up)
  }

  lemma HelloExpires(base: seq<P.Event>, s: P.System) returns (t: P.System)
    requires Leads(base, s) && s.dev.callback == Free && s.dev.hello == Expiring && s.dev.enable
    requires s.dev.session.state == WaitProvisioning
    ensures Leads(base, t) && t == Passed(s, t, Finishing)
  {
    t := Acts(base, s, RunHello(true, true));
  }

  /** The HELLO task of an attempt that got no P frame gives up. */
  lemma HelloGivesUp(base: seq<P.Event>, s: P.System) returns (t: P.System)
    requires Leads(base, s) && s.dev.callback == Free && s.dev.hello == Waiting && s.dev.enable
    requires s.dev.session.state == WaitProvisioning
    ensures Leads(base, t) && t == Passed(s, t, NoTask)
  {
    var s1 := Acts(base, s, RunHello(true, true));
    assert s1.dev == s.dev.(hello := Expiring) && s1.up == s.up;
    var s2 := HelloExpires(base, s1);
    t := Acts(base, s2, RunHello(true, true));
  }

  /** An attempt that waits in vain, and the user's next command up to the next H frame. */
  lemma NextSending(base: seq<P.Event>, s: P.System) returns (t: P.System)
    requires Leads(base, s) && s.dev.callback == Free && s.dev.hello == Waiting && s.dev.enable
    requires s.dev.session.state == WaitProvisioning
    ensures Leads(base, t) && t == Passed(s, t, Sending)
            && (t.dev.enable, t.dev.session.state, t.dev.status) == (true, DeviceSession.Idle, PROVISIONING_STARTED)
  {
    var s1 := HelloGivesUp(base, s);
    var s2 := Switched(base, s1, true);
    var s3 := SessionCleared(base, s2);
    var s4 := AttemptScheduled(base, s3);
    var s5 := HelloComes(base, s4);
    t := HelloReports(base, s5);
  }

  // ----- the repeated number

  /**
    The HELLO task is about to commit the number of attempt a, which was signed and sealed before, while the
    server waits for the end of a later attempt b.
   */
  ghost predicate Repeating(s: P.System, a: Attempt, b: Attempt, plain: seq<byte>) {
    && s.dev.hello.Committing? && s.dev.hello.read + 1 == a.counter < b.counter && HelloFits(a.counter)
    && s.dev.callback == Free && s.dev.session.state == DeviceSession.Idle && b !in s.dev.history.completed
    && a in s.signed && (a, plain) in s.sealed && Parse(plain).Success?
    && s.server.callback == Listener.Ready && s.server.session.Some?
    && s.server.session.value.state == Listener.ProvisioningSent && s.server.session.value.attempt == b
  }

  const COMMIT: Event := RunHello(true, false)

  /** The old challenge and the old P frame arrive once more, up to the first NVS write. */
  lemma FramesReplayed(base: seq<P.Event>, s: P.System, a: Attempt, plain: seq<byte>) returns (t: P.System)
    requires Leads(base, s) && s.dev.callback == Free && s.dev.enable && Parse(plain).Success?
    requires s.dev.session.state == WaitChallenge && s.dev.session.counter == a.counter
    requires a in s.signed && (a, plain) in s.sealed
    ensures Leads(base, t)
            && t == s.(dev := Challenging(s.dev, t.dev, a).(callback := Stored, session := t.dev.session,
                                                            history := t.dev.history))
            && (t.dev.session.counter, t.dev.history.completed) == (a.counter, s.dev.history.completed)
  {
    var s1 := Acts(base, s, ReceiveChallenge(a.random, Some(a)));
    assert s1.up == s.up && s1.dev.session.state == WaitProvisioning && s1.dev.session.key == Some(a)
           && s1.dev.session.counter == a.counter && s1.dev.session.random == a.random
           && s1.dev.callback == Free && s1.dev.enable;
    t := Acts(base, s1, ReceiveProvisioning(Some(a), plain));
    assert t.up == s1.up;
  }

  /** The P callback commits, and reports completion. */
  lemma CommitReports(base: seq<P.Event>, s: P.System) returns (t: P.System)
    requires Leads(base, s) && s.dev.callback == Stored && s.dev.status != PROVISIONING_COMPLETE
    ensures Leads(base, t) && t == s.(dev := t.dev, up := s.up + [P.DONE])
    ensures exists r :: t.dev.history.completed == s.dev.history.completed + [Attempt(s.dev.session.counter, r)]
  {
    var s1 := Acts(base, s, ContinueCallback);
    assert s1.up == s.up && s1.dev.callback == Completing && s1.dev.status == s.dev.status;
    assert s1.dev.history.completed
           == s.dev.history.completed + [Attempt(s.dev.session.counter, s.dev.session.random)];
    t := Acts(base, s1, ContinueCallback);
  }

  /** From the repeated H frame to a context on the server that the ESP never committed. */
  lemma OldAttemptEnds(base: seq<P.Event>, s: P.System, a: Attempt, b: Attempt, plain: seq<byte>)
      returns (t: P.System)
    requires Leads(base, s) && s.dev.callback == Free && s.dev.session.state == WaitChallenge
    requires s.dev.session.counter == a.counter < b.counter && s.dev.status != PROVISIONING_COMPLETE
    requires a in s.signed && (a, plain) in s.sealed && Parse(plain).Success?
    requires s.server.callback == Listener.Ready && s.server.session.Some?
             && s.server.session.value.state == Listener.ProvisioningSent && s.server.session.value.attempt == b
    requires b !in s.dev.history.completed
    ensures Leads(base, t) && t.server.context == Some(b) && b !in t.dev.history.completed
  {
    var s1 := Acts(base, s, WriteEnable(true));
    assert s1 == s.(dev := s1.dev) && s1.dev.enable && s1.dev.session == s.dev.session;
    var s2 := FramesReplayed(base, s1, a, plain);
    var s3 := CommitReports(base, s2);
    var s4 := LosesAllBut(base, s3, s2.up, P.DONE);
    ServerSaves(base, s4, s.server.session.value);
    t := s4.(server := Saved(s4.server, b), last := Some(P.DONE), up := s4.up[1..]);
  }

  lemma CommitSends(d: Device, a: Attempt)
    requires d.hello.Committing? && d.hello.read + 1 == a.counter && HelloFits(a.counter)
    requires d.callback == Free && d.session.state == DeviceSession.Idle
    ensures var m := Step(d, COMMIT);
            (m.sent, m.dev.callback, m.dev.session.state, m.dev.session.counter, m.dev.status, m.dev.history.completed)
            == (Some(Hello(a.counter)), Free, WaitChallenge, a.counter, d.status, d.history.completed)
  {
  }

  /** The H frame that repeats a number is stale when it leaves. */
  lemma RepeatIsStale(evs: seq<P.Event>, a: Attempt, b: Attempt, plain: seq<byte>)
    requires P.CalmRun(evs) && P.RenewingRun(evs, true) && Repeating(P.Run(evs), a, b, plain)
    ensures var s, t := P.Run(evs), P.Run(evs + [P.OnDevice(COMMIT)]);
            t.up == s.up + [Hello(a.counter)] && a.counter < t.server.helloMark
  {
    assert (evs + [P.OnDevice(COMMIT)])[..|evs|] == evs;
    CommitSends(P.Run(evs).dev, a);
    P.RunKeeps(evs);
  }

  /**
    From every calmly reached state in which the HELLO task is about to repeat the number of an attempt that
    was sealed before, while the server waits for the end of a later one: the commit does not renew, and a
    calm continuation makes the server store that later context, which the ESP never commits.
   */
  lemma RepeatBreaksAgreement(evs: seq<P.Event>, a: Attempt, b: Attempt, plain: seq<byte>)
    requires P.CalmRun(evs) && P.RenewingRun(evs, true) && Repeating(P.Run(evs), a, b, plain)
    ensures !Renews(P.Run(evs).dev, COMMIT, true)
    ensures var base := evs + [P.OnDevice(COMMIT)];
            exists more :: P.CalmAfter(base, more) && Disagrees(P.Run(base + more), b)
  {
    var base := evs + [P.OnDevice(COMMIT)];
    assert base[..|evs|] == evs;
    P.RunKeeps(evs);
    assert P.Answered(b, P.Run(evs).server);
    CommitSends(P.Run(evs).dev, a);
    LeadsNowhere(base);
    var t := OldAttemptEnds(base, P.Run(base), a, b, plain);
    LeadsToDisagreement(base, t, b);
  }

  // ----- such a state is reached

  /** The boot status task reads the empty cell; then three attempts get their P frames sealed. */
  lemma ThreeAttempts(plain: seq<byte>) returns (t: P.System)
    ensures Leads([], t) && Attempt(2, 7) in t.signed && (Attempt(2, 7), plain) in t.sealed
    ensures (t.dev.statusRead, t.dev.callback, t.dev.hello, t.dev.enable, t.dev.session.state, t.dev.history.completed,
             t.server.callback, t.server.session)
         == (Some(0), Free, Waiting, true, WaitProvisioning, [],
             Listener.Ready, Some(Pending(Attempt(3, 7), Listener.ProvisioningSent)))
  {
    var s0 := FirstSending();
    var s1 := Acts([], s0, RunBootStatus(false));
    assert s1.dev == s0.dev.(statusRead := Some(0)) && s1.server == s0.server;
    var s2 := AttemptGoes([], s1, plain);
    var s3 := NextSending([], s2);
    var s4 := AttemptGoes([], s3, plain);
    var s5 := NextSending([], s4);
    t := AttemptGoes([], s5, plain);
  }

  /** The late commit of the boot status task. */
  lemma CellSetBack(base: seq<P.Event>, s: P.System) returns (t: P.System)
    requires Leads(base, s) && s.dev.statusRead.Some?
    ensures Leads(base, t) && t == s.(dev := s.dev.(cell := s.dev.statusRead.value + 1, statusRead := None,
                                                    history := s.dev.history.(taken := t.dev.history.taken)))
  {
    t := Acts(base, s, RunBootStatus(false));
    assert t.up == s.up;
  }

  lemma CellRead(base: seq<P.Event>, s: P.System) returns (t: P.System)
    requires Leads(base, s) && s.dev.hello == Sending && s.dev.enable && s.dev.callback == Free
    ensures Leads(base, t) && t == s.(dev := s.dev.(hello := Committing(s.dev.cell)))
  {
    t := Acts(base, s, RunHello(true, false));
    assert t.up == s.up;
  }

  /** The late commit sets the cell back to 1, and the HELLO task reads it. */
  lemma RepeatIsReached(plain: seq<byte>) returns (evs: seq<P.Event>)
    requires Parse(plain).Success?
    ensures P.CalmRun(evs) && P.RenewingRun(evs, true)
    ensures Repeating(P.Run(evs), Attempt(2, 7), Attempt(3, 7), plain)
  {
    var s := ThreeAttempts(plain);
    var s1 := NextSending([], s);
    var s2 := CellSetBack([], s1);
    var s3 := CellRead([], s2);
    evs := Reached(s3);
  }

  /** A whole calm run in which only one commit repeats a number, for every plaintext that parses. */
  lemma RepeatedNumberBreaksAgreement(plain: seq<byte>)
    requires Parse(plain).Success?
    ensures exists evs :: P.CalmRun(evs) && Disagrees(P.Run(evs), Attempt(3, 7))
  {
    var evs := RepeatIsReached(plain);
    var base := evs + [P.OnDevice(COMMIT)];
    RepeatBreaksAgreement(evs, Attempt(2, 7), Attempt(3, 7), plain);
    var more :| P.CalmAfter(base, more) && Disagrees(P.Run(base + more), Attempt(3, 7));
    assert base[..|base| - 1] == evs;
    CalmTogether(base, more);
  }

  lemma {:induction false} CalmTogether(base: seq<P.Event>, more: seq<P.Event>)
    requires P.CalmRun(base) && P.CalmAfter(base, more)
    ensures P.CalmRun(base + more)
    decreases |more|
  {
    if more == [] {
      assert base + more == base;
    } else {
      var before, e, all := more[..|more| - 1], more[|more| - 1], base + more;
      assert all[..|all| - 1] == base + before && all[|all| - 1] == e;
      CalmTogether(base, before);
      assert P.Allowed(P.Run(base + before), e);
    }
  }

  // ----- the same for S frames

  /** The boot status task reads, commits and sends, with nothing in between. */
  lemma StatusGoes(base: seq<P.Event>, s: P.System) returns (t: P.System)
    requires Leads(base, s) && s.dev.statusRead.None?
    ensures Leads(base, t)
            && t == s.(dev := s.dev.(cell := s.dev.cell + 1, history := s.dev.history.(lastStatus := s.dev.cell + 1,
                                                                                       taken := t.dev.history.taken)),
                       up := s.up + [Status(s.dev.cell + 1)])
  {
    var s1 := Acts(base, s, RunBootStatus(true));
    assert s1.up == s.up;
    t := Acts(base, s1, RunBootStatus(true));
  }

  /** The late commit of the HELLO task, whatever comes of its frame. */
  lemma HelloCommitsLate(base: seq<P.Event>, s: P.System) returns (t: P.System)
    requires Leads(base, s) && s.dev.hello.Committing? && s.dev.history.lastHello <= s.dev.hello.read
    ensures Leads(base, t) && t == s.(dev := t.dev.(statusRead := s.dev.statusRead, cell := s.dev.hello.read + 1),
                                      up := t.up)
  {
    t := Acts(base, s, RunHello(true, false));
    CounterCell.FramesCarryTaken(s.dev, RunHello(true, false));
    CounterCell.HelloKeepsRead(s.dev, true, false);
  }

  /**
    From every state in which the HELLO task read the cell so long ago that the server has accepted a later S
    number since: it commits, the status task reads and commits, and the S frame that leaves is not above the
    server's mark.
   */
  lemma StatusIsStale(base: seq<P.Event>, s: P.System) returns (t: P.System)
    requires Leads(base, s) && s.dev.hello.Committing? && s.dev.statusRead.None? && s.up == []
    requires s.dev.history.lastHello <= s.dev.hello.read && s.dev.hello.read + 2 <= s.server.statusMark
    ensures Leads(base, t) && t.server == s.server && t.up == [Status(s.dev.hello.read + 2)]
  {
    var s1 := HelloCommitsLate(base, s);
    var s2 := StatusGoes(base, s1);
    t := LosesAllBut(base, s2, s1.up, Status(s1.dev.cell + 1));
  }

  /** A calm run whose H numbers renew, and a new S frame at the head of the line that the server must refuse. */
  lemma NewStatusCanBeStale() returns (evs: seq<P.Event>)
    ensures P.CalmRun(evs) && P.RenewingRun(evs, true)
    ensures var s := P.Run(evs);
            (s.server.callback, s.up, s.server.statusMark) == (Listener.Ready, [Status(2)], 2)
  {
    var s0 := FirstSending();
    var s1 := CellRead([], s0);
    var s2 := StatusGoes([], s1);
    var s3 := StatusGoes([], s2);
    var s4 := LosesAllBut([], s3, s2.up, Status(2));
    Extend([], s4, P.Deliver);
    var s5 := s4.(server := s4.server.(statusMark := 2), last := Some(Status(2)), up := []);
    assert s5 == P.Step(s4, P.Deliver);
    var s6 := StatusIsStale([], s5);
    evs := Reached(s6);
  }
}
