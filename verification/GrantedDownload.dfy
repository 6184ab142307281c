/**
  What a grant is good for: the token validates for exactly the request it was created for, its handler, alone,
  serves the file and leaves the rows that the ESP's confirmation looks up.
 */
module GrantedDownload {
  import opened Wrappers
  import opened Bytes
  import opened Grants

  // ----- from the insertion of a grant on

  lemma {:induction false} RunKeepsIssued(clock: int, evs: seq<Event>, more: seq<Event>)
    ensures Extends(Run(clock, evs).log.issued, Run(clock, evs + more).log.issued)
    decreases |more|
  {
    if more == [] {
      assert evs + more == evs;
    } else {
      RunKeepsIssued(clock, evs, more[..|more| - 1]);
      RunExtends(clock, evs, more);
      LogGrows(Run(clock, evs + more[..|more| - 1]), more[|more| - 1]);
    }
  }

  /**
    A grant that was inserted with a new token: in every continuation, and by every clock, the token validates
    exactly for the device, the code and the image it was inserted for, up to 300 seconds after its creation, as
    long as its row is there and no consumption of it was committed. Right behind the insertion it does.
   */
  lemma InsertedTokenValidatesExactly(clock: int, evs: seq<Event>, t: Token, device: DeviceId, code: Code, sha: Sha,
                                      random: seq<byte>, created: int, more: seq<Event>,
                                      c: Code, d: DeviceId, x: Sha, now: int)
    requires t !in Run(clock, evs).log.issued && created <= Run(clock, evs).clock
    ensures var first := evs + [Insert(t, device, code, sha, random, created)];
            var fits := (d, c, x) == (device, code, sha) && now <= created + 300;
            var s := Run(clock, first + more);
            && (Validates(Run(clock, first).grants, t, c, d, x, now) <==> fits)
            && (Validates(s.grants, t, c, d, x, now) <==>
                  fits && t in s.grants && !HasConsumption(s.log.trail, t))
  {
    var first := evs + [Insert(t, device, code, sha, random, created)];
    assert first[..|evs|] == evs;
    RunKeepsIssued(clock, first, more);
    TokensValidateExactly(clock, first + more, t, c, d, x, now);
  }

  /** ... and the row joins for exactly this device and random once there is a status row for device and image. */
  lemma InsertedRowJoinsExactly(s: State, t: Token, device: DeviceId, code: Code, sha: Sha, random: seq<byte>,
                                created: int, d: DeviceId, r: seq<byte>)
    requires t !in s.log.issued && created <= s.clock
    ensures var s' := Step(s, Insert(t, device, code, sha, random, created));
            Joins(s', d, r, t) <==> (d, r) == (device, random) && (device, sha) in s.status
  {
  }

  /**
    The step that starts a download, in every run: it does so exactly if the transaction goes through, the file is
    there, and the row of the token was issued for this very device, code and image, is there, unconsumed, and not
    more than 300 seconds old.
   */
  lemma DownloadsStartExactly(clock: int, evs: seq<Event>, thread: nat, o: Oracle)
    requires thread in Run(clock, evs).requests && Run(clock, evs).requests[thread].phase.Checking?
    requires o.now <= Run(clock, evs).clock
    ensures var s, s' := Run(clock, evs), Run(clock, evs + [Advance(thread, o)]); var r := s.requests[thread];
            s'.requests[thread].phase.Streaming?
            <==> && !o.write.Refused? && o.fileExists && o.image.Some?
                 && r.token in s.grants && r.token in s.log.issued
                 && (var g := s.log.issued[r.token];
                     (g.device, g.code, g.sha) == (r.device, r.code, o.image.value) && o.now <= g.created + 300)
                 && !HasConsumption(s.log.trail, r.token)
  {
    var s := Run(clock, evs);
    assert (evs + [Advance(thread, o)])[..|evs|] == evs;
    if o.image.Some? {
      var r := s.requests[thread];
      TokensValidateExactly(clock, evs, r.token, r.code, r.device, o.image.value, o.now);
    }
  }

  // ----- a handler alone

  /** Three steps of one thread. */
  ghost function Three(s: State, thread: nat, o: seq<Oracle>): State
    requires |o| == 3
  {
    Step(Step(Step(s, Advance(thread, o[0])), Advance(thread, o[1])), Advance(thread, o[2]))
  }

  lemma MovesTwice(s: State, thread: nat, p: Phase, q: Phase)
    requires thread in s.requests
    ensures Move(Move(s, thread, p), thread, q) == Move(s, thread, q)
  {
    var r := s.requests;
    assert r[thread := r[thread].(phase := p)][thread := r[thread].(phase := q)] == r[thread := r[thread].(phase := q)];
  }

  lemma NotesTwice(s: State, k: Key, f: FirmwareState, g: FirmwareState)
    ensures Note(Note(s, k, f), k, g) == Note(s, k, g)
  {
    assert s.status[k := f][k := g] == s.status[k := g];
  }

  /** The file of this image is there, the clock that was read does not run ahead, and every write goes through. */
  predicate Untroubled(s: State, o: Oracle, sha: Sha) {
    o.now <= s.clock && o.image == Some(sha) && o.fileExists && o.write.Done?
  }

  /** The row was created for this request, is not consumed and not more than 300 seconds old. */
  predicate Fits(s: State, r: Request, sha: Sha, now: int) {
    && r.token in s.grants
    && var g := s.grants[r.token];
       (g.device, g.code, g.sha) == (r.device, r.code, sha) && g.consumed == None && now <= g.expires
  }

  predicate AllUntroubled(s: State, o: seq<Oracle>, sha: Sha) {
    |o| == 3 && Untroubled(s, o[0], sha) && Untroubled(s, o[1], sha) && Untroubled(s, o[2], sha)
  }

  /** While the file is sent. */
  function Serving(s: State, thread: nat, sha: Sha, served: int): State
    requires thread in s.requests
  {
    var r := s.requests[thread];
    Note(Move(s, thread, Streaming(Some(sha), sha)), (r.device, sha), DownloadStarted)
      .(log := s.log.(trail := s.log.trail + [Served(r.token, served, s.clock)]))
  }

  /** The first three steps: both validations pass, and DOWNLOAD_STARTED is noted between them. */
  lemma DownloadStarts(s: State, thread: nat, o: seq<Oracle>, sha: Sha)
    requires thread in s.requests && s.requests[thread].phase == Opened && AllUntroubled(s, o, sha)
    requires Fits(s, s.requests[thread], sha, o[0].now) && Fits(s, s.requests[thread], sha, o[2].now)
    ensures Three(s, thread, o) == Serving(s, thread, sha, o[2].now)
  {
    var r := s.requests[thread];
    var k := (r.device, sha);
    MovesTwice(s, thread, Noting(sha), Checking(Some(sha)));
    assert Step(s, Advance(thread, o[0])) == Move(s, thread, Noting(sha));
    var s2 := Note(Move(s, thread, Checking(Some(sha))), k, DownloadStarted);
    assert Step(Move(s, thread, Noting(sha)), Advance(thread, o[1])) == s2;
    MovesTwice(s, thread, Checking(Some(sha)), Streaming(Some(sha), sha));
  }

  /** The status row behind a transfer that was noted when it started. */
  function Noted(transfer: Transfer): FirmwareState {
    match transfer
    case Complete => DownloadCompleted
    case PeerGone => DownloadFailed
    case Broken => DownloadStarted
  }

  /** The grant's row and the log behind the consumption of a token. */
  function Spend(s: State, r: Request, k: Key, now: int): State
    requires r.token in s.grants
  {
    s.(grants := s.grants[r.token := s.grants[r.token].(consumed := Some(now))],
       log := s.log.(completed := s.log.completed + multiset{k}, spent := s.log.spent + {r.token},
                     trail := s.log.trail + [Consumed(r.token, now, s.clock)]))
  }

  /** The last three steps of a complete transfer. */
  lemma DownloadCompletes(s: State, thread: nat, o: seq<Oracle>, sha: Sha)
    requires thread in s.requests && s.requests[thread].phase == Streaming(Some(sha), sha)
    requires AllUntroubled(s, o, sha) && o[0].transfer == Complete && Fits(s, s.requests[thread], sha, o[2].now)
    ensures var r := s.requests[thread]; var k := (r.device, sha);
            Three(s, thread, o) == Spend(Note(Move(s, thread, Closed), k, DownloadCompleted), r, k, o[2].now)
  {
    var r := s.requests[thread];
    var k := (r.device, sha);
    var s3 := Move(s, thread, Finished(Some(sha), sha));
    assert Step(s, Advance(thread, o[0])) == s3;
    MovesTwice(s, thread, Finished(Some(sha), sha), Consuming(sha));
    var log := s.log.(completed := s.log.completed + multiset{k});
    var s4 := Note(Move(s, thread, Consuming(sha)), k, DownloadCompleted).(log := log);
    assert Step(s3, Advance(thread, o[1])) == s4;
    MovesTwice(s, thread, Consuming(sha), Closed);
  }

  /** A transfer that a lost peer or another error ends. */
  lemma DownloadBreaks(s: State, thread: nat, o: seq<Oracle>, sha: Sha)
    requires thread in s.requests && s.requests[thread].phase == Streaming(Some(sha), sha)
    requires AllUntroubled(s, o, sha) && o[0].transfer != Complete
    ensures var k := (s.requests[thread].device, sha);
            Three(s, thread, o) == if o[0].transfer == PeerGone then Note(Move(s, thread, Closed), k, DownloadFailed)
                                   else Move(s, thread, Closed)
  {
    MovesTwice(s, thread, Failing(sha), Closed);
  }

  // ----- from the grant to its confirmation

  /** The steps of one thread. */
  function Steps(thread: nat, o: seq<Oracle>): seq<Event> { seq(|o|, i requires 0 <= i < |o| => Advance(thread, o[i])) }

  lemma RunSteps(clock: int, evs: seq<Event>, thread: nat, o: seq<Oracle>)
    requires o != []
    ensures var last := |o| - 1;
            Run(clock, evs + Steps(thread, o))
            == Step(Run(clock, evs + Steps(thread, o[..last])), Advance(thread, o[last]))
  {
    assert Steps(thread, o)[..|o| - 1] == Steps(thread, o[..|o| - 1]);
    RunExtends(clock, evs, Steps(thread, o));
  }

  lemma RunsThree(clock: int, evs: seq<Event>, thread: nat, o: seq<Oracle>)
    requires |o| == 3
    ensures Run(clock, evs + Steps(thread, o))
            == Three(Run(clock, evs), thread, o)
  {
    RunSteps(clock, evs, thread, o);
    RunSteps(clock, evs, thread, o[..2]);
    RunSteps(clock, evs, thread, o[..1]);
    assert o[..2][..1] == o[..1] && o[..1][..0] == [] && evs + Steps(thread, []) == evs;
  }

  /** In every run: a row expires 300 seconds after its creation. */
  lemma RowsExpire(clock: int, evs: seq<Event>, t: Token)
    requires t in Run(clock, evs).grants
    ensures Run(clock, evs).grants[t].expires == Run(clock, evs).grants[t].created + 300
  {
    RunKeeps(clock, evs);
    var s := Run(clock, evs);
    assert s.grants[t].(consumed := None) == s.log.issued[t].(consumed := None);
  }

  /** What the handler leaves of a request that fits. */
  function Behind(s: State, thread: nat, sha: Sha, transfer: Transfer, served: int, consumed: int): State
    requires thread in s.requests && s.requests[thread].token in s.grants
  {
    var r := s.requests[thread];
    var k := (r.device, sha);
    var s' := Note(Move(s, thread, Closed), k, Noted(transfer))
              .(log := s.log.(trail := s.log.trail + [Served(r.token, served, s.clock)]));
    if transfer.Complete? then Spend(s', r, k, consumed) else s'
  }

  lemma HandlerEnds(s: State, thread: nat, served: int, o: seq<Oracle>, sha: Sha)
    requires thread in s.requests && AllUntroubled(s, o, sha) && Fits(s, s.requests[thread], sha, o[2].now)
    ensures Three(Serving(s, thread, sha, served), thread, o)
            == Behind(s, thread, sha, o[0].transfer, served, o[2].now)
  {
    var k, s3 := (s.requests[thread].device, sha), Serving(s, thread, sha, served);
    MovesTwice(s, thread, Streaming(Some(sha), sha), Closed);
    NotesTwice(s, k, DownloadStarted, Noted(o[0].transfer));
    if o[0].transfer.Complete? {
      DownloadCompletes(s3, thread, o, sha);
    } else {
      DownloadBreaks(s3, thread, o, sha);
    }
  }

  /**
    A handler that nothing disturbs, in every run: for a request that fits a grant created at most 300 seconds
    before, it notes DOWNLOAD_STARTED, serves the file, and leaves DOWNLOAD_COMPLETED and a consumed grant behind a
    complete transfer, DOWNLOAD_FAILED and a usable grant when the peer is lost, DOWNLOAD_STARTED else.
   */
  lemma UndisturbedHandler(clock: int, evs: seq<Event>, thread: nat, first: seq<Oracle>, second: seq<Oracle>, sha: Sha)
    requires thread in Run(clock, evs).requests && Run(clock, evs).requests[thread].phase == Opened
    requires AllUntroubled(Run(clock, evs), first, sha) && AllUntroubled(Run(clock, evs), second, sha)
    requires var s := Run(clock, evs); var r := s.requests[thread];
             && r.token in s.grants && s.grants[r.token].consumed == None
             && (s.grants[r.token].device, s.grants[r.token].code, s.grants[r.token].sha) == (r.device, r.code, sha)
             && (forall o :: o in {first[0], first[2], second[2]} ==> o.now <= s.grants[r.token].created + 300)
    ensures Run(clock, evs + Steps(thread, first) + Steps(thread, second))
            == Behind(Run(clock, evs), thread, sha, second[0].transfer, first[2].now, second[2].now)
  {
    var s := Run(clock, evs);
    RowsExpire(clock, evs, s.requests[thread].token);
    RunsThree(clock, evs, thread, first);
    DownloadStarts(s, thread, first, sha);
    RunsThree(clock, evs + Steps(thread, first), thread, second);
    HandlerEnds(s, thread, first[2].now, second, sha);
  }

  /**
    The ESP's confirmation behind it: in the state that an undisturbed handler leaves of a complete transfer, the F
    branch finds the grant by the ESP's random, if no later grant of this device has the same one, and confirms it;
    in the states behind a broken transfer it finds nothing.
   */
  lemma CompleteDownloadIsConfirmed(s: State, thread: nat, sha: Sha, transfer: Transfer, served: int, consumed: int)
    requires thread in s.requests && Fits(s, s.requests[thread], sha, served) && s.listener == None
    requires var r := s.requests[thread]; var g := s.grants[r.token];
             forall u | u in s.grants && s.grants[u].device == r.device && s.grants[u].random == g.random ::
               s.grants[u].id <= g.id
    ensures var r := s.requests[thread]; var g := s.grants[r.token];
            var s' := Behind(s, thread, sha, transfer, served, consumed);
            var t := Step(Step(s', LookUp(r.device, g.random, r.token)), Confirm);
            if transfer == Complete
            then t.status == s'.status[(r.device, sha) := DeviceConfirmed]
                 && t.log.confirmations == s.log.confirmations + [Confirmation((r.device, sha), r.token)]
            else t == s'
  {
    var r := s.requests[thread];
    var g := s.grants[r.token];
    var s' := Behind(s, thread, sha, transfer, served, consumed);
    assert Latest(s', r.device, g.random, r.token);
  }

  /** A CHECK that was sent anew for the same device and image withdraws a completion that is not yet confirmed. */
  lemma NewCheckWithdrawsCompletion(s: State, k: Key, random: seq<byte>, t: Token)
    requires t in s.grants && s.grants[t].sha == k.1
    ensures var s' := Step(s, Observe(k)); Step(s', LookUp(k.0, random, t)) == s' && Owed(s', k) <= Owed(s, k)
    ensures forall j :: j != k ==> (j in Step(s, Observe(k)).status <==> j in s.status)
  {
  }
}
