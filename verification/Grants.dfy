/**
  One-time download grants from CHECK to the ESP's confirmation: the tables download_grants and
  device_firmware_status, the HTTPS threads of SecureOTAHandler, the MQTT listener's F branch, the
  observer and table maintenance. Every event is one database transaction or one step without a
  transaction; between two events of a thread any other thread may run.
 */
module Grants {
  import opened Wrappers
  import opened Bytes

  const TTL := 300

  type DeviceId = seq<byte>
  type Code = seq<byte>
  type Sha = seq<byte>

  /** The token text; its SHA-256, which the table holds under a unique index, stands for it. */
  type Token = seq<byte>

  datatype Grant = Grant(id: nat, device: DeviceId, code: Code, sha: Sha, random: seq<byte>,
                         created: int, expires: int, consumed: Option<int>)

  datatype FirmwareState = CheckSent | DownloadStarted | DownloadCompleted | DownloadFailed | DeviceConfirmed

  type Key = (DeviceId, Sha)

  /** Where an HTTPS thread stands; `noted` is activity_image, set when the first validation passed. */
  datatype Phase =
    | Opened
    | Noting(sha: Sha)
    | Checking(noted: Option<Sha>)
    | Streaming(noted: Option<Sha>, sha: Sha)
    | Finished(noted: Option<Sha>, sha: Sha)
    | Failing(failed: Sha)
    | Consuming(sha: Sha)
    | Closed

  datatype Request = Request(token: Token, code: Code, device: DeviceId, phase: Phase)

  /** The row that the F branch has read and is about to confirm. */
  datatype Confirmation = Confirmation(key: Key, token: Token)

  /** History for the proofs: what was served and consumed, in order; the clock that was read, and the time. */
  datatype Mark = Served(token: Token, at: int, done: int) | Consumed(token: Token, at: int, done: int)

  datatype Log = Log(issued: map<Token, Grant>, trail: seq<Mark>, spent: set<Token>,
                     completed: multiset<Key>, confirmed: multiset<Key>, confirmations: seq<Confirmation>)

  datatype State = State(
    clock: int, grants: map<Token, Grant>, nextId: nat, status: map<Key, FirmwareState>,
    requests: map<nat, Request>, listener: Option<Confirmation>, log: Log)

  datatype Target = Firmware | Esp | Images | Tests(devices: set<DeviceId>, keys: set<Key>)

  datatype Transfer = Complete | PeerGone | Broken

  /** How a transaction goes: well, not at all, or well but with an exception in the activity log behind it. */
  datatype Write = Done | Refused | Raised

  /** What the surroundings decide in a step of an HTTPS thread; `now` was read before the transaction. */
  datatype Oracle = Oracle(now: int, image: Option<Sha>, fileExists: bool, transfer: Transfer, write: Write)

  datatype Event =
    | Pass(seconds: nat)
    | Insert(token: Token, device: DeviceId, code: Code, sha: Sha, random: seq<byte>, created: int)
    | Open(thread: nat, request: Request)
    | Advance(thread: nat, oracle: Oracle)
    | Observe(key: Key)
    | LookUp(device: DeviceId, random: seq<byte>, token: Token)
    | Confirm
    | Clear(target: Target)

  function Start(clock: int): State {
    State(clock, map[], 0, map[], map[], None, Log(map[], [], {}, multiset{}, multiset{}, []))
  }

  // ----- single transactions

  /** The WHERE clause that validation and consumption share. */
  predicate Usable(g: Grant, now: int) { g.consumed.None? && g.expires >= now }

  /** validate_download_token */
  predicate Validates(grants: map<Token, Grant>, token: Token, code: Code, device: DeviceId, sha: Sha, now: int) {
    token in grants && grants[token].device == device && grants[token].code == code && grants[token].sha == sha
    && Usable(grants[token], now)
  }

  /** The WHERE clause of consume_dispatch_token, which does not look at the code. */
  predicate Consumable(grants: map<Token, Grant>, token: Token, device: DeviceId, sha: Sha, now: int) {
    token in grants && grants[token].device == device && grants[token].sha == sha && Usable(grants[token], now)
  }

  /** consume_dispatch_token */
  function Consume(grants: map<Token, Grant>, token: Token, device: DeviceId, sha: Sha, now: int): map<Token, Grant> {
    if Consumable(grants, token, device, sha, now) then grants[token := grants[token].(consumed := Some(now))]
    else grants
  }

  /** A row of the join in confirm_completed_download_b64. */
  predicate Joins(s: State, device: DeviceId, random: seq<byte>, t: Token) {
    && t in s.grants && s.grants[t].device == device && s.grants[t].random == random
    && (device, s.grants[t].sha) in s.status
  }

  /** ORDER BY id DESC LIMIT 1 */
  ghost predicate Latest(s: State, device: DeviceId, random: seq<byte>, t: Token) {
    Joins(s, device, random, t) && forall u :: Joins(s, device, random, u) ==> s.grants[u].id <= s.grants[t].id
  }

  predicate Confirmable(s: State, device: DeviceId, t: Token)
    requires t in s.grants && (device, s.grants[t].sha) in s.status
  {
    s.grants[t].consumed.Some? && s.status[(device, s.grants[t].sha)] == DownloadCompleted
  }

  predicate TargetsGrant(target: Target, g: Grant) {
    target.Esp? || target.Images? || (target.Tests? && g.device in target.devices)
  }

  predicate TargetsStatus(target: Target, k: Key) {
    target.Tests? ==> k.0 in target.devices || k in target.keys
  }

  /** clear_maintenance_target, one transaction over both tables. */
  function Cleared(s: State, target: Target): State {
    s.(grants := map t | t in s.grants && !TargetsGrant(target, s.grants[t]) :: s.grants[t],
       status := map k | k in s.status && !TargetsStatus(target, k) :: s.status[k])
  }

  function Note(s: State, k: Key, f: FirmwareState): State { s.(status := s.status[k := f]) }

  function Move(s: State, thread: nat, p: Phase): State
    requires thread in s.requests
  {
    s.(requests := s.requests[thread := s.requests[thread].(phase := p)])
  }

  // ----- steps

  /** create_ota_check_grant: the unique index refuses a known token; random bytes make tokens new. */
  function StepInsert(s: State, token: Token, device: DeviceId, code: Code, sha: Sha, random: seq<byte>, created: int)
    : State
  {
    if token in s.log.issued || created > s.clock then s
    else
      var g := Grant(s.nextId, device, code, sha, random, created, created + TTL, None);
      s.(grants := s.grants[token := g], nextId := s.nextId + 1, log := s.log.(issued := s.log.issued[token := g]))
  }

  /** Whether this step is a database transaction of the thread. */
  predicate Transacts(p: Phase) {
    p.Opened? || p.Noting? || p.Checking? || (p.Finished? && p.noted.Some?) || p.Failing? || p.Consuming?
  }

  /** do_GET, then OTAHandler.do_GET, then copyfile, from transaction to transaction; an exception ends it. */
  function StepRequest(s: State, thread: nat, o: Oracle): State
    requires thread in s.requests && o.now <= s.clock
  {
    var r := s.requests[thread];
    if Transacts(r.phase) && o.write.Refused? then Move(s, thread, Closed)
    else match r.phase
    case Opened =>
      if o.image.Some? && Validates(s.grants, r.token, r.code, r.device, o.image.value, o.now)
      then Move(s, thread, Noting(o.image.value))
      else Move(s, thread, Checking(None))
    case Noting(sha) =>
      Move(Note(s, (r.device, sha), DownloadStarted), thread, if o.write.Done? then Checking(Some(sha)) else Closed)
    case Checking(noted) =>
      if o.image.None? || !Validates(s.grants, r.token, r.code, r.device, o.image.value, o.now) || !o.fileExists
      then Move(s, thread, Closed)
      else
        var trail := s.log.trail + [Served(r.token, o.now, s.clock)];
        Move(s, thread, Streaming(noted, o.image.value)).(log := s.log.(trail := trail))
    case Streaming(noted, sha) =>
      match o.transfer {
        case Complete => Move(s, thread, Finished(noted, sha))
        case PeerGone => Move(s, thread, if noted.Some? then Failing(noted.value) else Closed)
        case Broken => Move(s, thread, Closed)
      }
    case Finished(noted, sha) =>
      if noted.None? then Move(s, thread, Consuming(sha))
      else
        var k := (r.device, noted.value);
        var log := s.log.(completed := s.log.completed + multiset{k});
        Move(Note(s, k, DownloadCompleted), thread, if o.write.Done? then Consuming(sha) else Closed).(log := log)
    case Failing(noted) => Move(Note(s, (r.device, noted), DownloadFailed), thread, Closed)
    case Consuming(sha) =>
      var taken := Consumable(s.grants, r.token, r.device, sha, o.now);
      Move(s, thread, Closed).(
        grants := Consume(s.grants, r.token, r.device, sha, o.now),
        log := s.log.(spent := s.log.spent + {r.token},
                      trail := if taken then s.log.trail + [Consumed(r.token, o.now, s.clock)] else s.log.trail))
    case Closed => s
  }

  /** confirm_completed_download_b64 for the row t that the query picks. */
  ghost function StepLookUp(s: State, device: DeviceId, random: seq<byte>, t: Token): State {
    if s.listener.Some? || !Latest(s, device, random, t) || !Confirmable(s, device, t) then s
    else s.(listener := Some(Confirmation((device, s.grants[t].sha), t)))
  }

  /** The status write of the F branch. */
  function StepConfirm(s: State): State {
    if s.listener.None? then s
    else
      var c := s.listener.value;
      Note(s, c.key, DeviceConfirmed).(
        listener := None,
        log := s.log.(confirmed := s.log.confirmed + multiset{c.key}, confirmations := s.log.confirmations + [c]))
  }

  ghost function Step(s: State, e: Event): State {
    match e
    case Pass(n) => s.(clock := s.clock + n)
    case Insert(t, d, c, sha, r, created) => StepInsert(s, t, d, c, sha, r, created)
    case Open(thread, r) =>
      if thread in s.requests || r.phase != Opened then s else s.(requests := s.requests[thread := r])
    case Advance(thread, o) => if thread in s.requests && o.now <= s.clock then StepRequest(s, thread, o) else s
    case Observe(k) => Note(s, k, CheckSent)
    case LookUp(d, r, t) => StepLookUp(s, d, r, t)
    case Confirm => StepConfirm(s)
    case Clear(target) => Cleared(s, target)
  }

  ghost function Run(clock: int, evs: seq<Event>): State {
    if evs == [] then Start(clock) else Step(Run(clock, evs[..|evs| - 1]), evs[|evs| - 1])
  }

  // ----- one-time grants

  /** A row is the grant as it was issued, up to its consumption. */
  ghost predicate Genuine(clock: int, grants: map<Token, Grant>, issued: map<Token, Grant>) {
    && (forall t :: t in issued ==> issued[t].created <= clock && issued[t].expires == issued[t].created + TTL)
    && (forall t :: t in grants ==> t in issued && grants[t].(consumed := None) == issued[t].(consumed := None))
  }

  /**
    The trail serves and consumes a token by a clock within its lifetime and not before it was created,
    and nothing follows its consumption.
   */
  ghost predicate Trail(clock: int, trail: seq<Mark>, issued: map<Token, Grant>) {
    && (forall i | 0 <= i < |trail| ::
          && trail[i].token in issued && trail[i].at <= issued[trail[i].token].expires
          && issued[trail[i].token].created <= trail[i].done <= clock && trail[i].at <= trail[i].done)
    && (forall i, j | 0 <= i < j < |trail| && trail[i].Consumed? :: trail[j].token != trail[i].token)
  }

  /** A row that is still unconsumed has no consumption in the trail. */
  ghost predicate Unspent(grants: map<Token, Grant>, trail: seq<Mark>) {
    forall t, i | t in grants && grants[t].consumed.None? && 0 <= i < |trail| && trail[i].token == t :: trail[i].Served?
  }

  ghost predicate HasConsumption(trail: seq<Mark>, t: Token) {
    exists i | 0 <= i < |trail| :: trail[i].Consumed? && trail[i].token == t
  }

  ghost predicate ConsumedRows(grants: map<Token, Grant>, trail: seq<Mark>) {
    forall t :: t in grants && grants[t].consumed.Some? ==> HasConsumption(trail, t)
  }

  /** A request past the second validation holds a token that was issued for its device and image. */
  ghost predicate Entitled(r: Request, issued: map<Token, Grant>) {
    match r.phase
    case Streaming(_, sha) => r.token in issued && issued[r.token].device == r.device && issued[r.token].sha == sha
    case Finished(_, sha) => r.token in issued && issued[r.token].device == r.device && issued[r.token].sha == sha
    case Consuming(sha) => r.token in issued && issued[r.token].device == r.device && issued[r.token].sha == sha
    case _ => true
  }

  ghost predicate AllEntitled(requests: map<nat, Request>, issued: map<Token, Grant>) {
    forall n :: n in requests ==> Entitled(requests[n], issued)
  }

  /** A token whose transfer ran to its end is consumed, expired or gone. */
  ghost predicate Dead(clock: int, grants: map<Token, Grant>, issued: map<Token, Grant>, spent: set<Token>) {
    forall t :: t in spent ==> t in issued && (t in grants ==> !Usable(grants[t], clock))
  }

  ghost predicate Inv(s: State) {
    && Genuine(s.clock, s.grants, s.log.issued)
    && Trail(s.clock, s.log.trail, s.log.issued)
    && Unspent(s.grants, s.log.trail)
    && ConsumedRows(s.grants, s.log.trail)
    && AllEntitled(s.requests, s.log.issued)
    && Dead(s.clock, s.grants, s.log.issued, s.log.spent)
  }

  ghost predicate Extends(a: map<Token, Grant>, b: map<Token, Grant>) { forall t :: t in a ==> t in b && a[t] == b[t] }

  lemma IssueKeepsHistory(s: State, issued: map<Token, Grant>)
    requires Inv(s) && Extends(s.log.issued, issued)
    ensures Trail(s.clock, s.log.trail, issued)
    ensures AllEntitled(s.requests, issued)
  {
    forall n | n in s.requests
      ensures Entitled(s.requests[n], issued)
    {
      assert Entitled(s.requests[n], s.log.issued);
    }
  }

  lemma InsertKeepsRows(s: State, token: Token, g: Grant)
    requires Inv(s) && token !in s.log.issued
    requires g.created <= s.clock && g.expires == g.created + TTL && g.consumed == None
    ensures var grants, issued := s.grants[token := g], s.log.issued[token := g];
            && Genuine(s.clock, grants, issued) && Dead(s.clock, grants, issued, s.log.spent)
            && Unspent(grants, s.log.trail) && ConsumedRows(grants, s.log.trail)
  {
  }

  lemma InsertKeeps(s: State, token: Token, device: DeviceId, code: Code, sha: Sha, random: seq<byte>, created: int)
    requires Inv(s)
    ensures Inv(StepInsert(s, token, device, code, sha, random, created))
  {
    if token !in s.log.issued && created <= s.clock {
      var g := Grant(s.nextId, device, code, sha, random, created, created + TTL, None);
      IssueKeepsHistory(s, s.log.issued[token := g]);
      InsertKeepsRows(s, token, g);
    }
  }

  lemma ServeKeeps(s: State, thread: nat, o: Oracle)
    requires Inv(s) && thread in s.requests && o.now <= s.clock && s.requests[thread].phase.Checking?
    ensures Inv(StepRequest(s, thread, o))
  {
    var s' := StepRequest(s, thread, o);
    assert s.log.trail <= s'.log.trail;
    TrailGrows(s.grants, s.log.trail, s'.log.trail);
  }

  lemma ConsumptionStays(a: seq<Mark>, b: seq<Mark>, t: Token)
    requires a <= b && HasConsumption(a, t)
    ensures HasConsumption(b, t)
  {
    var i :| 0 <= i < |a| && a[i].Consumed? && a[i].token == t;
    assert b[i] == a[i];
  }

  lemma TrailGrows(grants: map<Token, Grant>, a: seq<Mark>, b: seq<Mark>)
    requires ConsumedRows(grants, a) && a <= b
    ensures ConsumedRows(grants, b)
  {
    forall t | t in grants && grants[t].consumed.Some?
      ensures HasConsumption(b, t)
    {
      ConsumptionStays(a, b, t);
    }
  }

  /** The UPDATE found its row. */
  lemma TakingKeepsRows(s: State, t: Token, now: int)
    requires Inv(s) && t in s.grants && Usable(s.grants[t], now) && now <= s.clock
    ensures var grants := s.grants[t := s.grants[t].(consumed := Some(now))];
            var trail := s.log.trail + [Consumed(t, now, s.clock)];
            && Genuine(s.clock, grants, s.log.issued) && Trail(s.clock, trail, s.log.issued)
            && Unspent(grants, trail)
            && Dead(s.clock, grants, s.log.issued, s.log.spent + {t})
  {
    var trail := s.log.trail + [Consumed(t, now, s.clock)];
    assert trail[|s.log.trail|] == Consumed(t, now, s.clock);
  }

  lemma TakingKeepsConsumed(s: State, t: Token, now: int)
    requires Inv(s) && t in s.grants
    ensures ConsumedRows(s.grants[t := s.grants[t].(consumed := Some(now))], s.log.trail + [Consumed(t, now, s.clock)])
  {
    var trail := s.log.trail + [Consumed(t, now, s.clock)];
    assert trail[|s.log.trail|].Consumed? && trail[|s.log.trail|].token == t;
    TrailGrows(s.grants, s.log.trail, trail);
  }

  lemma ConsumeKeeps(s: State, thread: nat, o: Oracle)
    requires Inv(s) && thread in s.requests && o.now <= s.clock && s.requests[thread].phase.Consuming?
    ensures Inv(StepRequest(s, thread, o))
  {
    var r := s.requests[thread];
    assert Entitled(r, s.log.issued);
    MoveKeepsEntitled(s.requests, s.log.issued, thread, Closed);
    if Consumable(s.grants, r.token, r.device, r.phase.sha, o.now) {
      TakingKeepsRows(s, r.token, o.now);
      TakingKeepsConsumed(s, r.token, o.now);
    } else {
      assert r.token in s.grants ==> !Usable(s.grants[r.token], o.now);
      assert Dead(s.clock, s.grants, s.log.issued, s.log.spent + {r.token});
    }
  }

  lemma MoveKeepsEntitled(requests: map<nat, Request>, issued: map<Token, Grant>, thread: nat, p: Phase)
    requires AllEntitled(requests, issued) && thread in requests && Entitled(requests[thread].(phase := p), issued)
    ensures AllEntitled(requests[thread := requests[thread].(phase := p)], issued)
  {
  }

  lemma RequestKeeps(s: State, thread: nat, o: Oracle)
    requires Inv(s) && thread in s.requests && o.now <= s.clock
    ensures Inv(StepRequest(s, thread, o))
  {
    var r := s.requests[thread];
    match r.phase
    case Checking(_) => ServeKeeps(s, thread, o);
    case Consuming(_) => ConsumeKeeps(s, thread, o);
    case Closed =>
    case _ => NotingKeeps(s, thread, o);
  }

  /** The other steps write at most a status row. */
  ghost predicate SameRows(s: State, s': State) {
    && s'.clock == s.clock && s'.grants == s.grants
    && s'.log.issued == s.log.issued && s'.log.trail == s.log.trail && s'.log.spent == s.log.spent
  }

  /** The step leaves the grants alone and moves one thread to a phase that its token allows. */
  ghost predicate OnlyMoves(s: State, thread: nat, s': State)
    requires thread in s.requests
  {
    var r := s.requests[thread];
    && SameRows(s, s') && thread in s'.requests
    && var p := s'.requests[thread].phase;
       s'.requests == s.requests[thread := r.(phase := p)] && Entitled(r.(phase := p), s.log.issued)
  }

  lemma EarlyMoves(s: State, thread: nat, o: Oracle)
    requires thread in s.requests && o.now <= s.clock && Entitled(s.requests[thread], s.log.issued)
    requires var p := s.requests[thread].phase; p.Opened? || p.Noting? || p.Streaming?
    ensures OnlyMoves(s, thread, StepRequest(s, thread, o))
  {
  }

  lemma LateMoves(s: State, thread: nat, o: Oracle)
    requires thread in s.requests && o.now <= s.clock && Entitled(s.requests[thread], s.log.issued)
    requires var p := s.requests[thread].phase; p.Finished? || p.Failing?
    ensures OnlyMoves(s, thread, StepRequest(s, thread, o))
  {
  }

  lemma SameRowsKeep(s: State, s': State, thread: nat, p: Phase)
    requires Inv(s) && SameRows(s, s') && thread in s.requests
    requires s'.requests == s.requests[thread := s.requests[thread].(phase := p)]
    requires Entitled(s.requests[thread].(phase := p), s.log.issued)
    ensures Inv(s')
  {
    MoveKeepsEntitled(s.requests, s.log.issued, thread, p);
  }

  lemma NotingKeeps(s: State, thread: nat, o: Oracle)
    requires Inv(s) && thread in s.requests && o.now <= s.clock
    requires !(s.requests[thread].phase.Checking? || s.requests[thread].phase.Consuming?
             || s.requests[thread].phase.Closed?)
    ensures Inv(StepRequest(s, thread, o))
  {
    assert Entitled(s.requests[thread], s.log.issued);
    var p := s.requests[thread].phase;
    if p.Finished? || p.Failing? { LateMoves(s, thread, o); } else { EarlyMoves(s, thread, o); }
    SameRowsKeep(s, StepRequest(s, thread, o), thread, StepRequest(s, thread, o).requests[thread].phase);
  }

  lemma StepKeeps(s: State, e: Event)
    requires Inv(s)
    ensures Inv(Step(s, e))
  {
    match e
    case Insert(t, d, c, sha, r, created) => InsertKeeps(s, t, d, c, sha, r, created);
    case Advance(thread, o) => if thread in s.requests && o.now <= s.clock { RequestKeeps(s, thread, o); }
    case _ =>
  }

  lemma {:induction false} RunKeeps(clock: int, evs: seq<Event>)
    ensures Inv(Run(clock, evs))
  {
    if evs != [] {
      RunKeeps(clock, evs[..|evs| - 1]);
      StepKeeps(Run(clock, evs[..|evs| - 1]), evs[|evs| - 1]);
    }
  }

  /**
    Over every interleaving: a download starts, and a grant is consumed, by a clock that shows at most 300
    seconds after the grant was created, and nothing is served or consumed with a token after its
    consumption.
   */
  lemma OneTimeGrants(clock: int, evs: seq<Event>)
    ensures var s := Run(clock, evs); var t := s.log.trail;
            && (forall i | 0 <= i < |t| :: t[i].token in s.log.issued
                  && t[i].at <= s.log.issued[t[i].token].created + 300
                  && s.log.issued[t[i].token].created <= t[i].done <= s.clock)
            && (forall i, j | 0 <= i < j < |t| && t[i].Consumed? :: t[j].token != t[i].token)
  {
    RunKeeps(clock, evs);
  }

  /** Once a token is consumed it never validates again, whatever clock a transaction goes by. */
  lemma ConsumedTokensNeverValidate(clock: int, evs: seq<Event>, t: Token,
                                    code: Code, device: DeviceId, sha: Sha, now: int)
    requires HasConsumption(Run(clock, evs).log.trail, t)
    ensures !Validates(Run(clock, evs).grants, t, code, device, sha, now)
  {
    RunKeeps(clock, evs);
    var trail := Run(clock, evs).log.trail;
    var i :| 0 <= i < |trail| && trail[i].Consumed? && trail[i].token == t;
  }

  /**
    In every run, a token validates by some clock exactly if its row is still there, fits the request, the clock
    is within the 300 seconds, and no consumption of it was committed.
   */
  lemma TokensValidateExactly(clock: int, evs: seq<Event>, t: Token,
                              code: Code, device: DeviceId, sha: Sha, now: int)
    ensures var s := Run(clock, evs);
            Validates(s.grants, t, code, device, sha, now) <==>
              && t in s.grants && t in s.log.issued
              && (var g := s.log.issued[t];
                  g.device == device && g.code == code && g.sha == sha && now <= g.created + 300)
              && !HasConsumption(s.log.trail, t)
  {
    RunKeeps(clock, evs);
    var s := Run(clock, evs);
    if t in s.grants && t in s.log.issued {
      assert s.grants[t].(consumed := None) == s.log.issued[t].(consumed := None);
    }
  }

  /** The row is still there and not consumed. */
  predicate Left(s: State, t: Token) { t in s.grants && s.grants[t].consumed.None? }

  /** Nothing but other threads, maintenance, listener, observer and time. */
  predicate Elsewhere(evs: seq<Event>, thread: nat) {
    forall i | 0 <= i < |evs| :: !(evs[i].Advance? && evs[i].thread == thread)
  }

  lemma OtherThreadMoves(s: State, other: nat, o: Oracle, thread: nat)
    requires thread in s.requests && other in s.requests && o.now <= s.clock && other != thread
    ensures var s' := StepRequest(s, other, o);
            thread in s'.requests && s'.requests[thread] == s.requests[thread] && s.clock == s'.clock
  {
  }

  lemma OthersKeepThread(s: State, e: Event, thread: nat)
    requires thread in s.requests && !(e.Advance? && e.thread == thread)
    ensures thread in Step(s, e).requests && Step(s, e).requests[thread] == s.requests[thread]
    ensures s.clock <= Step(s, e).clock
  {
    if e.Advance? && e.thread in s.requests && e.oracle.now <= s.clock {
      OtherThreadMoves(s, e.thread, e.oracle, thread);
    }
  }

  lemma {:induction false} ThreadStays(clock: int, evs: seq<Event>, more: seq<Event>, thread: nat)
    requires thread in Run(clock, evs).requests && Elsewhere(more, thread)
    ensures var s, t := Run(clock, evs), Run(clock, evs + more);
            thread in t.requests && t.requests[thread] == s.requests[thread] && s.clock <= t.clock
    decreases |more|
  {
    if more == [] {
      assert evs + more == evs;
    } else {
      var before, e := more[..|more| - 1], more[|more| - 1];
      assert forall i | 0 <= i < |before| :: before[i] == more[i];
      ThreadStays(clock, evs, before, thread);
      RunExtends(clock, evs, more);
      OthersKeepThread(Run(clock, evs + before), e, thread);
    }
  }

  /** The last step of a handler whose transfer was complete. */
  lemma ConsumptionTakesExactly(s: State, thread: nat, o: Oracle)
    requires Inv(s) && thread in s.requests && o.now <= s.clock
    requires s.requests[thread].phase.Consuming? || s.requests[thread].phase.Closed?
    ensures var r, s' := s.requests[thread], Step(s, Advance(thread, o));
            Left(s', r.token) <==>
              Left(s, r.token) && (r.phase.Closed? || o.write.Refused? || o.now > s.grants[r.token].expires)
  {
    var r := s.requests[thread];
    assert Entitled(r, s.log.issued);
    if r.token in s.grants {
      assert s.grants[r.token].(consumed := None) == s.log.issued[r.token].(consumed := None);
    }
  }

  /**
    What a complete transfer leaves of its token, whatever other threads, maintenance and time do between the two
    transactions of its handler: the row stays usable, for the rest of its lifetime, exactly if it was still there
    and unconsumed before the consumption, and the write of DOWNLOAD_COMPLETED raised, or the consumption raised
    or came too late.
   */
  lemma CompleteTransferSpendsExactly(clock: int, evs: seq<Event>, between: seq<Event>, thread: nat,
                                      news: Oracle, consumption: Oracle)
    requires thread in Run(clock, evs).requests && Run(clock, evs).requests[thread].phase.Finished?
    requires news.now <= Run(clock, evs).clock && Elsewhere(between, thread)
    requires consumption.now <= Run(clock, evs + [Advance(thread, news)] + between).clock
    ensures var r := Run(clock, evs).requests[thread];
            var before := evs + [Advance(thread, news)] + between;
            var s, s' := Run(clock, before), Run(clock, before + [Advance(thread, consumption)]);
            Left(s', r.token) <==>
              Left(s, r.token) && (|| (r.phase.noted.Some? && !news.write.Done?)
                                   || consumption.write.Refused?
                                   || consumption.now > s.grants[r.token].expires)
  {
    var first := evs + [Advance(thread, news)];
    var before := first + between;
    assert first[..|evs|] == evs && (before + [Advance(thread, consumption)])[..|before|] == before;
    NewsStep(Run(clock, evs), thread, news);
    ThreadStays(clock, first, between, thread);
    RunKeeps(clock, before);
    ConsumptionTakesExactly(Run(clock, before), thread, consumption);
  }

  lemma NewsStep(s: State, thread: nat, news: Oracle)
    requires thread in s.requests && news.now <= s.clock && s.requests[thread].phase.Finished?
    ensures var r, s1 := s.requests[thread], StepRequest(s, thread, news);
            && s1.grants == s.grants && thread in s1.requests && s1.clock == s.clock
            && s1.requests[thread] == r.(phase := if r.phase.noted.Some? && !news.write.Done? then Closed
                                                  else Consuming(r.phase.sha))
  {
  }

  /** The row of a token is gone, or useless from this time on. */
  ghost predicate Useless(s: State, t: Token, from: int) {
    t in s.log.issued && (t in s.grants ==> !Usable(s.grants[t], from))
  }

  lemma StaysUseless(s: State, e: Event, t: Token, from: int)
    requires Useless(s, t, from)
    ensures Useless(Step(s, e), t, from)
  {
    match e
    case Advance(thread, o) =>

    case _ =>
  }

  lemma RunExtends(clock: int, evs: seq<Event>, more: seq<Event>)
    requires more != []
    ensures Run(clock, evs + more) == Step(Run(clock, evs + more[..|more| - 1]), more[|more| - 1])
  {
    assert (evs + more)[..|evs + more| - 1] == evs + more[..|more| - 1];
  }

  lemma {:induction false} RunStaysUseless(clock: int, evs: seq<Event>, more: seq<Event>, t: Token, from: int)
    requires Useless(Run(clock, evs), t, from)
    ensures Useless(Run(clock, evs + more), t, from)
    decreases |more|
  {
    if more == [] {
      assert evs + more == evs;
    } else {
      RunStaysUseless(clock, evs, more[..|more| - 1], t, from);
      RunExtends(clock, evs, more);
      StaysUseless(Run(clock, evs + more[..|more| - 1]), more[|more| - 1], t, from);
    }
  }

  /**
    Once the handler of a complete transfer ran its consumption, without an exception, the token never
    validates again: not in any continuation, by any clock that was read from then on.
   */
  lemma SpentTokensNeverValidate(clock: int, evs: seq<Event>, more: seq<Event>, t: Token,
                                 code: Code, device: DeviceId, sha: Sha, now: int)
    requires t in Run(clock, evs).log.spent && now >= Run(clock, evs).clock
    ensures !Validates(Run(clock, evs + more).grants, t, code, device, sha, now)
  {
    RunKeeps(clock, evs);
    RunStaysUseless(clock, evs, more, t, Run(clock, evs).clock);
  }

  // ----- maintenance

  predicate Gone(s: State, t: Token) { t in s.log.issued && t !in s.grants }

  lemma GoneStays(s: State, e: Event, t: Token)
    requires Gone(s, t)
    ensures Gone(Step(s, e), t)
  {
  }

  lemma {:induction false} RunKeepsGone(clock: int, evs: seq<Event>, more: seq<Event>, t: Token)
    requires Gone(Run(clock, evs), t)
    ensures Gone(Run(clock, evs + more), t)
    decreases |more|
  {
    if more == [] {
      assert evs + more == evs;
    } else {
      RunKeepsGone(clock, evs, more[..|more| - 1], t);
      assert (evs + more)[..|evs + more| - 1] == evs + more[..|more| - 1];
      GoneStays(Run(clock, evs + more[..|more| - 1]), more[|more| - 1], t);
    }
  }

  /**
    What one maintenance transaction leaves: grants of other devices than the test devices, no grant when the ESP
    state or the images are reset, every grant when only the status rows are; status rows survive only the tests.
   */
  lemma MaintenanceDeletesExactly(s: State, target: Target, t: Token, k: Key)
    ensures var s' := Step(s, Clear(target));
            && (t in s'.grants <==> t in s.grants && match target
                                      case Firmware => true
                                      case Esp => false
                                      case Images => false
                                      case Tests(devices, _) => s.grants[t].device !in devices)
            && (t in s'.grants ==> s'.grants[t] == s.grants[t])
            && (k in s'.status <==> k in s.status && target.Tests? && k.0 !in target.devices && k !in target.keys)
            && (k in s'.status ==> s'.status[k] == s.status[k])
            && s'.requests == s.requests && s'.log == s.log && s'.listener == s.listener
  {
  }

  /** Resetting the ESP state or the images, or the test device of a grant, withdraws its token for good. */
  lemma ClearedTokensNeverValidate(clock: int, evs: seq<Event>, target: Target, more: seq<Event>, t: Token,
                                   code: Code, device: DeviceId, sha: Sha, now: int)
    requires t in Run(clock, evs).log.issued
    requires || target in {Esp, Images}
             || (target.Tests? && Run(clock, evs).log.issued[t].device in target.devices)
    ensures !Validates(Run(clock, evs + [Clear(target)] + more).grants, t, code, device, sha, now)
  {
    var s, cut := Run(clock, evs), evs + [Clear(target)];
    RunKeeps(clock, evs);
    assert cut[..|cut| - 1] == evs;
    assert t in s.grants ==> s.grants[t].device == s.log.issued[t].device;
    RunKeepsGone(clock, cut, more, t);
  }

  // ----- confirmations

  /** A status row in state DOWNLOAD_COMPLETED, or one that the F branch saw in it, is not yet confirmed. */
  function Owed(s: State, k: Key): nat {
    var seen := s.listener.Some? && s.listener.value.key == k;
    if (k in s.status && s.status[k] == DownloadCompleted) || seen then 1 else 0
  }

  ghost predicate Backed(c: Confirmation, log: Log) {
    && c.token in log.issued && (log.issued[c.token].device, log.issued[c.token].sha) == c.key
    && HasConsumption(log.trail, c.token)
  }

  ghost predicate Balanced(s: State) {
    && (forall k :: Covered(s, k))
    && (s.listener.Some? ==> Backed(s.listener.value, s.log))
    && (forall i | 0 <= i < |s.log.confirmations| :: Backed(s.log.confirmations[i], s.log))
  }

  /** Issued grants are never rewritten and the trail only grows, so what backs a confirmation stays. */
  lemma LogGrows(s: State, e: Event)
    ensures var a, b := s.log, Step(s, e).log;
            a.trail <= b.trail && Extends(a.issued, b.issued)
  {
  }

  lemma BackedStays(c: Confirmation, a: Log, b: Log)
    requires Backed(c, a)
    requires a.trail <= b.trail && Extends(a.issued, b.issued)
    ensures Backed(c, b)
  {
    ConsumptionStays(a.trail, b.trail, c.token);
  }

  lemma LookUpIsBacked(s: State, device: DeviceId, random: seq<byte>, t: Token)
    requires Inv(s) && s.listener.None? && StepLookUp(s, device, random, t).listener.Some?
    ensures Backed(StepLookUp(s, device, random, t).listener.value, s.log)
  {
  }

  predicate Covered(s: State, k: Key) { s.log.confirmed[k] + Owed(s, k) <= s.log.completed[k] }

  predicate Completes(p: Phase, o: Oracle) { p.Finished? && p.noted.Some? && !o.write.Refused? }

  /** The step that writes DOWNLOAD_COMPLETED is the one that is counted. */
  lemma FinishKeepsCount(s: State, thread: nat, o: Oracle, k: Key)
    requires thread in s.requests && o.now <= s.clock && Completes(s.requests[thread].phase, o) && Covered(s, k)
    ensures Covered(StepRequest(s, thread, o), k)
  {
    var done := (s.requests[thread].device, s.requests[thread].phase.noted.value);
    assert StepRequest(s, thread, o).log.completed == s.log.completed + multiset{done};
    assert (s.log.completed + multiset{done})[k] == s.log.completed[k] + if k == done then 1 else 0;
  }

  lemma NoteOwesNoMore(s: State, k': Key, f: FirmwareState, k: Key)
    requires f != DownloadCompleted
    ensures Owed(Note(s, k', f), k) <= Owed(s, k)
  {
  }

  lemma OtherRequestOwesNoMore(s: State, thread: nat, o: Oracle, k: Key)
    requires thread in s.requests && o.now <= s.clock && !Completes(s.requests[thread].phase, o)
    ensures var s' := StepRequest(s, thread, o);
            s'.log.completed == s.log.completed && s'.log.confirmed == s.log.confirmed && Owed(s', k) <= Owed(s, k)
  {
    var r := s.requests[thread];
    if r.phase.Noting? { NoteOwesNoMore(s, (r.device, r.phase.sha), DownloadStarted, k); }
    if r.phase.Failing? { NoteOwesNoMore(s, (r.device, r.phase.failed), DownloadFailed, k); }
  }

  lemma RequestKeepsCount(s: State, thread: nat, o: Oracle, k: Key)
    requires thread in s.requests && o.now <= s.clock && Covered(s, k)
    ensures Covered(StepRequest(s, thread, o), k)
  {
    if Completes(s.requests[thread].phase, o) {
      FinishKeepsCount(s, thread, o, k);
    } else {
      OtherRequestOwesNoMore(s, thread, o, k);
    }
  }

  lemma ConfirmKeepsCount(s: State, k: Key)
    requires Covered(s, k)
    ensures Covered(StepConfirm(s), k)
  {
    if s.listener.Some? {
      var c := s.listener.value.key;
      assert (s.log.confirmed + multiset{c})[k] == s.log.confirmed[k] + if k == c then 1 else 0;
    }
  }

  lemma CountKeeps(s: State, e: Event, k: Key)
    requires Covered(s, k)
    ensures Covered(Step(s, e), k)
  {
    match e
    case Advance(thread, o) => if thread in s.requests && o.now <= s.clock { RequestKeepsCount(s, thread, o, k); }
    case Confirm => ConfirmKeepsCount(s, k);
    case _ =>
  }

  lemma ListenerMoves(s: State, e: Event)
    ensures var l := Step(s, e).listener;
            l.Some? ==>
              || l == s.listener
              || (s.listener.None? && e.LookUp? && l == StepLookUp(s, e.device, e.random, e.token).listener)
  {
  }

  lemma ListenerBacked(s: State, e: Event)
    requires Inv(s) && Balanced(s)
    ensures var s' := Step(s, e); s'.listener.Some? ==> Backed(s'.listener.value, s.log)
  {
    ListenerMoves(s, e);
    if s.listener.None? && e.LookUp? && StepLookUp(s, e.device, e.random, e.token).listener.Some? {
      LookUpIsBacked(s, e.device, e.random, e.token);
    }
  }

  lemma ConfirmationsMove(s: State, e: Event)
    ensures var c := Step(s, e).log.confirmations;
            c == s.log.confirmations || (s.listener.Some? && c == s.log.confirmations + [s.listener.value])
  {
  }

  lemma ListBacked(s: State, e: Event, i: nat)
    requires Balanced(s) && i < |Step(s, e).log.confirmations|
    ensures Backed(Step(s, e).log.confirmations[i], s.log)
  {
    ConfirmationsMove(s, e);
    if i < |s.log.confirmations| {
      assert Backed(s.log.confirmations[i], s.log);
    }
  }

  lemma BalanceKeeps(s: State, e: Event)
    requires Inv(s) && Balanced(s)
    ensures Balanced(Step(s, e))
  {
    var s' := Step(s, e);
    LogGrows(s, e);
    forall k
      ensures Covered(s', k)
    {
      CountKeeps(s, e, k);
    }
    ListenerBacked(s, e);
    if s'.listener.Some? {
      BackedStays(s'.listener.value, s.log, s'.log);
    }
    forall i | 0 <= i < |s'.log.confirmations|
      ensures Backed(s'.log.confirmations[i], s'.log)
    {
      ListBacked(s, e, i);
      BackedStays(s'.log.confirmations[i], s.log, s'.log);
    }
  }

  /**
    Conservation: for every device and image, the confirmations never outnumber the completed
    downloads, and each confirmation names a grant of that device and image consumed before.
   */
  lemma ConfirmationsAreBacked(clock: int, evs: seq<Event>)
    ensures var log := Run(clock, evs).log;
            && (forall k :: log.confirmed[k] <= log.completed[k])
            && (forall i | 0 <= i < |log.confirmations| :: Backed(log.confirmations[i], log))
  {
    RunBalances(clock, evs);
    forall k
      ensures Run(clock, evs).log.confirmed[k] <= Run(clock, evs).log.completed[k]
    {
      assert Covered(Run(clock, evs), k);
    }
  }

  lemma {:induction false} RunBalances(clock: int, evs: seq<Event>)
    ensures Balanced(Run(clock, evs))
  {
    if evs != [] {
      var before := evs[..|evs| - 1];
      RunBalances(clock, before);
      RunKeeps(clock, before);
      BalanceKeeps(Run(clock, before), evs[|evs| - 1]);
    }
  }

  // ----- the transactions and the handler as they run

  class Database {
    var grants: map<Token, Grant>
    var status: map<Key, FirmwareState>

    constructor ()
      ensures grants == map[] && status == map[]
    {
      grants, status := map[], map[];
    }

    method ValidateDownloadToken(token: Token, code: Code, device: DeviceId, sha: Sha, now: int) returns (ok: bool)
      ensures ok <==> Validates(grants, token, code, device, sha, now)
      ensures ok <==> token in grants && var g := grants[token];
                      (g.device, g.code, g.sha, g.consumed) == (device, code, sha, None) && now <= g.expires
    {
      if token !in grants { return false; }
      var g := grants[token];
      ok := g.device == device && g.code == code && g.sha == sha && g.consumed.None? && now <= g.expires;
    }

    /** The answer is rowcount == 1. */
    method ConsumeDispatchToken(token: Token, device: DeviceId, sha: Sha, now: int) returns (ok: bool)
      modifies this`grants
      ensures ok <==> token in old(grants) && var g := old(grants)[token];
                      (g.device, g.sha, g.consumed) == (device, sha, None) && now <= g.expires
      ensures grants == if ok then old(grants)[token := old(grants)[token].(consumed := Some(now))] else old(grants)
      ensures grants == Consume(old(grants), token, device, sha, now)
    {
      if token !in grants { return false; }
      var g := grants[token];
      ok := g.device == device && g.sha == sha && g.consumed.None? && now <= g.expires;
      if ok {
        grants := grants[token := g.(consumed := Some(now))];
      }
    }

    /** An exception is an answer; the row may be written all the same. */
    method FirmwareDeviceState(k: Key, f: FirmwareState, write: Write) returns (raised: bool)
      modifies this`status
      ensures raised <==> !write.Done?
      ensures status == if write.Refused? then old(status) else old(status)[k := f]
    {
      if !write.Refused? {
        status := status[k := f];
      }
      raised := !write.Done?;
    }
  }

  /** The bytes of the first n blocks. */
  function Joined(blocks: seq<seq<byte>>, n: nat): seq<byte>
    requires n <= |blocks|
  {
    if n == 0 then [] else Joined(blocks, n - 1) + blocks[n - 1]
  }

  /** The fields of SecureOTAHandler that do_GET leaves for copyfile. */
  class SecureOtaHandler {
    var activity: Option<Sha>
    var otaSha: Sha

    constructor (noted: Option<Sha>, sha: Sha)
      ensures activity == noted && otaSha == sha
    {
      activity, otaSha := noted, sha;
    }

    /**
      copyfile. `fault` is the write that fails, and how. The two transactions at the end are those
      of the steps Finished and Consuming, or Failing; the second one is not reached if the first one raises.
     */
    method CopyFile(db: Database, r: Request, blocks: seq<seq<byte>>, fault: Option<(nat, Transfer)>, now: int,
                    news: Write, consumption: Write)
      returns (sent: seq<byte>, transfer: Transfer)
      requires fault.Some? ==> fault.value.1 != Complete
      modifies db
      ensures transfer == if fault.Some? && fault.value.0 < |blocks| then fault.value.1 else Complete
      ensures sent == Joined(blocks, if transfer.Complete? then |blocks| else fault.value.0)
      ensures db.grants == if transfer.Complete? && (activity.None? || news.Done?) && !consumption.Refused?
                           then Consume(old(db.grants), r.token, r.device, otaSha, now)
                           else old(db.grants)
      ensures db.status == if activity.None? || transfer.Broken? || news.Refused? then old(db.status)
                           else old(db.status)[(r.device, activity.value) :=
                                                 if transfer.Complete? then DownloadCompleted else DownloadFailed]
    {
      sent, transfer := [], Complete;
      var k := 0;
      while k < |blocks| && transfer.Complete?
        invariant 0 <= k <= |blocks|
        invariant sent == Joined(blocks, k)
        invariant transfer.Complete? ==> fault.None? || k <= fault.value.0
        invariant !transfer.Complete? ==> fault.Some? && k == fault.value.0 < |blocks| && transfer == fault.value.1
        decreases |blocks| - k, if transfer.Complete? then 1 else 0
      {
        if fault.Some? && fault.value.0 == k {
          transfer := fault.value.1;
        } else {
          sent := sent + blocks[k];
          k := k + 1;
        }
      }
      var raised := false;
      if activity.Some? && transfer.Complete? {
        raised := db.FirmwareDeviceState((r.device, activity.value), DownloadCompleted, news);
      } else if activity.Some? && transfer.PeerGone? {
        raised := db.FirmwareDeviceState((r.device, activity.value), DownloadFailed, news);
      }
      if transfer.Complete? && !raised && !consumption.Refused? {
        var _ := db.ConsumeDispatchToken(r.token, r.device, otaSha, now);
      }
    }
  }

  // ----- wires waiting to be sent (ota_check_runtime.py)

  datatype WireEvent = Store(token: Token, wire: seq<byte>) | Take(token: Token)

  datatype Waiting = Waiting(
    pending: map<Token, seq<byte>>, stored: multiset<(Token, seq<byte>)>, handed: multiset<(Token, seq<byte>)>)

  function WireStep(w: Waiting, e: WireEvent): Waiting {
    match e
    case Store(t, wire) => w.(pending := w.pending[t := wire], stored := w.stored + multiset{(t, wire)})
    case Take(t) =>
      if t in w.pending then w.(pending := w.pending - {t}, handed := w.handed + multiset{(t, w.pending[t])}) else w
  }

  function WireRun(evs: seq<WireEvent>): Waiting {
    if evs == [] then Waiting(map[], multiset{}, multiset{}) else WireStep(WireRun(evs[..|evs| - 1]), evs[|evs| - 1])
  }

  function InPending(w: Waiting, p: (Token, seq<byte>)): nat {
    if p.0 in w.pending && w.pending[p.0] == p.1 then 1 else 0
  }

  lemma WireStepCounts(w: Waiting, e: WireEvent, p: (Token, seq<byte>))
    requires w.handed[p] + InPending(w, p) <= w.stored[p]
    ensures var v := WireStep(w, e); v.handed[p] + InPending(v, p) <= v.stored[p]
  {
    match e
    case Store(t, wire) => assert (w.stored + multiset{(t, wire)})[p] == w.stored[p] + if p == (t, wire) then 1 else 0;
    case Take(t) =>
      if t in w.pending {
        assert (w.handed + multiset{(t, w.pending[t])})[p] == w.handed[p] + if p == (t, w.pending[t]) then 1 else 0;
      }
  }

  /** A CHECK wire is handed out at most as often as it was created for that token: once. */
  lemma {:induction false} WiresAreHandedOutOnce(evs: seq<WireEvent>, p: (Token, seq<byte>))
    ensures var w := WireRun(evs); w.handed[p] + InPending(w, p) <= w.stored[p]
  {
    if evs != [] {
      WiresAreHandedOutOnce(evs[..|evs| - 1], p);
      WireStepCounts(WireRun(evs[..|evs| - 1]), evs[|evs| - 1], p);
    }
  }

  /** _pending behind its lock. */
  class PendingWires {
    var pending: map<Token, seq<byte>>

    constructor ()
      ensures pending == map[]
    {
      pending := map[];
    }

    method CreateDispatchToken(t: Token, wire: seq<byte>)
      modifies this
      ensures pending == WireStep(Waiting(old(pending), multiset{}, multiset{}), Store(t, wire)).pending
    {
      pending := pending[t := wire];
    }

    method MakeCheckPayload(t: Token) returns (wire: Option<seq<byte>>)
      modifies this
      ensures wire == if t in old(pending) then Some(old(pending)[t]) else None
      ensures pending == WireStep(Waiting(old(pending), multiset{}, multiset{}), Take(t)).pending
    {
      if t !in pending { return None; }
      wire := Some(pending[t]);
      pending := pending - {t};
    }
  }
}
