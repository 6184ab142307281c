/**
  The secure session of the ESP (ota_secure_session.c): a four-state machine in RAM and two NVS
  records. Cryptography is ideal: a signature is the pair it signs, a session key is the pair it
  is derived from, and a sealed plaintext carries the pair whose key sealed it. Canonical.dfy
  shows that the real byte strings determine these pairs.
 */
module DeviceSession {
  import opened Wrappers
  import opened Bytes
  import opened ProvisionPlain
  import opened Protocol

  datatype SecureState = Idle | WaitChallenge | WaitProvisioning | Provisioned

  /** The record state_v2; context_v1 has the same layout. */
  datatype StateRecord = StateRecord(state: SecureState, counter: nat, random: nat)

  datatype EspError = InvalidState | BadArgument | BadCrc | BadPlaintext(error: ParseError)

  datatype Session = Session(
    state: SecureState, counter: nat, random: nat, key: Option<Attempt>,
    record: Option<StateRecord>, prov: Option<Config>)

  function Persisted(s: Session): Session {
    s.(record := Some(StateRecord(s.state, s.counter, s.random)))
  }

  /** ota_secure_session_init after a restart: RAM is lost, NVS stays. */
  function Restarted(s: Session): Session {
    Session(if s.prov.Some? then Provisioned else Idle, 0, 0, None, s.record, s.prov)
  }

  /** ota_secure_session_begin_hello */
  function BeginHello(s: Session, counter: nat): Result<Session, EspError> {
    if s.state != Idle then Failure(InvalidState)
    else if counter == 0 then Failure(BadArgument)
    else Success(Persisted(s.(state := WaitChallenge, counter := counter, random := 0, key := None)))
  }

  /** ota_secure_session_accept_challenge; the answer to sign is the new (counter, random). */
  function AcceptChallenge(s: Session, random: nat, signed: Option<Attempt>): (r: Result<Session, EspError>)
    ensures r.Success? ==> signed == Some(Attempt(s.counter, random)) && r.value.key == signed
  {
    if s.state != WaitChallenge then Failure(InvalidState)
    else if signed != Some(Attempt(s.counter, random)) then Failure(BadCrc)
    else Success(Persisted(s.(state := WaitProvisioning, random := random, key := Some(Attempt(s.counter, random)))))
  }

  /** The checks of accept_provisioning up to the first NVS write. */
  function OpenProvisioning(s: Session, sealed: Option<Attempt>, plain: seq<byte>): (r: Result<Config, EspError>)
    ensures r.Success? ==> s.state == WaitProvisioning && sealed == Some(Attempt(s.counter, s.random))
  {
    if s.state != WaitProvisioning then Failure(InvalidState)
    else if sealed.None? || s.key != sealed || sealed != Some(Attempt(s.counter, s.random)) then Failure(BadCrc)
    else match Parse(plain)
      case Failure(e) => Failure(BadPlaintext(e))
      case Success(config) => Success(config)
  }

  /** First NVS write: the new configuration. */
  function StoreProvisioning(s: Session, config: Config): Session { s.(prov := Some(config)) }

  /** Second NVS write: the state record; then the key and the random leave RAM. */
  function MarkProvisioned(s: Session): Session {
    Persisted(s.(state := Provisioned)).(random := 0, key := None)
  }

  /** ota_secure_session_reset_for_retry */
  function ResetForRetry(s: Session): Session {
    if s.state == Provisioned then s else BeginReprovisioning(s)
  }

  /** ota_secure_session_begin_reprovisioning */
  function BeginReprovisioning(s: Session): Session {
    Persisted(s.(state := Idle, counter := 0, random := 0, key := None))
  }

  /** The static variables and the two NVS blobs of ota_secure_session.c. */
  class OtaSecureSession {
    var state: SecureState
    var counter: nat
    var random: nat
    var key: Option<Attempt>
    var record: Option<StateRecord>
    var prov: Option<Config>

    ghost function View(): Session
      reads this
    {
      Session(state, counter, random, key, record, prov)
    }

    /** The first boot, with empty NVS. */
    constructor ()
      ensures View() == Session(Idle, 0, 0, None, None, None)
    {
      state, counter, random, key := Idle, 0, 0, None;
      record, prov := None, None;
    }

    method PersistState()
      modifies this`record
      ensures View() == Persisted(old(View()))
    {
      record := Some(StateRecord(state, counter, random));
    }

    method Init()
      modifies this
      ensures View() == Restarted(old(View()))
    {
      random, key, counter, state := 0, None, 0, Idle;
      if prov.Some? {
        state := Provisioned;
      }
    }

    method BeginHelloAttempt(c: nat) returns (error: Option<EspError>)
      modifies this
      ensures match BeginHello(old(View()), c)
              case Failure(e) => error == Some(e) && View() == old(View())
              case Success(s) => error == None && View() == s
    {
      if state != Idle { return Some(InvalidState); }
      if c == 0 { return Some(BadArgument); }
      counter, random, key := c, 0, None;
      state := WaitChallenge;
      PersistState();
      return None;
    }

    method Challenge(r: nat, signed: Option<Attempt>) returns (error: Option<EspError>, response: Option<Attempt>)
      modifies this
      ensures match AcceptChallenge(old(View()), r, signed)
              case Failure(e) => error == Some(e) && response == None && View() == old(View())
              case Success(s) => error == None && View() == s && response == Some(Attempt(s.counter, s.random))
    {
      if state != WaitChallenge { return Some(InvalidState), None; }
      if signed != Some(Attempt(counter, r)) { return Some(BadCrc), None; }
      random, key := r, Some(Attempt(counter, r));
      state := WaitProvisioning;
      PersistState();
      return None, Some(Attempt(counter, r));
    }

    method Provision(sealed: Option<Attempt>, plain: seq<byte>) returns (error: Option<EspError>)
      modifies this
      ensures match OpenProvisioning(old(View()), sealed, plain)
              case Failure(e) => error == Some(e) && View() == old(View())
              case Success(c) => error == None && View() == MarkProvisioned(StoreProvisioning(old(View()), c))
    {
      if state != WaitProvisioning { return Some(InvalidState); }
      if sealed.None? || key != sealed || sealed != Some(Attempt(counter, random)) { return Some(BadCrc); }
      var config := ParseWithCursor(plain);
      if config.Failure? { return Some(BadPlaintext(config.error)); }
      prov := Some(config.value);
      state := Provisioned;
      PersistState();
      key, random := None, 0;
      return None;
    }

    method Reset()
      modifies this
      ensures View() == ResetForRetry(old(View()))
    {
      if state == Provisioned { return; }
      Reprovision();
    }

    method Reprovision()
      modifies this
      ensures View() == BeginReprovisioning(old(View()))
    {
      state, counter, random, key := Idle, 0, 0, None;
      PersistState();
    }
  }
}
