/**
  The byte strings that are signed, MACed or fed to a key derivation, on the server
  (secure_transport.py, ota_check_security.py, device_enrollment.py) and on the ESP
  (ota_secure_session.c, ota_check_auth.c, zigbee_ota_cluster.c, ota_boot_status.c).
 */
module Canonical {
  import opened Bytes
  import opened DeviceIds

  const U64_LIMIT := 0x1_0000_0000_0000_0000

  const ECOSYSTEM: seq<byte> := Ascii("JaroslavZemanESP|")
  const SESSION: seq<byte> := Ascii("provisioning-v1|")
  const NONCE: seq<byte> := Ascii("provisioning-nonce-v1|")
  const CHECK_KEY: seq<byte> := Ascii("ota-check-key-v1|")
  const TOKEN_KEY: seq<byte> := Ascii("ota-download-token-key-v1|")
  const CHECK_MAC: seq<byte> := Ascii("ota-check-v1|")
  const TOKEN_MAC: seq<byte> := Ascii("ota-download-token-v1|")

  datatype Message =
    | HelloSigned(id: seq<byte>, counter: nat)
    | ChallengeSigned(id: seq<byte>, counter: nat, random: seq<byte>)
    | ResponseSigned(id: seq<byte>, counter: nat, random: seq<byte>)
    | ProvisionAad(id: seq<byte>, counter: nat, random: seq<byte>)
    | StatusSigned(id: seq<byte>, counter: nat, version: seq<byte>)
    | SessionKey(id: seq<byte>, counter: nat, random: seq<byte>)
    | ProvisionNonce(id: seq<byte>, counter: nat, random: seq<byte>)
    | CheckKey
    | TokenKey
    | CheckMac(version: seq<byte>, code: seq<byte>, grant: seq<byte>)
    | TokenMac(id: seq<byte>, version: seq<byte>, code: seq<byte>, grant: seq<byte>)

  function Domain(m: Message): seq<byte> {
    match m
    case HelloSigned(_, _) => Ascii("H|")
    case ChallengeSigned(_, _, _) => Ascii("A|")
    case ResponseSigned(_, _, _) => Ascii("R|")
    case ProvisionAad(_, _, _) => Ascii("P|")
    case StatusSigned(_, _, _) => Ascii("S|")
    case SessionKey(_, _, _) => ECOSYSTEM + SESSION
    case ProvisionNonce(_, _, _) => ECOSYSTEM + NONCE
    case CheckKey => ECOSYSTEM + CHECK_KEY
    case TokenKey => ECOSYSTEM + TOKEN_KEY
    case CheckMac(_, _, _) => ECOSYSTEM + CHECK_MAC
    case TokenMac(_, _, _, _) => ECOSYSTEM + TOKEN_MAC
  }

  function Body(m: Message): seq<byte> {
    match m
    case HelloSigned(id, c) => id + [BAR] + Dec(c)
    case ChallengeSigned(id, c, r) => id + [BAR] + (Dec(c) + [BAR] + r)
    case ResponseSigned(id, c, r) => id + [BAR] + (Dec(c) + [BAR] + (r + Ascii("|OK")))
    case ProvisionAad(id, c, r) => id + [BAR] + (Dec(c) + [BAR] + r)
    case StatusSigned(id, c, v) => id + [BAR] + (Dec(c) + [BAR] + v)
    case SessionKey(id, c, r) => id + (BigEndian(c, 8) + r)
    case ProvisionNonce(id, c, r) => id + (BigEndian(c, 8) + r)
    case CheckKey => []
    case TokenKey => []
    case CheckMac(v, code, g) => v + ([BAR] + code + ([BAR] + g))
    case TokenMac(id, v, code, g) => id + ([BAR] + v + ([BAR] + code + ([BAR] + g)))
  }

  function Canonical(m: Message): seq<byte> { Domain(m) + Body(m) }

  /** Ids are normalized, counters are u64, randoms have eight bytes, codes three; versions are free. */
  predicate WellFormed(m: Message) {
    match m
    case HelloSigned(id, c) => |id| == ID_LENGTH
    case ChallengeSigned(id, c, r) => |id| == ID_LENGTH && |r| == 8
    case ResponseSigned(id, c, r) => |id| == ID_LENGTH && |r| == 8
    case ProvisionAad(id, c, r) => |id| == ID_LENGTH && |r| == 8
    case StatusSigned(id, c, v) => |id| == ID_LENGTH
    case SessionKey(id, c, r) => |id| == ID_LENGTH && |r| == 8 && c < U64_LIMIT
    case ProvisionNonce(id, c, r) => |id| == ID_LENGTH && |r| == 8 && c < U64_LIMIT
    case CheckKey => true
    case TokenKey => true
    case CheckMac(v, code, g) => |code| == 3 && |g| == 8
    case TokenMac(id, v, code, g) => |id| == ID_LENGTH && |code| == 3 && |g| == 8
  }

  // ----- kinds

  function At(s: seq<byte>, k: nat): byte { if k < |s| then s[k] else 0 }

  /** The kind of a message, read off single bytes of its text. */
  function Probe(s: seq<byte>): int {
    if At(s, 0) != 74 then At(s, 0)
    else if At(s, 17) == 112 then if At(s, 30) == 118 then -1 else -2
    else if At(s, 21) == 99 then if At(s, 27) == 107 then -3 else -4
    else if At(s, 36) == 107 then -5 else -6
  }

  function Kind(m: Message): int {
    match m
    case HelloSigned(_, _) => 72
    case ChallengeSigned(_, _, _) => 65
    case ResponseSigned(_, _, _) => 82
    case ProvisionAad(_, _, _) => 80
    case StatusSigned(_, _, _) => 83
    case SessionKey(_, _, _) => -1
    case ProvisionNonce(_, _, _) => -2
    case CheckKey => -3
    case CheckMac(_, _, _) => -4
    case TokenKey => -5
    case TokenMac(_, _, _, _) => -6
  }

  lemma EcosystemBytes()
    ensures |ECOSYSTEM| == 17 && ECOSYSTEM[0] == 74
  {
    assert "JaroslavZemanESP|"[0] == 'J';
  }

  lemma ProvisioningDomains()
    ensures |SESSION| == 16 && SESSION[0] == 112 && SESSION[13] == 118
    ensures |NONCE| == 22 && NONCE[0] == 112 && NONCE[13] == 110
  {
    assert "provisioning-v1|"[13] == 'v';
    assert "provisioning-nonce-v1|"[13] == 'n';
  }

  lemma CheckDomains()
    ensures |CHECK_KEY| == 17 && CHECK_KEY[0] == 111 && CHECK_KEY[4] == 99 && CHECK_KEY[10] == 107
    ensures |CHECK_MAC| == 13 && CHECK_MAC[0] == 111 && CHECK_MAC[4] == 99 && CHECK_MAC[10] == 118
  {
    assert "ota-check-key-v1|"[4] == 'c' && "ota-check-key-v1|"[10] == 'k';
    assert "ota-check-v1|"[4] == 'c' && "ota-check-v1|"[10] == 'v';
  }

  lemma TokenKeyDomain()
    ensures |TOKEN_KEY| == 26 && TOKEN_KEY[0] == 111 && TOKEN_KEY[4] == 100 && TOKEN_KEY[19] == 107
  {
    assert "ota-download-token-key-v1|"[4] == 'd' && "ota-download-token-key-v1|"[19] == 'k';
  }

  lemma TokenMacDomain()
    ensures |TOKEN_MAC| == 22 && TOKEN_MAC[0] == 111 && TOKEN_MAC[4] == 100 && TOKEN_MAC[19] == 118
  {
    assert "ota-download-token-v1|"[4] == 'd' && "ota-download-token-v1|"[19] == 'v';
  }

  /** Where a domain behind the common prefix shows in the probe. */
  lemma ProbeLong(d: seq<byte>, rest: seq<byte>)
    requires |d| > 13 || (|d| > 10 && d[0] != 112 && d[4] == 99) || |d| > 19
    requires d[0] != 112 && d[4] != 99 ==> |d| > 19
    ensures Probe(ECOSYSTEM + d + rest) ==
            if d[0] == 112 then if d[13] == 118 then -1 else -2
            else if d[4] == 99 then if d[10] == 107 then -3 else -4
            else if d[19] == 107 then -5 else -6
  {
    EcosystemBytes();
    var s := ECOSYSTEM + d + rest;
    assert s[0] == 74;
    assert forall k | 0 <= k < |d| :: s[17 + k] == d[k];
  }

  lemma ShortIsKind(m: Message)
    requires Kind(m) > 0
    ensures Probe(Canonical(m)) == Kind(m)
  {
    assert "H|"[0] == 'H' && "A|"[0] == 'A' && "R|"[0] == 'R' && "P|"[0] == 'P' && "S|"[0] == 'S';
  }

  lemma ProbeIsKind(m: Message)
    ensures Probe(Canonical(m)) == Kind(m)
  {
    match m
    case SessionKey(_, _, _) => ProvisioningDomains(); ProbeLong(SESSION, Body(m));
    case ProvisionNonce(_, _, _) => ProvisioningDomains(); ProbeLong(NONCE, Body(m));
    case CheckKey => CheckDomains(); ProbeLong(CHECK_KEY, Body(m));
    case CheckMac(_, _, _) => CheckDomains(); ProbeLong(CHECK_MAC, Body(m));
    case TokenKey => TokenKeyDomain(); ProbeLong(TOKEN_KEY, Body(m));
    case TokenMac(_, _, _, _) => TokenMacDomain(); ProbeLong(TOKEN_MAC, Body(m));
    case _ => ShortIsKind(m);
  }

  // ----- fields

  lemma SplitAfter(a: seq<byte>, x: seq<byte>, b: seq<byte>, y: seq<byte>)
    requires |a| == |b| && a + x == b + y
    ensures a == b && x == y
  {
    assert a == (a + x)[..|a|] && b == (b + y)[..|a|];
    assert x == (a + x)[|a|..] && y == (b + y)[|a|..];
  }

  lemma SplitBefore(a: seq<byte>, x: seq<byte>, b: seq<byte>, y: seq<byte>)
    requires |x| == |y| && a + x == b + y
    ensures a == b && x == y
  {
    assert |a| == |b|;
    SplitAfter(a, x, b, y);
  }

  /** A counter in decimal text, then a bar and the rest. */
  lemma CounterField(c: nat, x: seq<byte>, d: nat, y: seq<byte>)
    requires Dec(c) + [BAR] + x == Dec(d) + [BAR] + y
    ensures c == d && x == y
  {
    assert !IsDigit(BAR);
    SplitAtBar(Dec(c), x, Dec(d), y);
    DecInjective(c, d);
  }

  lemma FixedWidthCounter(c: nat, r: seq<byte>, d: nat, t: seq<byte>)
    requires c < U64_LIMIT && d < U64_LIMIT && BigEndian(c, 8) + r == BigEndian(d, 8) + t
    ensures c == d && r == t
  {
    SplitAfter(BigEndian(c, 8), r, BigEndian(d, 8), t);
    FixedWidthInjective(c, d, 8);
  }

  /** Everything behind a version has a fixed length, so the version may hold any bytes, bars too. */
  lemma VersionField(v: seq<byte>, code: seq<byte>, g: seq<byte>, w: seq<byte>, code': seq<byte>, g': seq<byte>)
    requires |code| == |code'| == 3 && |g| == |g'| == 8
    requires v + ([BAR] + code + ([BAR] + g)) == w + ([BAR] + code' + ([BAR] + g'))
    ensures v == w && code == code' && g == g'
  {
    var x, y := [BAR] + code + ([BAR] + g), [BAR] + code' + ([BAR] + g');
    SplitBefore(v, x, w, y);
    SplitAfter([BAR] + code, [BAR] + g, [BAR] + code', [BAR] + g');
    SplitAfter([BAR], code, [BAR], code');
    SplitAfter([BAR], g, [BAR], g');
  }

  lemma IdField(id: seq<byte>, x: seq<byte>, jd: seq<byte>, y: seq<byte>)
    requires |id| == |jd| && id + [BAR] + x == jd + [BAR] + y
    ensures id == jd && x == y
  {
    SplitAfter(id + [BAR], x, jd + [BAR], y);
    SplitAfter(id, [BAR], jd, [BAR]);
  }

  lemma BodyInjective(m: Message, n: Message)
    requires WellFormed(m) && WellFormed(n) && Kind(m) == Kind(n) && Body(m) == Body(n)
    ensures m == n
  {
    match m
    case HelloSigned(id, c) =>
      IdField(id, Dec(c), n.id, Dec(n.counter));
      DecInjective(c, n.counter);
    case ChallengeSigned(id, c, r) => RandomBody(id, c, r, n.id, n.counter, n.random);
    case ResponseSigned(id, c, r) =>
      var ok := Ascii("|OK");
      RandomBody(id, c, r + ok, n.id, n.counter, n.random + ok);
      SplitBefore(r, ok, n.random, ok);
    case ProvisionAad(id, c, r) => RandomBody(id, c, r, n.id, n.counter, n.random);
    case StatusSigned(id, c, v) => RandomBody(id, c, v, n.id, n.counter, n.version);
    case SessionKey(id, c, r) =>
      SplitAfter(id, BigEndian(c, 8) + r, n.id, BigEndian(n.counter, 8) + n.random);
      FixedWidthCounter(c, r, n.counter, n.random);
    case ProvisionNonce(id, c, r) =>
      SplitAfter(id, BigEndian(c, 8) + r, n.id, BigEndian(n.counter, 8) + n.random);
      FixedWidthCounter(c, r, n.counter, n.random);
    case CheckKey =>
    case TokenKey =>
    case CheckMac(v, code, g) => VersionField(v, code, g, n.version, n.code, n.grant);
    case TokenMac(id, v, code, g) =>
      var x, y := v + ([BAR] + code + ([BAR] + g)), n.version + ([BAR] + n.code + ([BAR] + n.grant));
      assert Body(m) == id + ([BAR] + x) && Body(n) == n.id + ([BAR] + y);
      SplitAfter(id, [BAR] + x, n.id, [BAR] + y);
      SplitAfter([BAR], x, [BAR], y);
      VersionField(v, code, g, n.version, n.code, n.grant);
  }

  lemma RandomBody(id: seq<byte>, c: nat, x: seq<byte>, jd: seq<byte>, d: nat, y: seq<byte>)
    requires |id| == |jd| && id + [BAR] + (Dec(c) + [BAR] + x) == jd + [BAR] + (Dec(d) + [BAR] + y)
    ensures id == jd && c == d && x == y
  {
    IdField(id, Dec(c) + [BAR] + x, jd, Dec(d) + [BAR] + y);
    CounterField(c, x, d, y);
  }

  lemma KindsShareDomain(m: Message, n: Message)
    requires Kind(m) == Kind(n)
    ensures Domain(m) == Domain(n)
  {
  }

  /**
    No two different messages have the same bytes, whatever their kinds: randoms, codes and versions
    may hold bars, digits or anything else.
   */
  lemma CanonicalInjective(m: Message, n: Message)
    requires WellFormed(m) && WellFormed(n) && Canonical(m) == Canonical(n)
    ensures m == n
  {
    ProbeIsKind(m);
    ProbeIsKind(n);
    KindsShareDomain(m, n);
    SplitAfter(Domain(m), Body(m), Domain(n), Body(n));
    BodyInjective(m, n);
  }
}
