/**
  OTA CHECK from end to end: the server authorizes one download (ota_check_security.py), the ESP
  checks the frame and derives the download token on its own (ota_check_auth.c). HMAC-SHA256 is any
  function with 32-byte results; the ECDH secret is the same on both sides.
 */
module CheckWire {
  import opened Wrappers
  import opened Bytes
  import opened Base64Url
  import opened Protocol
  import Canonical
  import DeviceIds
  import Frames
  import ImageCodes
  import Version
  import Device
  import ProvisioningRun

  /** Key and message to a digest of 32 bytes. */
  type Hmac = h: (seq<byte>, seq<byte>) -> seq<byte> | forall k, m :: |h(k, m)| == 32
    witness (k, m) => seq(32, _ => 0)

  /** What both sides hold besides the provisioning context. */
  datatype Identity = Identity(shared: seq<byte>, id: seq<byte>)

  function RandomBytes(a: Attempt): (r: seq<byte>)
    ensures |r| == 8
  {
    BigEndian(a.random, 8)
  }

  function SessionKey(h: Hmac, who: Identity, a: Attempt): seq<byte> {
    h(who.shared, Canonical.Canonical(Canonical.SessionKey(who.id, a.counter, RandomBytes(a))))
  }

  function CheckMac(h: Hmac, who: Identity, a: Attempt, version: seq<byte>, code: seq<byte>, grant: seq<byte>)
    : seq<byte>
  {
    h(h(SessionKey(h, who, a), Canonical.Canonical(Canonical.CheckKey)),
      Canonical.Canonical(Canonical.CheckMac(version, code, grant)))
  }

  function TokenDigest(h: Hmac, who: Identity, a: Attempt, version: seq<byte>, code: seq<byte>, grant: seq<byte>)
    : seq<byte>
  {
    h(h(SessionKey(h, who, a), Canonical.Canonical(Canonical.TokenKey)),
      Canonical.Canonical(Canonical.TokenMac(who.id, version, code, grant)))
  }

  predicate IsCode(code: seq<byte>) {
    |code| == 3 && Frames.IsCodeByte(code[0]) && Frames.IsCodeByte(code[1]) && Frames.IsCodeByte(code[2])
  }

  // ----- the server

  datatype Authorized = Authorized(version: seq<byte>, code: seq<byte>, wire: seq<byte>, token: seq<byte>)

  /** create_ota_check_grant without its table row; None stands for ValueError. */
  function Authorize(h: Hmac, who: Identity, context: Option<Attempt>, versionText: seq<byte>, codeText: seq<byte>,
                     grant: seq<byte>): (r: Option<Authorized>)
    requires |grant| == 8
    ensures r.Some? ==> IsCode(r.value.code) && 1 <= |r.value.version| <= 32 && BAR !in r.value.version && context.Some?
  {
    var version, code := DeviceIds.Strip(versionText), DeviceIds.Strip(codeText);
    if version == [] || BAR in version || |version| > 32 || !IsCode(code) || context.None? then None
    else
      var mac := CheckMac(h, who, context.value, version, code, grant)[..16];
      var token := Encode(TokenDigest(h, who, context.value, version, code, grant)[..12]);
      Some(Authorized(version, code, Frames.Check(version, code, grant, mac), token))
  }

  // ----- the ESP

  datatype Reject = BadArgument | BadSize | NoContext | BadMac | NotNewer

  /** ota_config and active grant after an accepted CHECK. */
  datatype Accepted = Accepted(code: seq<byte>, token: seq<byte>, grant: seq<byte>)

  /** The fields that strtok_r(s, "|") returns one after another: empty ones are skipped. */
  function Fields(s: seq<byte>): seq<seq<byte>> {
    if s == [] then []
    else if s[0] == BAR then Fields(s[1..])
    else
      var n := FieldLength(s);
      [s[..n]] + Fields(s[n..])
  }

  function FieldLength(s: seq<byte>): (n: nat)
    ensures n <= |s| && (s != [] && s[0] != BAR ==> n > 0)
  {
    if s == [] || s[0] == BAR then 0 else 1 + FieldLength(s[1..])
  }

  /** base64url_decode_exact */
  function DecodeExact(t: seq<byte>, textLength: nat, size: nat): (r: Result<seq<byte>, Reject>)
    ensures r.Success? ==> |r.value| == size
  {
    if |t| != textLength then Failure(BadArgument)
    else match Decode(t)
      case None => Failure(BadArgument)
      case Some(d) => if |d| == size then Success(d) else Failure(BadSize)
  }

  /** ota_check_auth_prepare_request from the five fields on, up to the derived token. */
  function Judge(h: Hmac, who: Identity, context: Option<Attempt>, running: seq<byte>,
                 version: seq<byte>, code: seq<byte>, grantText: seq<byte>, macText: seq<byte>)
    : Result<Accepted, Reject>
  {
    if |version| == 0 || |version| > 32 || |code| != 3 then Failure(BadSize)
    else if !IsCode(code) then Failure(BadArgument)
    else
      var grant :- DecodeExact(grantText, 11, 8);
      var mac :- DecodeExact(macText, 22, 16);
      if context.None? then Failure(NoContext)
      else if CheckMac(h, who, context.value, version, code, grant)[..16] != mac then Failure(BadMac)
      else if !Version.IsNewer(version, running) then Failure(NotNewer)
      else Success(Accepted(code, Encode(TokenDigest(h, who, context.value, version, code, grant)[..12]), grant))
  }

  /** ota_check_auth_prepare_request */
  function Prepare(h: Hmac, who: Identity, context: Option<Attempt>, running: seq<byte>, payload: seq<byte>)
    : Result<Accepted, Reject>
  {
    if payload == [] then Failure(BadArgument)
    else if |payload| >= 128 then Failure(BadSize)
    else
      var f := Fields(CString(payload));
      if |f| != 5 || f[0] != [67] then Failure(BadArgument)
      else Judge(h, who, context, running, f[1], f[2], f[3], f[4])
  }

  // ----- the frame splits into its fields

  lemma {:induction false} FirstField(a: seq<byte>, rest: seq<byte>)
    requires a != [] && BAR !in a && (rest != [] ==> rest[0] == BAR)
    ensures FieldLength(a + rest) == |a|
    ensures Fields(a + rest) == [a] + Fields(rest)
  {
    FieldLengthOf(a, rest);
    assert a[0] in a && (a + rest)[..|a|] == a && (a + rest)[|a|..] == rest;
  }

  lemma {:induction false} FieldLengthOf(a: seq<byte>, rest: seq<byte>)
    requires BAR !in a && (rest != [] ==> rest[0] == BAR)
    ensures FieldLength(a + rest) == |a|
  {
    if a == [] {
      assert a + rest == rest;
    } else {
      assert a[0] in a && (a + rest)[1..] == a[1..] + rest;
      FieldLengthOf(a[1..], rest);
    }
  }

  lemma AfterBar(x: seq<byte>)
    ensures Fields([BAR] + x) == Fields(x)
  {
    assert ([BAR] + x)[1..] == x;
  }

  lemma LastField(a: seq<byte>)
    requires a != [] && BAR !in a
    ensures Fields(a) == [a]
  {
    FirstField(a, []);
    assert a + [] == a;
  }

  lemma BarredField(a: seq<byte>, rest: seq<byte>)
    requires a != [] && BAR !in a && rest != [] && rest[0] == BAR
    ensures Fields([BAR] + a + rest) == [a] + Fields(rest)
  {
    FirstField(a, rest);
    AfterBar(a + rest);
    assert [BAR] + a + rest == [BAR] + (a + rest);
  }

  lemma FieldsOfBack(code: seq<byte>, g: seq<byte>, m: seq<byte>)
    requires code != [] && g != [] && m != [] && BAR !in code && BAR !in g && BAR !in m
    ensures Fields([BAR] + code + ([BAR] + g + ([BAR] + m))) == [code, g, m]
  {
    LastField(m);
    AfterBar(m);
    BarredField(g, [BAR] + m);
    BarredField(code, [BAR] + g + ([BAR] + m));
  }

  lemma FieldsOfFront(version: seq<byte>, t: seq<byte>)
    requires version != [] && BAR !in version && t != [] && t[0] == BAR
    ensures Fields([67, BAR] + version + t) == [[67], version] + Fields(t)
  {
    FirstField(version, t);
    AfterBar(version + t);
    LetterFront(67, version + t);
    Regroup(67, version, t);
    Prepend([67], version, Fields(t));
  }

  lemma Regroup(letter: byte, version: seq<byte>, t: seq<byte>)
    ensures [letter, BAR] + version + t == [letter] + ([BAR] + (version + t))
  {
  }

  lemma Prepend(a: seq<byte>, b: seq<byte>, f: seq<seq<byte>>)
    ensures [a, b] + f == [a] + ([b] + f)
  {
  }

  lemma LetterFront(letter: byte, rest: seq<byte>)
    requires letter != BAR
    ensures Fields([letter] + ([BAR] + rest)) == [[letter]] + Fields([BAR] + rest)
  {
    FirstField([letter], [BAR] + rest);
  }

  lemma DecodesExactly(d: seq<byte>)
    ensures DecodeExact(Encode(d), TextLength(|d|), |d|) == Success(d)
    ensures BAR !in Encode(d) && 0 !in Encode(d)
  {
    RoundTrip(d);
    EncodeLetters(d);
  }

  lemma CodeBytes(code: seq<byte>)
    requires IsCode(code)
    ensures BAR !in code && 0 !in code
  {
    assert code == [code[0], code[1], code[2]];
  }

  lemma WireFields(version: seq<byte>, code: seq<byte>, grant: seq<byte>, mac: seq<byte>)
    requires 1 <= |version| <= 32 && BAR !in version && IsCode(code) && |grant| == 8 && |mac| == 16
    ensures var w := Frames.Check(version, code, grant, mac);
            && Fields(w) == [[67], version, code, Encode(grant), Encode(mac)]
            && (0 !in version ==> 0 !in w)
            && |w| < 128
  {
    Frames.CheckBudget(version, code, grant, mac);
    DecodesExactly(grant);
    DecodesExactly(mac);
    CodeBytes(code);
    Frames.TextLengths();
    FieldsOfBack(code, Encode(grant), Encode(mac));
    FieldsOfFront(version, [BAR] + code + ([BAR] + Encode(grant) + ([BAR] + Encode(mac))));
  }

  /** A NUL inside the version ends the C string before the code. */
  lemma CutFields(version: seq<byte>, rest: seq<byte>)
    requires 0 in version && BAR !in version
    ensures |Fields(CString([67, BAR] + version + rest))| <= 2
  {
    var v := CString(version);
    CStringWhole(version);
    assert |v| < |version| && version[|v|] == 0;
    var tail := version[|v| + 1..] + rest;
    assert [67, BAR] + version + rest == ([67, BAR] + v) + [0] + tail;
    CStringTerminated([67, BAR] + v, tail);
    assert BAR !in v;
    if v == [] {
      FirstField([67], [BAR]);
      AfterBar([]);
      assert [67, BAR] + v == [67] + [BAR] && [BAR] + [] == [BAR];
    } else {
      LastField(v);
      AfterBar(v);
      FirstField([67], [BAR] + v);
      assert [67, BAR] + v == [67] + ([BAR] + v);
    }
  }

  /** What the ESP makes of the fields of a frame that the server built in context a. */
  lemma JudgeOwn(h: Hmac, who: Identity, a: Attempt, b: Attempt, running: seq<byte>, version: seq<byte>,
                 code: seq<byte>, grant: seq<byte>)
    requires 1 <= |version| <= 32 && IsCode(code) && |grant| == 8
    ensures var mac := CheckMac(h, who, a, version, code, grant)[..16];
            Judge(h, who, Some(b), running, version, code, Encode(grant), Encode(mac)) ==
            if CheckMac(h, who, b, version, code, grant)[..16] != mac then Failure(BadMac)
            else if !Version.IsNewer(version, running) then Failure(NotNewer)
            else Success(Accepted(code, Encode(TokenDigest(h, who, b, version, code, grant)[..12]), grant))
  {
    var mac := CheckMac(h, who, a, version, code, grant)[..16];
    Frames.TextLengths();
    DecodesExactly(grant);
    DecodesExactly(mac);
  }

  /** The ESP finds the five fields that the server put in. */
  lemma PrepareReads(h: Hmac, who: Identity, context: Option<Attempt>, running: seq<byte>, version: seq<byte>,
                     code: seq<byte>, grant: seq<byte>, mac: seq<byte>)
    requires 1 <= |version| <= 32 && BAR !in version && IsCode(code) && |grant| == 8 && |mac| == 16
    ensures Prepare(h, who, context, running, Frames.Check(version, code, grant, mac)) ==
            if 0 in version then Failure(BadArgument)
            else Judge(h, who, context, running, version, code, Encode(grant), Encode(mac))
  {
    var w := Frames.Check(version, code, grant, mac);
    WireFields(version, code, grant, mac);
    CStringWhole(w);
    if 0 in version {
      CutFields(version, [BAR] + code + ([BAR] + Encode(grant) + ([BAR] + Encode(mac))));
    }
  }

  // ----- results

  /**
    With the same provisioning context on both sides the ESP accepts the server's frame and derives
    exactly the grant's token when the version is newer, and skips it otherwise; this holds for a
    frame exactly if its version has no NUL byte.
   */
  lemma CheckReachesDevice(h: Hmac, who: Identity, a: Attempt, versionText: seq<byte>, codeText: seq<byte>,
                           grant: seq<byte>, running: seq<byte>)
    requires |grant| == 8 && Authorize(h, who, Some(a), versionText, codeText, grant).Some?
    ensures var g := Authorize(h, who, Some(a), versionText, codeText, grant).value;
            Prepare(h, who, Some(a), running, g.wire)
              == (if Version.IsNewer(g.version, running) then Success(Accepted(g.code, g.token, grant))
                  else Failure(NotNewer))
            <==> 0 !in g.version
  {
    var g := Authorize(h, who, Some(a), versionText, codeText, grant).value;
    PrepareReads(h, who, Some(a), running, g.version, g.code, grant,
        CheckMac(h, who, a, g.version, g.code, grant)[..16]);
    JudgeOwn(h, who, a, a, running, g.version, g.code, grant);
  }

  /** HMAC gives two different inputs the same first n bytes. */
  predicate Collide(h: Hmac, k: seq<byte>, m: seq<byte>, k': seq<byte>, m': seq<byte>, n: nat)
    requires |h(k, m)| >= n && |h(k', m')| >= n
  {
    (k != k' || m != m') && h(k, m)[..n] == h(k', m')[..n]
  }

  function KeyMaterial(who: Identity, a: Attempt): seq<byte> {
    Canonical.Canonical(Canonical.SessionKey(who.id, a.counter, RandomBytes(a)))
  }

  /**
    With another context the ESP rejects the frame, unless HMAC collides at one of three named
    places: the two session keys, the two CHECK keys, or the two MACs.
   */
  lemma OtherContextIsRejected(h: Hmac, who: Identity, a: Attempt, b: Attempt, versionText: seq<byte>,
                               codeText: seq<byte>, grant: seq<byte>, running: seq<byte>)
    requires |grant| == 8 && Authorize(h, who, Some(a), versionText, codeText, grant).Some?
    requires |who.id| == DeviceIds.ID_LENGTH && a != b
    requires a.counter < Canonical.U64_LIMIT && b.counter < Canonical.U64_LIMIT
    requires a.random < Canonical.U64_LIMIT && b.random < Canonical.U64_LIMIT
    ensures var g := Authorize(h, who, Some(a), versionText, codeText, grant).value;
            var domain := Canonical.Canonical(Canonical.CheckKey);
            var sa, sb := SessionKey(h, who, a), SessionKey(h, who, b);
            var msg := Canonical.Canonical(Canonical.CheckMac(g.version, g.code, grant));
            0 !in g.version ==>
              || Prepare(h, who, Some(b), running, g.wire) == Failure(BadMac)
              || Collide(h, who.shared, KeyMaterial(who, a), who.shared, KeyMaterial(who, b), 32)
              || Collide(h, sa, domain, sb, domain, 32)
              || Collide(h, h(sa, domain), msg, h(sb, domain), msg, 16)
  {
    var g := Authorize(h, who, Some(a), versionText, codeText, grant).value;
    if 0 !in g.version {
      ForeignMacIsRejected(h, who, a, versionText, codeText, grant, who, b, g.version, g.code, grant, running);
    }
  }

  /**
    The server authorizes every code of the catalogue with every version of 1 to 32 bytes that has no bar and no
    blank at its ends, within any blanks, for a device with a context, and for no device without.
   */
  lemma EveryReleaseIsAuthorized(h: Hmac, who: Identity, context: Option<Attempt>, version: seq<byte>, n: nat,
                                 s: seq<byte>, t: seq<byte>, grant: seq<byte>)
    requires |grant| == 8 && DeviceIds.Blank(s) && DeviceIds.Blank(t) && 1 <= |version| <= 32 && BAR !in version
    requires !DeviceIds.IsSpace(version[0]) && !DeviceIds.IsSpace(version[|version| - 1])
    ensures var code := ImageCodes.Base62(n);
            match Authorize(h, who, context, s + version + t, s + code + t, grant)
            case None => context.None?
            case Some(x) => context.Some? && x.version == version && x.code == code
  {
    var code := ImageCodes.Base62(n);
    ImageCodes.CodeValueOfBase62(n);
    DeviceIds.StripBlanks(s, version, t);
    DeviceIds.StripBlanks(s, code, t);
  }

  lemma FieldsHoldNoBar(s: seq<byte>, k: nat)
    requires k < |Fields(s)|
    ensures Fields(s)[k] != [] && BAR !in Fields(s)[k]
    decreases |s|
  {
    if s[0] == BAR {
      FieldsHoldNoBar(s[1..], k);
    } else {
      var n := FieldLength(s);
      FieldHoldsNoBar(s);
      if k > 0 { FieldsHoldNoBar(s[n..], k - 1); }
    }
  }

  lemma {:induction false} FieldHoldsNoBar(s: seq<byte>)
    ensures BAR !in s[..FieldLength(s)]
  {
    if s != [] && s[0] != BAR {
      FieldHoldsNoBar(s[1..]);
      assert s[..FieldLength(s)] == [s[0]] + s[1..][..FieldLength(s[1..])];
    }
  }

  lemma CodeIsItsOwnStrip(code: seq<byte>)
    requires IsCode(code)
    ensures DeviceIds.Strip(code) == code && ImageCodes.IsCode(code)
  {
  }

  /** What the server makes of the fields that the ESP accepted. */
  ghost predicate AlsoAuthorized(h: Hmac, who: Identity, context: Option<Attempt>, version: seq<byte>, x: Accepted) {
    |x.grant| == 8 &&
    match Authorize(h, who, context, version, x.code, x.grant)
    case None => false
    case Some(g) => g.token == x.token && g.code == x.code && g.version == version
  }

  lemma JudgeAccepts(h: Hmac, who: Identity, context: Option<Attempt>, running: seq<byte>, version: seq<byte>,
                     code: seq<byte>, grantText: seq<byte>, macText: seq<byte>)
    requires Judge(h, who, context, running, version, code, grantText, macText).Success? && BAR !in version
    ensures var x := Judge(h, who, context, running, version, code, grantText, macText).value;
            && 1 <= |version| <= 32 && Version.IsNewer(version, running)
            && ImageCodes.IsCode(x.code) && |x.grant| == 8 && context.Some?
            && (DeviceIds.Strip(version) == version ==> AlsoAuthorized(h, who, context, version, x))
  {
    CodeIsItsOwnStrip(code);
  }

  /**
    The other way round: whatever frame the ESP accepts, it holds a newer version of 1 to 32 bytes and a code of the
    catalogue, and unless blanks stand at the ends of that version, the server's own authorization of this version,
    this code and these random bytes in the ESP's context has exactly the token that the ESP derived.
   */
  lemma AcceptedFramesAreAuthorized(h: Hmac, who: Identity, context: Option<Attempt>, running: seq<byte>,
                                    payload: seq<byte>) returns (version: seq<byte>)
    requires Prepare(h, who, context, running, payload).Success?
    ensures var x := Prepare(h, who, context, running, payload).value;
            && 1 <= |version| <= 32 && BAR !in version && Version.IsNewer(version, running)
            && ImageCodes.IsCode(x.code) && |x.grant| == 8 && context.Some?
            && (DeviceIds.Strip(version) == version ==> AlsoAuthorized(h, who, context, version, x))
  {
    var f := Fields(CString(payload));
    version := f[1];
    FieldsHoldNoBar(CString(payload), 1);
    JudgeAccepts(h, who, context, running, f[1], f[2], f[3], f[4]);
  }

  // ----- what token and MAC depend on

  /** Ids are normalized, and counter and random fit 64 bits. */
  predicate Proper(who: Identity, a: Attempt) {
    |who.id| == DeviceIds.ID_LENGTH && a.counter < Canonical.U64_LIMIT && a.random < Canonical.U64_LIMIT
  }

  /** The key of one purpose: HMAC over the domain under the session key, which is HMAC over id, counter and random. */
  function PurposeKey(h: Hmac, who: Identity, a: Attempt, purpose: Canonical.Message): seq<byte> {
    h(h(who.shared, KeyMaterial(who, a)), Canonical.Canonical(purpose))
  }

  /** The keys of two contexts come together at one of the two derivations. */
  predicate KeysCollide(h: Hmac, who: Identity, a: Attempt, who': Identity, b: Attempt, purpose: Canonical.Message) {
    var m := Canonical.Canonical(purpose);
    || Collide(h, who.shared, KeyMaterial(who, a), who'.shared, KeyMaterial(who', b), 32)
    || Collide(h, h(who.shared, KeyMaterial(who, a)), m, h(who'.shared, KeyMaterial(who', b)), m, 32)
  }

  lemma EqualKeys(h: Hmac, who: Identity, a: Attempt, who': Identity, b: Attempt, purpose: Canonical.Message)
    requires Proper(who, a) && Proper(who', b)
    requires PurposeKey(h, who, a, purpose) == PurposeKey(h, who', b, purpose)
    ensures (who == who' && a == b) || KeysCollide(h, who, a, who', b, purpose)
  {
    var sa, sb := h(who.shared, KeyMaterial(who, a)), h(who'.shared, KeyMaterial(who', b));
    var m := Canonical.Canonical(purpose);
    assert sa[..32] == sa && sb[..32] == sb && h(sa, m)[..32] == h(sa, m) && h(sb, m)[..32] == h(sb, m);
    if KeyMaterial(who, a) == KeyMaterial(who', b) {
      Canonical.CanonicalInjective(Canonical.SessionKey(who.id, a.counter, RandomBytes(a)),
                                   Canonical.SessionKey(who'.id, b.counter, RandomBytes(b)));
      FixedWidthInjective(a.random, b.random, 8);
    }
  }

  /**
    Two authorizations, of one device or of two, yield one token only if they agree in the device, the context, the
    version, the code and the grant's random bytes, or HMAC collides: on two session keys, on two token keys, or
    in the 12 bytes that become the token.
   */
  lemma TokensTellGrants(h: Hmac, who: Identity, a: Attempt, v: seq<byte>, c: seq<byte>, g: seq<byte>,
                         who': Identity, b: Attempt, w: seq<byte>, d: seq<byte>, g': seq<byte>)
    requires |g| == 8 && |g'| == 8 && Proper(who, a) && Proper(who', b)
    requires Authorize(h, who, Some(a), v, c, g).Some? && Authorize(h, who', Some(b), w, d, g').Some?
    ensures var x, y := Authorize(h, who, Some(a), v, c, g).value, Authorize(h, who', Some(b), w, d, g').value;
            var key, key' := PurposeKey(h, who, a, Canonical.TokenKey), PurposeKey(h, who', b, Canonical.TokenKey);
            x.token == y.token ==>
              || (who, a, x.version, x.code, g) == (who', b, y.version, y.code, g')
              || KeysCollide(h, who, a, who', b, Canonical.TokenKey)
              || Collide(h, key, Canonical.Canonical(Canonical.TokenMac(who.id, x.version, x.code, g)),
                         key', Canonical.Canonical(Canonical.TokenMac(who'.id, y.version, y.code, g')), 12)
  {
    var x, y := Authorize(h, who, Some(a), v, c, g).value, Authorize(h, who', Some(b), w, d, g').value;
    if x.token == y.token {
      var m, n := Canonical.TokenMac(who.id, x.version, x.code, g), Canonical.TokenMac(who'.id, y.version, y.code, g');
      EncodeInjective(TokenDigest(h, who, a, x.version, x.code, g)[..12],
                      TokenDigest(h, who', b, y.version, y.code, g')[..12]);
      if PurposeKey(h, who, a, Canonical.TokenKey) == PurposeKey(h, who', b, Canonical.TokenKey)
         && Canonical.Canonical(m) == Canonical.Canonical(n) {
        EqualKeys(h, who, a, who', b, Canonical.TokenKey);
        Canonical.CanonicalInjective(m, n);
      }
    }
  }

  /**
    Whatever the ESP accepts was authorized so: a frame with the MAC of another authorization, of this device or of
    another, is answered by MAC mismatch, unless it is the same device, context, version, code and random, or HMAC
    collides: on two session keys, on two CHECK keys, or in the 16 bytes of the MAC.
   */
  lemma ForeignMacIsRejected(h: Hmac, who: Identity, a: Attempt, v: seq<byte>, c: seq<byte>, g: seq<byte>,
                             who': Identity, b: Attempt, version: seq<byte>, code: seq<byte>, grant: seq<byte>,
                             running: seq<byte>)
    requires |g| == 8 && |grant| == 8 && IsCode(code) && Proper(who, a) && Proper(who', b)
    requires 1 <= |version| <= 32 && BAR !in version && 0 !in version
    requires Authorize(h, who, Some(a), v, c, g).Some?
    ensures var x := Authorize(h, who, Some(a), v, c, g).value;
            var mac := CheckMac(h, who, a, x.version, x.code, g)[..16];
            var key, key' := PurposeKey(h, who, a, Canonical.CheckKey), PurposeKey(h, who', b, Canonical.CheckKey);
            && x.wire == Frames.Check(x.version, x.code, g, mac)
            && (|| Prepare(h, who', Some(b), running, Frames.Check(version, code, grant, mac)) == Failure(BadMac)
                || (who, a, x.version, x.code, g) == (who', b, version, code, grant)
                || KeysCollide(h, who, a, who', b, Canonical.CheckKey)
                || Collide(h, key, Canonical.Canonical(Canonical.CheckMac(x.version, x.code, g)),
                           key', Canonical.Canonical(Canonical.CheckMac(version, code, grant)), 16))
  {
    var x := Authorize(h, who, Some(a), v, c, g).value;
    var mac := CheckMac(h, who, a, x.version, x.code, g)[..16];
    PrepareReads(h, who', Some(b), running, version, code, grant, mac);
    DecodesExactly(grant);
    DecodesExactly(mac);
    Frames.TextLengths();
    var m, n := Canonical.CheckMac(x.version, x.code, g), Canonical.CheckMac(version, code, grant);
    if PurposeKey(h, who, a, Canonical.CheckKey) == PurposeKey(h, who', b, Canonical.CheckKey)
       && Canonical.Canonical(m) == Canonical.Canonical(n) {
      EqualKeys(h, who, a, who', b, Canonical.CheckKey);
      Canonical.CanonicalInjective(m, n);
    }
  }

  /** Token keys are no CHECK keys, and no token is the front of a MAC, up to a collision at the named place. */
  lemma TokensAreSeparate(h: Hmac, who: Identity, a: Attempt, who': Identity, b: Attempt, v: seq<byte>, c: seq<byte>,
                          g: seq<byte>, w: seq<byte>, d: seq<byte>, g': seq<byte>)
    ensures var s := h(who.shared, KeyMaterial(who, a));
            var k, t := Canonical.Canonical(Canonical.CheckKey), Canonical.Canonical(Canonical.TokenKey);
            h(s, k) != h(s, t) || Collide(h, s, k, s, t, 32)
    ensures var m, t := Canonical.CheckMac(v, c, g), Canonical.TokenMac(who'.id, w, d, g');
            || CheckMac(h, who, a, v, c, g)[..12] != TokenDigest(h, who', b, w, d, g')[..12]
            || Collide(h, PurposeKey(h, who, a, Canonical.CheckKey), Canonical.Canonical(m),
                       PurposeKey(h, who', b, Canonical.TokenKey), Canonical.Canonical(t), 12)
  {
    KindsApart(Canonical.CheckKey, Canonical.TokenKey);
    KindsApart(Canonical.CheckMac(v, c, g), Canonical.TokenMac(who'.id, w, d, g'));
    FullSlices(h, h(who.shared, KeyMaterial(who, a)), Canonical.Canonical(Canonical.CheckKey));
    FullSlices(h, h(who.shared, KeyMaterial(who, a)), Canonical.Canonical(Canonical.TokenKey));
  }

  lemma KindsApart(m: Canonical.Message, n: Canonical.Message)
    requires Canonical.Kind(m) != Canonical.Kind(n)
    ensures Canonical.Canonical(m) != Canonical.Canonical(n)
  {
    Canonical.ProbeIsKind(m);
    Canonical.ProbeIsKind(n);
  }

  lemma FullSlices(h: Hmac, k: seq<byte>, m: seq<byte>)
    ensures h(k, m)[..32] == h(k, m)
  {
  }

  /**
    The whole way in a run: after a concluded attempt, every frame the server authorizes from its
    durable context crosses the bridge unchanged, and the ESP, with the keys it then has, derives
    the grant's token or skips an old version.
   */
  lemma CheckAfterProvisioning(evs: seq<ProvisioningRun.Event>, h: Hmac, who: Identity, versionText: seq<byte>,
                               codeText: seq<byte>, grant: seq<byte>, running: seq<byte>)
    requires ProvisioningRun.Concluded(ProvisioningRun.Run(evs))
    requires !ProvisioningRun.Run(evs).dev.history.dropped
    requires |grant| == 8
    requires Authorize(h, who, ProvisioningRun.Run(evs).server.context, versionText, codeText, grant).Some?
    ensures var s := ProvisioningRun.Run(evs);
            var g := Authorize(h, who, s.server.context, versionText, codeText, grant).value;
            var radio := Frames.ToRadio(g.wire);
            && radio == Some(g.wire)
            && Frames.FromRadio(s.dev.session.state, s.dev.enable, g.wire) == Some(g.wire)
            && (0 !in g.version ==>
                  Prepare(h, who, Device.EffectiveContext(s.dev), running, g.wire)
                  == if Version.IsNewer(g.version, running) then Success(Accepted(g.code, g.token, grant))
                     else Failure(NotNewer))
  {
    var s := ProvisioningRun.Run(evs);
    ProvisioningRun.KeyAgreement(evs);
    var a := s.server.context.value;
    var g := Authorize(h, who, Some(a), versionText, codeText, grant).value;
    CheckReachesDevice(h, who, a, versionText, codeText, grant, running);
    Frames.CheckTransparent(g.version, g.code, grant, CheckMac(h, who, a, g.version, g.code, grant)[..16],
                            s.dev.session.state, s.dev.enable);
  }
}
