/**
  The frames on the wire and their way through the bridge: text from the server
  (secure_transport.py, ota_check_security.py), binary on the radio (jarzem_secure_ota.mjs), text
  again on the ESP (zigbee_ota_cluster.c). A frame has at most 100 bytes.
 */
module Frames {
  import opened Wrappers
  import opened Bytes
  import opened Base64Url
  import opened ProvisionPlain
  import Device
  import DeviceSession

  const FRAME_MAX := 100
  const GCM_TAG := 16

  function Challenge(random: seq<byte>, signature: seq<byte>): seq<byte> {
    [65, BAR] + Encode(random) + ([BAR] + Encode(signature))
  }

  function Provisioning(encrypted: seq<byte>): seq<byte> { [80, BAR] + Encode(encrypted) }

  function Check(version: seq<byte>, code: seq<byte>, grant: seq<byte>, mac: seq<byte>): seq<byte> {
    [67, BAR] + version + ([BAR] + code + ([BAR] + Encode(grant) + ([BAR] + Encode(mac))))
  }

  function Hello(counter: nat, signature: seq<byte>): seq<byte> {
    [72, BAR] + Dec(counter) + ([BAR] + Encode(signature))
  }

  function Status(counter: nat, version: seq<byte>, signature: seq<byte>): seq<byte> {
    [83, BAR] + Dec(counter) + ([BAR] + version + ([BAR] + Encode(signature)))
  }

  // ----- the frame budget

  lemma TextLengths()
    ensures TextLength(8) == 11 && TextLength(16) == 22 && TextLength(12) == 16 && TextLength(64) == 86
  {
    LengthsInClosedForm(8);
    LengthsInClosedForm(16);
    LengthsInClosedForm(12);
    LengthsInClosedForm(64);
  }

  /** A challenge fills the frame exactly, so the check in build_challenge never fires. */
  lemma ChallengeBudget(random: seq<byte>, signature: seq<byte>)
    requires |random| == 8 && |signature| == 64
    ensures |Challenge(random, signature)| == FRAME_MAX
  {
    TextLengths();
  }

  lemma ElevenDigits(n: nat)
    ensures |Dec(n)| <= 11 <==> n < 100_000_000_000
  {
    DecLength(n, 11);
    assert Pow10(3) == 10 * Pow10(2) && Pow10(2) == 10 * Pow10(1) && Pow10(1) == 10 * Pow10(0);
    assert Pow10(6) == 10 * Pow10(5) && Pow10(5) == 10 * Pow10(4) && Pow10(4) == 10 * Pow10(3);
    assert Pow10(9) == 10 * Pow10(8) && Pow10(8) == 10 * Pow10(7) && Pow10(7) == 10 * Pow10(6);
    assert Pow10(11) == 10 * Pow10(10) && Pow10(10) == 10 * Pow10(9);
  }

  /** An H frame fits exactly while its counter has at most eleven digits; Device.HelloFits says the same. */
  lemma HelloBudget(counter: nat, signature: seq<byte>)
    requires |signature| == 64
    ensures |Hello(counter, signature)| <= FRAME_MAX <==> |Dec(counter)| <= 11
    ensures |Hello(counter, signature)| <= FRAME_MAX <==> Device.HelloFits(counter)
  {
    TextLengths();
    ElevenDigits(counter);
  }

  /** A signed boot status fits exactly while counter digits and version share ten bytes. */
  lemma StatusBudget(counter: nat, version: seq<byte>, signature: seq<byte>)
    requires |signature| == 64
    ensures |Status(counter, version, signature)| <= FRAME_MAX <==> |Dec(counter)| + |version| <= 10
  {
    TextLengths();
  }

  /** A CHECK frame has at most 73 bytes, so the 100-byte check of create_ota_check_grant never fires. */
  lemma CheckBudget(version: seq<byte>, code: seq<byte>, grant: seq<byte>, mac: seq<byte>)
    requires 1 <= |version| <= 32 && |code| == 3 && |grant| == 8 && |mac| == 16
    ensures |Check(version, code, grant, mac)| == 41 + |version| <= 73 < FRAME_MAX
  {
    TextLengths();
  }

  /**
    build_provisioning: a P frame fits exactly while ssid, password and encoded host share 48 bytes.
    `sealed` stands for the AES-GCM output, which is the plaintext's length plus the tag.
   */
  lemma ProvisioningBudget(ssid: seq<byte>, password: seq<byte>, host: seq<byte>, port: int, security: string,
                           channel: int, sealed: seq<byte>)
    requires var plain := EncodePlain(ssid, password, host, port, security, channel);
             plain.Some? && |sealed| == |plain.value| + GCM_TAG
    ensures |Provisioning(sealed)| <= FRAME_MAX <==> |ssid| + |password| + |HostField(host).value.1| <= 48
    ensures |Provisioning(sealed)| <= FRAME_MAX <==> |sealed| <= 73
  {
    LengthsInClosedForm(|sealed|);
  }

  // ----- the bridge

  function Sextet(b: byte): sextet { if Value(b).Some? then Value(b).value else 0 }

  /** Buffer.from(text, 'base64') on letters: a single letter at the end is dropped. */
  function NodeDecode(t: seq<byte>): seq<byte> {
    if |t| <= 1 then []
    else if |t| == 2 then [J0(Sextet(t[0]), Sextet(t[1]))]
    else if |t| == 3 then [J0(Sextet(t[0]), Sextet(t[1])), J1(Sextet(t[1]), Sextet(t[2]))]
    else
      [J0(Sextet(t[0]), Sextet(t[1])), J1(Sextet(t[1]), Sextet(t[2])), J2(Sextet(t[2]), Sextet(t[3]))]
      + NodeDecode(t[4..])
  }

  predicate Letters(t: seq<byte>) { forall i | 0 <= i < |t| :: IsLetter(t[i]) }

  lemma GroupAgrees(t: seq<byte>, rest: seq<byte>)
    requires |t| == 4 && (Decode(rest).Some? ==> Decode(rest).value == NodeDecode(rest))
    ensures Decode(t + rest).Some? ==> Decode(t + rest).value == NodeDecode(t + rest)
  {
    var s := t + rest;
    assert s[4..] == rest && s[0] == t[0] && s[1] == t[1] && s[2] == t[2] && s[3] == t[3];
  }

  /** Whatever the ESP's strict decoder accepts, the converter decodes to the same bytes. */
  lemma {:induction false} NodeDecodeAgrees(t: seq<byte>)
    ensures Decode(t).Some? ==> Decode(t).value == NodeDecode(t)
  {
    if |t| >= 4 {
      var a, b := t[..4], t[4..];
      NodeDecodeAgrees(b);
      GroupAgrees(a, b);
      assert t == a + b;
    }
  }

  lemma NodeDecodesEncoded(d: seq<byte>)
    ensures Letters(Encode(d)) && NodeDecode(Encode(d)) == d
  {
    EncodeLetters(d);
    RoundTrip(d);
    NodeDecodeAgrees(Encode(d));
  }

  /** validateOtaCommand and otaRadioValue; None stands for a thrown error. */
  function ToRadio(wire: seq<byte>): Option<seq<byte>> {
    if |wire| < 2 || |wire| > FRAME_MAX || wire[1] != BAR then None
    else if wire[0] == 65 then
      if |wire| == 100 && wire[13] == BAR && Letters(wire[2..13]) && Letters(wire[14..])
      then Some(NodeDecode(wire[2..13]) + NodeDecode(wire[14..])) else None
    else if wire[0] == 80 then
      if |wire| > 2 && Letters(wire[2..]) then Some(NodeDecode(wire[2..])) else None
    else if wire[0] == 67 then
      if IsCheck(wire) then Some(wire) else None
    else None
  }

  predicate IsCodeByte(b: byte) { 48 <= b <= 57 || 65 <= b <= 90 || 97 <= b <= 122 }

  /** OTA_CHECK_RE: everything behind the version has a fixed length; the version holds no bar. */
  predicate IsCheck(w: seq<byte>) {
    && 42 <= |w| <= 73 && w[0] == 67 && w[1] == BAR
    && var v := |w| - 39;
       && BAR !in w[2..v] && w[v] == BAR
       && (forall i | v < i <= v + 3 :: IsCodeByte(w[i]))
       && w[v + 4] == BAR && Letters(w[v + 5..v + 16])
       && w[v + 16] == BAR && Letters(w[v + 17..])
  }

  /** process_binary_downlink: the text handed to zigbee_ota_process_payload, or an error. */
  function FromRadio(state: DeviceSession.SecureState, enabled: bool, body: seq<byte>): Option<seq<byte>> {
    if body == [] then None
    else if |body| <= FRAME_MAX && body[0] in {67, 68} then Some(body)
    else if !enabled then None
    else match state
      case WaitChallenge =>
        if |body| != 72 then None else Some(Challenge(body[..8], body[8..]))
      case WaitProvisioning =>
        if !FitsBuffer(body, FRAME_MAX) then None else Some(Provisioning(body))
      case _ => None
  }

  /** Outside an attempt, or switched off, only the texts 'C' and 'D' get through, whatever arrives. */
  lemma OnlyTextOutsideAttempts(state: DeviceSession.SecureState, enabled: bool, body: seq<byte>)
    requires !enabled || state in {DeviceSession.Idle, DeviceSession.Provisioned}
    ensures FromRadio(state, enabled, body) in {None, Some(body)}
    ensures FromRadio(state, enabled, body).Some? <==> 1 <= |body| <= 100 && body[0] in {67, 68}
  {
  }

  /** When base64url_encode succeeds on a buffer of this size (Base64Url.EncodeToBuffer). */
  predicate FitsBuffer(body: seq<byte>, size: nat) { size >= 2 && (body == [] || PaddedLength(|body|) + 1 <= size) }

  lemma BufferHolds72(body: seq<byte>)
    requires body != []
    ensures FitsBuffer(body, FRAME_MAX) <==> |body| <= 72
  {
    LengthsInClosedForm(|body|);
  }

  lemma ChallengeSlices(random: seq<byte>, signature: seq<byte>)
    requires |random| == 8 && |signature| == 64
    ensures var w := Challenge(random, signature);
            |w| == 100 && w[0] == 65 && w[1] == BAR && w[2..13] == Encode(random) && w[13] == BAR
                && w[14..] == Encode(signature)
  {
    TextLengths();
  }

  /**
    Every challenge passes the converter as random and signature in binary, and the ESP that waits
    for it gets back the same text exactly unless the first random byte is 'C' or 'D'.
   */
  lemma ChallengeTransparent(random: seq<byte>, signature: seq<byte>)
    requires |random| == 8 && |signature| == 64
    ensures var w := Challenge(random, signature);
            && ToRadio(w) == Some(random + signature)
            && (FromRadio(DeviceSession.WaitChallenge, true, random + signature) == Some(w) <==> random[0] !in {67, 68})
  {
    var w, body := Challenge(random, signature), random + signature;
    ChallengeSlices(random, signature);
    NodeDecodesEncoded(random);
    NodeDecodesEncoded(signature);
    assert body[..8] == random && body[8..] == signature;
    if body[0] in {67, 68} {
      assert w[0] == 65;
      assert body != w;
    }
  }

  /**
    A P frame reaches the waiting ESP unchanged exactly if its ciphertext has at most 72 bytes and
    does not start with 'C' or 'D'. The server also sends 73 bytes, which the ESP's buffer refuses.
   */
  lemma ProvisioningTransparent(sealed: seq<byte>)
    requires sealed != [] && |Provisioning(sealed)| <= FRAME_MAX
    ensures var w := Provisioning(sealed);
            && ToRadio(w) == Some(sealed)
            && (FromRadio(DeviceSession.WaitProvisioning, true, sealed) == Some(w) <==>
                  |sealed| <= 72 && sealed[0] !in {67, 68})
  {
    var w := Provisioning(sealed);
    NodeDecodesEncoded(sealed);
    LengthsInClosedForm(|sealed|);
    BufferHolds72(sealed);
    assert w[2..] == Encode(sealed) && w[0] == 80;
    if sealed[0] in {67, 68} {
      assert sealed != w;
    }
  }

  /** CHECK frames cross unchanged, in every state of the ESP and whether or not provisioning is enabled. */
  lemma CheckTransparent(version: seq<byte>, code: seq<byte>, grant: seq<byte>, mac: seq<byte>,
                         state: DeviceSession.SecureState, enabled: bool)
    requires 1 <= |version| <= 32 && BAR !in version && |grant| == 8 && |mac| == 16
    requires |code| == 3 && IsCodeByte(code[0]) && IsCodeByte(code[1]) && IsCodeByte(code[2])
    ensures var w := Check(version, code, grant, mac);
            ToRadio(w) == Some(w) && FromRadio(state, enabled, w) == Some(w)
  {
    CheckSlices(version, code, grant, mac);
    NodeDecodesEncoded(grant);
    NodeDecodesEncoded(mac);
    MatchesCheck(Check(version, code, grant, mac), version);
    CheckPasses(Check(version, code, grant, mac), state, enabled);
  }

  lemma CheckPasses(w: seq<byte>, state: DeviceSession.SecureState, enabled: bool)
    requires IsCheck(w)
    ensures ToRadio(w) == Some(w) && FromRadio(state, enabled, w) == Some(w)
  {
  }

  lemma MatchesCheck(w: seq<byte>, version: seq<byte>)
    requires 1 <= |version| <= 32 && BAR !in version
    requires var v := 2 + |version|;
            && |w| == v + 39 && w[0] == 67 && w[1] == BAR && w[2..v] == version && w[v] == BAR
            && IsCodeByte(w[v + 1]) && IsCodeByte(w[v + 2]) && IsCodeByte(w[v + 3]) && w[v + 4] == BAR
            && Letters(w[v + 5..v + 16]) && w[v + 16] == BAR && Letters(w[v + 17..])
    ensures IsCheck(w)
  {
  }

  lemma CheckSlices(version: seq<byte>, code: seq<byte>, grant: seq<byte>, mac: seq<byte>)
    requires 1 <= |version| <= 32 && |code| == 3 && |grant| == 8 && |mac| == 16
    ensures var w := Check(version, code, grant, mac); var v := 2 + |version|;
            && |w| == v + 39 && w[0] == 67 && w[1] == BAR && w[2..v] == version && w[v] == BAR
            && w[v + 1] == code[0] && w[v + 2] == code[1] && w[v + 3] == code[2] && w[v + 4] == BAR
            && w[v + 5..v + 16] == Encode(grant) && w[v + 16] == BAR && w[v + 17..] == Encode(mac)
  {
    TextLengths();
  }
}
