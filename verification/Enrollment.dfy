/** The length-prefixed enrollment message (device_enrollment.py). */
module Enrollment {
  import opened Wrappers
  import opened Bytes
  import opened DeviceIds
  import opened Canonical

  /** A field of known width, or one behind its two-byte length. */
  datatype Part = Fixed(bytes: seq<byte>) | Prefixed(bytes: seq<byte>)

  predicate Encodable(p: seq<Part>) { forall i | 0 <= i < |p| :: p[i].Prefixed? ==> |p[i].bytes| <= 0xffff }

  function EncodePart(p: Part): seq<byte> {
    match p
    case Fixed(b) => b
    case Prefixed(b) => BigEndian(|b|, 2) + b
  }

  /** b"".join(parts) */
  function Join(p: seq<Part>): seq<byte> {
    if p == [] then [] else EncodePart(p[0]) + Join(p[1..])
  }

  predicate SameShape(p: seq<Part>, q: seq<Part>) {
    |p| == |q| && forall i | 0 <= i < |p| ::
      if p[i].Fixed? then q[i].Fixed? && |p[i].bytes| == |q[i].bytes| else q[i].Prefixed?
  }

  lemma PrefixedSplits(l: seq<byte>, a: seq<byte>, x: seq<byte>, m: seq<byte>, b: seq<byte>, y: seq<byte>)
    requires |l| == |m| && (l == m ==> |a| == |b|)
    requires l + a + x == m + b + y
    ensures l == m && a == b && x == y
  {
    assert l + a + x == l + (a + x) && m + b + y == m + (b + y);
    SplitAfter(l, a + x, m, b + y);
    SplitAfter(a, x, b, y);
  }

  lemma LengthBytes(m: nat, n: nat)
    requires m <= 0xffff && n <= 0xffff && BigEndian(m, 2) == BigEndian(n, 2)
    ensures m == n
  {
    FixedWidthInjective(m, n, 2);
  }

  /** Part lists of one shape are equal when their encodings are. */
  lemma {:induction false} JoinInjective(p: seq<Part>, q: seq<Part>)
    requires SameShape(p, q) && Encodable(p) && Encodable(q) && Join(p) == Join(q)
    ensures p == q
  {
    if p != [] {
      var a, x, b, y := p[0], Join(p[1..]), q[0], Join(q[1..]);
      if a.Fixed? {
        SplitAfter(a.bytes, x, b.bytes, y);
      } else {
        if BigEndian(|a.bytes|, 2) == BigEndian(|b.bytes|, 2) { LengthBytes(|a.bytes|, |b.bytes|); }
        PrefixedSplits(BigEndian(|a.bytes|, 2), a.bytes, x, BigEndian(|b.bytes|, 2), b.bytes, y);
      }
      JoinInjective(p[1..], q[1..]);
      assert p == [a] + p[1..] && q == [b] + q[1..];
    }
  }

  /** The fields of the message; the two hexadecimal ones are given decoded. */
  datatype Fields = Fields(
    protocol: int, messageId: seq<byte>, challenge: seq<byte>, counter: int,
    deviceId: seq<byte>, zigbeeIeee: seq<byte>,
    ecosystem: seq<byte>, model: seq<byte>, role: seq<byte>, hardware: seq<byte>, chip: seq<byte>,
    flash: seq<byte>, firmware: seq<byte>, channel: seq<byte>, keyId: int, publicKey: seq<byte>)

  const DOMAIN: seq<byte> := Ascii("JaroslavZemanESP-DEVICE-ENROLL-v1")

  predicate InRange(f: Fields) {
    && |f.publicKey| == 65 && f.publicKey[0] == 4 && |f.challenge| == 32
    && 0 <= f.protocol < 256 && 0 <= f.counter < U64_LIMIT && 0 <= f.keyId < 0x1_0000
    && NormalizeId(f.deviceId).Some? && NormalizeId(f.zigbeeIeee).Some?
  }

  function Normalized(f: Fields): Fields
    requires InRange(f)
  {
    f.(deviceId := NormalizeId(f.deviceId).value, zigbeeIeee := NormalizeId(f.zigbeeIeee).value)
  }

  function Numbers(f: Fields): seq<Part>
    requires InRange(f)
  {
    [Fixed(BigEndian(f.protocol, 1)), Fixed(BigEndian(f.counter, 8)), Fixed(BigEndian(f.keyId, 2))]
  }

  function Parts(f: Fields): (p: seq<Part>)
    requires InRange(f)
    ensures |p| == 17
  {
    var n := Normalized(f);
    [Prefixed(DOMAIN), Numbers(f)[0], Prefixed(f.messageId), Prefixed(f.challenge), Numbers(f)[1],
     Prefixed(n.deviceId), Prefixed(n.zigbeeIeee), Prefixed(f.ecosystem), Prefixed(f.model),
     Prefixed(f.role), Prefixed(f.hardware), Prefixed(f.chip), Prefixed(f.flash), Prefixed(f.firmware),
     Prefixed(f.channel), Numbers(f)[2], Prefixed(f.publicKey)]
  }

  /** canonical_enrollment; None stands for ValueError or OverflowError. */
  function CanonicalEnrollment(f: Fields): Option<seq<byte>> {
    if !InRange(f) || !Encodable(Parts(f)) then None else Some(Join(Parts(f)))
  }

  lemma NumberPartsInjective(f: Fields, g: Fields)
    requires InRange(f) && InRange(g) && Numbers(f) == Numbers(g)
    ensures f.protocol == g.protocol && f.counter == g.counter && f.keyId == g.keyId
  {
    assert Numbers(f)[0] == Numbers(g)[0] && Numbers(f)[1] == Numbers(g)[1] && Numbers(f)[2] == Numbers(g)[2];
    FixedWidthInjective(f.protocol, g.protocol, 1);
    FixedWidthInjective(f.counter, g.counter, 8);
    FixedWidthInjective(f.keyId, g.keyId, 2);
  }

  lemma PartsInjective(f: Fields, g: Fields)
    requires InRange(f) && InRange(g) && Parts(f) == Parts(g)
    ensures Normalized(f) == Normalized(g)
  {
    var p, q := Parts(f), Parts(g);
    assert p[1] == q[1] && p[4] == q[4] && p[15] == q[15];
    assert Numbers(f) == Numbers(g);
    NumberPartsInjective(f, g);
    assert p[2] == q[2] && p[3] == q[3] && p[5] == q[5] && p[6] == q[6] && p[7] == q[7] && p[8] == q[8];
    assert p[9] == q[9] && p[10] == q[10] && p[11] == q[11] && p[12] == q[12] && p[13] == q[13] && p[14] == q[14];
    assert p[16] == q[16];
  }

  lemma ShapesAgree(f: Fields, g: Fields)
    requires InRange(f) && InRange(g)
    ensures SameShape(Parts(f), Parts(g))
  {
  }

  /** Enrollment messages with the same bytes agree in every field, up to the spelling of the two ids. */
  lemma EnrollmentInjective(f: Fields, g: Fields)
    requires CanonicalEnrollment(f).Some? && CanonicalEnrollment(f) == CanonicalEnrollment(g)
    ensures Normalized(f) == Normalized(g)
  {
    ShapesAgree(f, g);
    JoinInjective(Parts(f), Parts(g));
    PartsInjective(f, g);
  }
}
