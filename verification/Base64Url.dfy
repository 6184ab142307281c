/**
  The base64url text of section 5 of RFC 4648 without padding, which the Python server, the
  Zigbee2MQTT converter and the ESP component each encode and decode on their own.
 */
module Base64Url {
  import opened Wrappers
  import opened Bytes

  type sextet = x: int | 0 <= x < 64

  const EQUALS: byte := 61

  function Letter(i: sextet): (b: byte)
    ensures b != EQUALS && b != BAR && b != 0
  {
    if i < 26 then 65 + i else if i < 52 then 71 + i else if i < 62 then i - 4 else if i == 62 then 45 else 95
  }

  function Value(b: byte): Option<sextet> {
    if 65 <= b <= 90 then Some(b - 65)
    else if 97 <= b <= 122 then Some(b - 71)
    else if 48 <= b <= 57 then Some(b + 4)
    else if b == 45 then Some(62)
    else if b == 95 then Some(63)
    else None
  }

  predicate IsLetter(b: byte) { Value(b).Some? }

  lemma LetterValue(i: sextet)
    ensures Value(Letter(i)) == Some(i)
  {
  }

  // The six-bit pieces of neighbouring bytes, and the bytes joined from them.
  function P0(a: byte): sextet { a / 4 }
  function P1(a: byte, b: byte): sextet { a % 4 * 16 + b / 16 }
  function P2(b: byte, c: byte): sextet { b % 16 * 4 + c / 64 }
  function P3(c: byte): sextet { c % 64 }
  function J0(i0: sextet, i1: sextet): byte { i0 * 4 + i1 / 16 }
  function J1(i1: sextet, i2: sextet): byte { i1 % 16 * 16 + i2 / 4 }
  function J2(i2: sextet, i3: sextet): byte { i2 % 4 * 64 + i3 }

  lemma JoinPieces(a: byte, b: byte, c: byte)
    ensures J0(P0(a), P1(a, b)) == a
    ensures J1(P1(a, b), P2(b, c)) == b
    ensures J2(P2(b, c), P3(c)) == c
  {
  }

  /** Length of the text without padding, and with it, three bytes at a time. */
  function TextLength(n: nat): nat {
    if n == 0 then 0 else if n < 3 then n + 1 else 4 + TextLength(n - 3)
  }

  function PaddedLength(n: nat): nat {
    if n == 0 then 0 else if n < 3 then 4 else 4 + PaddedLength(n - 3)
  }

  lemma {:induction false} LengthsInClosedForm(n: nat)
    ensures TextLength(n) == (4 * n + 2) / 3
    ensures PaddedLength(n) == (n + 2) / 3 * 4
  {
    if n >= 3 {
      LengthsInClosedForm(n - 3);
    }
  }

  /** Base64url text of a byte string, without padding. */
  function Encode(d: seq<byte>): (t: seq<byte>)
    ensures |t| == TextLength(|d|)
  {
    if |d| == 0 then []
    else if |d| == 1 then [Letter(P0(d[0])), Letter(P1(d[0], 0))]
    else if |d| == 2 then [Letter(P0(d[0])), Letter(P1(d[0], d[1])), Letter(P2(d[1], 0))]
    else Group(d[0], d[1], d[2]) + Encode(d[3..])
  }

  function Group(a: byte, b: byte, c: byte): (t: seq<byte>)
    ensures |t| == 4
  {
    [Letter(P0(a)), Letter(P1(a, b)), Letter(P2(b, c)), Letter(P3(c))]
  }

  /** The text holds letters only, so no separator and no terminator. */
  lemma {:induction false} EncodeLetters(d: seq<byte>)
    ensures forall i | 0 <= i < |Encode(d)| :: IsLetter(Encode(d)[i])
    ensures BAR !in Encode(d) && 0 !in Encode(d)
  {
    if |d| >= 3 {
      EncodeLetters(d[3..]);
      var g, r := Group(d[0], d[1], d[2]), Encode(d[3..]);
      assert forall i | 4 <= i < |g + r| :: (g + r)[i] == r[i - 4];
    }
  }

  /** The strict decoder of the ESP: letters only, no impossible length, spare bits ignored. */
  function Decode(t: seq<byte>): (r: Option<seq<byte>>)
  {
    if |t| == 0 then Some([])
    else if |t| == 1 then None
    else if |t| == 2 then
      var i0 :- Value(t[0]); var i1 :- Value(t[1]);
      Some([J0(i0, i1)])
    else if |t| == 3 then
      var i0 :- Value(t[0]); var i1 :- Value(t[1]); var i2 :- Value(t[2]);
      Some([J0(i0, i1), J1(i1, i2)])
    else
      var i0 :- Value(t[0]); var i1 :- Value(t[1]); var i2 :- Value(t[2]); var i3 :- Value(t[3]);
      var rest :- Decode(t[4..]);
      Some([J0(i0, i1), J1(i1, i2), J2(i2, i3)] + rest)
  }

  lemma TwoLetters(i0: sextet, i1: sextet)
    ensures Decode([Letter(i0), Letter(i1)]) == Some([J0(i0, i1)])
  {
    LetterValue(i0);
    LetterValue(i1);
  }

  lemma ThreeLetters(i0: sextet, i1: sextet, i2: sextet)
    ensures Decode([Letter(i0), Letter(i1), Letter(i2)]) == Some([J0(i0, i1), J1(i1, i2)])
  {
    LetterValue(i0);
    LetterValue(i1);
    LetterValue(i2);
  }

  lemma FourLetters(i0: sextet, i1: sextet, i2: sextet, i3: sextet, rest: seq<byte>)
    requires Decode(rest).Some?
    ensures Decode([Letter(i0), Letter(i1), Letter(i2), Letter(i3)] + rest)
         == Some([J0(i0, i1), J1(i1, i2), J2(i2, i3)] + Decode(rest).value)
  {
    LetterValue(i0);
    LetterValue(i1);
    LetterValue(i2);
    LetterValue(i3);
    var t := [Letter(i0), Letter(i1), Letter(i2), Letter(i3)] + rest;
    assert t[4..] == rest;
  }

  lemma OneByte(a: byte)
    ensures Decode(Encode([a])) == Some([a])
  {
    JoinPieces(a, 0, 0);
    TwoLetters(P0(a), P1(a, 0));
  }

  lemma TwoBytes(a: byte, b: byte)
    ensures Decode(Encode([a, b])) == Some([a, b])
  {
    JoinPieces(a, b, 0);
    ThreeLetters(P0(a), P1(a, b), P2(b, 0));
  }

  lemma ThreeBytes(a: byte, b: byte, c: byte, rest: seq<byte>)
    requires Decode(Encode(rest)) == Some(rest)
    ensures Decode(Encode([a, b, c] + rest)) == Some([a, b, c] + rest)
  {
    var d := [a, b, c] + rest;
    assert d[3..] == rest;
    assert Encode(d) == Group(a, b, c) + Encode(rest);
    JoinPieces(a, b, c);
    FourLetters(P0(a), P1(a, b), P2(b, c), P3(c), Encode(rest));
  }

  predicate IsUrlLetter(b: byte) { 48 <= b <= 57 || 65 <= b <= 90 || 97 <= b <= 122 || b == 45 || b == 95 }

  predicate UrlLetters(t: seq<byte>) { forall k | 0 <= k < |t| :: IsUrlLetter(t[k]) }

  lemma LettersSplit(t: seq<byte>)
    requires |t| >= 4
    ensures UrlLetters(t) <==> UrlLetters(t[..4]) && UrlLetters(t[4..])
  {
    assert forall k | 4 <= k < |t| :: t[k] == t[4..][k - 4];
  }

  lemma FourDecode(t: seq<byte>)
    requires |t| >= 4
    ensures Decode(t).Some? <==> UrlLetters(t[..4]) && Decode(t[4..]).Some?
    ensures Decode(t).Some? ==> |Decode(t).value| == 3 + |Decode(t[4..]).value|
  {
    var u := t[..4];
    assert UrlLetters(u) <==> IsUrlLetter(u[0]) && IsUrlLetter(u[1]) && IsUrlLetter(u[2]) && IsUrlLetter(u[3]);
  }

  /** The strict decoder takes exactly the texts of digits, letters, '-' and '_' that leave no single character over. */
  lemma {:induction false} DecodesExactly(t: seq<byte>)
    ensures Decode(t).Some? <==> |t| % 4 != 1 && UrlLetters(t)
    ensures Decode(t).Some? ==> |Decode(t).value| == |t| * 3 / 4
  {
    if |t| >= 4 {
      DecodesExactly(t[4..]);
      FourDecode(t);
      LettersSplit(t);
      FourMore(|t|);
    } else {
      FewDecode(t);
    }
  }

  lemma FourMore(n: nat)
    requires n >= 4
    ensures (n - 4) % 4 == n % 4 && (n - 4) * 3 / 4 + 3 == n * 3 / 4
  {
  }

  lemma FewDecode(t: seq<byte>)
    requires |t| < 4
    ensures Decode(t).Some? <==> |t| != 1 && UrlLetters(t)
    ensures Decode(t).Some? ==> |Decode(t).value| == |t| * 3 / 4
  {
  }

  /** Decoding undoes encoding, for byte strings of every length. */
  lemma {:induction false} RoundTrip(d: seq<byte>)
    ensures Decode(Encode(d)) == Some(d)
  {
    if |d| == 0 {
    } else if |d| == 1 {
      OneByte(d[0]);
      assert d == [d[0]];
    } else if |d| == 2 {
      TwoBytes(d[0], d[1]);
      assert d == [d[0], d[1]];
    } else {
      RoundTrip(d[3..]);
      ThreeBytes(d[0], d[1], d[2], d[3..]);
      assert d == [d[0], d[1], d[2]] + d[3..];
    }
  }

  lemma EncodeInjective(d: seq<byte>, e: seq<byte>)
    requires Encode(d) == Encode(e)
    ensures d == e
  {
    RoundTrip(d);
    RoundTrip(e);
  }

  // ----- the C encoder: library text first, then two passes over the buffer

  function ToUrl(b: byte): byte { if b == 43 then 45 else if b == 47 then 95 else b }

  function StdLetter(i: sextet): (b: byte)
    ensures ToUrl(b) == Letter(i) && b != EQUALS
  {
    if i == 62 then 43 else if i == 63 then 47 else Letter(i)
  }

  /** Padded text in the standard alphabet, as mbedtls_base64_encode writes it. */
  function StdEncode(d: seq<byte>): (t: seq<byte>)
    ensures |t| == PaddedLength(|d|)
  {
    if |d| == 0 then []
    else if |d| == 1 then [StdLetter(P0(d[0])), StdLetter(P1(d[0], 0)), EQUALS, EQUALS]
    else if |d| == 2 then
      [StdLetter(P0(d[0])), StdLetter(P1(d[0], d[1])), StdLetter(P2(d[1], 0)), EQUALS]
    else
      [StdLetter(P0(d[0])), StdLetter(P1(d[0], d[1])), StdLetter(P2(d[1], d[2])), StdLetter(P3(d[2]))]
      + StdEncode(d[3..])
  }

  /** The library text is the url text behind another alphabet, followed by up to two '='. */
  lemma {:induction false} StdEncodeIsPadded(d: seq<byte>)
    ensures |Encode(d)| <= |StdEncode(d)|
    ensures forall i | 0 <= i < |Encode(d)| :: StdEncode(d)[i] != EQUALS && ToUrl(StdEncode(d)[i]) == Encode(d)[i]
    ensures forall i | |Encode(d)| <= i < |StdEncode(d)| :: StdEncode(d)[i] == EQUALS
  {
    if |d| >= 3 {
      StdEncodeIsPadded(d[3..]);
      var s, e := StdEncode(d), Encode(d);
      assert forall i | 4 <= i < |e| :: e[i] == Encode(d[3..])[i - 4];
      assert forall i | 4 <= i < |s| :: s[i] == StdEncode(d[3..])[i - 4];
    }
  }

  /** mbedtls_base64_encode: refuses a buffer without room for the padded text and its terminator. */
  method LibraryEncode(input: seq<byte>, out: array<byte>) returns (ok: bool)
    modifies out
    ensures ok <==> input == [] || PaddedLength(|input|) + 1 <= out.Length
    ensures ok ==> |StdEncode(input)| <= out.Length && out[..|StdEncode(input)|] == StdEncode(input)
    ensures !ok ==> out[..] == old(out[..])
  {
    var text := StdEncode(input);
    ok := input == [] || |text| + 1 <= out.Length;
    if ok {
      for i := 0 to |text|
        invariant |text| <= out.Length && out[..i] == text[..i]
      {
        out[i] := text[i];
      }
    }
  }

  /** The first pass: every byte of the text to the url alphabet. */
  method RewriteAlphabet(out: array<byte>, n: nat)
    requires n <= out.Length
    modifies out
    ensures forall k | 0 <= k < n :: out[k] == ToUrl(old(out[k]))
  {
    for i := 0 to n
      invariant forall k | 0 <= k < i :: out[k] == ToUrl(old(out[k]))
      invariant forall k | i <= k < n :: out[k] == old(out[k])
    {
      if out[i] == 43 { out[i] := 45; } else if out[i] == 47 { out[i] := 95; }
    }
  }

  /** The second pass: where the padding starts. */
  method PaddingStart(out: array<byte>, n: nat, ghost text: nat) returns (written: nat)
    requires text <= n <= out.Length
    requires text > 0 ==> out[text - 1] != EQUALS
    requires forall k | text <= k < n :: out[k] == EQUALS
    ensures written == text
  {
    written := n;
    while written > 0 && out[written - 1] == EQUALS
      invariant text <= written <= n
    {
      written := written - 1;
    }
  }

  /**
    base64url_encode of the ESP: the text is rewritten in place to the url alphabet, then the
    padding is cut off and a terminator is put behind it.
   */
  method EncodeToBuffer(input: seq<byte>, out: array<byte>) returns (ok: bool, written: nat)
    modifies out
    ensures ok <==> out.Length >= 2 && (input == [] || PaddedLength(|input|) + 1 <= out.Length)
    ensures ok ==> written == |Encode(input)| < out.Length
    ensures ok ==> out[..written] == Encode(input) && out[written] == 0
  {
    written := 0;
    if out.Length < 2 { return false, 0; }
    ok := LibraryEncode(input, out);
    if !ok { return; }
    ghost var std, url := StdEncode(input), Encode(input);
    StdEncodeIsPadded(input);
    EncodeLetters(input);
    assert forall k | 0 <= k < |std| :: out[k] == out[..|std|][k] == std[k];
    RewriteAlphabet(out, PaddedLength(|input|));
    assert forall k | 0 <= k < |url| :: out[k] == url[k];
    assert forall k | |url| <= k < |std| :: out[k] == EQUALS;
    assert url != [] ==> IsLetter(url[|url| - 1]);
    written := PaddingStart(out, PaddedLength(|input|), |url|);
    out[written] := 0;
  }
}
