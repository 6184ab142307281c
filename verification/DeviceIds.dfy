/**
  Device ids: the server normalizes whatever text names a device (device_registry.py,
  device_enrollment.py), the ESP prints its eight-byte IEEE address (device_identity.c). Text is ASCII.
 */
module DeviceIds {
  import opened Wrappers
  import opened Bytes

  const COLON: byte := 58
  const ID_LENGTH := 23

  predicate IsSpace(b: byte) { b == 32 || 9 <= b <= 13 || 28 <= b <= 31 }

  predicate IsLowerHex(b: byte) { 48 <= b <= 57 || 97 <= b <= 102 }

  predicate AllHex(s: seq<byte>) { forall b :: b in s ==> IsLowerHex(b) }

  /** str.strip() */
  function Strip(s: seq<byte>): seq<byte> {
    if s == [] then []
    else if IsSpace(s[0]) then Strip(s[1..])
    else if IsSpace(s[|s| - 1]) then Strip(s[..|s| - 1])
    else s
  }

  function LowerByte(b: byte): byte { if 65 <= b <= 90 then b + 32 else b }

  /** str.lower() */
  function Lower(s: seq<byte>): (r: seq<byte>)
    ensures |r| == |s|
  {
    if s == [] then [] else [LowerByte(s[0])] + Lower(s[1..])
  }

  /** replace('0x', '') */
  function DropPrefixes(s: seq<byte>): seq<byte> {
    if |s| < 2 then s
    else if s[0] == 48 && s[1] == 120 then DropPrefixes(s[2..])
    else [s[0]] + DropPrefixes(s[1..])
  }

  /** replace(':', '') */
  function DropColons(s: seq<byte>): seq<byte> {
    if s == [] then [] else (if s[0] == COLON then [] else [s[0]]) + DropColons(s[1..])
  }

  /** ':'.join over pairs of characters */
  function Pairs(c: seq<byte>): (r: seq<byte>)
    requires |c| >= 2 && |c| % 2 == 0
    ensures |r| == |c| / 2 * 3 - 1
  {
    if |c| == 2 then c else c[..2] + [COLON] + Pairs(c[2..])
  }

  /** normalize_device_id; None stands for ValueError. */
  function NormalizeId(text: seq<byte>): (r: Option<seq<byte>>)
    ensures r.Some? ==> |r.value| == ID_LENGTH
  {
    var compact := DropColons(DropPrefixes(Lower(Strip(text))));
    if |compact| != 16 || !AllHex(compact) then None else Some(Pairs(compact))
  }

  /** The shape of every normalized id. */
  predicate IsIdByte(b: byte) { IsLowerHex(b) || b == COLON }

  predicate IdBytes(s: seq<byte>) { forall b :: b in s ==> IsIdByte(b) }

  lemma {:induction false} PairsAreIdBytes(c: seq<byte>)
    requires |c| >= 2 && |c| % 2 == 0 && AllHex(c)
    ensures IdBytes(Pairs(c)) && IsLowerHex(Pairs(c)[0]) && IsLowerHex(Pairs(c)[|Pairs(c)| - 1])
  {
    assert IsLowerHex(c[0]) && IsLowerHex(c[1]);
    if |c| > 2 {
      PairsAreIdBytes(c[2..]);
    }
  }

  lemma ColonFree(a: byte, b: byte, rest: seq<byte>)
    requires a != COLON && b != COLON
    ensures DropColons([a, b] + rest) == [a, b] + DropColons(rest)
    ensures DropColons([COLON] + rest) == DropColons(rest)
  {
    assert ([a, b] + rest)[1..] == [b] + rest && ([b] + rest)[1..] == rest && ([COLON] + rest)[1..] == rest;
  }

  /** Dropping the colons of an id gives back its sixteen digits. */
  lemma {:induction false} ColonsOfPairs(c: seq<byte>)
    requires |c| >= 2 && |c| % 2 == 0 && AllHex(c)
    ensures DropColons(Pairs(c)) == c
  {
    assert IsLowerHex(c[0]) && IsLowerHex(c[1]) && c == [c[0], c[1]] + c[2..];
    if |c| == 2 {
      ColonFree(c[0], c[1], []);
      assert Pairs(c) == [c[0], c[1]] + [];
    } else {
      ColonsOfPairs(c[2..]);
      var rest := Pairs(c[2..]);
      ColonFree(c[0], c[1], [COLON] + rest);
      ColonFree(c[0], c[1], rest);
      assert Pairs(c) == [c[0], c[1]] + ([COLON] + rest);
    }
  }

  lemma {:induction false} LowerKeepsId(s: seq<byte>)
    requires IdBytes(s)
    ensures Lower(s) == s
  {
    if s != [] {
      assert IsIdByte(s[0]);
      LowerKeepsId(s[1..]);
    }
  }

  lemma {:induction false} PrefixesKeepId(s: seq<byte>)
    requires IdBytes(s)
    ensures DropPrefixes(s) == s
  {
    if |s| >= 2 {
      assert IsIdByte(s[1]);
      PrefixesKeepId(s[1..]);
    }
  }

  lemma PairsAreNormalized(c: seq<byte>)
    requires |c| == 16 && AllHex(c)
    ensures NormalizeId(Pairs(c)) == Some(Pairs(c))
  {
    PairsAreIdBytes(c);
    ColonsOfPairs(c);
    LowerKeepsId(Pairs(c));
    PrefixesKeepId(Pairs(c));
  }

  /** A normalized id is its own normal form, has 23 characters and no separator in it. */
  lemma NormalizedIdIsNormal(text: seq<byte>)
    requires NormalizeId(text).Some?
    ensures var id := NormalizeId(text).value;
            NormalizeId(id) == Some(id) && |id| == ID_LENGTH && BAR !in id && 0 !in id
  {
    var c := DropColons(DropPrefixes(Lower(Strip(text))));
    PairsAreNormalized(c);
    PairsAreIdBytes(c);
    assert !IsIdByte(BAR) && !IsIdByte(0);
  }

  // ----- the ESP's own id

  function HexDigit(n: nat): (b: byte)
    requires n < 16
    ensures IsLowerHex(b)
  {
    if n < 10 then 48 + n else 87 + n
  }

  function Hex(s: seq<byte>): (r: seq<byte>)
    ensures |r| == 2 * |s|
  {
    if s == [] then [] else [HexDigit(s[0] / 16), HexDigit(s[0] % 16)] + Hex(s[1..])
  }

  lemma {:induction false} HexIsHex(s: seq<byte>)
    ensures AllHex(Hex(s))
  {
    if s != [] {
      HexIsHex(s[1..]);
    }
  }

  lemma {:induction false} HexInjective(s: seq<byte>, t: seq<byte>)
    requires Hex(s) == Hex(t)
    ensures s == t
  {
    assert |s| == |t|;
    if s != [] {
      var x, y := Hex(s), Hex(t);
      assert x[0] == HexDigit(s[0] / 16) && y[0] == HexDigit(t[0] / 16);
      assert x[1] == HexDigit(s[0] % 16) && y[1] == HexDigit(t[0] % 16);
      assert x[2..] == Hex(s[1..]) && y[2..] == Hex(t[1..]);
      HexInjective(s[1..], t[1..]);
      assert s == [s[0]] + s[1..] && t == [t[0]] + t[1..];
    }
  }

  /** device_identity_get_device_id: the address bytes, most significant first. */
  function DeviceText(ieee: seq<byte>): seq<byte>
    requires |ieee| == 8
  {
    Pairs(Hex(ieee))
  }

  /** The ESP names itself by the id that the server keeps for it, and two ESPs never share an id. */
  lemma DeviceTextIsNormal(ieee: seq<byte>, other: seq<byte>)
    requires |ieee| == 8 && |other| == 8
    ensures NormalizeId(DeviceText(ieee)) == Some(DeviceText(ieee))
    ensures DeviceText(ieee) == DeviceText(other) ==> ieee == other
  {
    HexIsHex(ieee);
    HexIsHex(other);
    PairsAreNormalized(Hex(ieee));
    ColonsOfPairs(Hex(ieee));
    ColonsOfPairs(Hex(other));
    if DeviceText(ieee) == DeviceText(other) {
      HexInjective(ieee, other);
    }
  }

  // ----- other spellings

  lemma {:induction false} LowerAt(s: seq<byte>, k: nat)
    requires k < |s|
    ensures Lower(s)[k] == LowerByte(s[k])
  {
    if k > 0 {
      LowerAt(s[1..], k - 1);
    }
  }

  predicate Blank(s: seq<byte>) { forall b :: b in s ==> IsSpace(b) }

  lemma {:induction false} StripBlanks(a: seq<byte>, u: seq<byte>, b: seq<byte>)
    requires Blank(a) && Blank(b) && u != [] && !IsSpace(u[0]) && !IsSpace(u[|u| - 1])
    ensures Strip(a + u + b) == u
    decreases |a| + |b|
  {
    var s := a + u + b;
    if a != [] {
      assert s[0] == a[0] && a[0] in a && s[1..] == a[1..] + u + b;
      StripBlanks(a[1..], u, b);
    } else if b != [] {
      assert s[0] == u[0] && s[|s| - 1] == b[|b| - 1] && b[|b| - 1] in b;
      assert s[..|s| - 1] == a + u + b[..|b| - 1];
      StripBlanks(a, u, b[..|b| - 1]);
    } else {
      assert s == u;
    }
  }

  lemma {:induction false} ColonsKeepHex(s: seq<byte>)
    requires AllHex(s)
    ensures DropColons(s) == s
  {
    if s != [] {
      assert IsLowerHex(s[0]);
      ColonsKeepHex(s[1..]);
    }
  }

  lemma DropsPrefix(s: seq<byte>)
    ensures DropPrefixes([48, 120] + s) == DropPrefixes(s)
  {
    assert ([48, 120] + s)[2..] == s;
  }

  /** A text whose lower-case form x leads to the digits c, within blanks. */
  lemma BlanksNormalize(a: seq<byte>, u: seq<byte>, b: seq<byte>, x: seq<byte>, c: seq<byte>)
    requires Blank(a) && Blank(b) && Lower(u) == x && x != [] && IsIdByte(x[0]) && IsIdByte(x[|x| - 1])
    requires DropColons(DropPrefixes(x)) == c && |c| == 16 && AllHex(c)
    ensures NormalizeId(a + u + b) == Some(Pairs(c))
  {
    Visible(u, 0, x[0]);
    Visible(u, |u| - 1, x[|x| - 1]);
    StripBlanks(a, u, b);
  }

  lemma Visible(u: seq<byte>, k: nat, b: byte)
    requires k < |u| && Lower(u)[k] == b && IsIdByte(b)
    ensures !IsSpace(u[k])
  {
    LowerAt(u, k);
  }

  lemma CompactForms(ieee: seq<byte>, x: seq<byte>)
    requires |ieee| == 8 && x in {DeviceText(ieee), Hex(ieee), [48, 120] + Hex(ieee)}
    ensures AllHex(Hex(ieee)) && DropColons(DropPrefixes(x)) == Hex(ieee)
  {
    var c := Hex(ieee);
    HexIsHex(ieee);
    if x == DeviceText(ieee) {
      PairsAreIdBytes(c);
      ColonsOfPairs(c);
      PrefixesKeepId(Pairs(c));
    } else {
      ColonsKeepHex(c);
      DropsPrefix(c);
      PrefixesKeepId(c);
    }
  }

  lemma FormsEnd(ieee: seq<byte>, x: seq<byte>)
    requires |ieee| == 8 && x in {DeviceText(ieee), Hex(ieee), [48, 120] + Hex(ieee)}
    ensures x != [] && IsIdByte(x[0]) && IsIdByte(x[|x| - 1])
  {
    var c := Hex(ieee);
    HexIsHex(ieee);
    PairsAreIdBytes(c);
    assert c[0] in c && c[15] in c;
  }

  /**
    Every usual spelling of an address names the same device: its sixteen digits in either case, with colons
    between the bytes, or behind 0x or 0X, or neither, and with blanks around.
   */
  lemma SpellingsNormalize(ieee: seq<byte>, a: seq<byte>, u: seq<byte>, b: seq<byte>)
    requires |ieee| == 8 && Blank(a) && Blank(b)
    requires Lower(u) in {DeviceText(ieee), Hex(ieee), [48, 120] + Hex(ieee)}
    ensures NormalizeId(a + u + b) == Some(DeviceText(ieee))
  {
    CompactForms(ieee, Lower(u));
    FormsEnd(ieee, Lower(u));
    BlanksNormalize(a, u, b, Lower(u), Hex(ieee));
  }

  lemma LowerPair(c: byte, e: byte, rest: seq<byte>)
    ensures Lower([c, e] + rest) == [LowerByte(c), LowerByte(e)] + Lower(rest)
  {
    assert ([c, e] + rest)[1..] == [e] + rest && ([e] + rest)[1..] == rest;
  }
}
