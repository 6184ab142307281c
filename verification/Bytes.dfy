/** Byte strings, decimal text and big-endian numbers, as Python and C lay them out. */
module Bytes {

  type byte = x: int | 0 <= x < 256

  const BAR: byte := 124

  function CharByte(c: char): byte { if c < 256 as char then c as int else 63 }

  /** The bytes of an ASCII literal. */
  function Ascii(s: string): (r: seq<byte>)
    ensures |r| == |s| && forall i | 0 <= i < |s| :: r[i] == CharByte(s[i])
  {
    seq(|s|, i requires 0 <= i < |s| => CharByte(s[i]))
  }

  predicate IsDigit(b: byte) { 48 <= b <= 57 }

  /** The text of printf's %llu and of a Python integer in an f-string. */
  function Dec(n: nat): (r: seq<byte>)
    ensures |r| >= 1 && forall b :: b in r ==> IsDigit(b)
  {
    if n < 10 then [48 + n] else Dec(n / 10) + [48 + n % 10]
  }

  /** The number that a string of digits denotes. */
  function Undec(s: seq<byte>): (n: nat)
    requires forall b :: b in s ==> IsDigit(b)
  {
    if s == [] then 0 else
      assert IsDigit(s[|s| - 1]);
      Undec(s[..|s| - 1]) * 10 + (s[|s| - 1] as int - 48)
  }

  lemma {:induction false} UndecDec(n: nat)
    ensures Undec(Dec(n)) == n
  {
    if n < 10 {
      assert Dec(n)[..0] == [];
    } else {
      UndecDec(n / 10);
      assert Dec(n)[..|Dec(n)| - 1] == Dec(n / 10);
    }
  }

  /** Decimal text determines its number. */
  lemma DecInjective(m: nat, n: nat)
    requires Dec(m) == Dec(n)
    ensures m == n
  {
    UndecDec(m);
    UndecDec(n);
  }

  function Pow10(k: nat): (p: nat)
    ensures p >= 1
  {
    if k == 0 then 1 else 10 * Pow10(k - 1)
  }

  /** A number has at most k decimal digits exactly when it is below 10^k. */
  lemma {:induction false} DecLength(n: nat, k: nat)
    requires k >= 1
    ensures |Dec(n)| <= k <==> n < Pow10(k)
  {
    if n < 10 {
      assert Pow10(k) == 10 * Pow10(k - 1);
    } else if k == 1 {
      assert Pow10(1) == 10 * Pow10(0);
    } else {
      DecLength(n / 10, k - 1);
      assert Pow10(k) == 10 * Pow10(k - 1);
    }
  }

  /** A text that starts with digits and a bar splits there in one way only. */
  lemma {:induction false} SplitAtBar(a: seq<byte>, x: seq<byte>, b: seq<byte>, y: seq<byte>)
    requires BAR !in a && BAR !in b
    requires a + [BAR] + x == b + [BAR] + y
    ensures a == b && x == y
  {
    var s := a + [BAR] + x;
    assert s[0] == if a == [] then BAR else a[0];
    assert s[0] == (b + [BAR] + y)[0] == if b == [] then BAR else b[0];
    if a == [] {
      assert b == [];
      assert s[1..] == x && (b + [BAR] + y)[1..] == y;
    } else {
      assert s[1..] == a[1..] + [BAR] + x;
      assert (b + [BAR] + y)[1..] == b[1..] + [BAR] + y;
      SplitAtBar(a[1..], x, b[1..], y);
      assert a == [a[0]] + a[1..] && b == [b[0]] + b[1..];
    }
  }

  /** Big-endian encoding of n in k bytes: struct.pack and put_u64_be. */
  function BigEndian(n: nat, k: nat): (r: seq<byte>)
    ensures |r| == k
  {
    if k == 0 then [] else BigEndian(n / 256, k - 1) + [n % 256]
  }

  function Pow256(k: nat): (p: nat)
    ensures p >= 1
  {
    if k == 0 then 1 else 256 * Pow256(k - 1)
  }

  lemma {:induction false} BigEndianInjective(m: nat, n: nat, k: nat)
    requires m < Pow256(k) && n < Pow256(k)
    requires BigEndian(m, k) == BigEndian(n, k)
    ensures m == n
  {
    if k > 0 {
      var s, t := BigEndian(m, k), BigEndian(n, k);
      assert s[..k - 1] == BigEndian(m / 256, k - 1) && t[..k - 1] == BigEndian(n / 256, k - 1);
      assert s[k - 1] == m % 256 && t[k - 1] == n % 256;
      BigEndianInjective(m / 256, n / 256, k - 1);
    }
  }

  lemma Pow256Values()
    ensures Pow256(1) == 256 && Pow256(2) == 0x1_0000 && Pow256(8) == 0x1_0000_0000_0000_0000
  {
    assert Pow256(2) == 256 * Pow256(1) && Pow256(4) == 256 * Pow256(3) && Pow256(6) == 256 * Pow256(5);
    assert Pow256(8) == 256 * Pow256(7);
  }

  lemma FixedWidthInjective(m: nat, n: nat, k: nat)
    requires k in {1, 2, 8} && BigEndian(m, k) == BigEndian(n, k)
    requires if k == 1 then m < 256 && n < 256 else if k == 2 then m < 0x1_0000 && n < 0x1_0000
             else m < 0x1_0000_0000_0000_0000 && n < 0x1_0000_0000_0000_0000
    ensures m == n
  {
    Pow256Values();
    BigEndianInjective(m, n, k);
  }

  /** strlen: the bytes before the first NUL. */
  function CString(s: seq<byte>): (r: seq<byte>)
    ensures |r| <= |s| && r == s[..|r|] && 0 !in r
    ensures |r| < |s| ==> s[|r|] == 0
  {
    if s == [] || s[0] == 0 then [] else [s[0]] + CString(s[1..])
  }

  /** A C string survives a copy exactly when it holds no NUL. */
  lemma {:induction false} CStringWhole(s: seq<byte>)
    ensures CString(s) == s <==> 0 !in s
  {
    var r := CString(s);
    if |r| < |s| {
      assert s[|r|] in s;
    }
  }

  /** A NUL terminated buffer reads back the text in front of the terminator. */
  lemma {:induction false} CStringTerminated(s: seq<byte>, rest: seq<byte>)
    requires 0 !in s
    ensures CString(s + [0] + rest) == s
  {
    if s != [] {
      CStringTerminated(s[1..], rest);
      assert s[0] in s;
      assert (s + [0] + rest)[1..] == s[1..] + [0] + rest;
    }
  }
}
