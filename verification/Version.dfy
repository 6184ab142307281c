/**
  Which firmware is newer: version_is_newer on the ESP (ota_check_auth.c), compare_versions on the
  server (server.py). Versions are NUL-free byte strings.
 */
module Version {
  import opened Wrappers
  import opened Bytes

  const DOT: byte := 46
  const ULONG_MAX := 0xffff_ffff

  // ----- C library

  function DigitRun(s: seq<byte>): (n: nat)
    ensures n <= |s| && (forall i | 0 <= i < n :: IsDigit(s[i])) && (n < |s| ==> !IsDigit(s[n]))
  {
    if s == [] || !IsDigit(s[0]) then 0 else 1 + DigitRun(s[1..])
  }

  predicate IsSpace(b: byte) { b == 32 || 9 <= b <= 13 }

  function SkipSpaces(s: seq<byte>): (r: seq<byte>)
    ensures |r| <= |s|
  {
    if s == [] || !IsSpace(s[0]) then s else SkipSpaces(s[1..])
  }

  function Clamp(n: nat): nat { if n > ULONG_MAX then ULONG_MAX else n }

  /** What strtoul returns and where it stops. */
  datatype Scanned = Scanned(value: nat, rest: seq<byte>)

  /** strtoul(s, &end, 10) with a 32-bit unsigned long; None when there is no number (end == s). */
  function Strtoul(s: seq<byte>): (r: Option<Scanned>)
    ensures r.Some? ==> |r.value.rest| < |s|
  {
    var t := SkipSpaces(s);
    var signed := t != [] && t[0] in {43, 45};
    var u := if signed then t[1..] else t;
    var n := DigitRun(u);
    if n == 0 then None
    else
      var v := Undec(u[..n]);
      var negated := signed && t[0] == 45 && v <= ULONG_MAX;
      Some(Scanned(if negated then (ULONG_MAX + 1 - v) % (ULONG_MAX + 1) else Clamp(v), u[n..]))
  }

  /** strcmp(a, b) > 0 */
  predicate StrGreater(a: seq<byte>, b: seq<byte>) {
    a != [] && (b == [] || a[0] > b[0] || (a[0] == b[0] && StrGreater(a[1..], b[1..])))
  }

  // ----- the ESP

  datatype Verdict = Decided(newer: bool) | Same | Textual

  function AfterDot(s: seq<byte>): (r: seq<byte>)
    ensures |r| <= |s|
  {
    if s != [] && s[0] == DOT then s[1..] else s
  }

  predicate Stops(s: seq<byte>) { s != [] && !IsDigit(s[0]) }

  /** One round of the loop of version_is_newer. */
  datatype Round = Stop(verdict: Verdict) | Go(a: seq<byte>, b: seq<byte>)

  function Next(a: seq<byte>, b: seq<byte>): (r: Round)
    ensures r.Go? ==> |r.a| < |a| && |r.b| < |b|
  {
    if a == [] && b == [] then Stop(Same)
    else
      match (Strtoul(a), Strtoul(b))
      case (Some(x), Some(y)) =>
        if x.value != y.value then Stop(Decided(x.value > y.value))
        else if Stops(AfterDot(x.rest)) || Stops(AfterDot(y.rest)) then Stop(Textual)
        else Go(AfterDot(x.rest), AfterDot(y.rest))
      case _ => Stop(Textual)
  }

  /** The loop from the pointers a and b on. */
  function Compare(a: seq<byte>, b: seq<byte>): Verdict
    decreases |a|
  {
    match Next(a, b)
    case Stop(v) => v
    case Go(c, d) => Compare(c, d)
  }

  predicate IsNewer(offered: seq<byte>, running: seq<byte>) {
    match Compare(offered, running)
    case Decided(newer) => newer
    case Same => false
    case Textual => StrGreater(offered, running)
  }

  method VersionIsNewer(offered: seq<byte>, running: seq<byte>) returns (newer: bool)
    ensures newer <==> IsNewer(offered, running)
  {
    var a, b := offered, running;
    var numeric := true;
    while (a != [] || b != []) && numeric
      invariant numeric ==> Compare(a, b) == Compare(offered, running)
      invariant !numeric ==> Compare(offered, running) == Textual
      decreases |a| + |b|, numeric
    {
      var x, y := Strtoul(a), Strtoul(b);
      if x.None? || y.None? {
        numeric := false;
      } else if x.value.value != y.value.value {
        return x.value.value > y.value.value;
      } else {
        a, b := AfterDot(x.value.rest), AfterDot(y.value.rest);
        if (a != [] && !IsDigit(a[0])) || (b != [] && !IsDigit(b[0])) {
          numeric := false;
        }
      }
    }
    if numeric { return false; }
    newer := StrGreater(offered, running);
  }

  // ----- on all strings

  function Mirror(v: Verdict): Verdict { if v.Decided? then Decided(!v.newer) else v }

  lemma NextMirrors(a: seq<byte>, b: seq<byte>)
    ensures Next(b, a) == match Next(a, b)
                          case Stop(v) => Stop(Mirror(v))
                          case Go(c, d) => Go(d, c)
    ensures match Next(a, a)
            case Stop(v) => !v.Decided?
            case Go(c, d) => c == d
  {
  }

  lemma {:induction false} CompareMirrors(a: seq<byte>, b: seq<byte>)
    ensures Compare(b, a) == Mirror(Compare(a, b))
    decreases |a|
  {
    NextMirrors(a, b);
    match Next(a, b)
    case Stop(_) =>
    case Go(c, d) => CompareMirrors(c, d);
  }

  lemma {:induction false} CompareSelf(a: seq<byte>)
    ensures !Compare(a, a).Decided?
    decreases |a|
  {
    NextMirrors(a, a);
    match Next(a, a)
    case Stop(_) =>
    case Go(c, _) => CompareSelf(c);
  }

  lemma {:induction false} StrGreaterAsymmetric(a: seq<byte>, b: seq<byte>)
    ensures !(StrGreater(a, b) && StrGreater(b, a))
    ensures !StrGreater(a, b) && !StrGreater(b, a) ==> a == b
  {
    if a != [] && b != [] && a[0] == b[0] {
      StrGreaterAsymmetric(a[1..], b[1..]);
      assert a == [a[0]] + a[1..] && b == [b[0]] + b[1..];
    }
  }

  /** No version is newer than itself, and no two versions are newer than each other. */
  lemma NewerIsAsymmetric(a: seq<byte>, b: seq<byte>)
    ensures !IsNewer(a, a)
    ensures !(IsNewer(a, b) && IsNewer(b, a))
  {
    CompareSelf(a);
    CompareMirrors(a, b);
    StrGreaterAsymmetric(a, a);
    StrGreaterAsymmetric(a, b);
  }

  // ----- on dotted decimals

  /** Canonical text of a list of components: no leading zeros, single dots. */
  function Text(x: seq<nat>): seq<byte>
    requires x != []
  {
    Dec(x[0]) + if |x| == 1 then [] else [DOT] + Text(x[1..])
  }

  function Tail(x: seq<nat>): seq<byte>
    requires x != []
  {
    if |x| == 1 then [] else [DOT] + Text(x[1..])
  }

  lemma TextStart(x: seq<nat>)
    requires x != []
    ensures Text(x) == Dec(x[0]) + Tail(x) && Text(x) != [] && IsDigit(Text(x)[0])
    ensures Tail(x) != [] ==> !IsDigit(Tail(x)[0])
  {
    assert Dec(x[0])[0] in Dec(x[0]);
  }

  /** Component by component; a proper prefix is smaller. */
  predicate LexGreater(x: seq<nat>, y: seq<nat>) {
    x != [] && (y == [] || x[0] > y[0] || (x[0] == y[0] && LexGreater(x[1..], y[1..])))
  }

  predicate Fits(x: seq<nat>) { forall i | 0 <= i < |x| :: x[i] <= ULONG_MAX }

  /** The first component, then whatever does not go on with a digit. */
  lemma {:induction false} DigitRunOf(d: seq<byte>, tail: seq<byte>)
    requires (forall b :: b in d ==> IsDigit(b)) && (tail != [] ==> !IsDigit(tail[0]))
    ensures DigitRun(d + tail) == |d|
  {
    if d == [] {
      assert d + tail == tail;
    } else {
      assert d[0] in d && (d + tail)[1..] == d[1..] + tail;
      DigitRunOf(d[1..], tail);
    }
  }

  lemma StrtoulOfDec(n: nat, tail: seq<byte>)
    requires tail != [] ==> !IsDigit(tail[0])
    ensures Strtoul(Dec(n) + tail) == Some(Scanned(Clamp(n), tail))
  {
    var d := Dec(n);
    var s := d + tail;
    assert d[0] in d;
    assert IsDigit(s[0]) && SkipSpaces(s) == s;
    DigitRunOf(d, tail);
    assert s[..|d|] == d && s[|d|..] == tail;
    UndecDec(n);
  }

  lemma AfterTail(x: seq<nat>)
    requires x != []
    ensures AfterDot(Tail(x)) == TextOf(x[1..]) && !Stops(AfterDot(Tail(x)))
  {
    if |x| > 1 {
      TextStart(x[1..]);
      assert Tail(x)[1..] == Text(x[1..]);
    }
  }

  lemma StrtoulOfText(x: seq<nat>)
    requires x != []
    ensures Strtoul(Text(x)) == Some(Scanned(Clamp(x[0]), Tail(x)))
  {
    TextStart(x);
    StrtoulOfDec(x[0], Tail(x));
  }

  function TextOf(x: seq<nat>): seq<byte> { if x == [] then [] else Text(x) }

  function Lists(x: seq<nat>, y: seq<nat>): Verdict {
    if x == [] && y == [] then Same
    else if x == [] || y == [] then Textual
    else if Clamp(x[0]) != Clamp(y[0]) then Decided(Clamp(x[0]) > Clamp(y[0]))
    else Lists(x[1..], y[1..])
  }

  /** On dotted decimals of any size the loop compares the clamped components. */
  lemma {:induction false} CompareTexts(x: seq<nat>, y: seq<nat>)
    ensures Compare(TextOf(x), TextOf(y)) == Lists(x, y)
  {
    assert Strtoul([]).None?;
    if x != [] { TextStart(x); StrtoulOfText(x); }
    if y != [] { TextStart(y); StrtoulOfText(y); }
    if x != [] && y != [] && Clamp(x[0]) == Clamp(y[0]) {
      AfterTail(x);
      AfterTail(y);
      CompareTexts(x[1..], y[1..]);
    }
  }

  lemma {:induction false} StrGreaterAfter(p: seq<byte>, a: seq<byte>, b: seq<byte>)
    ensures StrGreater(p + a, p + b) == StrGreater(a, b)
  {
    if p == [] {
      assert p + a == a && p + b == b;
    } else {
      assert (p + a)[1..] == p[1..] + a && (p + b)[1..] == p[1..] + b;
      StrGreaterAfter(p[1..], a, b);
    }
  }

  lemma TailsDecide(x: seq<nat>, y: seq<nat>)
    requires x != [] && y != [] && x[0] == y[0]
    ensures StrGreater(Text(x), Text(y)) == StrGreater(Tail(x), Tail(y))
    ensures |x| > 1 && |y| > 1 ==> StrGreater(Text(x), Text(y)) == StrGreater(Text(x[1..]), Text(y[1..]))
  {
    TextStart(x);
    TextStart(y);
    StrGreaterAfter(Dec(x[0]), Tail(x), Tail(y));
    if |x| > 1 && |y| > 1 {
      StrGreaterAfter([DOT], Text(x[1..]), Text(y[1..]));
    }
  }

  /** When one list runs out first, the text comparison says what the list comparison says. */
  lemma {:induction false} ListsDecide(x: seq<nat>, y: seq<nat>)
    requires x != [] && y != [] && Fits(x) && Fits(y)
    ensures match Lists(x, y)
            case Decided(newer) => newer == LexGreater(x, y)
            case Same => x == y && !LexGreater(x, y)
            case Textual => StrGreater(Text(x), Text(y)) == LexGreater(x, y)
  {
    if x[0] == y[0] {
      TailsDecide(x, y);
      if |x| > 1 && |y| > 1 {
        ListsDecide(x[1..], y[1..]);
      }
      assert x == [x[0]] + x[1..] && y == [y[0]] + y[1..];
      assert Lists(x[1..], y[1..]) == Same ==> x[1..] == y[1..];
    }
  }

  /** On canonical dotted decimals that fit 32 bits, newer means lexicographically greater. */
  lemma NewerOnDottedDecimals(x: seq<nat>, y: seq<nat>)
    requires x != [] && y != [] && Fits(x) && Fits(y)
    ensures IsNewer(Text(x), Text(y)) <==> LexGreater(x, y)
  {
    CompareTexts(x, y);
    ListsDecide(x, y);
  }

  lemma {:induction false} LexIsStrictTotalOrder(x: seq<nat>, y: seq<nat>, z: seq<nat>)
    ensures !LexGreater(x, x)
    ensures LexGreater(x, y) && LexGreater(y, z) ==> LexGreater(x, z)
    ensures LexGreater(x, y) || LexGreater(y, x) || x == y
  {
    if x != [] && y != [] && x[0] == y[0] {
      assert x == [x[0]] + x[1..] && y == [y[0]] + y[1..];
    }
    if x != [] {
      LexIsStrictTotalOrder(x[1..], if y == [] then [] else y[1..], if z == [] then [] else z[1..]);
    }
  }

  // ----- the server

  datatype Item = Number(n: nat) | Word(text: seq<byte>)

  predicate IsLetter(b: byte) { 65 <= b <= 90 || 97 <= b <= 122 }

  function LetterRun(s: seq<byte>): (n: nat)
    ensures n <= |s|
  {
    if s == [] || !IsLetter(s[0]) then 0 else 1 + LetterRun(s[1..])
  }

  function Lower(s: seq<byte>): seq<byte> {
    if s == [] then [] else [if 65 <= s[0] <= 90 then s[0] + 32 else s[0]] + Lower(s[1..])
  }

  /** re.findall(r"\d+|[A-Za-z]+", s), each number and word tagged. */
  function Items(s: seq<byte>): seq<Item> {
    if s == [] then []
    else if IsDigit(s[0]) then
      var n := DigitRun(s);
      [Number(Undec(s[..n]))] + Items(s[n..])
    else if IsLetter(s[0]) then
      var n := LetterRun(s);
      [Word(Lower(s[..n]))] + Items(s[n..])
    else Items(s[1..])
  }

  function VersionKey(s: seq<byte>): seq<Item> { if s == Ascii("unknown") then [] else Items(s) }

  /** Tuples (1, number) and (0, word). */
  predicate ItemGreater(a: Item, b: Item) {
    match (a, b)
    case (Number(m), Number(n)) => m > n
    case (Number(_), Word(_)) => true
    case (Word(_), Number(_)) => false
    case (Word(v), Word(w)) => StrGreater(v, w)
  }

  predicate KeyGreater(a: seq<Item>, b: seq<Item>) {
    a != [] && (b == [] || ItemGreater(a[0], b[0]) || (a[0] == b[0] && KeyGreater(a[1..], b[1..])))
  }

  function CompareVersions(left: seq<byte>, right: seq<byte>): int {
    var l, r := VersionKey(left), VersionKey(right);
    if l == [] || r == [] then if left == right then 0 else 1
    else if KeyGreater(l, r) then 1 else if KeyGreater(r, l) then -1 else 0
  }

  function Numbers(x: seq<nat>): seq<Item> { if x == [] then [] else [Number(x[0])] + Numbers(x[1..]) }

  lemma ItemsOfDec(n: nat, tail: seq<byte>)
    requires tail != [] ==> !IsDigit(tail[0])
    ensures Items(Dec(n) + tail) == [Number(n)] + Items(tail)
  {
    var s, d := Dec(n) + tail, Dec(n);
    assert d[0] in d;
    DigitRunOf(d, tail);
    UndecDec(n);
    assert s[..|d|] == d && s[|d|..] == tail;
  }

  lemma {:induction false} ItemsOfText(x: seq<nat>)
    requires x != []
    ensures Items(Text(x)) == Numbers(x)
  {
    TextStart(x);
    ItemsOfDec(x[0], Tail(x));
    if |x| > 1 {
      assert Tail(x)[1..] == Text(x[1..]);
      ItemsOfText(x[1..]);
    }
  }

  lemma {:induction false} KeysOfNumbers(x: seq<nat>, y: seq<nat>)
    ensures KeyGreater(Numbers(x), Numbers(y)) == LexGreater(x, y)
  {
    if x != [] && y != [] {
      assert Numbers(x)[1..] == Numbers(x[1..]) && Numbers(y)[1..] == Numbers(y[1..]);
      KeysOfNumbers(x[1..], y[1..]);
    }
  }

  /** The server offers exactly what the ESP takes: both orders agree on canonical dotted decimals. */
  lemma ServerAndDeviceAgree(x: seq<nat>, y: seq<nat>)
    requires x != [] && y != [] && Fits(x) && Fits(y)
    ensures IsNewer(Text(x), Text(y)) <==> CompareVersions(Text(x), Text(y)) > 0
  {
    NewerOnDottedDecimals(x, y);
    ServerOnDottedDecimals(x, y);
  }

  lemma ServerOnDottedDecimals(x: seq<nat>, y: seq<nat>)
    requires x != [] && y != []
    ensures CompareVersions(Text(x), Text(y)) > 0 <==> LexGreater(x, y)
  {
    ItemsOfText(x);
    ItemsOfText(y);
    KeysOfNumbers(x, y);
    TextIsNotUnknown(x);
    TextIsNotUnknown(y);
  }

  lemma TextIsNotUnknown(x: seq<nat>)
    requires x != []
    ensures Text(x) != Ascii("unknown")
  {
    TextStart(x);
    assert "unknown"[0] == 'u';
  }

  // ----- where the order ends

  lemma OneDigit(b: byte, tail: seq<byte>)
    requires IsDigit(b) && (tail != [] ==> !IsDigit(tail[0]))
    ensures Strtoul([b] + tail) == Some(Scanned(b as int - 48, tail))
  {
    DigitRunOf([b], tail);
    var s := [b] + tail;
    assert s[..1] == [b] && s[1..] == tail && [b][..0] == [] && SkipSpaces(s) == s;
    assert Undec([b]) == Undec([]) * 10 + (b as int - 48);
  }

  lemma ZeroAndDigit(b: byte, tail: seq<byte>)
    requires IsDigit(b) && (tail != [] ==> !IsDigit(tail[0]))
    ensures Strtoul([48, b] + tail) == Some(Scanned(b as int - 48, tail))
  {
    DigitRunOf([48, b], tail);
    var s := [48, b] + tail;
    assert s[..2] == [48, b] && s[2..] == tail && [48, b][..1] == [48] && [48][..0] == [] && SkipSpaces(s) == s;
    assert Undec([48, b]) == Undec([48]) * 10 + (b as int - 48) && Undec([48]) == Undec([]) * 10;
  }

  predicate CycleDigits(x: byte, u: byte, v: byte) { IsDigit(x) && IsDigit(u) && IsDigit(v) && x > 48 && u > v }

  lemma FirstComponentsEqual(x: byte, u: byte, v: byte)
    requires CycleDigits(x, u, v)
    ensures Next([48, x] + [DOT, u], [x] + [DOT, v]) == Go([u] + [], [v] + [])
  {
    ZeroAndDigit(x, [DOT, u]);
    OneDigit(x, [DOT, v]);
    assert AfterDot([DOT, u]) == [u] + [] && AfterDot([DOT, v]) == [v] + [];
  }

  lemma SecondDecides(u: byte, v: byte)
    requires IsDigit(u) && IsDigit(v) && u > v
    ensures Compare([u] + [], [v] + []) == Decided(true)
  {
    OneDigit(u, []);
    OneDigit(v, []);
  }

  lemma ZeroedIsNewer(x: byte, u: byte, v: byte)
    requires CycleDigits(x, u, v)
    ensures IsNewer([48, x, DOT, u], [x, DOT, v])
  {
    FirstComponentsEqual(x, u, v);
    SecondDecides(u, v);
    assert [48, x, DOT, u] == [48, x] + [DOT, u] && [x, DOT, v] == [x] + [DOT, v];
  }

  lemma DotAbovePlus(x: byte, v: byte)
    requires IsDigit(x) && IsDigit(v)
    ensures IsNewer([x, DOT, v], [x, 43])
  {
    OneDigit(x, [DOT, v]);
    OneDigit(x, [43]);
    var a, b := [x, DOT, v], [x, 43];
    assert a == [x] + [DOT, v] && b == [x] + [43];
    assert Next(a, b) == Stop(Textual);
    assert a[1..] == [DOT, v] && b[1..] == [43];
  }

  lemma PlusAboveZero(x: byte, u: byte)
    requires IsDigit(x) && IsDigit(u) && x > 48
    ensures IsNewer([x, 43], [48, x, DOT, u])
  {
    OneDigit(x, [43]);
    ZeroAndDigit(x, [DOT, u]);
    assert [x, 43] == [x] + [43] && [48, x, DOT, u] == [48, x] + [DOT, u];
    assert Next([x, 43], [48, x, DOT, u]) == Stop(Textual);
  }

  /** Off the canonical form the ESP's relation is not an order, as in 01.6 > 1.5 > 1+ > 01.6. */
  lemma NewerHasCycles(x: byte, u: byte, v: byte)
    requires CycleDigits(x, u, v)
    ensures IsNewer([48, x, DOT, u], [x, DOT, v])
    ensures IsNewer([x, DOT, v], [x, 43])
    ensures IsNewer([x, 43], [48, x, DOT, u])
  {
    ZeroedIsNewer(x, u, v);
    DotAbovePlus(x, v);
    PlusAboveZero(x, u);
  }

  /** Beyond 32 bits the ESP takes two different components for equal; the server does not. */
  lemma LargeComponentsClamp(m: nat, n: nat)
    requires m > n >= ULONG_MAX
    ensures !IsNewer(Text([m]), Text([n])) && CompareVersions(Text([m]), Text([n])) > 0
  {
    CompareTexts([m], [n]);
    ServerOnDottedDecimals([m], [n]);
  }
}
