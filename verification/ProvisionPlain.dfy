/**
  The plaintext of a P frame: the server packs it (secure_transport.py), the ESP parses it
  (ota_secure_session.c). Text is UTF-8 bytes throughout.
 */
module ProvisionPlain {
  import opened Wrappers
  import opened Bytes

  const SSID_MAX := 32
  const PASSWORD_MAX := 64
  const HOST_MAX := 64
  const DOT: byte := 46

  datatype ParseError = InvalidArg | InvalidSize | NotSupported

  /** ota_secure_provisioning_t; the three character arrays are given as the C strings they hold. */
  datatype Config = Config(ssid: seq<byte>, password: seq<byte>, host: seq<byte>,
                           port: nat, security: byte, channel: byte)

  // ----- IPv4 text

  function Join4(o: seq<seq<byte>>): seq<byte>
    requires |o| == 4
  {
    o[0] + [DOT] + (o[1] + [DOT] + (o[2] + [DOT] + o[3]))
  }

  /** snprintf "%u.%u.%u.%u" */
  function Ipv4Text(o: seq<byte>): seq<byte>
    requires |o| == 4
  {
    Join4([Dec(o[0]), Dec(o[1]), Dec(o[2]), Dec(o[3])])
  }

  /** str.split('.') */
  function SplitDots(s: seq<byte>): (parts: seq<seq<byte>>)
    ensures |parts| >= 1
  {
    if s == [] then [[]]
    else
      var rest := SplitDots(s[1..]);
      if s[0] == DOT then [[]] + rest else [[s[0]] + rest[0]] + rest[1..]
  }

  predicate AllDigits(s: seq<byte>) { forall b :: b in s ==> IsDigit(b) }

  /** What ipaddress accepts as one octet: no sign, no leading zero, at most three digits, at most 255. */
  predicate IsOctet(s: seq<byte>) {
    1 <= |s| <= 3 && AllDigits(s) && (|s| == 1 || s[0] != 48) && Undec(s) <= 255
  }

  /** ipaddress.ip_address restricted to version 4: the packed bytes, or None for any other text. */
  function PackIpv4(s: seq<byte>): (r: Option<seq<byte>>)
    ensures r.Some? ==> |r.value| == 4
  {
    var p := SplitDots(s);
    if |p| == 4 && (forall i | 0 <= i < 4 :: IsOctet(p[i]))
    then Some([Undec(p[0]), Undec(p[1]), Undec(p[2]), Undec(p[3])])
    else None
  }

  /** Digits without a leading zero are the decimal text of the number they denote. */
  lemma {:induction false} DecUndec(s: seq<byte>)
    requires s != [] && AllDigits(s) && (|s| == 1 || s[0] != 48)
    ensures Dec(Undec(s)) == s
    ensures s[0] != 48 ==> Undec(s) > 0
  {
    var last := s[|s| - 1];
    assert IsDigit(last);
    if |s| == 1 {
      assert s[..0] == [];
      assert s == [last];
    } else {
      DecUndec(s[..|s| - 1]);
      assert s == s[..|s| - 1] + [last];
    }
  }

  lemma {:induction false} SplitOne(a: seq<byte>)
    requires DOT !in a
    ensures SplitDots(a) == [a]
  {
    if a != [] {
      SplitOne(a[1..]);
      assert a[0] in a && a == [a[0]] + a[1..];
    }
  }

  lemma {:induction false} SplitFirst(a: seq<byte>, rest: seq<byte>)
    requires DOT !in a
    ensures SplitDots(a + [DOT] + rest) == [a] + SplitDots(rest)
  {
    var s := a + [DOT] + rest;
    if a == [] {
      assert s[1..] == rest;
    } else {
      SplitFirst(a[1..], rest);
      assert s[1..] == a[1..] + [DOT] + rest;
      assert [a[0]] + a[1..] == a;
    }
  }

  /** Splitting off the text before the first dot. */
  lemma {:induction false} SplitHead(s: seq<byte>)
    ensures var p := SplitDots(s);
            if |p| == 1 then s == p[0]
            else exists rest :: SplitDots(rest) == p[1..] && s == p[0] + [DOT] + rest
  {
    var p := SplitDots(s);
    if s != [] {
      if s[0] == DOT {
        assert p[1..] == SplitDots(s[1..]) && s == p[0] + [DOT] + s[1..];
      } else {
        SplitHead(s[1..]);
        var q := SplitDots(s[1..]);
        assert p[1..] == q[1..];
        if |q| > 1 {
          var rest :| SplitDots(rest) == q[1..] && s[1..] == q[0] + [DOT] + rest;
          assert s == p[0] + [DOT] + rest;
        }
      }
    }
  }

  lemma JoinSplit(s: seq<byte>)
    requires |SplitDots(s)| == 4
    ensures Join4(SplitDots(s)) == s
  {
    var p := SplitDots(s);
    SplitHead(s);
    var r1 :| SplitDots(r1) == p[1..] && s == p[0] + [DOT] + r1;
    SplitHead(r1);
    var r2 :| SplitDots(r2) == p[1..][1..] && r1 == p[1] + [DOT] + r2;
    SplitHead(r2);
    var r3 :| SplitDots(r3) == p[1..][1..][1..] && r2 == p[2] + [DOT] + r3;
    SplitHead(r3);
  }

  /** The packed form stands for exactly the text it was packed from. */
  lemma Ipv4TextOfPacked(s: seq<byte>)
    requires PackIpv4(s).Some?
    ensures Ipv4Text(PackIpv4(s).value) == s
  {
    JoinSplit(s);
    var p := SplitDots(s);
    DecUndec(p[0]);
    DecUndec(p[1]);
    DecUndec(p[2]);
    DecUndec(p[3]);
    assert p == [p[0], p[1], p[2], p[3]];
  }

  lemma OctetText(n: byte)
    ensures IsOctet(Dec(n)) && Undec(Dec(n)) == n && DOT !in Dec(n)
  {
    UndecDec(n);
    DecLength(n, 3);
    assert Pow10(3) == 10 * Pow10(2) == 10 * (10 * Pow10(1));
    assert DOT in Dec(n) ==> IsDigit(DOT);
  }

  lemma SplitFour(a: seq<byte>, b: seq<byte>, c: seq<byte>, d: seq<byte>)
    requires DOT !in a && DOT !in b && DOT !in c && DOT !in d
    ensures SplitDots(Join4([a, b, c, d])) == [a, b, c, d]
  {
    SplitOne(d);
    SplitFirst(c, d);
    SplitFirst(b, c + [DOT] + d);
    SplitFirst(a, b + [DOT] + (c + [DOT] + d));
  }

  /** Every canonical dotted text is packed, so packing and printing are inverse both ways. */
  lemma PackedOfIpv4Text(o: seq<byte>)
    requires |o| == 4
    ensures PackIpv4(Ipv4Text(o)) == Some(o)
  {
    OctetText(o[0]);
    OctetText(o[1]);
    OctetText(o[2]);
    OctetText(o[3]);
    SplitFour(Dec(o[0]), Dec(o[1]), Dec(o[2]), Dec(o[3]));
    assert o == [o[0], o[1], o[2], o[3]];
  }

  // ----- packing on the server

  function Upper(s: string): (r: string)
    ensures |r| == |s|
  {
    if s == "" then ""
    else [if 'a' <= s[0] <= 'z' then (s[0] as int - 32) as char else s[0]] + Upper(s[1..])
  }

  function SecurityCode(name: string): (r: Option<byte>) {
    match Upper(name)
    case "OPEN" => Some(0)
    case "WPA2" => Some(1)
    case "WPA3" => Some(2)
    case "WPA2_WPA3" => Some(3)
    case _ => None
  }

  /** host_type and host bytes of the plaintext; None when the text does not fit. */
  function HostField(host: seq<byte>): (r: Option<(byte, seq<byte>)>)
    ensures r.Some? ==> 1 <= |r.value.1| <= HOST_MAX
  {
    match PackIpv4(host)
    case Some(packed) => Some((1, packed))
    case None => if 1 <= |host| <= HOST_MAX then Some((0, host)) else None
  }

  /** bytes([1, ...]) + ssid + password + host + struct.pack(">H", port) */
  function Pack(h: Header, ssid: seq<byte>, password: seq<byte>, host: seq<byte>, port: nat): (p: seq<byte>)
    ensures |p| == 9 + |ssid| + |password| + |host|
  {
    [1, h.security, h.channel, h.ssidLen, h.passLen, h.hostType, h.hostLen] + ssid + password + host
        + BigEndian(port, 2)
  }

  /** encode_provision_plain; None stands for ValueError. */
  function EncodePlain(ssid: seq<byte>, password: seq<byte>, host: seq<byte>, port: int,
                       security: string, channel: int): (r: Option<seq<byte>>)
    ensures r.Some? ==> HostField(host).Some? && |r.value| == 9 + |ssid| + |password| + |HostField(host).value.1|
  {
    if !(1 <= |ssid| <= SSID_MAX) || |password| > PASSWORD_MAX then None
    else if !(0 <= channel <= 14) || !(1 <= port <= 65535) then None
    else
      var code :- SecurityCode(security);
      var field :- HostField(host);
      Some(Pack(Header(code, channel, |ssid|, |password|, field.0, |field.1|), ssid, password, field.1, port))
  }

  // ----- parsing on the ESP

  datatype Header = Header(security: byte, channel: byte, ssidLen: byte, passLen: byte, hostType: byte, hostLen: byte)

  function ReadHeader(p: seq<byte>): Header
    requires |p| >= 9
  {
    Header(p[1], p[2], p[3], p[4], p[5], p[6])
  }

  /** The checks that look at the seven header bytes and the length only, in their order. */
  function HeaderError(h: Header, len: nat): (e: Option<ParseError>)
    ensures e.None? ==> len == 9 + h.ssidLen as int + h.passLen as int + h.hostLen as int
  {
    if h.ssidLen == 0 || h.ssidLen > SSID_MAX || h.passLen > PASSWORD_MAX || h.hostLen == 0 || h.hostLen > HOST_MAX
    then Some(InvalidSize)
    else if h.channel != 0 && (h.channel < 1 || h.channel > 14) then Some(InvalidArg)
    else if 7 + h.ssidLen as int + h.passLen as int + h.hostLen as int + 2 != len then Some(InvalidSize)
    else None
  }

  function HostText(hostType: byte, host: seq<byte>): Result<seq<byte>, ParseError> {
    if hostType == 1 then if |host| != 4 then Failure(InvalidSize) else Success(Ipv4Text(host))
    else if hostType == 0 then Success(CString(host))
    else Failure(InvalidArg)
  }

  /** The result once the three texts and the port have been cut out. */
  function Finish(h: Header, ssid: seq<byte>, password: seq<byte>, host: seq<byte>, port: nat)
    : Result<Config, ParseError>
  {
    var text :- HostText(h.hostType, host);
    if port == 0 then Failure(InvalidArg)
    else Success(Config(CString(ssid), CString(password), text, port, h.security, h.channel))
  }

  /** The three texts and the port behind a header whose lengths account for every byte. */
  function Cut(h: Header, p: seq<byte>): Result<Config, ParseError>
    requires |p| == 9 + h.ssidLen as int + h.passLen as int + h.hostLen as int
  {
    var hostAt := 7 + h.ssidLen as int + h.passLen as int;
    var portAt := hostAt + h.hostLen as int;
    Finish(h, p[7..7 + h.ssidLen as int], p[7 + h.ssidLen as int..hostAt], p[hostAt..portAt],
           p[portAt] as int * 256 + p[portAt + 1] as int)
  }

  /** parse_provision_plaintext */
  function Parse(p: seq<byte>): (r: Result<Config, ParseError>)
    ensures r.Success? ==> |p| >= 9 && |p| == 9 + p[3] as int + p[4] as int + p[6] as int
  {
    if |p| < 9 then Failure(InvalidArg)
    else if p[0] != 1 then Failure(NotSupported)
    else
      var h := ReadHeader(p);
      match HeaderError(h, |p|)
      case Some(e) => Failure(e)
      case None => Cut(h, p)
  }

  /** The part of the parser that moves its cursor over the three texts. */
  method CutWithCursor(h: Header, p: seq<byte>) returns (r: Result<Config, ParseError>)
    requires |p| == 9 + h.ssidLen as int + h.passLen as int + h.hostLen as int
    ensures r == Cut(h, p)
  {
    var pos: int := 7;
    var ssid := p[pos..pos + h.ssidLen as int];
    pos := pos + h.ssidLen as int;
    var password := p[pos..pos + h.passLen as int];
    pos := pos + h.passLen as int;
    var host := p[pos..pos + h.hostLen as int];
    pos := pos + h.hostLen as int;
    r := Finish(h, ssid, password, host, p[pos] as int * 256 + p[pos + 1] as int);
  }

  /** The same parser as it runs: one cursor over the decrypted bytes. */
  method ParseWithCursor(p: seq<byte>) returns (r: Result<Config, ParseError>)
    ensures r == Parse(p)
  {
    if |p| < 9 { return Failure(InvalidArg); }
    if p[0] != 1 { return Failure(NotSupported); }
    var h := ReadHeader(p);
    var e := HeaderError(h, |p|);
    if e.Some? { return Failure(e.value); }
    r := CutWithCursor(h, p);
  }

  lemma PortBytes(port: int)
    requires 0 <= port <= 65535
    ensures BigEndian(port, 2) == [port / 256, port % 256]
    ensures port / 256 * 256 + port % 256 == port
  {
    assert BigEndian(port, 2) == BigEndian(port / 256, 1) + [port % 256];
    assert BigEndian(port / 256, 1) == BigEndian(port / 256 / 256, 0) + [port / 256 % 256];
  }

  lemma PackSlices(h: Header, ssid: seq<byte>, password: seq<byte>, host: seq<byte>, port: nat)
    requires port <= 65535
    ensures var p := Pack(h, ssid, password, host, port);
            && p[0] == 1 && ReadHeader(p) == h
            && p[7..7 + |ssid|] == ssid && p[7 + |ssid|..7 + |ssid| + |password|] == password
            && p[7 + |ssid| + |password|..7 + |ssid| + |password| + |host|] == host
            && p[7 + |ssid| + |password| + |host|] as int * 256 + p[8 + |ssid| + |password| + |host|] as int == port
  {
    PortBytes(port);
  }

  /** The parser cuts a packed plaintext at the seams where it was put together. */
  lemma ParsePacked(h: Header, ssid: seq<byte>, password: seq<byte>, host: seq<byte>, port: nat)
    requires port <= 65535
    requires h.ssidLen == |ssid| && h.passLen == |password| && h.hostLen == |host|
    requires HeaderError(h, 9 + |ssid| + |password| + |host|).None?
    ensures Parse(Pack(h, ssid, password, host, port)) == Finish(h, ssid, password, host, port)
  {
    PackSlices(h, ssid, password, host, port);
    CutPacked(h, ssid, password, host, port);
  }

  lemma CutPacked(h: Header, ssid: seq<byte>, password: seq<byte>, host: seq<byte>, port: nat)
    requires port <= 65535
    requires h.ssidLen == |ssid| && h.passLen == |password| && h.hostLen == |host|
    ensures Cut(h, Pack(h, ssid, password, host, port)) == Finish(h, ssid, password, host, port)
  {
    PackSlices(h, ssid, password, host, port);
  }

  /**
    The ESP reads back exactly what the server packed, for everything the packer accepts; the one
    exception is a NUL byte inside a text, which ends the C string early.
   */
  lemma PlaintextRoundTrip(ssid: seq<byte>, password: seq<byte>, host: seq<byte>, port: int, security: string,
                           channel: int)
    requires EncodePlain(ssid, password, host, port, security, channel).Some?
    ensures var r := Parse(EncodePlain(ssid, password, host, port, security, channel).value);
            r.Success? &&
            (r.value == Config(ssid, password, host, port, SecurityCode(security).value, channel)
             <==> 0 !in ssid && 0 !in password && 0 !in host)
  {
    var field := HostField(host).value;
    HostReadsBack(host);
    ParsePacked(Header(SecurityCode(security).value, channel, |ssid|, |password|, field.0, |field.1|),
                ssid, password, field.1, port);
    CStringWhole(ssid);
    CStringWhole(password);
  }

  lemma HostReadsBack(host: seq<byte>)
    requires HostField(host).Some?
    ensures var field := HostField(host).value;
            if field.0 == 1 then |field.1| == 4 && Ipv4Text(field.1) == host && 0 !in host
            else field.0 == 0 && field.1 == host && (CString(host) == host <==> 0 !in host)
  {
    if PackIpv4(host).Some? {
      Ipv4TextOfPacked(host);
      var o := PackIpv4(host).value;
      assert 0 !in Dec(o[0]) && 0 !in Dec(o[1]) && 0 !in Dec(o[2]) && 0 !in Dec(o[3]) by {
        assert !IsDigit(0);
      }
    } else {
      CStringWhole(host);
    }
  }

  lemma Ipv4TextLength(o: seq<byte>)
    requires |o| == 4
    ensures 7 <= |Ipv4Text(o)| <= 15
  {
    assert Pow10(3) == 10 * Pow10(2) && Pow10(2) == 10 * Pow10(1);
    DecLength(o[0], 3);
    DecLength(o[1], 3);
    DecLength(o[2], 3);
    DecLength(o[3], 3);
  }

  /** One letter in two cases, or the same character. */
  predicate SameLetter(a: char, b: char) {
    a == b || ('a' <= a <= 'z' && a as int == b as int + 32) || ('a' <= b <= 'z' && b as int == a as int + 32)
  }

  /** Names are compared in any case. */
  lemma {:induction false} CaseDoesNotMatter(s: string, t: string)
    requires |s| == |t| && forall k | 0 <= k < |s| :: SameLetter(s[k], t[k])
    ensures Upper(s) == Upper(t) && SecurityCode(s) == SecurityCode(t)
  {
    if s != "" {
      assert forall k | 0 <= k < |s[1..]| :: s[1..][k] == s[k + 1] && t[1..][k] == t[k + 1];
      CaseDoesNotMatter(s[1..], t[1..]);
    }
  }

  /**
    What the server packs: 1 to 32 bytes of SSID, up to 64 of password, 1 to 64 of host, whether or not it is an
    address, a port that is not 0, a channel up to 14 and one of four security names.
   */
  lemma EncodesExactly(ssid: seq<byte>, password: seq<byte>, host: seq<byte>, port: int, security: string,
                       channel: int)
    ensures EncodePlain(ssid, password, host, port, security, channel).Some? <==>
              && 1 <= |ssid| <= 32 && |password| <= 64 && 1 <= |host| <= 64
              && 0 <= channel <= 14 && 1 <= port <= 65535
              && Upper(security) in {"OPEN", "WPA2", "WPA3", "WPA2_WPA3"}
  {
    if PackIpv4(host).Some? {
      Ipv4TextOfPacked(host);
      Ipv4TextLength(PackIpv4(host).value);
    }
  }

  /** The numbers of the four names, as the ESP counts them. */
  lemma SecurityNumbers(name: string)
    requires Upper(name) == name
    ensures SecurityCode(name) == Some(0) <==> name == "OPEN"
    ensures SecurityCode(name) == Some(1) <==> name == "WPA2"
    ensures SecurityCode(name) == Some(2) <==> name == "WPA3"
    ensures SecurityCode(name) == Some(3) <==> name == "WPA2_WPA3"
  {
  }

  lemma {:induction false} UpperKeeps(s: string)
    requires forall c :: c in s ==> !('a' <= c <= 'z')
    ensures Upper(s) == s
  {
    if s != "" {
      assert s[0] in s && forall c :: c in s[1..] ==> c in s;
      UpperKeeps(s[1..]);
    }
  }
}
