/**
  Download and installation of an image on the ESP (ota_service.c). The HTTP client and the flash
  driver decide which of their calls succeed; SHA-256 is any function.
 */
module Install {
  import opened Wrappers
  import opened Bytes
  import DeviceIds

  /** One call of esp_http_client_read; no bytes means that nothing has arrived yet. */
  datatype Read = ReadError | Received(data: seq<byte>)

  /** Everything that the function meets, in the order in which it meets it. */
  datatype World = World(
    connected: bool, status: int, header: seq<byte>, contentLength: int,
    targetUsable: bool, targetSize: nat, beginOk: bool, input: seq<Read>,
    blockOk: seq<byte> -> bool, writeOk: nat -> bool, endOk: bool, describeOk: bool, bootOk: bool)

  /** Bytes of the first k reads. */
  function Body(input: seq<Read>, k: nat): seq<byte>
    requires k <= |input|
  {
    if k == 0 then [] else Body(input, k - 1) + (if input[k - 1].Received? then input[k - 1].data else [])
  }

  /** The first block among the reads, the one whose image header is checked. */
  function FirstBlock(input: seq<Read>, k: nat): (b: seq<byte>)
    requires k <= |input|
  {
    if k == 0 then []
    else if FirstBlock(input, k - 1) != [] then FirstBlock(input, k - 1)
    else if input[k - 1].Received? then input[k - 1].data else []
  }

  function HexValue(c: byte): int {
    if 48 <= c <= 57 then c - 48 else if 65 <= c <= 70 then c - 55 else if 97 <= c <= 102 then c - 87 else -1
  }

  function HexBytes(s: seq<byte>): Option<seq<byte>>
    requires |s| % 2 == 0
  {
    if s == [] then Some([])
    else if HexValue(s[0]) < 0 || HexValue(s[1]) < 0 then None
    else
      var rest :- HexBytes(s[2..]);
      Some([HexValue(s[0]) * 16 + HexValue(s[1])] + rest)
  }

  /** The header is copied into a buffer of 64 characters, then parse_sha256_hex reads it. */
  function ExpectedSha(header: seq<byte>): Option<seq<byte>> {
    var text := if |header| > 64 then header[..64] else header;
    if |text| != 64 then None else HexBytes(text)
  }

  // ----- the header is the hash as hexadecimal text

  lemma DigitReads(c: byte, n: nat)
    requires n < 16
    ensures HexValue(c) == n <==> DeviceIds.LowerByte(c) == DeviceIds.HexDigit(n)
  {
  }

  /** Two digits, the higher one first. */
  lemma PairReads(c: byte, e: byte, n: byte)
    ensures HexValue(c) >= 0 && HexValue(e) >= 0 && HexValue(c) * 16 + HexValue(e) == n <==>
              DeviceIds.LowerByte(c) == DeviceIds.HexDigit(n / 16)
              && DeviceIds.LowerByte(e) == DeviceIds.HexDigit(n % 16)
  {
    DigitReads(c, n / 16);
    DigitReads(e, n % 16);
  }

  lemma PairsApart(a: seq<byte>, x: seq<byte>, b: seq<byte>, y: seq<byte>)
    requires |a| == |b|
    ensures a + x == b + y <==> a == b && x == y
  {
    if a + x == b + y {
      assert a == (a + x)[..|a|] && b == (b + y)[..|b|] && x == (a + x)[|a|..] && y == (b + y)[|b|..];
    }
  }

  /** The text reads as d exactly if it spells d in digits of either case. */
  lemma {:induction false} HexReadsExactly(s: seq<byte>, d: seq<byte>)
    requires |s| % 2 == 0
    ensures HexBytes(s) == Some(d) <==> DeviceIds.Lower(s) == DeviceIds.Hex(d)
  {
    if s == [] || d == [] {
      assert |DeviceIds.Lower(s)| == |s| && |DeviceIds.Hex(d)| == 2 * |d|;
    } else {
      HexReadsExactly(s[2..], d[1..]);
      assert s == [s[0], s[1]] + s[2..];
      DeviceIds.LowerPair(s[0], s[1], s[2..]);
      PairReads(s[0], s[1], d[0]);
      PairsApart([DeviceIds.LowerByte(s[0]), DeviceIds.LowerByte(s[1])], DeviceIds.Lower(s[2..]),
                 [DeviceIds.HexDigit(d[0] / 16), DeviceIds.HexDigit(d[0] % 16)], DeviceIds.Hex(d[1..]));
      FirstByte(s, d);
    }
  }

  lemma FirstByte(s: seq<byte>, d: seq<byte>)
    requires |s| % 2 == 0 && s != [] && d != []
    ensures HexBytes(s) == Some(d) <==>
              HexValue(s[0]) >= 0 && HexValue(s[1]) >= 0 && HexValue(s[0]) * 16 + HexValue(s[1]) == d[0]
              && HexBytes(s[2..]) == Some(d[1..])
  {
    assert d == [d[0]] + d[1..];
    if HexBytes(s) == Some(d) {
      var rest := HexBytes(s[2..]).value;
      assert d[1..] == rest;
    }
  }

  /** The header reads as d exactly if its first 64 characters spell the 32 bytes d, in either case. */
  lemma HeaderReadsExactly(header: seq<byte>, d: seq<byte>)
    ensures ExpectedSha(header) == Some(d) <==>
              |d| == 32 && |header| >= 64 && DeviceIds.Lower(header[..64]) == DeviceIds.Hex(d)
    ensures |d| == 32 ==> ExpectedSha(DeviceIds.Hex(d)) == Some(d)
  {
    if |header| >= 64 {
      assert header[..64] == if |header| > 64 then header[..64] else header;
      HexReadsExactly(header[..64], d);
    }
    DeviceIds.HexIsHex(d);
    DeviceIds.LowerKeepsId(DeviceIds.Hex(d));
    HexReadsExactly(DeviceIds.Hex(d), d);
  }

  // ----- when an image passes

  predicate Answered(w: World) {
    && w.connected && w.status == 200 && ExpectedSha(w.header).Some? && w.targetUsable
    && (w.contentLength > 0 ==> w.contentLength <= w.targetSize)
  }

  /** The k-th read, in a state of the loop where it is the next one. */
  predicate TakesBlock(w: World, dryRun: bool, k: nat)
    requires k < |w.input|
  {
    && w.input[k].Received?
    && (w.input[k].data != [] ==>
          && (FirstBlock(w.input, k) == [] ==> w.blockOk(w.input[k].data))
          && (dryRun || w.writeOk(k)))
  }

  predicate Streams(w: World, dryRun: bool) { forall k | 0 <= k < |w.input| :: TakesBlock(w, dryRun, k) }

  predicate Verified(w: World, sha: seq<byte> -> seq<byte>) {
    var body := Body(w.input, |w.input|);
    (w.contentLength > 0 ==> |body| == w.contentLength) && ExpectedSha(w.header) == Some(sha(body))
  }

  /** The download is complete and authentic. */
  predicate Passes(w: World, dryRun: bool, sha: seq<byte> -> seq<byte>) {
    Answered(w) && (dryRun || w.beginOk) && Streams(w, dryRun) && Verified(w, sha)
  }

  // ----- the flash driver and the function

  class OtaFlash {
    var written: seq<byte>
    var open: bool
    var begun: nat
    var ended: nat
    var aborted: nat
    var bootSwitched: bool

    constructor ()
      ensures written == [] && !open && begun == ended == aborted == 0 && !bootSwitched
    {
      written, open, bootSwitched := [], false, false;
      begun, ended, aborted := 0, 0, 0;
    }

    method Begin(ok: bool)
      requires !open
      modifies this`open, this`begun
      ensures open == ok && begun == old(begun) + if ok then 1 else 0
    {
      if ok {
        open, begun := true, begun + 1;
      }
    }

    method Write(data: seq<byte>, ok: bool)
      requires open
      modifies this`written
      ensures written == if ok then old(written) + data else old(written)
    {
      if ok {
        written := written + data;
      }
    }

    /** esp_ota_end releases the handle whether or not the image is valid. */
    method End()
      requires open
      modifies this`open, this`ended
      ensures !open && ended == old(ended) + 1
    {
      open, ended := false, ended + 1;
    }

    method Abort()
      requires open
      modifies this`open, this`aborted
      ensures !open && aborted == old(aborted) + 1
    {
      open, aborted := false, aborted + 1;
    }

    method SetBootPartition(ok: bool)
      modifies this`bootSwitched
      ensures bootSwitched == (old(bootSwitched) || ok)
    {
      if ok {
        bootSwitched := true;
      }
    }
  }

  /** One arrived block: header check if it is the first, hash, write. */
  method TakeBlock(flash: OtaFlash, w: World, dryRun: bool, k: nat, firstBlock: bool, hashed: seq<byte>)
    returns (ok: bool, hashedNow: seq<byte>)
    requires k < |w.input| && w.input[k].Received? && w.input[k].data != []
    requires dryRun || flash.open
    requires firstBlock <==> FirstBlock(w.input, k) == []
    modifies flash`written
    ensures ok <==> TakesBlock(w, dryRun, k)
    ensures ok ==> hashedNow == hashed + w.input[k].data
    ensures flash.written == if ok && !dryRun then old(flash.written) + w.input[k].data else old(flash.written)
  {
    var data := w.input[k].data;
    hashedNow := hashed;
    if firstBlock && !w.blockOk(data) { return false, hashed; }
    hashedNow := hashed + data;
    if !dryRun {
      flash.Write(data, w.writeOk(k));
      return w.writeOk(k), hashedNow;
    }
    ok := true;
  }

  /** The read, hash, write loop; `hashed` is what the SHA-256 context has been given. */
  method StreamBody(flash: OtaFlash, w: World, dryRun: bool) returns (ok: bool, hashed: seq<byte>, totalRead: nat)
    requires dryRun || flash.open
    modifies flash`written
    ensures ok <==> Streams(w, dryRun)
    ensures ok ==> hashed == Body(w.input, |w.input|) && totalRead == |hashed|
    ensures ok ==> flash.written == if dryRun then old(flash.written) else old(flash.written) + hashed
    ensures dryRun ==> flash.written == old(flash.written)
  {
    hashed, totalRead := [], 0;
    var firstBlock := true;
    for k := 0 to |w.input|
      invariant forall j | 0 <= j < k :: TakesBlock(w, dryRun, j)
      invariant hashed == Body(w.input, k) && totalRead == |hashed|
      invariant firstBlock <==> FirstBlock(w.input, k) == []
      invariant flash.written == if dryRun then old(flash.written) else old(flash.written) + hashed
    {
      if w.input[k].ReadError? { assert !TakesBlock(w, dryRun, k); return false, hashed, totalRead; }
      if w.input[k].data != [] {
        var taken, hashedNow := TakeBlock(flash, w, dryRun, k, firstBlock, hashed);
        if !taken { return false, hashed, totalRead; }
        firstBlock, hashed := false, hashedNow;
        totalRead := totalRead + |w.input[k].data|;
      }
    }
    ok := true;
  }

  /** The part of download_and_install between the headers and the cleanup. */
  method InstallImage(flash: OtaFlash, w: World, dryRun: bool, sha: seq<byte> -> seq<byte>) returns (ok: bool)
    requires Answered(w) && (if dryRun then !flash.open else flash.open && flash.written == [])
    requires !flash.bootSwitched
    modifies flash`written, flash`open, flash`ended, flash`bootSwitched
    ensures ok <==> Streams(w, dryRun) && Verified(w, sha) && (dryRun || (w.endOk && w.describeOk && w.bootOk))
    ensures flash.bootSwitched <==> ok && !dryRun
    ensures flash.bootSwitched ==> flash.written == Body(w.input, |w.input|)
    ensures dryRun ==> flash.written == old(flash.written)
    ensures flash.ended + (if flash.open then 1 else 0) == old(flash.ended) + (if old(flash.open) then 1 else 0)
    ensures dryRun ==> !flash.open
  {
    var streamed, hashed, totalRead := StreamBody(flash, w, dryRun);
    if !streamed { return false; }
    if w.contentLength > 0 && totalRead != w.contentLength { return false; }
    if Some(sha(hashed)) != ExpectedSha(w.header) { return false; }
    if dryRun { return true; }
    flash.End();
    if !w.endOk || !w.describeOk { return false; }
    flash.SetBootPartition(w.bootOk);
    ok := w.bootOk;
  }

  /**
    download_and_install, for every way in which the body is split into blocks. The boot partition is
    switched exactly when the download is complete, authentic and accepted by the driver; then the
    flash holds the received bytes in order. Every handle that was begun is ended or aborted once,
    and a dry run touches nothing.
   */
  method DownloadAndInstall(flash: OtaFlash, w: World, dryRun: bool, sha: seq<byte> -> seq<byte>) returns (ok: bool)
    requires !flash.open && flash.written == [] && flash.begun == flash.ended == flash.aborted == 0
             && !flash.bootSwitched
    modifies flash
    ensures flash.bootSwitched <==> !dryRun && Passes(w, dryRun, sha) && w.endOk && w.describeOk && w.bootOk
    ensures flash.bootSwitched ==>
              && flash.written == Body(w.input, |w.input|)
              && |w.header| >= 64 && DeviceIds.Lower(w.header[..64]) == DeviceIds.Hex(sha(flash.written))
              && (w.contentLength > 0 ==> |flash.written| == w.contentLength)
    ensures ok <==> flash.bootSwitched || (dryRun && Passes(w, dryRun, sha))
    ensures !flash.open && flash.begun == flash.ended + flash.aborted <= 1
    ensures dryRun ==> flash.begun == 0 && flash.written == []
  {
    if !w.connected || w.status != 200 { return false; }
    if w.header == [] || ExpectedSha(w.header).None? { return false; }
    if !w.targetUsable { return false; }
    if w.contentLength > 0 && w.contentLength > w.targetSize { return false; }
    if !dryRun {
      flash.Begin(w.beginOk);
      if !w.beginOk { return false; }
    }
    ok := InstallImage(flash, w, dryRun, sha);
    HeaderReadsExactly(w.header, sha(Body(w.input, |w.input|)));
    if flash.open {
      flash.Abort();
    }
  }

  // ----- what the loop's specification means

  /** Splitting a body differently does not change what is hashed and written. */
  lemma {:induction false} BodyIsConcatenation(input: seq<Read>, more: seq<Read>)
    ensures Body(input + more, |input| + |more|) == Body(input, |input|) + Body(more, |more|)
    decreases |more|
  {
    if more == [] {
      assert input + more == input;
    } else {
      var init, k := more[..|more| - 1], |more| - 1;
      BodyIsConcatenation(input, init);
      BodyOfPrefix(input + more, input + init);
      BodyOfPrefix(more, init);
      assert (input + more)[|input| + k] == more[k];
    }
  }

  lemma {:induction false} BodyOfPrefix(input: seq<Read>, prefix: seq<Read>)
    requires prefix <= input
    ensures Body(input, |prefix|) == Body(prefix, |prefix|)
    decreases |prefix|
  {
    if prefix != [] {
      var init := prefix[..|prefix| - 1];
      BodyOfPrefix(input, init);
      BodyOfPrefix(prefix, init);
    }
  }

  /** The image header is checked on the first bytes that arrive, so only an empty body escapes the check. */
  lemma {:induction false} FirstBlockIsChecked(w: World, dryRun: bool, k: nat)
    requires Streams(w, dryRun) && k <= |w.input|
    ensures FirstBlock(w.input, k) <= Body(w.input, k)
    ensures FirstBlock(w.input, k) == [] <==> Body(w.input, k) == []
    ensures FirstBlock(w.input, k) != [] ==> w.blockOk(FirstBlock(w.input, k))
  {
    if k > 0 {
      FirstBlockIsChecked(w, dryRun, k - 1);
      assert TakesBlock(w, dryRun, k - 1);
    }
  }

  lemma {:induction false} FirstBlockStays(input: seq<Read>, j: nat, k: nat)
    requires j <= k <= |input| && FirstBlock(input, j) != []
    ensures FirstBlock(input, k) == FirstBlock(input, j)
    decreases k
  {
    if j < k { FirstBlockStays(input, j, k - 1); }
  }

  lemma LateBlocksPass(w: World, dryRun: bool, k: nat)
    requires k < |w.input| && w.input[k].Received? && (w.input[k].data != [] ==> dryRun || w.writeOk(k))
    requires var first := FirstBlock(w.input, |w.input|); first != [] ==> w.blockOk(first)
    ensures TakesBlock(w, dryRun, k)
  {
    if w.input[k].data != [] && FirstBlock(w.input, k) == [] {
      FirstBlockStays(w.input, k + 1, |w.input|);
    }
  }

  predicate Reads(w: World, dryRun: bool) {
    forall k | 0 <= k < |w.input| :: w.input[k].Received? && (w.input[k].data != [] ==> dryRun || w.writeOk(k))
  }

  lemma StreamsExactly(w: World, dryRun: bool)
    ensures var first := FirstBlock(w.input, |w.input|);
            Streams(w, dryRun) <==> Reads(w, dryRun) && (first != [] ==> w.blockOk(first))
  {
    var first := FirstBlock(w.input, |w.input|);
    if Streams(w, dryRun) {
      FirstBlockIsChecked(w, dryRun, |w.input|);
      forall k | 0 <= k < |w.input|
        ensures w.input[k].Received? && (w.input[k].data != [] ==> dryRun || w.writeOk(k))
      {
        assert TakesBlock(w, dryRun, k);
      }
    }
    if Reads(w, dryRun) && (first != [] ==> w.blockOk(first)) {
      forall k | 0 <= k < |w.input|
        ensures TakesBlock(w, dryRun, k)
      {
        LateBlocksPass(w, dryRun, k);
      }
    }
  }

  /**
    When a download passes, said of the answer and the bytes alone: status 200 for a usable target that holds the
    announced length, no read error and no failed write, a first block that looks like an image, a body of the
    announced length, and a header that starts with the body's hash as hexadecimal text in either case.
   */
  lemma PassesExactly(w: World, dryRun: bool, sha: seq<byte> -> seq<byte>)
    ensures var body, first := Body(w.input, |w.input|), FirstBlock(w.input, |w.input|);
            Passes(w, dryRun, sha) <==>
              && w.connected && w.status == 200 && w.targetUsable && (dryRun || w.beginOk)
              && (w.contentLength > 0 ==> |body| == w.contentLength <= w.targetSize)
              && (forall k | 0 <= k < |w.input| ::
                    w.input[k].Received? && (w.input[k].data != [] ==> dryRun || w.writeOk(k)))
              && (first != [] ==> w.blockOk(first))
              && |sha(body)| == 32 && |w.header| >= 64
              && DeviceIds.Lower(w.header[..64]) == DeviceIds.Hex(sha(body))
  {
    HeaderReadsExactly(w.header, sha(Body(w.input, |w.input|)));
    StreamsExactly(w, dryRun);
  }
}
