/**
  Three-character firmware codes (server.py): base-62 numbers, allocated by probing from a hash of
  the filename. The table firmware_alias is the list of its rows; codes are compared byte by byte.
 */
module ImageCodes {
  import opened Wrappers
  import opened Bytes

  type Filename = seq<byte>
  type Code = seq<byte>

  const CODES := 238328

  datatype Row = Row(filename: Filename, code: Code)

  // ----- the codes

  type digit62 = x: int | 0 <= x < 62

  /** BASE62[i] */
  function Digit(i: digit62): byte { if i < 10 then 48 + i else if i < 36 then 55 + i else 61 + i }

  function DigitValue(b: byte): Option<digit62> {
    if 48 <= b <= 57 then Some(b - 48)
    else if 65 <= b <= 90 then Some(b - 55)
    else if 97 <= b <= 122 then Some(b - 61)
    else None
  }

  /** _base62_3 */
  function Base62(value: nat): (c: Code)
    ensures |c| == 3
  {
    var v := value % CODES;
    [Digit(v / 3844 % 62), Digit(v / 62 % 62), Digit(v % 62)]
  }

  /** The codes that ensure_image_code tries one after another. */
  function Probe(seed: nat): nat -> Code { (i: nat) => Base62(seed + i) }

  predicate IsCode(c: Code) { |c| == 3 && DigitValue(c[0]).Some? && DigitValue(c[1]).Some? && DigitValue(c[2]).Some? }

  function CodeValue(c: Code): (v: nat)
    requires IsCode(c)
    ensures v < CODES
  {
    DigitValue(c[0]).value * 3844 + DigitValue(c[1]).value * 62 + DigitValue(c[2]).value
  }

  lemma DigitsOf(v: nat)
    requires v < CODES
    ensures v / 3844 % 62 == v / 3844 && v / 3844 < 62
    ensures v / 3844 * 3844 + v / 62 % 62 * 62 + v % 62 == v
  {
    assert v / 62 / 62 == v / 3844;
  }

  lemma DigitsJoined(a: digit62, b: digit62, c: digit62)
    ensures var v := a * 3844 + b * 62 + c; v < CODES && v / 3844 == a && v / 62 % 62 == b && v % 62 == c
  {
    var v := a * 3844 + b * 62 + c;
    assert v == (a * 62 + b) * 62 + c;
    assert v / 62 == a * 62 + b;
  }

  lemma DigitOfValue(i: digit62, b: byte)
    ensures DigitValue(Digit(i)) == Some(i)
    ensures DigitValue(b).Some? ==> Digit(DigitValue(b).value) == b
  {
  }

  lemma CodeValueOfBase62(v: nat)
    ensures IsCode(Base62(v)) && CodeValue(Base62(v)) == v % CODES
  {
    var w := v % CODES;
    DigitsOf(w);
    DigitOfValue(w / 3844 % 62, 0);
    DigitOfValue(w / 62 % 62, 0);
    DigitOfValue(w % 62, 0);
  }

  lemma Base62OfCodeValue(c: Code)
    requires IsCode(c)
    ensures Base62(CodeValue(c)) == c
  {
    DigitsJoined(DigitValue(c[0]).value, DigitValue(c[1]).value, DigitValue(c[2]).value);
    DigitOfValue(0, c[0]);
    DigitOfValue(0, c[1]);
    DigitOfValue(0, c[2]);
    assert c == [c[0], c[1], c[2]];
  }

  /** Numbers below 62^3 and codes are in one-to-one correspondence. */
  lemma Base62Bijective(v: nat, c: Code)
    ensures IsCode(Base62(v)) && CodeValue(Base62(v)) == v % CODES
    ensures IsCode(c) ==> Base62(CodeValue(c)) == c
  {
    CodeValueOfBase62(v);
    if IsCode(c) {
      Base62OfCodeValue(c);
    }
  }

  lemma ModStep(a: nat, d: nat)
    requires 0 < d < CODES
    ensures (a + d) % CODES != a % CODES
  {
    var q, r := a / CODES, a % CODES;
    if r + d < CODES {
      assert a + d == q * CODES + (r + d);
    } else {
      assert a + d == (q + 1) * CODES + (r + d - CODES);
    }
  }

  /** 62^3 probes in a row never repeat. */
  lemma ProbesDiffer(seed: nat, i: nat, j: nat)
    requires i < j < CODES
    ensures Probe(seed)(i) != Probe(seed)(j)
  {
    CodeValueOfBase62(seed + i);
    CodeValueOfBase62(seed + j);
    ModStep(seed + i, j - i);
  }

  // ----- the table

  ghost predicate Unique(rows: seq<Row>) {
    && (forall i, j | 0 <= i < j < |rows| :: rows[i].filename != rows[j].filename)
    && (forall i, j | 0 <= i < j < |rows| :: rows[i].code != rows[j].code)
  }

  /** SELECT code ... WHERE filename = ? */
  function CodeFor(rows: seq<Row>, f: Filename): Option<Code> {
    if rows == [] then None else if rows[0].filename == f then Some(rows[0].code) else CodeFor(rows[1..], f)
  }

  function Taken(rows: seq<Row>, c: Code): bool { exists i | 0 <= i < |rows| :: rows[i].code == c }

  /** resolve_image_code: the row of the join, by its filename. */
  function Resolve(rows: seq<Row>, images: set<Filename>, c: Code): Option<Filename> {
    if rows == [] then None
    else if rows[0].code == c && rows[0].filename in images then Some(rows[0].filename)
    else Resolve(rows[1..], images, c)
  }

  /** The first free code from probe k on. */
  function FirstFree(rows: seq<Row>, probe: nat -> Code, k: nat): Option<Code>
    decreases CODES - k
  {
    if k >= CODES then None
    else if Taken(rows, probe(k)) then FirstFree(rows, probe, k + 1)
    else Some(probe(k))
  }

  /** ensure_image_code: the rows after it and its answer; None stands for RuntimeError. */
  function Ensure(rows: seq<Row>, f: Filename, seed: nat): (seq<Row>, Option<Code>) {
    match CodeFor(rows, f)
    case Some(c) => (rows, Some(c))
    case None =>
      match FirstFree(rows, Probe(seed), 0)
      case Some(c) => (rows + [Row(f, c)], Some(c))
      case None => (rows, None)
  }

  // ----- pigeonhole

  function Codes(rows: seq<Row>): (s: set<Code>)
    ensures |s| <= |rows|
    ensures forall i | 0 <= i < |rows| :: rows[i].code in s
  {
    if rows == [] then {} else Codes(rows[..|rows| - 1]) + {rows[|rows| - 1].code}
  }

  function Probed(probe: nat -> Code, k: nat): set<Code> {
    if k == 0 then {} else Probed(probe, k - 1) + {probe(k - 1)}
  }

  ghost predicate Injective(probe: nat -> Code) { forall i, j | 0 <= i < j < CODES :: probe(i) != probe(j) }

  lemma {:induction false} ProbedMember(probe: nat -> Code, k: nat, c: Code)
    requires c in Probed(probe, k)
    ensures exists i | 0 <= i < k :: probe(i) == c
  {
    if c != probe(k - 1) {
      ProbedMember(probe, k - 1, c);
    }
  }

  lemma {:induction false} ProbedSize(probe: nat -> Code, k: nat)
    requires k <= CODES && Injective(probe)
    ensures |Probed(probe, k)| == k
  {
    if k > 0 {
      ProbedSize(probe, k - 1);
      if probe(k - 1) in Probed(probe, k - 1) {
        ProbedMember(probe, k - 1, probe(k - 1));
      }
    }
  }

  lemma SubsetSize<T>(a: set<T>, b: set<T>)
    requires a <= b
    ensures |a| <= |b|
  {
    assert b == a + (b - a);
  }

  lemma {:induction false} ExhaustedMeansTaken(rows: seq<Row>, probe: nat -> Code, k: nat)
    requires FirstFree(rows, probe, k).None?
    ensures forall i | k <= i < CODES :: Taken(rows, probe(i))
    decreases CODES - k
  {
    if k < CODES {
      ExhaustedMeansTaken(rows, probe, k + 1);
    }
  }

  lemma ProbedAreTaken(rows: seq<Row>, probe: nat -> Code, c: Code)
    requires FirstFree(rows, probe, 0).None? && c in Probed(probe, CODES)
    ensures c in Codes(rows)
  {
    ProbedMember(probe, CODES, c);
    var i :| 0 <= i < CODES && probe(i) == c;
    ExhaustedMeansTaken(rows, probe, 0);
    assert Taken(rows, probe(i));
  }

  lemma FreeExists(rows: seq<Row>, probe: nat -> Code)
    requires |rows| < CODES && Injective(probe)
    ensures FirstFree(rows, probe, 0).Some?
  {
    ProbedSize(probe, CODES);
    if FirstFree(rows, probe, 0).None? {
      forall c | c in Probed(probe, CODES)
        ensures c in Codes(rows)
      {
        ProbedAreTaken(rows, probe, c);
      }
      SubsetSize(Probed(probe, CODES), Codes(rows));
    }
  }

  /** While fewer than 62^3 rows exist, probing finds a free code. */
  lemma AlwaysFindsFreeCode(rows: seq<Row>, f: Filename, seed: nat)
    requires |rows| < CODES
    ensures Ensure(rows, f, seed).1.Some?
  {
    forall i, j | 0 <= i < j < CODES
      ensures Probe(seed)(i) != Probe(seed)(j)
    {
      ProbesDiffer(seed, i, j);
    }
    FreeExists(rows, Probe(seed));
  }

  lemma {:induction false} FreeIsFirst(rows: seq<Row>, probe: nat -> Code, k: nat) returns (n: nat)
    requires FirstFree(rows, probe, k).Some?
    ensures k <= n < CODES && FirstFree(rows, probe, k) == Some(probe(n)) && !Taken(rows, probe(n))
    ensures forall i | k <= i < n :: Taken(rows, probe(i))
    decreases CODES - k
  {
    if Taken(rows, probe(k)) { n := FreeIsFirst(rows, probe, k + 1); } else { n := k; }
  }

  /**
    A new file gets the code of the first number from its seed on, counted round modulo 62^3, whose code is free:
    its own seed's code if no other file has it.
   */
  lemma NewCodeIsNextFree(rows: seq<Row>, f: Filename, seed: nat) returns (n: nat)
    requires CodeFor(rows, f) == None && |rows| < 238328
    ensures n < 238328 && Ensure(rows, f, seed) == (rows + [Row(f, Base62(seed + n))], Some(Base62(seed + n)))
    ensures !Taken(rows, Base62(seed + n)) && forall m | seed <= m < seed + n :: Taken(rows, Base62(m))
  {
    AlwaysFindsFreeCode(rows, f, seed);
    n := FreeIsFirst(rows, Probe(seed), 0);
    forall m | seed <= m < seed + n
      ensures Taken(rows, Base62(m))
    {
      assert Taken(rows, Probe(seed)(m - seed));
    }
  }

  // ----- over whole runs

  datatype Event =
    | Allocate(filename: Filename, seed: nat)
    | ClearImages
    | ClearTests(filenames: set<Filename>)

  function Without(rows: seq<Row>, gone: set<Filename>): seq<Row> {
    if rows == [] then []
    else (if rows[0].filename in gone then [] else [rows[0]]) + Without(rows[1..], gone)
  }

  function Step(rows: seq<Row>, e: Event): seq<Row> {
    match e
    case Allocate(f, seed) => Ensure(rows, f, seed).0
    case ClearImages => []
    case ClearTests(gone) => Without(rows, gone)
  }

  function Run(rows: seq<Row>, evs: seq<Event>): seq<Row>
    decreases |evs|
  {
    if evs == [] then rows else Run(Step(rows, evs[0]), evs[1..])
  }

  lemma {:induction false} FreeIsFree(rows: seq<Row>, probe: nat -> Code, k: nat)
    requires FirstFree(rows, probe, k).Some?
    ensures !Taken(rows, FirstFree(rows, probe, k).value)
    decreases CODES - k
  {
    if k < CODES && Taken(rows, probe(k)) {
      FreeIsFree(rows, probe, k + 1);
    }
  }

  lemma {:induction false} NoCodeMeansNoRow(rows: seq<Row>, f: Filename)
    requires CodeFor(rows, f).None?
    ensures forall i | 0 <= i < |rows| :: rows[i].filename != f
  {
    if rows != [] {
      NoCodeMeansNoRow(rows[1..], f);
      assert forall i | 1 <= i < |rows| :: rows[i] == rows[1..][i - 1];
    }
  }

  lemma EnsureKeepsUnique(rows: seq<Row>, f: Filename, seed: nat)
    requires Unique(rows)
    ensures Unique(Ensure(rows, f, seed).0)
  {
    if CodeFor(rows, f).None? && FirstFree(rows, Probe(seed), 0).Some? {
      NoCodeMeansNoRow(rows, f);
      FreeIsFree(rows, Probe(seed), 0);
    }
  }

  lemma {:induction false} WithoutRows(rows: seq<Row>, gone: set<Filename>)
    ensures forall r :: r in Without(rows, gone) <==> r in rows && r.filename !in gone
  {
    if rows != [] {
      WithoutRows(rows[1..], gone);
      assert rows == [rows[0]] + rows[1..];
    }
  }

  lemma {:induction false} WithoutKeepsUnique(rows: seq<Row>, gone: set<Filename>)
    requires Unique(rows)
    ensures Unique(Without(rows, gone))
  {
    if rows != [] {
      var rest := rows[1..];
      assert forall i | 0 <= i < |rest| :: rest[i] == rows[i + 1];
      WithoutKeepsUnique(rest, gone);
      WithoutRows(rest, gone);
      assert forall r :: r in rest ==> r.filename != rows[0].filename && r.code != rows[0].code;
      assert forall i | 0 <= i < |Without(rest, gone)| :: Without(rest, gone)[i] in Without(rest, gone);
    }
  }

  lemma {:induction false} RunKeepsUnique(rows: seq<Row>, evs: seq<Event>)
    requires Unique(rows)
    ensures Unique(Run(rows, evs))
    decreases |evs|
  {
    if evs != [] {
      match evs[0] {
        case Allocate(f, seed) => EnsureKeepsUnique(rows, f, seed);
        case ClearImages =>
        case ClearTests(gone) => WithoutKeepsUnique(rows, gone);
      }
      RunKeepsUnique(Step(rows, evs[0]), evs[1..]);
    }
  }

  predicate Spares(e: Event, f: Filename) { e.Allocate? || (e.ClearTests? && f !in e.filenames) }

  lemma StepKeepsRow(rows: seq<Row>, e: Event, r: Row)
    requires r in rows && Spares(e, r.filename)
    ensures r in Step(rows, e)
  {
    if e.ClearTests? {
      WithoutRows(rows, e.filenames);
    }
  }

  /** Codes stay distinct, and a file keeps its code until maintenance removes its row. */
  lemma {:induction false} CodesAreStable(rows: seq<Row>, evs: seq<Event>, r: Row)
    requires Unique(rows) && r in rows && forall e :: e in evs ==> Spares(e, r.filename)
    ensures Unique(Run(rows, evs)) && r in Run(rows, evs)
    decreases |evs|
  {
    RunKeepsUnique(rows, evs);
    if evs != [] {
      StepKeepsRow(rows, evs[0], r);
      RunKeepsUnique(rows, evs[..1]);
      assert Run(rows, evs[..1]) == Step(rows, evs[0]) by { assert evs[..1][1..] == []; }
      CodesAreStable(Step(rows, evs[0]), evs[1..], r);
    }
  }

  lemma UniqueTail(rows: seq<Row>)
    requires Unique(rows) && rows != []
    ensures Unique(rows[1..])
    ensures forall i | 0 <= i < |rows[1..]| :: rows[1..][i].code != rows[0].code
  {
    assert forall i | 0 <= i < |rows[1..]| :: rows[1..][i] == rows[i + 1];
  }

  lemma {:induction false} ResolveFinds(rows: seq<Row>, images: set<Filename>, r: Row)
    requires Unique(rows) && r in rows
    ensures Resolve(rows, images, r.code) == if r.filename in images then Some(r.filename) else None
  {
    UniqueTail(rows);
    assert rows == [rows[0]] + rows[1..];
    if rows[0] == r {
      ResolveNothing(rows[1..], images, r.code);
    } else {
      assert r in rows[1..];
      ResolveFinds(rows[1..], images, r);
    }
  }

  lemma {:induction false} ResolveNothing(rows: seq<Row>, images: set<Filename>, c: Code)
    requires forall i | 0 <= i < |rows| :: rows[i].code != c
    ensures Resolve(rows, images, c) == None
  {
    if rows != [] {
      ResolveNothing(rows[1..], images, c);
    }
  }

  /** After any run, an allocated code leads back to its own file as long as the file's image row exists. */
  lemma AllocatedCodeResolves(evs: seq<Event>, images: set<Filename>, f: Filename, seed: nat)
    requires |Run([], evs)| < CODES
    ensures var (rows, code) := Ensure(Run([], evs), f, seed);
            code.Some? && Resolve(rows, images, code.value) == if f in images then Some(f) else None
  {
    var rows := Run([], evs);
    RunKeepsUnique([], evs);
    EnsureKeepsUnique(rows, f, seed);
    AlwaysFindsFreeCode(rows, f, seed);
    var (after, code) := Ensure(rows, f, seed);
    if CodeFor(rows, f).Some? {
      CodeForIsRow(rows, f);
    }
    ResolveFinds(after, images, Row(f, code.value));
  }

  lemma {:induction false} CodeForIsRow(rows: seq<Row>, f: Filename)
    requires CodeFor(rows, f).Some?
    ensures Row(f, CodeFor(rows, f).value) in rows
  {
    if rows[0].filename != f {
      CodeForIsRow(rows[1..], f);
    }
  }

  // ----- the probing loop as it runs

  class AliasTable {
    var rows: seq<Row>

    constructor ()
      ensures rows == []
    {
      rows := [];
    }

    method Exists(c: Code) returns (found: bool)
      ensures found == Taken(rows, c)
    {
      for i := 0 to |rows|
        invariant forall j | 0 <= j < i :: rows[j].code != c
      {
        if rows[i].code == c { return true; }
      }
      return false;
    }

    method EnsureImageCode(f: Filename, seed: nat) returns (code: Option<Code>)
      modifies this
      ensures (rows, code) == Ensure(old(rows), f, seed)
    {
      code := CodeFor(rows, f);
      if code.Some? { return; }
      for offset := 0 to CODES
        invariant rows == old(rows)
        invariant FirstFree(rows, Probe(seed), offset) == FirstFree(rows, Probe(seed), 0)
      {
        var c := Base62(seed + offset);
        assert c == Probe(seed)(offset);
        var exists_ := Exists(c);
        if !exists_ {
          rows := rows + [Row(f, c)];
          return Some(c);
        }
      }
      return None;
    }
  }
}
