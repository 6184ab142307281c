/** Firmware revisions (server.py): scans of the image directory, and the maintenance that clears them. */
module Revisions {
  import opened Wrappers
  import opened Bytes

  type Filename = seq<byte>
  type Sha = seq<byte>

  datatype Image = Image(sha: Sha, revision: nat)
  datatype Entry = Entry(filename: Filename, sha: Sha, revision: nat)

  /** The tables firmware_images and firmware_history. */
  datatype Catalogue = Catalogue(images: map<Filename, Image>, history: seq<Entry>)

  /** The transaction of scan_firmware_images for one file. */
  function ScanFile(c: Catalogue, f: Filename, sha: Sha): Catalogue {
    if f !in c.images then Catalogue(c.images[f := Image(sha, 1)], c.history + [Entry(f, sha, 1)])
    else if c.images[f].sha != sha then
      var revision := c.images[f].revision + 1;
      Catalogue(c.images[f := Image(sha, revision)], c.history + [Entry(f, sha, revision)])
    else c
  }

  /** One scan over the directory listing. */
  function ScanAll(c: Catalogue, files: seq<(Filename, Sha)>): Catalogue
    decreases |files|
  {
    if files == [] then c
    else ScanFile(ScanAll(c, files[..|files| - 1]), files[|files| - 1].0, files[|files| - 1].1)
  }

  /** LIKE 'ota-e2e-%' */
  predicate IsTestFile(f: Filename) { Ascii("ota-e2e-") <= f }

  function Kept(h: seq<Entry>): seq<Entry> {
    if h == [] then []
    else Kept(h[..|h| - 1]) + (if IsTestFile(h[|h| - 1].filename) then [] else [h[|h| - 1]])
  }

  datatype Event = Scan(files: seq<(Filename, Sha)>) | ClearImages | ClearTests

  function Step(c: Catalogue, e: Event): Catalogue {
    match e
    case Scan(files) => ScanAll(c, files)
    case ClearImages => Catalogue(map[], [])
    case ClearTests =>
      Catalogue(map f | f in c.images && !IsTestFile(f) :: c.images[f], Kept(c.history))
  }

  function Run(evs: seq<Event>): Catalogue {
    if evs == [] then Catalogue(map[], []) else Step(Run(evs[..|evs| - 1]), evs[|evs| - 1])
  }

  // ----- the history of one file

  function HistoryOf(h: seq<Entry>, f: Filename): seq<Entry> {
    if h == [] then []
    else HistoryOf(h[..|h| - 1], f) + (if h[|h| - 1].filename == f then [h[|h| - 1]] else [])
  }

  function RowOf(c: Catalogue, f: Filename): Option<Image> { if f in c.images then Some(c.images[f]) else None }

  /** Revisions are 1..n, neighbouring hashes differ, and the image row holds the last of them. */
  ghost predicate Agrees(s: seq<Entry>, row: Option<Image>) {
    && (forall i | 0 <= i < |s| :: s[i].revision == i + 1)
    && (forall i | 0 < i < |s| :: s[i].sha != s[i - 1].sha)
    && row == if s == [] then None else Some(Image(s[|s| - 1].sha, |s|))
  }

  ghost predicate Consistent(c: Catalogue, f: Filename) { Agrees(HistoryOf(c.history, f), RowOf(c, f)) }

  lemma AppendAgrees(s: seq<Entry>, row: Option<Image>, e: Entry)
    requires Agrees(s, row) && e.revision == |s| + 1 && (row.Some? ==> row.value.sha != e.sha)
    ensures Agrees(s + [e], Some(Image(e.sha, e.revision)))
  {
  }

  lemma AppendedHistory(h: seq<Entry>, e: Entry, f: Filename)
    ensures HistoryOf(h + [e], f) == HistoryOf(h, f) + (if e.filename == f then [e] else [])
  {
    assert (h + [e])[..|h|] == h;
  }

  /** Whether a scan of file f sees a new content, and the history row it then writes. */
  predicate Changes(c: Catalogue, f: Filename, sha: Sha) { RowOf(c, f).None? || RowOf(c, f).value.sha != sha }

  function NewEntry(c: Catalogue, f: Filename, sha: Sha): Entry {
    Entry(f, sha, if f in c.images then c.images[f].revision + 1 else 1)
  }

  lemma ScanOther(c: Catalogue, g: Filename, sha: Sha, f: Filename)
    requires g != f
    ensures var c' := ScanFile(c, g, sha);
            && RowOf(c', f) == RowOf(c, f)
            && (c'.history == c.history || c'.history == c.history + [NewEntry(c, g, sha)])
  {
  }

  lemma ScanFileKeeps(c: Catalogue, g: Filename, sha: Sha, f: Filename)
    requires Consistent(c, f)
    ensures Consistent(ScanFile(c, g, sha), f)
  {
    AppendedHistory(c.history, NewEntry(c, g, sha), f);
    if g != f {
      ScanOther(c, g, sha, f);
    } else if Changes(c, f, sha) {
      AppendAgrees(HistoryOf(c.history, f), RowOf(c, f), NewEntry(c, f, sha));
    } else {
      assert ScanFile(c, f, sha) == c;
    }
  }

  lemma {:induction false} ScanAllKeeps(c: Catalogue, files: seq<(Filename, Sha)>, f: Filename)
    requires Consistent(c, f)
    ensures Consistent(ScanAll(c, files), f)
    decreases |files|
  {
    if files != [] {
      var before := files[..|files| - 1];
      ScanAllKeeps(c, before, f);
      ScanFileKeeps(ScanAll(c, before), files[|files| - 1].0, files[|files| - 1].1, f);
    }
  }

  lemma {:induction false} KeptHistory(h: seq<Entry>, f: Filename)
    ensures HistoryOf(Kept(h), f) == if IsTestFile(f) then [] else HistoryOf(h, f)
  {
    if h != [] {
      var init, e := h[..|h| - 1], h[|h| - 1];
      KeptHistory(init, f);
      if !IsTestFile(e.filename) {
        AppendedHistory(Kept(init), e, f);
      } else {
        assert Kept(h) == Kept(init);
      }
    }
  }

  lemma StepKeeps(c: Catalogue, e: Event, f: Filename)
    requires Consistent(c, f)
    ensures Consistent(Step(c, e), f)
  {
    match e
    case Scan(files) => ScanAllKeeps(c, files, f);
    case ClearImages =>
    case ClearTests => KeptHistory(c.history, f);
  }

  /** After any run of scans and maintenance, for every file. */
  lemma {:induction false} RevisionsAreConsistent(evs: seq<Event>, f: Filename)
    ensures Consistent(Run(evs), f)
  {
    if evs != [] {
      RevisionsAreConsistent(evs[..|evs| - 1], f);
      StepKeeps(Run(evs[..|evs| - 1]), evs[|evs| - 1], f);
    }
  }

  // ----- what a scan records

  /** The row that a scan adds for this file. */
  function News(h: seq<Entry>, f: Filename, sha: Sha): seq<Entry> {
    if h != [] && h[|h| - 1].sha == sha then [] else [Entry(f, sha, |h| + 1)]
  }

  lemma ScanOneRecords(c: Catalogue, f: Filename, sha: Sha)
    requires Consistent(c, f)
    ensures var h := HistoryOf(c.history, f); HistoryOf(ScanFile(c, f, sha).history, f) == h + News(h, f, sha)
  {
    var h, e := HistoryOf(c.history, f), NewEntry(c, f, sha);
    assert Agrees(h, RowOf(c, f));
    if Changes(c, f, sha) {
      AppendedHistory(c.history, e, f);
      assert ScanFile(c, f, sha).history == c.history + [e];
      assert News(h, f, sha) == [e];
    } else {
      assert News(h, f, sha) == [];
    }
  }

  lemma ScanOtherRecords(c: Catalogue, g: Filename, sha: Sha, f: Filename)
    requires g != f
    ensures HistoryOf(ScanFile(c, g, sha).history, f) == HistoryOf(c.history, f)
  {
    ScanOther(c, g, sha, f);
    AppendedHistory(c.history, NewEntry(c, g, sha), f);
  }

  ghost predicate Listing(files: seq<(Filename, Sha)>) {
    forall i, j | 0 <= i < j < |files| :: files[i].0 != files[j].0
  }

  lemma {:induction false} ScanAllSpares(c: Catalogue, files: seq<(Filename, Sha)>, f: Filename)
    requires forall k | 0 <= k < |files| :: files[k].0 != f
    ensures HistoryOf(ScanAll(c, files).history, f) == HistoryOf(c.history, f)
    decreases |files|
  {
    if files != [] {
      var before, last := files[..|files| - 1], files[|files| - 1];
      ScanAllSpares(c, before, f);
      ScanOtherRecords(ScanAll(c, before), last.0, last.1, f);
    }
  }

  /** A scan whose last file is f. */
  lemma ScanEndsWith(c: Catalogue, before: seq<(Filename, Sha)>, f: Filename, sha: Sha)
    requires Consistent(c, f) && forall k | 0 <= k < |before| :: before[k].0 != f
    ensures var h := HistoryOf(c.history, f);
            HistoryOf(ScanFile(ScanAll(c, before), f, sha).history, f) == h + News(h, f, sha)
  {
    ScanAllSpares(c, before, f);
    ScanAllKeeps(c, before, f);
    ScanOneRecords(ScanAll(c, before), f, sha);
  }

  lemma {:induction false} ScanAllRecords(c: Catalogue, files: seq<(Filename, Sha)>, k: nat)
    requires k < |files| && Listing(files) && Consistent(c, files[k].0)
    ensures var h := HistoryOf(c.history, files[k].0);
            HistoryOf(ScanAll(c, files).history, files[k].0) == h + News(h, files[k].0, files[k].1)
    decreases |files|
  {
    var before, last := files[..|files| - 1], files[|files| - 1];
    if k < |before| {
      ScanAllRecords(c, before, k);
      ScanOtherRecords(ScanAll(c, before), last.0, last.1, files[k].0);
    } else {
      ScanEndsWith(c, before, last.0, last.1);
    }
  }

  /**
    A scan after any run: a listed file gains exactly one history row, with the next revision and its hash, if it
    is new or its hash changed, and none otherwise; its image row then holds this hash.
   */
  lemma ScansRecordExactly(evs: seq<Event>, files: seq<(Filename, Sha)>, k: nat)
    requires Listing(files) && k < |files|
    ensures var c, c' := Run(evs), Run(evs + [Scan(files)]); var (f, sha) := files[k];
            && HistoryOf(c'.history, f) == HistoryOf(c.history, f) + News(HistoryOf(c.history, f), f, sha)
            && f in c'.images && c'.images[f].sha == sha
  {
    var f := files[k].0;
    assert (evs + [Scan(files)])[..|evs|] == evs;
    RevisionsAreConsistent(evs, f);
    RevisionsAreConsistent(evs + [Scan(files)], f);
    ScanAllRecords(Run(evs), files, k);
  }

  /** Files that are not listed keep their rows. */
  lemma ScansSpareOthers(evs: seq<Event>, files: seq<(Filename, Sha)>, f: Filename)
    requires forall k | 0 <= k < |files| :: files[k].0 != f
    ensures var c, c' := Run(evs), Run(evs + [Scan(files)]);
            HistoryOf(c'.history, f) == HistoryOf(c.history, f) && RowOf(c', f) == RowOf(c, f)
  {
    assert (evs + [Scan(files)])[..|evs|] == evs;
    RevisionsAreConsistent(evs, f);
    RevisionsAreConsistent(evs + [Scan(files)], f);
    ScanAllSpares(Run(evs), files, f);
  }

  class CatalogueTables {
    var images: map<Filename, Image>
    var history: seq<Entry>

    ghost function View(): Catalogue
      reads this
    {
      Catalogue(images, history)
    }

    constructor ()
      ensures View() == Run([])
    {
      images, history := map[], [];
    }

    method ScanFirmwareImages(files: seq<(Filename, Sha)>)
      modifies this
      ensures View() == ScanAll(old(View()), files)
    {
      for k := 0 to |files|
        invariant View() == ScanAll(old(View()), files[..k])
      {
        assert files[..k + 1][..k] == files[..k];
        var f, sha := files[k].0, files[k].1;
        if f !in images {
          images := images[f := Image(sha, 1)];
          history := history + [Entry(f, sha, 1)];
        } else if images[f].sha != sha {
          var revision := images[f].revision + 1;
          images := images[f := Image(sha, revision)];
          history := history + [Entry(f, sha, revision)];
        }
      }
      assert files[..|files|] == files;
    }
  }
}
