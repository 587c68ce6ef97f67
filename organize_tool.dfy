/** The page editor of the organize tool (app/tools/organize/page.tsx): one
    entry per page of the loaded document, which the user turns, deletes,
    restores and moves; applying the edits sends the entries still present, in
    display order, to `organizePDF`. */
module OrganizeTool {
  import opened Wrappers
  import opened PdfLib
  import opened PdfOperations
  import opened ListEdits
  import opened ToolState

  const DoneMessage := "Organization complete."
  const FailedMessage := "Organization failed."

  /** An entry of the editor: the page's index in the loaded document, the
      quarter turn the user chose for it and whether it is marked deleted. */
  datatype PageInfo = PageInfo(index: int, rotation: int, deleted: bool)

  predicate IsQuarter(angle: int) {
    angle == 0 || angle == 90 || angle == 180 || angle == 270
  }

  /** The entries describe a document of `n` pages: one entry per page, each
      page listed once, every angle a quarter turn. */
  predicate WellFormed(pages: seq<PageInfo>, n: nat) {
    |pages| == n
    && (forall k :: 0 <= k < |pages| ==> InRange(pages[k].index, n) && IsQuarter(pages[k].rotation))
    && (forall j, k :: 0 <= j < k < |pages| ==> pages[j].index != pages[k].index)
  }

  /** The entries of a freshly loaded document of `n` pages: page i at position i,
      not turned, not deleted. */
  function InitialPages(n: nat): (r: seq<PageInfo>)
    ensures WellFormed(r, n)
    ensures forall k :: 0 <= k < n ==> r[k].index == k && r[k].rotation == 0 && !r[k].deleted
  {
    seq(n, i => PageInfo(i, 0, false))
  }

  /** `rotatePage`: the entries for page `index` turn a quarter further, modulo a
      full turn; every other entry is kept. */
  function QuarterTurned(pages: seq<PageInfo>, index: int): (r: seq<PageInfo>)
    ensures |r| == |pages|
    ensures forall k :: 0 <= k < |pages| ==>
              r[k].index == pages[k].index && r[k].deleted == pages[k].deleted
              && (pages[k].index != index ==> r[k] == pages[k])
    ensures forall k :: 0 <= k < |pages| && pages[k].index == index ==> r[k].rotation == (pages[k].rotation + 90) % 360
  {
    seq(|pages|, k requires 0 <= k < |pages| =>
      if pages[k].index == index then pages[k].(rotation := (pages[k].rotation + 90) % 360) else pages[k])
  }

  /** A quarter turn keeps every angle a quarter turn. */
  lemma QuarterTurnedWellFormed(pages: seq<PageInfo>, n: nat, index: int)
    requires WellFormed(pages, n)
    ensures WellFormed(QuarterTurned(pages, index), n)
  {
    var r := QuarterTurned(pages, index);
    forall k | 0 <= k < |pages| ensures IsQuarter(r[k].rotation) {
      var a := pages[k].rotation;
      if pages[k].index == index {
        assert r[k].rotation == (a + 90) % 360;
        assert a == 0 || a == 90 || a == 180 || a == 270;
      }
    }
  }

  lemma FourQuartersTurnOnce(a: int)
    requires IsQuarter(a)
    ensures ((((a + 90) % 360 + 90) % 360 + 90) % 360 + 90) % 360 == a
  {
  }

  /** Four quarter turns of the same page give back the entries unchanged. */
  lemma FourQuarterTurnsRestore(pages: seq<PageInfo>, n: nat, index: int)
    requires WellFormed(pages, n)
    ensures QuarterTurned(QuarterTurned(QuarterTurned(QuarterTurned(pages, index), index), index), index) == pages
  {
    var p1 := QuarterTurned(pages, index);
    var p2 := QuarterTurned(p1, index);
    var p3 := QuarterTurned(p2, index);
    var p4 := QuarterTurned(p3, index);
    forall k | 0 <= k < |pages| ensures p4[k] == pages[k] {
      if pages[k].index == index {
        FourQuartersTurnOnce(pages[k].rotation);
      }
    }
    assert p4 == pages;
  }

  /** `deletePage` (flag true) and `restorePage` (flag false): the entries for
      page `index` get the flag; every other entry is kept. */
  function Flagged(pages: seq<PageInfo>, index: int, flag: bool): (r: seq<PageInfo>)
    ensures |r| == |pages|
    ensures forall k :: 0 <= k < |pages| ==>
              r[k].index == pages[k].index && r[k].rotation == pages[k].rotation
              && (pages[k].index != index ==> r[k] == pages[k])
    ensures forall k :: 0 <= k < |pages| && pages[k].index == index ==> r[k].deleted == flag
  {
    seq(|pages|, k requires 0 <= k < |pages| =>
      if pages[k].index == index then pages[k].(deleted := flag) else pages[k])
  }

  lemma FlaggedWellFormed(pages: seq<PageInfo>, n: nat, index: int, flag: bool)
    requires WellFormed(pages, n)
    ensures WellFormed(Flagged(pages, index, flag), n)
  {
  }

  /** Deleting or restoring twice is the same as doing it once. */
  lemma FlaggedIdempotent(pages: seq<PageInfo>, index: int, flag: bool)
    ensures Flagged(Flagged(pages, index, flag), index, flag) == Flagged(pages, index, flag)
  {
    var once := Flagged(pages, index, flag);
    var twice := Flagged(once, index, flag);
    forall k | 0 <= k < |pages| ensures twice[k] == once[k] {
      if pages[k].index == index {
        assert once[k] == pages[k].(deleted := flag);
      }
    }
    assert twice == once;
  }

  /** Restoring a page that was not deleted, right after deleting it, gives back the entries. */
  lemma RestoreUndoesDelete(pages: seq<PageInfo>, index: int)
    requires forall k :: 0 <= k < |pages| && pages[k].index == index ==> !pages[k].deleted
    ensures Flagged(Flagged(pages, index, true), index, false) == pages
  {
    var r := Flagged(Flagged(pages, index, true), index, false);
    forall k | 0 <= k < |pages| ensures r[k] == pages[k] {
      if pages[k].index == index {
        assert Flagged(pages, index, true)[k] == pages[k].(deleted := true);
      }
    }
    assert r == pages;
  }

  /** `pages.findIndex(p => p.index === index)`: the first position listing page
      `index`, or -1. */
  function FindIndex(pages: seq<PageInfo>, index: int): (r: int)
    ensures -1 <= r < |pages|
    ensures r >= 0 ==> pages[r].index == index && forall k :: 0 <= k < r ==> pages[k].index != index
    ensures r == -1 <==> forall k :: 0 <= k < |pages| ==> pages[k].index != index
  {
    if pages == [] then -1
    else if pages[0].index == index then 0
    else
      var rest := FindIndex(pages[1..], index);
      if rest == -1 then -1 else rest + 1
  }

  /** `movePage`: the entry listing page `index` swaps places with its neighbour
      to the left (`Up`) or right (`Down`) when there is one. */
  function PageMoved(pages: seq<PageInfo>, index: int, d: Direction): (r: seq<PageInfo>)
    requires FindIndex(pages, index) >= 0
  {
    Moved(pages, FindIndex(pages, index), d)
  }

  /** A move keeps the entries, only their order changes. */
  lemma PageMovedWellFormed(pages: seq<PageInfo>, n: nat, index: int, d: Direction)
    requires WellFormed(pages, n) && FindIndex(pages, index) >= 0
    ensures WellFormed(PageMoved(pages, index, d), n)
    ensures multiset(PageMoved(pages, index, d)) == multiset(pages)
  {
    var p := FindIndex(pages, index);
    var t := Target(p, d);
    var r := PageMoved(pages, index, d);
    if 0 <= t < |pages| {
      forall j, k | 0 <= j < k < |r| ensures r[j].index != r[k].index {
        var j', k' := if j == p then t else if j == t then p else j, if k == p then t else if k == t then p else k;
        assert r[j] == pages[j'] && r[k] == pages[k'];
        if j' < k' {
        } else {
          assert k' < j';
        }
      }
    }
  }

  /** Moving an entry left and then moving it right again restores the list. */
  lemma PageMovedAndBack(pages: seq<PageInfo>, index: int)
    requires FindIndex(pages, index) > 0
    ensures FindIndex(PageMoved(pages, index, Up), index) >= 0
    ensures PageMoved(PageMoved(pages, index, Up), index, Down) == pages
  {
    var p := FindIndex(pages, index);
    var r := PageMoved(pages, index, Up);
    var q := FindIndex(r, index);
    assert r[p - 1].index == index;
    assert q == p - 1;
    MovedUpThenDown(pages, p);
  }

  /** The number of entries not marked deleted (`activePages.length`). */
  function ActiveCount(pages: seq<PageInfo>): nat {
    if pages == [] then 0 else (if pages[0].deleted then 0 else 1) + ActiveCount(pages[1..])
  }

  /** The order sent to `organizePDF`: for every entry not deleted, in display
      order, its page index and its angle. */
  function PageOrder(pages: seq<PageInfo>): (r: seq<OrderEntry>)
    ensures |r| == ActiveCount(pages)
    ensures forall j :: 0 <= j < |r| ==>
              exists k :: 0 <= k < |pages| && !pages[k].deleted
                          && r[j] == OrderEntry(pages[k].index, pages[k].rotation)
  {
    if pages == [] then []
    else
      var rest := PageOrder(pages[1..]);
      var head := if pages[0].deleted then [] else [OrderEntry(pages[0].index, pages[0].rotation)];
      var r := head + rest;
      assert forall j :: |head| <= j < |r| ==> r[j] == rest[j - |head|];
      assert forall k :: 0 <= k < |pages| - 1 ==> pages[1..][k] == pages[k + 1];
      r
  }

  /** The order of a single entry: nothing when it is deleted, its index and angle otherwise. */
  lemma PageOrderOne(p: PageInfo)
    ensures PageOrder([p]) == if p.deleted then [] else [OrderEntry(p.index, p.rotation)]
  {
    assert [p][1..] == [];
  }

  /** The order of two lists shown one after the other is the first list's order
      followed by the second's: together with `PageOrderOne` this is
      `filter(p => !p.deleted).map(...)`, keeping display order. */
  lemma {:induction false} PageOrderAppend(a: seq<PageInfo>, b: seq<PageInfo>)
    ensures PageOrder(a + b) == PageOrder(a) + PageOrder(b)
  {
    if a == [] {
      assert a + b == b;
    } else {
      var head := if a[0].deleted then [] else [OrderEntry(a[0].index, a[0].rotation)];
      assert (a + b)[1..] == a[1..] + b;
      assert (a + b)[0] == a[0];
      PageOrderAppend(a[1..], b);
      calc {
        PageOrder(a + b);
        head + PageOrder(a[1..] + b);
        head + (PageOrder(a[1..]) + PageOrder(b));
        (head + PageOrder(a[1..])) + PageOrder(b);
        PageOrder(a) + PageOrder(b);
      }
    }
  }

  /** Every entry still present is sent: its page index with its angle. */
  lemma {:induction false} PageOrderComplete(pages: seq<PageInfo>)
    ensures forall k :: 0 <= k < |pages| && !pages[k].deleted ==>
              OrderEntry(pages[k].index, pages[k].rotation) in PageOrder(pages)
  {
    if pages != [] {
      PageOrderComplete(pages[1..]);
      forall k | 0 < k < |pages| && !pages[k].deleted
        ensures OrderEntry(pages[k].index, pages[k].rotation) in PageOrder(pages)
      {
        assert pages[k] == pages[1..][k - 1];
      }
    }
  }

  /** When every page is listed once, no page is sent twice: with
      `PageOrderComplete` and the count `ActiveCount`, every entry still
      present is sent exactly once. */
  lemma {:induction false} PageOrderOnce(pages: seq<PageInfo>)
    requires forall j, k :: 0 <= j < k < |pages| ==> pages[j].index != pages[k].index
    ensures forall i, j :: 0 <= i < j < |PageOrder(pages)| ==> PageOrder(pages)[i].originalIndex != PageOrder(pages)[j].originalIndex
  {
    if pages != [] {
      var rest := PageOrder(pages[1..]);
      var head := if pages[0].deleted then [] else [OrderEntry(pages[0].index, pages[0].rotation)];
      PageOrderOnce(pages[1..]);
      assert PageOrder(pages) == head + rest;
      forall j | 0 <= j < |rest| ensures rest[j].originalIndex != pages[0].index {
        var k :| 0 <= k < |pages[1..]| && !pages[1..][k].deleted
                 && rest[j] == OrderEntry(pages[1..][k].index, pages[1..][k].rotation);
        assert pages[1..][k] == pages[k + 1];
      }
    }
  }

  /** With no entry deleted the order lists every entry, in display order. */
  lemma {:induction false} PageOrderNothingDeleted(pages: seq<PageInfo>)
    requires forall k :: 0 <= k < |pages| ==> !pages[k].deleted
    ensures PageOrder(pages) == seq(|pages|, k requires 0 <= k < |pages| => OrderEntry(pages[k].index, pages[k].rotation))
  {
    if pages != [] {
      PageOrderNothingDeleted(pages[1..]);
    }
  }

  /** The order is empty exactly when every entry is deleted: Apply is disabled then. */
  lemma {:induction false} NoActivePages(pages: seq<PageInfo>)
    ensures ActiveCount(pages) == 0 <==> forall k :: 0 <= k < |pages| ==> pages[k].deleted
  {
    if pages != [] {
      NoActivePages(pages[1..]);
      assert forall k :: 0 < k < |pages| ==> pages[k] == pages[1..][k - 1];
    }
  }

  /** Applying the edits of a well-formed editor to its document succeeds, with
      one page per entry still present: output page j is the source page that
      order entry j names, turned further by that entry's angle. */
  lemma OrganizeSucceeds(f: File, pages: seq<PageInfo>)
    requires Parse(f).Ok? && WellFormed(pages, |Parse(f).value.pages|)
    ensures Organizing(f, PageOrder(pages)).Ok?
    ensures |Organizing(f, PageOrder(pages)).value.pages| == ActiveCount(pages)
    ensures forall j :: 0 <= j < ActiveCount(pages) ==>
              var e := PageOrder(pages)[j];
              var source := Parse(f).value.pages[e.originalIndex];
              Organizing(f, PageOrder(pages)).value.pages[j] == source.(rotation := source.rotation + e.rotation)
  {
    var order := PageOrder(pages);
    var n := |Parse(f).value.pages|;
    OrganizedMeaning(Parse(f).value.pages, order);
    forall j | 0 <= j < |order| ensures InRange(order[j].originalIndex, n) {
      var k :| 0 <= k < |pages| && !pages[k].deleted && order[j] == OrderEntry(pages[k].index, pages[k].rotation);
    }
  }

  /** The organize tool's state. */
  class Organizer {
    var file: Option<File>
    var pages: seq<PageInfo>
    var status: Status
    var message: string
    var downloads: seq<Download>

    /** The entries describe the page list of the loaded file, if there is one. */
    predicate Valid()
      reads this
    {
      WellFormed(pages, |pages|)
      && (file.Some? && pages != [] ==> Parse(file.value).Ok? && |pages| == |Parse(file.value).value.pages|)
    }

    constructor()
      ensures Valid()
      ensures file == None && pages == [] && status == Idle && message == "" && downloads == []
    {
      file := None;
      pages := [];
      status := Idle;
      message := "";
      downloads := [];
    }

    /** `handleFileSelected`: the first file selected becomes the file; its
        pages are listed when it loads, and the list stays empty when it does not. */
    method HandleFileSelected(selected: seq<File>)
      modifies this
      ensures Valid()
      ensures file == First(selected) && status == Idle
      ensures pages == (if selected != [] && Parse(selected[0]).Ok? then InitialPages(|Parse(selected[0]).value.pages|) else [])
      ensures message == old(message) && downloads == old(downloads)
    {
      file := First(selected);
      status := Idle;
      pages := [];
      if selected != [] {
        var loaded := Load(selected[0]);
        if loaded.Ok? {
          var pdf := loaded.value;
          pages := InitialPages(|pdf.pages|);
        }
      }
    }

    /** The Reset button: forgets the file. */
    method Reset()
      requires Valid()
      modifies this
      ensures Valid()
      ensures file == None && pages == old(pages) && status == old(status)
      ensures message == old(message) && downloads == old(downloads)
    {
      file := None;
    }

    /** `rotatePage`, offered on entries not deleted. */
    method RotatePage(index: int)
      requires Valid()
      requires exists k :: 0 <= k < |pages| && pages[k].index == index && !pages[k].deleted
      modifies this
      ensures Valid()
      ensures pages == QuarterTurned(old(pages), index)
      ensures file == old(file) && status == old(status) && message == old(message) && downloads == old(downloads)
    {
      QuarterTurnedWellFormed(pages, |pages|, index);
      pages := QuarterTurned(pages, index);
    }

    /** `deletePage`. */
    method DeletePage(index: int)
      requires Valid()
      modifies this
      ensures Valid()
      ensures pages == Flagged(old(pages), index, true)
      ensures file == old(file) && status == old(status) && message == old(message) && downloads == old(downloads)
    {
      FlaggedWellFormed(pages, |pages|, index, true);
      pages := Flagged(pages, index, true);
    }

    /** `restorePage`. */
    method RestorePage(index: int)
      requires Valid()
      modifies this
      ensures Valid()
      ensures pages == Flagged(old(pages), index, false)
      ensures file == old(file) && status == old(status) && message == old(message) && downloads == old(downloads)
    {
      FlaggedWellFormed(pages, |pages|, index, false);
      pages := Flagged(pages, index, false);
    }

    /** `movePage`, offered on entries not deleted and never past either end. */
    method MovePage(index: int, d: Direction)
      requires Valid()
      requires FindIndex(pages, index) >= 0 && !pages[FindIndex(pages, index)].deleted
      requires d == Up ==> FindIndex(pages, index) != 0
      requires d == Down ==> FindIndex(pages, index) != |pages| - 1
      modifies this
      ensures Valid()
      ensures pages == PageMoved(old(pages), index, d) && multiset(pages) == multiset(old(pages))
      ensures file == old(file) && status == old(status) && message == old(message) && downloads == old(downloads)
    {
      PageMovedWellFormed(pages, |pages|, index, d);
      var currentPos := FindIndex(pages, index);
      var newPos := Target(currentPos, d);
      if 0 <= newPos < |pages| {
        var newPages := pages;
        newPages := newPages[currentPos := pages[newPos]][newPos := pages[currentPos]];
        pages := newPages;
      }
    }

    /** `handleOrganize`: without a file nothing happens; otherwise the entries
        still present are organized into a new document, which is downloaded. */
    method HandleOrganize()
      requires Valid()
      modifies this
      ensures Valid()
      ensures file == old(file) && pages == old(pages)
      ensures old(file).None? ==> status == old(status) && message == old(message) && downloads == old(downloads)
      ensures old(file).Some? ==>
                match Organizing(old(file).value, PageOrder(old(pages)))
                case Ok(saved) =>
                  status == Success && message == DoneMessage
                  && downloads == old(downloads) + [Download("organized-" + old(file).value.name, Pdf(saved))]
                case Err(_) =>
                  status == Error && message == FailedMessage && downloads == old(downloads)
      ensures old(file).Some? && old(pages) != [] ==> status == Success
    {
      if file.None? {
        return;
      }
      var f := file.value;
      var pageOrder := PageOrder(pages);
      if pages != [] {
        OrganizeSucceeds(f, pages);
      }
      var organized := OrganizePdf(f, pageOrder);
      if organized.Ok? {
        downloads := downloads + [Download("organized-" + f.name, Pdf(organized.value))];
        status := Success;
        message := DoneMessage;
      } else {
        status := Error;
        message := FailedMessage;
      }
    }
  }
}
