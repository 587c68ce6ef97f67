/** The page picker of the split tool (app/tools/split/page.tsx): one thumbnail
    per page of the loaded document, selected by clicking or by dragging across
    a range; the selected pages are extracted into a new document. */
module SplitTool {
  import opened Wrappers
  import opened PdfLib
  import opened PdfOperations
  import opened ToolState
  import Text

  const FailedMessage := "Extraction failed."

  /** The message after a split of `n` pages. */
  function ExtractedMessage(n: nat): string {
    "Extracted " + Text.Decimal(n) + " pages."
  }

  /** A thumbnail: its 1-based page number and whether it is selected. */
  datatype PageThumb = PageThumb(pageNum: int, selected: bool)

  /** The thumbnails are numbered 1, 2, ... in display order. */
  predicate Numbered(pages: seq<PageThumb>) {
    forall k :: 0 <= k < |pages| ==> pages[k].pageNum == k + 1
  }

  /** The thumbnails of a freshly loaded document of `n` pages: none selected. */
  function InitialThumbs(n: nat): (r: seq<PageThumb>)
    ensures |r| == n && Numbered(r)
    ensures forall k :: 0 <= k < n ==> !r[k].selected
  {
    seq(n, i => PageThumb(i + 1, false))
  }

  /** `togglePage`: the thumbnail numbered `pageNum` changes its selection. */
  function Toggled(pages: seq<PageThumb>, pageNum: int): (r: seq<PageThumb>)
    ensures |r| == |pages|
    ensures forall k :: 0 <= k < |pages| ==>
              r[k].pageNum == pages[k].pageNum && (pages[k].pageNum != pageNum ==> r[k] == pages[k])
    ensures forall k :: 0 <= k < |pages| && pages[k].pageNum == pageNum ==> r[k].selected == !pages[k].selected
  {
    seq(|pages|, k requires 0 <= k < |pages| =>
      if pages[k].pageNum == pageNum then pages[k].(selected := !pages[k].selected) else pages[k])
  }

  /** Toggling the same page twice changes nothing. */
  lemma ToggledTwice(pages: seq<PageThumb>, pageNum: int)
    ensures Toggled(Toggled(pages, pageNum), pageNum) == pages
  {
    var once := Toggled(pages, pageNum);
    var r := Toggled(once, pageNum);
    forall k | 0 <= k < |pages| ensures r[k] == pages[k] {
      if pages[k].pageNum == pageNum {
        assert once[k] == pages[k].(selected := !pages[k].selected);
      }
    }
    assert r == pages;
  }

  function Min(a: int, b: int): int { if a <= b then a else b }
  function Max(a: int, b: int): int { if a <= b then b else a }

  /** Dragging from page `start` onto page `p`: every page numbered between the
      two, both included, becomes selected; the others are kept. */
  function RangeSelected(pages: seq<PageThumb>, start: int, p: int): (r: seq<PageThumb>)
    ensures |r| == |pages| && forall k :: 0 <= k < |pages| ==> r[k].pageNum == pages[k].pageNum
  {
    seq(|pages|, k requires 0 <= k < |pages| =>
      if Min(start, p) <= pages[k].pageNum <= Max(start, p) then pages[k].(selected := true) else pages[k])
  }

  /** A drag selects, never deselects: a page is selected afterwards exactly when
      it was before or lies in the dragged range; page numbers do not change. */
  lemma RangeSelectedOnlyAdds(pages: seq<PageThumb>, start: int, p: int, k: nat)
    requires k < |pages|
    ensures var r := RangeSelected(pages, start, p);
            r[k].pageNum == pages[k].pageNum
            && (r[k].selected <==> pages[k].selected || (Min(start, p) <= pages[k].pageNum <= Max(start, p)))
  {
  }

  /** The dragged range is the same whichever end it starts from. */
  lemma RangeSelectedSymmetric(pages: seq<PageThumb>, a: int, b: int)
    ensures RangeSelected(pages, a, b) == RangeSelected(pages, b, a)
  {
    assert Min(a, b) == Min(b, a) && Max(a, b) == Max(b, a);
  }

  /** `selectAll` (flag true) and `deselectAll` (flag false). */
  function AllSet(pages: seq<PageThumb>, flag: bool): (r: seq<PageThumb>)
    ensures |r| == |pages|
    ensures forall k :: 0 <= k < |pages| ==> r[k].pageNum == pages[k].pageNum && r[k].selected == flag
  {
    seq(|pages|, k requires 0 <= k < |pages| => pages[k].(selected := flag))
  }

  /** `selectedCount`: the number of selected thumbnails. */
  function SelectedCount(pages: seq<PageThumb>): nat {
    if pages == [] then 0 else SelectedCount(pages[..|pages| - 1]) + (if pages[|pages| - 1].selected then 1 else 0)
  }

  /** The indices sent to `extractPages`: `pageNum - 1` of every selected
      thumbnail, in display order. */
  function SelectedIndices(pages: seq<PageThumb>): (r: seq<int>)
    ensures |r| == SelectedCount(pages)
  {
    if pages == [] then []
    else
      var n := |pages| - 1;
      SelectedIndices(pages[..n]) + (if pages[n].selected then [pages[n].pageNum - 1] else [])
  }

  /** Each index sent is a selected page of the document, in ascending order. */
  lemma {:induction false} SelectedIndicesSorted(pages: seq<PageThumb>)
    requires Numbered(pages)
    ensures forall i :: 0 <= i < |SelectedIndices(pages)| ==>
              0 <= SelectedIndices(pages)[i] < |pages| && pages[SelectedIndices(pages)[i]].selected
    ensures forall i, j :: 0 <= i < j < |SelectedIndices(pages)| ==> SelectedIndices(pages)[i] < SelectedIndices(pages)[j]
  {
    if pages != [] {
      var n := |pages| - 1;
      var front := pages[..n];
      assert Numbered(front);
      SelectedIndicesSorted(front);
      var f := SelectedIndices(front);
      var r := SelectedIndices(pages);
      assert forall k :: 0 <= k < n ==> pages[k] == front[k];
      assert pages[n].pageNum - 1 == n;
      assert r == f + (if pages[n].selected then [n] else []);
      assert forall i :: 0 <= i < |f| ==> r[i] == f[i] && pages[f[i]] == front[f[i]];
    }
  }

  /** Every selected page is sent. */
  lemma {:induction false} SelectedIndicesComplete(pages: seq<PageThumb>)
    requires Numbered(pages)
    ensures forall k :: 0 <= k < |pages| && pages[k].selected ==> k in SelectedIndices(pages)
  {
    if pages != [] {
      var n := |pages| - 1;
      var front := pages[..n];
      assert Numbered(front);
      SelectedIndicesComplete(front);
      assert forall k :: 0 <= k < n ==> pages[k] == front[k];
      assert pages[n].pageNum - 1 == n;
      var f := SelectedIndices(front);
      assert SelectedIndices(pages) == f + (if pages[n].selected then [n] else []);
    }
  }

  /** On numbered thumbnails the indices are the positions of the selected
      thumbnails, each a page of the document, in ascending order. */
  lemma SelectedIndicesAscending(pages: seq<PageThumb>)
    requires Numbered(pages)
    ensures forall i :: 0 <= i < |SelectedIndices(pages)| ==>
              0 <= SelectedIndices(pages)[i] < |pages| && pages[SelectedIndices(pages)[i]].selected
    ensures forall i, j :: 0 <= i < j < |SelectedIndices(pages)| ==> SelectedIndices(pages)[i] < SelectedIndices(pages)[j]
    ensures forall k :: 0 <= k < |pages| && pages[k].selected ==> k in SelectedIndices(pages)
  {
    SelectedIndicesSorted(pages);
    SelectedIndicesComplete(pages);
  }

  /** Selecting everything sends every page, in order. */
  lemma {:induction false} SelectAllSendsEveryPage(pages: seq<PageThumb>)
    requires Numbered(pages)
    ensures SelectedIndices(AllSet(pages, true)) == Indices(|pages|)
  {
    if pages != [] {
      var n := |pages| - 1;
      var all := AllSet(pages, true);
      assert all[..n] == AllSet(pages[..n], true);
      SelectAllSendsEveryPage(pages[..n]);
      assert Indices(n) + [n] == Indices(n + 1);
    }
  }

  /** Deselecting everything sends nothing, and the split does not run. */
  lemma {:induction false} DeselectAllSendsNothing(pages: seq<PageThumb>)
    ensures SelectedIndices(AllSet(pages, false)) == []
  {
    if pages != [] {
      var n := |pages| - 1;
      assert AllSet(pages, false)[..n] == AllSet(pages[..n], false);
      DeselectAllSendsNothing(pages[..n]);
    }
  }

  /** Extracting the selected pages of the thumbnails of a document succeeds,
      with one page per selected thumbnail, in page order. */
  lemma SplitSucceeds(f: File, pages: seq<PageThumb>)
    requires Parse(f).Ok? && Numbered(pages) && |pages| == |Parse(f).value.pages|
    ensures Extracted(f, SelectedIndices(pages)).Ok?
    ensures |Extracted(f, SelectedIndices(pages)).value.pages| == SelectedCount(pages)
  {
    SelectedIndicesAscending(pages);
  }

  /** The split tool's state. */
  class Splitter {
    var file: Option<File>
    var pageCount: nat
    var pages: seq<PageThumb>
    var status: Status
    var message: string
    var downloads: seq<Download>
    var isDragging: bool
    var dragStart: Option<int>

    /** The thumbnails are numbered and describe the loaded file, and a drag
        always has a start page. */
    predicate Valid()
      reads this
    {
      Numbered(pages)
      && (pages != [] ==> pageCount == |pages|)
      && (file.Some? && pages != [] ==> Parse(file.value).Ok? && |pages| == |Parse(file.value).value.pages|)
      && (isDragging <==> dragStart.Some?)
    }

    constructor()
      ensures Valid()
      ensures file == None && pageCount == 0 && pages == [] && status == Idle && message == ""
      ensures downloads == [] && !isDragging && dragStart == None
    {
      file := None;
      pageCount := 0;
      pages := [];
      status := Idle;
      message := "";
      downloads := [];
      isDragging := false;
      dragStart := None;
    }

    /** `handleFileSelected`: the first file selected becomes the file; its pages
        are listed, unselected, when it loads. The page count is updated only
        when it loads. */
    method HandleFileSelected(selected: seq<File>)
      requires Valid()
      modifies this
      ensures Valid()
      ensures file == First(selected) && status == Idle
      ensures if selected != [] && Parse(selected[0]).Ok?
              then pages == InitialThumbs(|Parse(selected[0]).value.pages|) && pageCount == |pages|
              else pages == [] && pageCount == old(pageCount)
      ensures message == old(message) && downloads == old(downloads)
      ensures isDragging == old(isDragging) && dragStart == old(dragStart)
    {
      file := First(selected);
      status := Idle;
      pages := [];
      if selected != [] {
        var loaded := Load(selected[0]);
        if loaded.Ok? {
          var pdf := loaded.value;
          var count := |pdf.pages|;
          pageCount := count;
          pages := InitialThumbs(count);
        }
      }
    }

    /** `togglePage`. */
    method TogglePage(pageNum: int)
      requires Valid()
      modifies this
      ensures Valid()
      ensures pages == Toggled(old(pages), pageNum)
      ensures file == old(file) && pageCount == old(pageCount) && status == old(status) && message == old(message)
      ensures downloads == old(downloads) && isDragging == old(isDragging) && dragStart == old(dragStart)
    {
      pages := Toggled(pages, pageNum);
    }

    /** `handleMouseDown`: a drag starts on this page, which is toggled. */
    method HandleMouseDown(pageNum: int)
      requires Valid()
      modifies this
      ensures Valid()
      ensures isDragging && dragStart == Some(pageNum) && pages == Toggled(old(pages), pageNum)
      ensures file == old(file) && pageCount == old(pageCount) && status == old(status) && message == old(message)
      ensures downloads == old(downloads)
    {
      isDragging := true;
      dragStart := Some(pageNum);
      TogglePage(pageNum);
    }

    /** `handleMouseEnter`: during a drag, the range from its start page to this
        page is selected; otherwise nothing happens. */
    method HandleMouseEnter(pageNum: int)
      requires Valid()
      modifies this
      ensures Valid()
      ensures pages == (if old(isDragging) && old(dragStart).Some? then RangeSelected(old(pages), old(dragStart).value, pageNum) else old(pages))
      ensures file == old(file) && pageCount == old(pageCount) && status == old(status) && message == old(message)
      ensures downloads == old(downloads) && isDragging == old(isDragging) && dragStart == old(dragStart)
    {
      if isDragging && dragStart.Some? {
        pages := RangeSelected(pages, dragStart.value, pageNum);
      }
    }

    /** `handleMouseUp`, and the document-wide mouse-up listener: the drag ends. */
    method HandleMouseUp()
      requires Valid()
      modifies this
      ensures Valid()
      ensures !isDragging && dragStart == None
      ensures file == old(file) && pageCount == old(pageCount) && pages == old(pages)
      ensures status == old(status) && message == old(message) && downloads == old(downloads)
    {
      isDragging := false;
      dragStart := None;
    }

    /** The Reset button: the file is dropped and the uploader shows again; the
        thumbnails and the page count stay as they were. */
    method Reset()
      requires Valid()
      modifies this
      ensures Valid()
      ensures file == None && pageCount == old(pageCount) && pages == old(pages)
      ensures status == old(status) && message == old(message) && downloads == old(downloads)
      ensures isDragging == old(isDragging) && dragStart == old(dragStart)
    {
      file := None;
    }

    /** `selectAll`. */
    method SelectAll()
      requires Valid()
      modifies this
      ensures Valid()
      ensures pages == AllSet(old(pages), true)
      ensures file == old(file) && pageCount == old(pageCount) && status == old(status) && message == old(message)
      ensures downloads == old(downloads) && isDragging == old(isDragging) && dragStart == old(dragStart)
    {
      pages := AllSet(pages, true);
    }

    /** `deselectAll`. */
    method DeselectAll()
      requires Valid()
      modifies this
      ensures Valid()
      ensures pages == AllSet(old(pages), false)
      ensures file == old(file) && pageCount == old(pageCount) && status == old(status) && message == old(message)
      ensures downloads == old(downloads) && isDragging == old(isDragging) && dragStart == old(dragStart)
    {
      pages := AllSet(pages, false);
    }

    /** `handleSplit`: without a file or without a selected page nothing happens;
        otherwise the selected pages are extracted and downloaded. */
    method HandleSplit()
      modifies this
      ensures Valid() <==> old(Valid())
      ensures file == old(file) && pageCount == old(pageCount) && pages == old(pages)
      ensures isDragging == old(isDragging) && dragStart == old(dragStart)
      ensures old(file).None? || SelectedCount(old(pages)) == 0 ==>
                status == old(status) && message == old(message) && downloads == old(downloads)
      ensures old(file).Some? && SelectedCount(old(pages)) > 0 ==>
                match Extracted(old(file).value, SelectedIndices(old(pages)))
                case Ok(saved) =>
                  status == Success && message == ExtractedMessage(SelectedCount(old(pages)))
                  && downloads == old(downloads) + [Download("extracted-" + old(file).value.name, Pdf(saved))]
                case Err(_) =>
                  status == Error && message == FailedMessage && downloads == old(downloads)
      ensures old(Valid()) && old(file).Some? && SelectedCount(old(pages)) > 0 ==> status == Success
    {
      if file.None? {
        return;
      }
      var f := file.value;
      var selectedIndices := SelectedIndices(pages);
      if |selectedIndices| == 0 {
        return;
      }
      if Valid() {
        SplitSucceeds(f, pages);
      }
      var pdf := ExtractPages(f, selectedIndices);
      if pdf.Ok? {
        downloads := downloads + [Download("extracted-" + f.name, Pdf(pdf.value))];
        status := Success;
        message := ExtractedMessage(|selectedIndices|);
      } else {
        status := Error;
        message := FailedMessage;
      }
    }
  }
}
