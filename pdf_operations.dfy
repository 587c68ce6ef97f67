/** The document operations of the pipeline (lib/pdf-operations.ts): each reads
    its input files through the library, builds or changes a document object
    page by page, and saves it. Each operation is a method with loops over a
    `Document`, proved equal to a specification function on values; the
    properties the tools rely on are stated about those functions. */
module PdfOperations {
  import opened Wrappers
  import opened PdfLib

  /** The outcome of a page-building step, saved with the given metadata and options. */
  function Saving(r: Result<seq<Page>, LibError>, meta: Metadata, options: SaveOptions): Result<Saved, LibError> {
    match r
    case Ok(ps) => Ok(Saved(ps, meta, options))
    case Err(e) => Err(e)
  }

  lemma PrependNothing(r: Result<seq<Page>, LibError>)
    ensures Prepend([], r) == r
  {
    if r.Ok? {
      assert [] + r.value == r.value;
    }
  }

  /** `forEach(page => doc.addPage(page))`. */
  method AddEach(doc: Document, ps: seq<Page>)
    modifies doc
    ensures doc.pages == old(doc.pages) + ps && doc.meta == old(doc.meta)
  {
    var i := 0;
    while i < |ps|
      invariant 0 <= i <= |ps|
      invariant doc.pages == old(doc.pages) + ps[..i] && doc.meta == old(doc.meta)
    {
      assert ps[..i + 1] == ps[..i] + [ps[i]];
      doc.AddPage(ps[i]);
      i := i + 1;
    }
    assert ps[..i] == ps;
  }

  /** Copying every page of a document, in index order, copies the document's page list. */
  lemma {:induction false} PickedAll(pages: seq<Page>)
    ensures Picked(pages, Indices(|pages|)) == Ok(pages)
  {
    var r := Picked(pages, Indices(|pages|));
    assert AllInRange(Indices(|pages|), |pages|);
    assert r.Ok? && |r.value| == |pages|;
    assert forall k :: 0 <= k < |pages| ==> r.value[k] == pages[k];
    assert r.value == pages;
  }

  // ---------------------------------------------------------------- merge

  predicate AllParse(files: seq<File>) {
    forall k :: 0 <= k < |files| ==> Parse(files[k]).Ok?
  }

  function PageCount(f: File): nat
    requires Parse(f).Ok?
  {
    |Parse(f).value.pages|
  }

  /** The sum of the page counts of the files. */
  function TotalPages(files: seq<File>): nat
    requires AllParse(files)
  {
    if files == [] then 0 else PageCount(files[0]) + TotalPages(files[1..])
  }

  /** The merged page list: the pages of every file, file after file in list
      order, or the parse error of the first file that cannot be read. */
  function Merged(files: seq<File>): (r: Result<seq<Page>, LibError>)
    ensures r.Ok? <==> AllParse(files)
    ensures r.Ok? ==> |r.value| == TotalPages(files)
  {
    if files == [] then Ok([])
    else
      match Parse(files[0])
      case Err(e) => Err(e)
      case Ok(d) =>
        assert AllParse(files) <==> AllParse(files[1..]) by {
          if AllParse(files[1..]) {
            forall k | 0 <= k < |files| ensures Parse(files[k]).Ok? {
              if k > 0 { assert files[k] == files[1..][k - 1]; }
            }
          } else {
            var k :| 0 <= k < |files[1..]| && !Parse(files[1..][k]).Ok?;
            assert files[1..][k] == files[k + 1];
          }
        }
        Prepend(d.pages, Merged(files[1..]))
  }

  /** A merge that fails reports the parse error of the first file that cannot be read. */
  lemma {:induction false} MergedFailsAtFirstUnreadable(files: seq<File>)
    requires !AllParse(files)
    ensures exists k :: 0 <= k < |files| && AllParse(files[..k]) && Parse(files[k]).Err?
                        && Merged(files) == Err(Parse(files[k]).error)
  {
    assert files != [];
    if Parse(files[0]).Err? {
      assert AllParse(files[..0]);
    } else {
      assert !AllParse(files[1..]) by {
        var j :| 0 <= j < |files| && !Parse(files[j]).Ok?;
        assert j > 0 && files[1..][j - 1] == files[j];
      }
      MergedFailsAtFirstUnreadable(files[1..]);
      var k :| 0 <= k < |files[1..]| && AllParse(files[1..][..k]) && Parse(files[1..][k]).Err?
               && Merged(files[1..]) == Err(Parse(files[1..][k]).error);
      var pre := files[..k + 1];
      assert AllParse(pre) by {
        forall j | 0 <= j < |pre| ensures Parse(pre[j]).Ok? {
          if j > 0 { assert pre[j] == files[1..][..k][j - 1]; }
        }
      }
      assert files[k + 1] == files[1..][k];
    }
  }

  /** Page j of file k sits at the position after all pages of the files before k. */
  lemma {:induction false} MergedAt(files: seq<File>, k: nat, j: nat)
    requires AllParse(files) && k < |files| && j < PageCount(files[k])
    ensures AllParse(files[..k])
    ensures TotalPages(files[..k]) + j < TotalPages(files)
    ensures Merged(files).value[TotalPages(files[..k]) + j] == Parse(files[k]).value.pages[j]
  {
    assert AllParse(files[..k]) by {
      forall i | 0 <= i < k ensures Parse(files[..k][i]).Ok? { assert files[..k][i] == files[i]; }
    }
    assert AllParse(files[1..]) by {
      forall i | 0 <= i < |files| - 1 ensures Parse(files[1..][i]).Ok? { assert files[1..][i] == files[i + 1]; }
    }
    if k == 0 {
      assert files[..k] == [];
    } else {
      MergedAt(files[1..], k - 1, j);
      assert files[..k][1..] == files[1..][..k - 1];
      assert files[..k][0] == files[0];
    }
  }

  /** Merging two lists of files one after the other gives the merge of the joined list. */
  lemma {:induction false} MergedAppend(a: seq<File>, b: seq<File>)
    requires AllParse(a) && AllParse(b)
    ensures Merged(a + b) == Ok(Merged(a).value + Merged(b).value)
  {
    assert AllParse(a + b) by {
      forall k | 0 <= k < |a + b| ensures Parse((a + b)[k]).Ok? {
        if k < |a| { assert (a + b)[k] == a[k]; } else { assert (a + b)[k] == b[k - |a|]; }
      }
    }
    if a == [] {
      assert a + b == b;
      assert [] + Merged(b).value == Merged(b).value;
    } else {
      assert AllParse(a[1..]) by {
        forall i | 0 <= i < |a| - 1 ensures Parse(a[1..][i]).Ok? { assert a[1..][i] == a[i + 1]; }
      }
      MergedAppend(a[1..], b);
      assert (a + b)[0] == a[0];
      assert (a + b)[1..] == a[1..] + b;
      var d := Parse(a[0]).value.pages;
      assert d + (Merged(a[1..]).value + Merged(b).value) == (d + Merged(a[1..]).value) + Merged(b).value;
    }
  }

  /** The saved document a merge produces (`mergePDFs`). */
  function Merging(files: seq<File>): Result<Saved, LibError> {
    Saving(Merged(files), NoMetadata, Defaults)
  }

  /** `mergePDFs`: a new document receives copies of every page of every file, in file order. */
  method MergePdfs(files: seq<File>) returns (r: Result<Saved, LibError>)
    ensures r == Merging(files)
  {
    var merged := new Document.Create();
    var k := 0;
    assert files[k..] == files;
    PrependNothing(Merged(files));
    while k < |files|
      invariant 0 <= k <= |files|
      invariant merged.meta == NoMetadata
      invariant Merged(files) == Prepend(merged.pages, Merged(files[k..]))
    {
      assert files[k..][0] == files[k] && files[k..][1..] == files[k + 1..];
      var loaded := Load(files[k]);
      if loaded.Err? {
        return Err(loaded.error);
      }
      var pdf := loaded.value;
      PickedAll(pdf.pages);
      var copied := merged.CopyPages(pdf, Indices(|pdf.pages|));
      PrependTwice(merged.pages, copied.value, Merged(files[k + 1..]));
      AddEach(merged, copied.value);
      k := k + 1;
    }
    assert files[k..] == [] && merged.pages + [] == merged.pages;
    var saved := merged.Save(Defaults);
    r := Ok(saved);
  }

  // ---------------------------------------------------------------- extract

  /** The saved document an extraction produces (`extractPages`): copies of
      the pages at `indices`, in the order given, repeats included. */
  function Extracted(file: File, indices: seq<int>): (r: Result<Saved, LibError>)
    ensures r.Ok? <==> Parse(file).Ok? && AllInRange(indices, |Parse(file).value.pages|)
    ensures r.Ok? ==> |r.value.pages| == |indices| && r.value.meta == NoMetadata
    ensures r.Ok? ==> forall k :: 0 <= k < |indices| ==> r.value.pages[k] == Parse(file).value.pages[indices[k]]
  {
    match Parse(file)
    case Err(e) => Err(e)
    case Ok(d) => Saving(Picked(d.pages, indices), NoMetadata, Defaults)
  }

  /** Extracting every page in order gives back the file's page list. */
  lemma ExtractedAll(file: File)
    requires Parse(file).Ok?
    ensures Extracted(file, Indices(|Parse(file).value.pages|)) == Ok(Saved(Parse(file).value.pages, NoMetadata, Defaults))
  {
    PickedAll(Parse(file).value.pages);
  }

  /** `extractPages`. */
  method ExtractPages(file: File, pageIndices: seq<int>) returns (r: Result<Saved, LibError>)
    ensures r == Extracted(file, pageIndices)
  {
    var loaded := Load(file);
    if loaded.Err? {
      return Err(loaded.error);
    }
    var pdf := loaded.value;
    var newPdf := new Document.Create();
    var pages := newPdf.CopyPages(pdf, pageIndices);
    if pages.Err? {
      return Err(pages.error);
    }
    AddEach(newPdf, pages.value);
    var saved := newPdf.Save(Defaults);
    assert [] + pages.value == pages.value;
    r := Ok(saved);
  }

  // ---------------------------------------------------------------- rotate

  /** One step of the rotation loop: an index that is a page turns that page by
      `delta` on top of its current angle; any other index is skipped. */
  function RotateOne(pages: seq<Page>, delta: int, index: int): seq<Page> {
    if InRange(index, |pages|) then pages[index := pages[index].(rotation := pages[index].rotation + delta)]
    else pages
  }

  /** How often `x` occurs in `s`. */
  function Occurrences(s: seq<int>, x: int): nat {
    if s == [] then 0 else Occurrences(s[..|s| - 1], x) + (if s[|s| - 1] == x then 1 else 0)
  }

  /** Page `j` turned by `delta` once for each time `j` is listed. */
  ghost predicate TurnedPerListing(pages: seq<Page>, delta: int, indices: seq<int>, r: seq<Page>) {
    |r| == |pages| &&
    forall j :: 0 <= j < |pages| ==>
      r[j] == pages[j].(rotation := pages[j].rotation + delta * Occurrences(indices, j))
  }

  lemma RotateOneStep(pages: seq<Page>, delta: int, indices: seq<int>, prev: seq<Page>)
    requires indices != []
    requires TurnedPerListing(pages, delta, indices[..|indices| - 1], prev)
    ensures TurnedPerListing(pages, delta, indices, RotateOne(prev, delta, indices[|indices| - 1]))
  {
    var n := |indices| - 1;
    var last := indices[n];
    var r := RotateOne(prev, delta, last);
    forall j | 0 <= j < |pages|
      ensures r[j] == pages[j].(rotation := pages[j].rotation + delta * Occurrences(indices, j))
    {
      var c := Occurrences(indices[..n], j);
      if j == last {
        assert Occurrences(indices, j) == c + 1;
        assert delta * (c + 1) == delta * c + delta;
      } else {
        assert Occurrences(indices, j) == c;
      }
    }
  }

  /** The pages after turning by `delta` at each index of the list in turn. */
  function Rotated(pages: seq<Page>, delta: int, indices: seq<int>): (r: seq<Page>)
    decreases |indices|
    ensures TurnedPerListing(pages, delta, indices, r)
  {
    if indices == [] then pages
    else
      var prev := Rotated(pages, delta, indices[..|indices| - 1]);
      RotateOneStep(pages, delta, indices, prev);
      RotateOne(prev, delta, indices[|indices| - 1])
  }

  /** Turning at the first `k + 1` indices is turning at the first `k`, then at index `k`. */
  lemma RotatedStep(pages: seq<Page>, delta: int, indices: seq<int>, k: nat)
    requires k < |indices|
    ensures Rotated(pages, delta, indices[..k + 1]) == RotateOne(Rotated(pages, delta, indices[..k]), delta, indices[k])
  {
    assert indices[..k + 1][..k] == indices[..k];
  }

  /** `pageIndices || pages.map((_, i) => i)`: a given list, even an empty one, is
      used as it is; without one every page is listed. */
  function IndicesToRotate(pageIndices: Option<seq<int>>, pageCount: nat): seq<int> {
    match pageIndices
    case Some(s) => s
    case None => Indices(pageCount)
  }

  lemma {:induction false} IndicesOnce(n: nat, j: int)
    requires 0 <= j < n
    ensures Occurrences(Indices(n), j) == 1
  {
    assert Indices(n)[..n - 1] == Indices(n - 1);
    if j < n - 1 {
      IndicesOnce(n - 1, j);
    } else {
      IndicesNever(n - 1, j);
    }
  }

  lemma {:induction false} IndicesNever(n: nat, j: int)
    requires j < 0 || j >= n
    ensures Occurrences(Indices(n), j) == 0
  {
    if n > 0 {
      assert Indices(n)[..n - 1] == Indices(n - 1);
      IndicesNever(n - 1, j);
    }
  }

  /** Without a list of indices every page turns by `delta`, exactly once. */
  lemma RotatedEveryPage(pages: seq<Page>, delta: int, j: nat)
    requires j < |pages|
    ensures Rotated(pages, delta, IndicesToRotate(None, |pages|))[j].rotation == pages[j].rotation + delta
  {
    IndicesOnce(|pages|, j);
  }

  lemma {:induction false} OccurrencesAppend(s: seq<int>, t: seq<int>, x: int)
    ensures Occurrences(s + t, x) == Occurrences(s, x) + Occurrences(t, x)
    decreases |t|
  {
    if t == [] {
      assert s + t == s;
    } else {
      var n := |t| - 1;
      assert (s + t)[..|s + t| - 1] == s + t[..n];
      OccurrencesAppend(s, t[..n], x);
    }
  }

  lemma Distribute(d: int, x: int, y: int)
    ensures d * x + d * y == d * (x + y)
  {
  }

  /** Rotating twice with two index lists is rotating once with the joined list. */
  lemma RotatedTwice(pages: seq<Page>, delta: int, s: seq<int>, t: seq<int>)
    ensures Rotated(Rotated(pages, delta, s), delta, t) == Rotated(pages, delta, s + t)
  {
    var m := Rotated(pages, delta, s);
    var a := Rotated(m, delta, t);
    var b := Rotated(pages, delta, s + t);
    forall j | 0 <= j < |pages| ensures a[j] == b[j] {
      OccurrencesAppend(s, t, j);
      Distribute(delta, Occurrences(s, j), Occurrences(t, j));
    }
    assert a == b;
  }

  /** Turning every page by `a` and then by `b` is turning every page by `a + b`
      (a quarter turn twice is a half turn). */
  lemma RotatedAllTwice(pages: seq<Page>, a: int, b: int)
    ensures Rotated(Rotated(pages, a, Indices(|pages|)), b, Indices(|pages|)) == Rotated(pages, a + b, Indices(|pages|))
  {
    var n := |pages|;
    var x := Rotated(Rotated(pages, a, Indices(n)), b, Indices(n));
    var y := Rotated(pages, a + b, Indices(n));
    forall j | 0 <= j < n ensures x[j] == y[j] {
      IndicesOnce(n, j);
    }
  }

  /** Four turns by the same angle of the rotate tool leave every page showing as
      before: the stored angle grows by a whole number of full turns. */
  lemma FourTurnsShowAsBefore(pages: seq<Page>, delta: int, j: nat)
    requires delta == 90 || delta == 180 || delta == 270
    requires j < |pages|
    ensures Rotated(pages, 4 * delta, Indices(|pages|))[j].rotation % 360 == pages[j].rotation % 360
  {
    IndicesOnce(|pages|, j);
    var r := pages[j].rotation;
    assert 4 * delta == 360 * (delta / 90);
    assert (r + 360 * (delta / 90)) % 360 == r % 360;
  }

  /** The saved document `rotatePDF` produces. */
  function Rotation(file: File, delta: int, pageIndices: Option<seq<int>>): Result<Saved, LibError> {
    match Parse(file)
    case Err(e) => Err(e)
    case Ok(d) => Ok(Saved(Rotated(d.pages, delta, IndicesToRotate(pageIndices, |d.pages|)), d.meta, Defaults))
  }

  /** `rotatePDF`: the pages of the file are turned in place, one listed index after another. */
  method RotatePdf(file: File, rotation: int, pageIndices: Option<seq<int>>) returns (r: Result<Saved, LibError>)
    requires rotation == 90 || rotation == 180 || rotation == 270
    ensures r == Rotation(file, rotation, pageIndices)
  {
    var loaded := Load(file);
    if loaded.Err? {
      return Err(loaded.error);
    }
    var pdf := loaded.value;
    var pages := pdf.pages;
    var indicesToRotate := IndicesToRotate(pageIndices, |pages|);
    var k := 0;
    assert indicesToRotate[..k] == [];
    while k < |indicesToRotate|
      invariant 0 <= k <= |indicesToRotate|
      invariant pdf.pages == Rotated(pages, rotation, indicesToRotate[..k])
      invariant pdf.meta == Parse(file).value.meta
    {
      RotatedStep(pages, rotation, indicesToRotate, k);
      var index := indicesToRotate[k];
      if 0 <= index < |pages| {
        var currentRotation := pdf.pages[index].rotation;
        pdf.SetRotation(index, currentRotation + rotation);
      }
      k := k + 1;
    }
    assert indicesToRotate[..k] == indicesToRotate;
    var saved := pdf.Save(Defaults);
    r := Ok(saved);
  }

  // ---------------------------------------------------------------- compress

  /** The information dictionary after compression: five empty strings and no keywords. */
  const Stripped := Metadata(Some(""), Some(""), Some(""), Some([]), Some(""), Some(""))

  /** The saved document `compressPDF` produces: the same pages, the metadata
      cleared, saved with object streams and without a default page. */
  function Compressed(file: File): Result<Saved, LibError> {
    match Parse(file)
    case Err(e) => Err(e)
    case Ok(d) => Ok(Saved(d.pages, Stripped, Explicit(true, false)))
  }

  /** Whatever metadata two files carry, compressing files with the same pages
      gives the same document. */
  lemma CompressedForgetsMetadata(f: File, g: File)
    requires Parse(f).Ok? && Parse(g).Ok? && Parse(f).value.pages == Parse(g).value.pages
    ensures Compressed(f) == Compressed(g)
    ensures Compressed(f).value.pages == Parse(f).value.pages
  {
  }

  /** `compressPDF`. */
  method CompressPdf(file: File) returns (r: Result<Saved, LibError>)
    ensures r == Compressed(file)
  {
    var loaded := Load(file);
    if loaded.Err? {
      return Err(loaded.error);
    }
    var pdf := loaded.value;
    pdf.SetTitle("");
    pdf.SetAuthor("");
    pdf.SetSubject("");
    pdf.SetKeywords([]);
    pdf.SetProducer("");
    pdf.SetCreator("");
    var saved := pdf.Save(Explicit(true, false));
    r := Ok(saved);
  }

  // ---------------------------------------------------------------- watermark

  /** The optional stamp settings of `addWatermark`; `None` is an absent setting. */
  datatype StampOptions = StampOptions(fontSize: Option<real>, opacity: Option<real>, rotation: Option<real>)

  const DefaultFontSize: real := 48.0
  const DefaultOpacity: real := 0.3
  const DefaultRotation: real := -45.0
  const StampColor := Rgb(0.5, 0.5, 0.5)

  /** `value || fallback`: an absent setting and a setting of 0 both give the fallback. */
  function OrDefault(value: Option<real>, fallback: real): (r: real)
    ensures value.Some? && value.value != 0.0 ==> r == value.value
    ensures value.None? || value.value == 0.0 ==> r == fallback
  {
    if value.Some? && value.value != 0.0 then value.value else fallback
  }

  /** The settings a stamp is drawn with: font size, opacity and angle. */
  datatype Settings = Settings(size: real, opacity: real, rotation: real)

  /** `options?.fontSize || 48`, `options?.opacity || 0.3`, `options?.rotation || -45`. */
  function SettingsOf(options: Option<StampOptions>): (s: Settings)
    ensures s.size != 0.0 && s.opacity != 0.0 && s.rotation != 0.0
    ensures options.None? ==> s == Settings(DefaultFontSize, DefaultOpacity, DefaultRotation)
  {
    match options
    case None => Settings(DefaultFontSize, DefaultOpacity, DefaultRotation)
    case Some(o) =>
      Settings(OrDefault(o.fontSize, DefaultFontSize), OrDefault(o.opacity, DefaultOpacity),
               OrDefault(o.rotation, DefaultRotation))
  }

  /** The stamp drawn on a page: the text, centred horizontally by its width at
      the stamp's size and placed at half the page's height. */
  function Stamp(page: Page, text: string, s: Settings, textWidth: real): Drawing {
    Text(text, page.width / 2.0 - textWidth / 2.0, page.height / 2.0, s.size, HelveticaBold, StampColor, s.opacity, s.rotation)
  }

  /** Every page with one more drawing on top: the stamp for that page. */
  function Watermarked(pages: seq<Page>, text: string, s: Settings, textWidth: real): (r: seq<Page>)
    ensures |r| == |pages|
    ensures forall i :: 0 <= i < |pages| ==>
              r[i].width == pages[i].width && r[i].height == pages[i].height && r[i].rotation == pages[i].rotation
              && |r[i].drawings| == |pages[i].drawings| + 1 && r[i].drawings[..|pages[i].drawings|] == pages[i].drawings
  {
    seq(|pages|, i requires 0 <= i < |pages| => pages[i].(drawings := pages[i].drawings + [Stamp(pages[i], text, s, textWidth)]))
  }

  /** Every page gets the same stamp, up to where it stands: the same text,
      size, font, colour, opacity and angle, centred horizontally on the text's
      width and placed at half the page's height. */
  lemma StampsAlike(pages: seq<Page>, text: string, s: Settings, textWidth: real, i: nat, j: nat)
    requires i < |pages| && j < |pages|
    ensures var r := Watermarked(pages, text, s, textWidth);
            var a := r[i].drawings[|r[i].drawings| - 1];
            var b := r[j].drawings[|r[j].drawings| - 1];
            a.Text? && b.Text? && a.text == b.text == text && a.size == b.size == s.size
            && a.opacity == b.opacity == s.opacity && a.rotate == b.rotate == s.rotation
            && a.font == b.font && a.color == b.color
            && a.x + textWidth / 2.0 == pages[i].width / 2.0 && a.y * 2.0 == pages[i].height
  {
  }

  /** The saved document `addWatermark` produces. */
  function Watermarking(file: File, text: string, options: Option<StampOptions>,
                        widthOfTextAtSize: (string, real) -> real): Result<Saved, LibError>
  {
    match Parse(file)
    case Err(e) => Err(e)
    case Ok(d) =>
      var s := SettingsOf(options);
      Ok(Saved(Watermarked(d.pages, text, s, widthOfTextAtSize(text, s.size)), d.meta, Defaults))
  }

  /** Watermarking a readable file keeps its pages, their order and its metadata,
      and puts on top of page `i` the stamp for that page with the defaulted
      settings, measured at their font size; an unreadable file is an error. */
  lemma WatermarkingStampsEveryPage(file: File, text: string, options: Option<StampOptions>,
                                    widthOfTextAtSize: (string, real) -> real, i: nat)
    ensures Watermarking(file, text, options, widthOfTextAtSize).Ok? <==> Parse(file).Ok?
    ensures Parse(file).Ok? && i < |Parse(file).value.pages| ==>
              var s := SettingsOf(options);
              var p := Parse(file).value.pages[i];
              var out := Watermarking(file, text, options, widthOfTextAtSize).value;
              |out.pages| == |Parse(file).value.pages| && out.meta == Parse(file).value.meta
              && out.pages[i].drawings == p.drawings + [Stamp(p, text, s, widthOfTextAtSize(text, s.size))]
  {
  }

  /** A stamp angle of 0 is falsy and is drawn at the default of -45 degrees. */
  lemma ZeroAngleStampsAtDefault(fontSize: Option<real>, opacity: Option<real>)
    ensures SettingsOf(Some(StampOptions(fontSize, opacity, Some(0.0)))).rotation == DefaultRotation
  {
  }

  /** `addWatermark`: every page of the file receives the same stamp, drawn in place.
      `widthOfTextAtSize` is the font's text metric. */
  method AddWatermark(file: File, text: string, options: Option<StampOptions>,
                      widthOfTextAtSize: (string, real) -> real) returns (r: Result<Saved, LibError>)
    ensures r == Watermarking(file, text, options, widthOfTextAtSize)
  {
    var loaded := Load(file);
    if loaded.Err? {
      return Err(loaded.error);
    }
    var pdf := loaded.value;
    var pages := pdf.pages;
    var s := SettingsOf(options);
    ghost var stamped := Watermarked(pages, text, s, widthOfTextAtSize(text, s.size));
    var i := 0;
    while i < |pages|
      invariant 0 <= i <= |pages|
      invariant |pdf.pages| == |pages|
      invariant forall j :: 0 <= j < i ==> pdf.pages[j] == stamped[j]
      invariant forall j :: i <= j < |pages| ==> pdf.pages[j] == pages[j]
      invariant pdf.meta == Parse(file).value.meta
    {
      var textWidth := widthOfTextAtSize(text, s.size);
      pdf.Draw(i, Stamp(pages[i], text, s, textWidth));
      i := i + 1;
    }
    assert pdf.pages == stamped;
    var saved := pdf.Save(Defaults);
    r := Ok(saved);
    assert Parse(file).Ok? && Parse(file).value.pages == pages;
  }

  // ---------------------------------------------------------------- organize

  /** One entry of an organize request: the source page and the angle to add to it. */
  datatype OrderEntry = OrderEntry(originalIndex: int, rotation: int)

  /** Every entry names a page of a document with `n` pages. */
  predicate AllEntriesInRange(order: seq<OrderEntry>, n: nat) {
    forall k :: 0 <= k < |order| ==> InRange(order[k].originalIndex, n)
  }

  /** The copied page with the requested angle added when it is not 0. */
  function Turned(p: Page, delta: int): Page {
    if delta != 0 then p.(rotation := p.rotation + delta) else p
  }

  /** The organized page list: for each entry a copy of its source page, its
      angle increased by the entry's; or the error for the first entry whose
      index is not a page. */
  function Organized(pages: seq<Page>, order: seq<OrderEntry>): (r: Result<seq<Page>, LibError>)
    ensures r.Ok? ==> |r.value| == |order|
    ensures r.Err? ==> r.error.IndexOutOfRange? && !InRange(r.error.index, |pages|)
  {
    if order == [] then Ok([])
    else if !InRange(order[0].originalIndex, |pages|) then
      Err(IndexOutOfRange(order[0].originalIndex))
    else
      Prepend([Turned(pages[order[0].originalIndex], order[0].rotation)], Organized(pages, order[1..]))
  }

  /** Organizing succeeds exactly when every entry names a page; page `k` of
      the result is then the page entry `k` names, its angle plus the entry's. */
  lemma {:induction false} OrganizedMeaning(pages: seq<Page>, order: seq<OrderEntry>)
    ensures Organized(pages, order).Ok? <==> AllEntriesInRange(order, |pages|)
    ensures Organized(pages, order).Ok? ==> forall k :: 0 <= k < |order| ==>
              Organized(pages, order).value[k]
              == pages[order[k].originalIndex].(rotation := pages[order[k].originalIndex].rotation + order[k].rotation)
  {
    if order != [] && InRange(order[0].originalIndex, |pages|) {
      OrganizedMeaning(pages, order[1..]);
      assert forall k :: 0 < k < |order| ==> order[k] == order[1..][k - 1];
      assert AllEntriesInRange(order, |pages|) <==> AllEntriesInRange(order[1..], |pages|) by {
        if AllEntriesInRange(order[1..], |pages|) {
          forall k | 0 <= k < |order| ensures InRange(order[k].originalIndex, |pages|) {
            if k > 0 { assert order[k] == order[1..][k - 1]; }
          }
        }
      }
    }
  }

  /** One entry of the loop: an error for an index that is not a page, or that
      page, turned, ahead of the rest. */
  lemma OrganizedStep(pages: seq<Page>, order: seq<OrderEntry>)
    requires order != []
    ensures !InRange(order[0].originalIndex, |pages|) ==> Organized(pages, order) == Err(IndexOutOfRange(order[0].originalIndex))
    ensures InRange(order[0].originalIndex, |pages|) ==>
              Organized(pages, order) == Prepend([Turned(pages[order[0].originalIndex], order[0].rotation)], Organized(pages, order[1..]))
  {
  }

  /** The saved document `organizePDF` produces. */
  function Organizing(file: File, order: seq<OrderEntry>): Result<Saved, LibError> {
    match Parse(file)
    case Err(e) => Err(e)
    case Ok(d) => Saving(Organized(d.pages, order), NoMetadata, Defaults)
  }

  /** `organizePDF`: one page copied at a time, turned when its angle is not 0, then appended. */
  method OrganizePdf(file: File, pageOrder: seq<OrderEntry>) returns (r: Result<Saved, LibError>)
    ensures r == Organizing(file, pageOrder)
  {
    var loaded := Load(file);
    if loaded.Err? {
      return Err(loaded.error);
    }
    var pdf := loaded.value;
    var pages := pdf.pages;
    var newPdf := new Document.Create();
    var k := 0;
    assert pageOrder[k..] == pageOrder;
    PrependNothing(Organized(pages, pageOrder));
    while k < |pageOrder|
      invariant 0 <= k <= |pageOrder|
      invariant newPdf.meta == NoMetadata && pdf.pages == pages
      invariant Organized(pages, pageOrder) == Prepend(newPdf.pages, Organized(pages, pageOrder[k..]))
    {
      assert pageOrder[k..][0] == pageOrder[k] && pageOrder[k..][1..] == pageOrder[k + 1..];
      OrganizedStep(pages, pageOrder[k..]);
      var entry := pageOrder[k];
      var copied := newPdf.CopyPages(pdf, [entry.originalIndex]);
      if copied.Err? {
        return Err(copied.error);
      }
      var copiedPage := copied.value[0];
      if entry.rotation != 0 {
        var currentRotation := copiedPage.rotation;
        copiedPage := copiedPage.(rotation := currentRotation + entry.rotation);
      }
      assert copiedPage == Turned(pages[entry.originalIndex], entry.rotation);
      PrependTwice(newPdf.pages, [copiedPage], Organized(pages, pageOrder[k + 1..]));
      newPdf.AddPage(copiedPage);
      k := k + 1;
    }
    assert pageOrder[k..] == [] && newPdf.pages + [] == newPdf.pages;
    var saved := newPdf.Save(Defaults);
    r := Ok(saved);
  }

  // ---------------------------------------------------------------- images to PDF

  predicate IsPng(f: File) {
    f.mimeType == "image/png"
  }

  predicate IsJpeg(f: File) {
    f.mimeType == "image/jpeg" || f.mimeType == "image/jpg"
  }

  /** The file is one of the two image types that become pages. */
  predicate IsSupported(f: File) {
    IsPng(f) || IsJpeg(f)
  }

  /** `embedPng` or `embedJpg`, by the file's type. */
  function Embedded(f: File): Result<Image, LibError>
    requires IsSupported(f)
  {
    match (if IsPng(f) then f.body.asPng else f.body.asJpeg)
    case Ok(img) => Ok(img)
    case Err(m) => Err(Undecodable(m))
  }

  /** A page exactly the image's size, with the image drawn at the origin at full size. */
  function ImagePage(img: Image): Page {
    Page(img.width, img.height, 0, [Picture(img, 0.0, 0.0, img.width, img.height)])
  }

  predicate AllEmbed(files: seq<File>) {
    forall k :: 0 <= k < |files| && IsSupported(files[k]) ==> Embedded(files[k]).Ok?
  }

  /** The names of the files of any other type, in list order. */
  function SkippedNames(files: seq<File>): seq<string> {
    if files == [] then []
    else (if IsSupported(files[0]) then [] else [files[0].name]) + SkippedNames(files[1..])
  }

  /** The pages of the image files, in list order. */
  function ImagePages(files: seq<File>): seq<Page>
    requires AllEmbed(files)
  {
    if files == [] then []
    else
      assert AllEmbed(files[1..]) by {
        forall k | 0 <= k < |files| - 1 && IsSupported(files[1..][k]) ensures Embedded(files[1..][k]).Ok? {
          assert files[1..][k] == files[k + 1];
        }
      }
      (if IsSupported(files[0]) then [ImagePage(Embedded(files[0]).value)] else []) + ImagePages(files[1..])
  }

  function CountSupported(files: seq<File>): nat {
    if files == [] then 0 else (if IsSupported(files[0]) then 1 else 0) + CountSupported(files[1..])
  }

  /** What `imagesToPDF` builds: the image pages and the list of skipped names. */
  datatype Compilation = Compilation(pages: seq<Page>, skipped: seq<string>)

  function PrependCompilation(done: Compilation, rest: Result<Compilation, LibError>): Result<Compilation, LibError> {
    match rest
    case Ok(c) => Ok(Compilation(done.pages + c.pages, done.skipped + c.skipped))
    case Err(e) => Err(e)
  }

  lemma PrependCompilationTwice(a: Compilation, b: Compilation, rest: Result<Compilation, LibError>)
    ensures PrependCompilation(a, PrependCompilation(b, rest))
            == PrependCompilation(Compilation(a.pages + b.pages, a.skipped + b.skipped), rest)
  {
    if rest.Ok? {
      assert a.pages + (b.pages + rest.value.pages) == (a.pages + b.pages) + rest.value.pages;
      assert a.skipped + (b.skipped + rest.value.skipped) == (a.skipped + b.skipped) + rest.value.skipped;
    }
  }

  /** One pass over the files: every PNG or JPEG file becomes a page, every other
      file is skipped by name; an image that cannot be decoded fails the whole pass. */
  function Compiled(files: seq<File>): (r: Result<Compilation, LibError>)
    ensures r.Ok? ==> |r.value.pages| + |r.value.skipped| == |files|
  {
    if files == [] then Ok(Compilation([], []))
    else
      var f := files[0];
      if IsSupported(f) then
        match Embedded(f)
        case Err(e) => Err(e)
        case Ok(img) => PrependCompilation(Compilation([ImagePage(img)], []), Compiled(files[1..]))
      else
        PrependCompilation(Compilation([], [f.name]), Compiled(files[1..]))
  }

  /** The pass succeeds exactly when every image decodes; it then yields the
      image pages and the skipped names, in list order, one page per image file. */
  lemma {:induction false} CompiledMeaning(files: seq<File>)
    ensures Compiled(files).Ok? <==> AllEmbed(files)
    ensures Compiled(files).Ok? ==> Compiled(files).value.pages == ImagePages(files)
                                    && Compiled(files).value.skipped == SkippedNames(files)
                                    && |Compiled(files).value.pages| == CountSupported(files)
  {
    if files != [] {
      var f := files[0];
      CompiledMeaning(files[1..]);
      assert AllEmbed(files) <==> (IsSupported(f) ==> Embedded(f).Ok?) && AllEmbed(files[1..]) by {
        if (IsSupported(f) ==> Embedded(f).Ok?) && AllEmbed(files[1..]) {
          forall k | 0 <= k < |files| && IsSupported(files[k]) ensures Embedded(files[k]).Ok? {
            if k > 0 { assert files[k] == files[1..][k - 1]; }
          }
        }
        if AllEmbed(files) {
          forall k | 0 <= k < |files| - 1 && IsSupported(files[1..][k]) ensures Embedded(files[1..][k]).Ok? {
            assert files[1..][k] == files[k + 1];
          }
        }
      }
    }
  }

  /** The result of `imagesToPDF`: the saved document and the skipped file names. */
  datatype ImagesOutput = ImagesOutput(pdf: Saved, skippedFiles: seq<string>)

  function ImagesCompiling(files: seq<File>): Result<ImagesOutput, LibError> {
    match Compiled(files)
    case Ok(c) => Ok(ImagesOutput(Saved(c.pages, NoMetadata, Defaults), c.skipped))
    case Err(e) => Err(e)
  }

  /** One file of the pass: skipped by name, failed, or turned into a page. */
  lemma CompiledStep(files: seq<File>)
    requires files != []
    ensures !IsSupported(files[0]) ==>
              Compiled(files) == PrependCompilation(Compilation([], [files[0].name]), Compiled(files[1..]))
    ensures IsSupported(files[0]) && Embedded(files[0]).Err? ==> Compiled(files) == Err(Embedded(files[0]).error)
    ensures IsSupported(files[0]) && Embedded(files[0]).Ok? ==>
              Compiled(files) == PrependCompilation(Compilation([ImagePage(Embedded(files[0]).value)], []), Compiled(files[1..]))
  {
  }

  /** The loop body of `imagesToPDF` for an image: a page of the image's size,
      then the image drawn over it at full size. */
  method AddImagePage(pdf: Document, image: Image)
    modifies pdf
    ensures pdf.pages == old(pdf.pages) + [ImagePage(image)] && pdf.meta == old(pdf.meta)
  {
    pdf.AddPage(Page(image.width, image.height, 0, []));
    assert [] + [Picture(image, 0.0, 0.0, image.width, image.height)] == [Picture(image, 0.0, 0.0, image.width, image.height)];
    pdf.Draw(|pdf.pages| - 1, Picture(image, 0.0, 0.0, image.width, image.height));
  }

  /** `imagesToPDF`: a new document receives one page per image file. */
  method ImagesToPdf(files: seq<File>) returns (r: Result<ImagesOutput, LibError>)
    ensures r == ImagesCompiling(files)
  {
    var pdf := new Document.Create();
    var skippedFiles: seq<string> := [];
    var k := 0;
    assert files[k..] == files;
    assert PrependCompilation(Compilation([], []), Compiled(files)) == Compiled(files) by {
      if Compiled(files).Ok? {
        assert [] + Compiled(files).value.pages == Compiled(files).value.pages;
        assert [] + Compiled(files).value.skipped == Compiled(files).value.skipped;
      }
    }
    while k < |files|
      invariant 0 <= k <= |files|
      invariant pdf.meta == NoMetadata
      invariant Compiled(files) == PrependCompilation(Compilation(pdf.pages, skippedFiles), Compiled(files[k..]))
    {
      assert files[k..][0] == files[k] && files[k..][1..] == files[k + 1..];
      CompiledStep(files[k..]);
      var file := files[k];
      var image: Image;
      if file.mimeType == "image/png" {
        if file.body.asPng.Err? {
          return Err(Undecodable(file.body.asPng.error));
        }
        image := file.body.asPng.value;
      } else if file.mimeType == "image/jpeg" || file.mimeType == "image/jpg" {
        if file.body.asJpeg.Err? {
          return Err(Undecodable(file.body.asJpeg.error));
        }
        image := file.body.asJpeg.value;
      } else {
        PrependCompilationTwice(Compilation(pdf.pages, skippedFiles), Compilation([], [file.name]), Compiled(files[k + 1..]));
        assert pdf.pages + [] == pdf.pages;
        skippedFiles := skippedFiles + [file.name];
        k := k + 1;
        continue;
      }
      assert Embedded(file) == Ok(image);
      PrependCompilationTwice(Compilation(pdf.pages, skippedFiles), Compilation([ImagePage(image)], []), Compiled(files[k + 1..]));
      assert skippedFiles + [] == skippedFiles;
      AddImagePage(pdf, image);
      k := k + 1;
    }
    assert files[k..] == [];
    assert pdf.pages + [] == pdf.pages && skippedFiles + [] == skippedFiles;
    var saved := pdf.Save(Defaults);
    r := Ok(ImagesOutput(saved, skippedFiles));
  }
}
