/** The part of the PDF library the pipeline relies on, seen from outside.
    Parsing, serialisation, image decoding and font metrics are not modelled:
    a file carries what the library's readers return on its bytes, and saving
    yields a snapshot of the document together with the options it was saved
    with. What is modelled is the library's document object: an ordered list
    of pages and an information dictionary, which the pipeline changes in place. */
module PdfLib {
  import opened Wrappers

  /** The document information fields the pipeline touches; `None` is an absent field. */
  datatype Metadata = Metadata(
    title: Option<string>,
    author: Option<string>,
    subject: Option<string>,
    keywords: Option<seq<string>>,
    producer: Option<string>,
    creator: Option<string>)

  /** The information dictionary of a document built from nothing. */
  const NoMetadata := Metadata(None, None, None, None, None, None)

  datatype Font = HelveticaBold

  datatype Color = Rgb(red: real, green: real, blue: real)

  datatype ImageFormat = Png | Jpeg

  /** A decoded, embedded image with its pixel dimensions. */
  datatype Image = Image(format: ImageFormat, width: real, height: real)

  /** One entry of a page's content: what the page held when it was read, a
      line of text, or an image. */
  datatype Drawing =
    | Original(content: nat)
    | Text(text: string, x: real, y: real, size: real, font: Font, color: Color, opacity: real, rotate: real)
    | Picture(image: Image, x: real, y: real, width: real, height: real)

  /** A page: its size in points, its rotation angle as stored (a multiple of 90,
      never reduced modulo 360) and its content in drawing order. */
  datatype Page = Page(width: real, height: real, rotation: int, drawings: seq<Drawing>)

  /** The document a file's bytes parse to. */
  datatype Parsed = Parsed(pages: seq<Page>, meta: Metadata)

  /** What the library's three readers return on a file's bytes: the document
      parser, the PNG decoder and the JPEG decoder (each a value or the message
      of the error it throws). */
  datatype Body = Body(
    asPdf: Result<Parsed, string>,
    asPng: Result<Image, string>,
    asJpeg: Result<Image, string>)

  /** A file picked by the user: its name, its MIME type as the browser reports
      it, its size in bytes and its contents. */
  datatype File = File(name: string, mimeType: string, size: nat, body: Body)

  /** The options of a save: the library's defaults, or the two the pipeline sets explicitly. */
  datatype SaveOptions = Defaults | Explicit(useObjectStreams: bool, addDefaultPage: bool)

  /** The output of a save: the document as it stood and the options it was saved with. */
  datatype Saved = Saved(pages: seq<Page>, meta: Metadata, options: SaveOptions)

  /** The errors the library throws at the pipeline. */
  datatype LibError =
    | Unparsable(message: string)
    | IndexOutOfRange(index: int)
    | Undecodable(message: string)

  /** Reading a file as a PDF document (the parser's result on its bytes). */
  function Parse(f: File): (r: Result<Parsed, LibError>)
    ensures r.Ok? <==> f.body.asPdf.Ok?
    ensures r.Ok? ==> r.value == f.body.asPdf.value
    ensures r.Err? ==> r.error == Unparsable(f.body.asPdf.error)
  {
    match f.body.asPdf
    case Ok(d) => Ok(d)
    case Err(m) => Err(Unparsable(m))
  }

  /** The list [0, 1, ..., n - 1] of the page indices of an n-page document. */
  function Indices(n: nat): (r: seq<int>)
    ensures |r| == n
    ensures forall i :: 0 <= i < n ==> r[i] == i
  {
    seq(n, i => i)
  }

  /** Index `i` is a page of a document with `n` pages. */
  predicate InRange(i: int, n: nat) {
    0 <= i < n
  }

  predicate AllInRange(indices: seq<int>, n: nat) {
    forall k :: 0 <= k < |indices| ==> InRange(indices[k], n)
  }

  /** Copies of the pages at `indices`, in that order, or the error for the first
      index that is not a page: what copying pages between documents yields. */
  function Picked(pages: seq<Page>, indices: seq<int>): (r: Result<seq<Page>, LibError>)
    ensures r.Ok? <==> AllInRange(indices, |pages|)
    ensures r.Ok? ==> |r.value| == |indices|
    ensures r.Ok? ==> forall k :: 0 <= k < |indices| ==> r.value[k] == pages[indices[k]]
    ensures r.Err? ==> exists k :: 0 <= k < |indices| && !InRange(indices[k], |pages|)
                          && AllInRange(indices[..k], |pages|) && r.error == IndexOutOfRange(indices[k])
  {
    if indices == [] then Ok([])
    else if !InRange(indices[0], |pages|) then
      assert indices[..0] == [];
      Err(IndexOutOfRange(indices[0]))
    else
      match Picked(pages, indices[1..])
      case Err(e) =>
        var k :| 0 <= k < |indices[1..]| && !InRange(indices[1..][k], |pages|)
                 && AllInRange(indices[1..][..k], |pages|) && e == IndexOutOfRange(indices[1..][k]);
        assert indices[..k + 1] == [indices[0]] + indices[1..][..k];
        Err(e)
      case Ok(rest) => Ok([pages[indices[0]]] + rest)
  }

  /** Indices all in range copy to exactly the pages they name. */
  lemma PickedAllInRange(pages: seq<Page>, indices: seq<int>, copies: seq<Page>)
    requires |copies| == |indices|
    requires forall k :: 0 <= k < |indices| ==> InRange(indices[k], |pages|) && copies[k] == pages[indices[k]]
    ensures Picked(pages, indices) == Ok(copies)
  {
    assert Picked(pages, indices).value == copies;
  }

  /** The first index out of range is the one copying reports. */
  lemma {:induction false} PickedFirstBad(pages: seq<Page>, indices: seq<int>, k: nat)
    requires k < |indices| && !InRange(indices[k], |pages|)
    requires forall j :: 0 <= j < k ==> InRange(indices[j], |pages|)
    ensures Picked(pages, indices) == Err(IndexOutOfRange(indices[k]))
  {
    if k > 0 {
      PickedFirstBad(pages, indices[1..], k - 1);
    }
  }

  /** `done` followed by the pages of a successful rest; an error stays the error. */
  function Prepend(done: seq<Page>, rest: Result<seq<Page>, LibError>): Result<seq<Page>, LibError> {
    match rest
    case Ok(ps) => Ok(done + ps)
    case Err(e) => Err(e)
  }

  lemma PrependTwice(a: seq<Page>, b: seq<Page>, rest: Result<seq<Page>, LibError>)
    ensures Prepend(a, Prepend(b, rest)) == Prepend(a + b, rest)
  {
    if rest.Ok? {
      assert a + (b + rest.value) == (a + b) + rest.value;
    }
  }

  /** The library's document object. */
  class Document {
    var pages: seq<Page>
    var meta: Metadata

    /** A new, empty document. */
    constructor Create()
      ensures pages == [] && meta == NoMetadata
    {
      pages := [];
      meta := NoMetadata;
    }

    /** The document object for a parsed file. */
    constructor FromParsed(d: Parsed)
      ensures pages == d.pages && meta == d.meta
    {
      pages := d.pages;
      meta := d.meta;
    }

    /** Appends a page at the end. */
    method AddPage(p: Page)
      modifies this
      ensures pages == old(pages) + [p] && meta == old(meta)
    {
      pages := pages + [p];
    }

    /** Copies the pages of `src` at `indices` for use in this document; this
        document and `src` are left as they are. */
    method CopyPages(src: Document, indices: seq<int>) returns (r: Result<seq<Page>, LibError>)
      ensures r == Picked(src.pages, indices)
    {
      var copies: seq<Page> := [];
      var k := 0;
      while k < |indices|
        invariant 0 <= k <= |indices| && |copies| == k
        invariant forall j :: 0 <= j < k ==> InRange(indices[j], |src.pages|) && copies[j] == src.pages[indices[j]]
      {
        var i := indices[k];
        if !InRange(i, |src.pages|) {
          PickedFirstBad(src.pages, indices, k);
          return Err(IndexOutOfRange(i));
        }
        copies := copies + [src.pages[i]];
        k := k + 1;
      }
      PickedAllInRange(src.pages, indices, copies);
      r := Ok(copies);
    }

    /** Sets the rotation angle of page `i`. */
    method SetRotation(i: nat, angle: int)
      requires i < |pages|
      modifies this
      ensures pages == old(pages)[i := old(pages)[i].(rotation := angle)] && meta == old(meta)
    {
      pages := pages[i := pages[i].(rotation := angle)];
    }

    /** Draws `d` on top of page `i`'s content. */
    method Draw(i: nat, d: Drawing)
      requires i < |pages|
      modifies this
      ensures pages == old(pages)[i := old(pages)[i].(drawings := old(pages)[i].drawings + [d])]
      ensures meta == old(meta)
    {
      pages := pages[i := pages[i].(drawings := pages[i].drawings + [d])];
    }

    method SetTitle(s: string)
      modifies this
      ensures meta == old(meta).(title := Some(s)) && pages == old(pages)
    {
      meta := meta.(title := Some(s));
    }

    method SetAuthor(s: string)
      modifies this
      ensures meta == old(meta).(author := Some(s)) && pages == old(pages)
    {
      meta := meta.(author := Some(s));
    }

    method SetSubject(s: string)
      modifies this
      ensures meta == old(meta).(subject := Some(s)) && pages == old(pages)
    {
      meta := meta.(subject := Some(s));
    }

    method SetKeywords(ks: seq<string>)
      modifies this
      ensures meta == old(meta).(keywords := Some(ks)) && pages == old(pages)
    {
      meta := meta.(keywords := Some(ks));
    }

    method SetProducer(s: string)
      modifies this
      ensures meta == old(meta).(producer := Some(s)) && pages == old(pages)
    {
      meta := meta.(producer := Some(s));
    }

    method SetCreator(s: string)
      modifies this
      ensures meta == old(meta).(creator := Some(s)) && pages == old(pages)
    {
      meta := meta.(creator := Some(s));
    }

    /** Serialises the document as it stands. */
    method Save(options: SaveOptions) returns (s: Saved)
      ensures s == Saved(pages, meta, options)
    {
      s := Saved(pages, meta, options);
    }
  }

  /** `PDFDocument.load`: the document object of a file, or the parser's error. */
  method Load(f: File) returns (r: Result<Document, LibError>)
    ensures r.Ok? <==> Parse(f).Ok?
    ensures r.Ok? ==> fresh(r.value) && r.value.pages == Parse(f).value.pages
                      && r.value.meta == Parse(f).value.meta
    ensures r.Err? ==> r.error == Parse(f).error
  {
    var parsed := Parse(f);
    if parsed.Err? {
      return Err(parsed.error);
    }
    var doc := new Document.FromParsed(parsed.value);
    r := Ok(doc);
  }
}
