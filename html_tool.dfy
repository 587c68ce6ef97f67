/** The HTML-to-PDF tool (app/tools/html-to-pdf/page.tsx): markup typed in or
    read from an uploaded file is rendered into a document. The renderer itself
    is external and given as a parameter. */
module HtmlTool {
  import opened Wrappers
  import opened PdfLib
  import opened ToolState
  import opened Text

  /** Where the markup comes from: the text area or an uploaded file. */
  datatype InputMethod = Paste | FromFile

  datatype PaperFormat = A4 | Letter
  datatype Orientation = Portrait | Landscape

  /** The options handed to the renderer; `maxHeightPerPage` is absent
      (`undefined`) when the page height is left automatic. */
  datatype RenderOptions = RenderOptions(format: PaperFormat, orientation: Orientation, maxHeightPerPage: Option<real>)

  // ---------------------------------------------------------------- output name

  const DefaultName := "converted-html.pdf"

  /** `name.replace(/\.html?$/i, ".pdf")`: a trailing ".html" or ".htm", in any
      case, becomes ".pdf"; any other name is kept. */
  function ReplacedExtension(name: string): (r: string)
    ensures r == name <==> !EndsWithIgnoringCase(name, ".html") && !EndsWithIgnoringCase(name, ".htm")
    ensures r != name ==> 4 <= |r| <= |name| && r[|r| - 4..] == ".pdf" && r[..|r| - 4] == name[..|r| - 4]
  {
    if EndsWithIgnoringCase(name, ".html") then
      LastLetterChanged(name, ".html");
      name[..|name| - 5] + ".pdf"
    else if EndsWithIgnoringCase(name, ".htm") then
      LastLetterChanged(name, ".htm");
      name[..|name| - 4] + ".pdf"
    else name
  }

  /** A name ending in a suffix whose last letter is not "f" in any case differs
      from the name with ".pdf" put in place of that suffix. */
  lemma LastLetterChanged(name: string, suffix: string)
    requires 4 <= |suffix| && EndsWithIgnoringCase(name, suffix)
    requires LowerChar(suffix[|suffix| - 1]) != 'f'
    ensures name[..|name| - |suffix|] + ".pdf" != name
  {
    var tail := name[|name| - |suffix|..];
    assert Lower(tail)[|suffix| - 1] == Lower(suffix)[|suffix| - 1];
    assert name[|name| - 1] == tail[|suffix| - 1];
    assert LowerChar(name[|name| - 1]) != 'f';
    var r := name[..|name| - |suffix|] + ".pdf";
    assert r[|r| - 1] == 'f';
  }

  /** The name the rendered document is saved under: the uploaded file's name
      with its extension replaced, or "converted-html.pdf" without a file or when
      the name is empty. */
  function OutputName(file: Option<File>): (r: string)
    ensures r != ""
    ensures file.None? || file.value.name == "" ==> r == DefaultName
    ensures file.Some? && file.value.name != "" ==> r == ReplacedExtension(file.value.name)
  {
    if file.None? then DefaultName
    else
      var replaced := ReplacedExtension(file.value.name);
      if replaced == "" then DefaultName else replaced
  }

  /** An HTML file named `stem` + ".html" or ".htm", in any case, is saved as
      `stem` + ".pdf". */
  lemma {:induction false} HtmlFileSavedAsPdf(stem: string, extension: string)
    requires SameLetters(extension, ".html") || SameLetters(extension, ".htm")
    ensures ReplacedExtension(stem + extension) == stem + ".pdf"
  {
    var name := stem + extension;
    assert name[|name| - |extension|..] == extension;
    assert name[..|stem|] == stem;
    if |extension| == 4 {
      // ".htm" ends in "m", so the longer suffix cannot match
      assert name[|name| - 1] == extension[3];
      assert LowerChar(name[|name| - 1]) == Lower(extension)[3] == 'm';
      assert !EndsWithIgnoringCase(name, ".html") by {
        if |name| >= 5 {
          var tail := name[|name| - 5..];
          assert Lower(tail)[4] == LowerChar(name[|name| - 1]);
        }
      }
    }
  }

  // ---------------------------------------------------------------- options

  /** `maxHeightPerPage > 0 ? maxHeightPerPage : undefined`. */
  function MaxHeight(v: real): (r: Option<real>)
    ensures r.Some? <==> v > 0.0
    ensures r.Some? ==> r.value == v
  {
    if v > 0.0 then Some(v) else None
  }

  /** `parseFloat(text) || 0`: `parsed` is None when the text is not a number
      (NaN); NaN and 0 both give 0. */
  function NumberOrZero(parsed: Option<real>): (r: real)
    ensures parsed.None? ==> r == 0.0
    ensures parsed.Some? ==> r == parsed.value
  {
    if parsed.None? then 0.0 else parsed.value
  }

  /** An entry that is not a number, zero or negative leaves the page height automatic. */
  lemma AutomaticHeight(parsed: Option<real>)
    ensures MaxHeight(NumberOrZero(parsed)).None? <==> parsed.None? || parsed.value <= 0.0
  {
  }

  const DoneMessage := "Conversion complete."
  const FailedMessage := "Render failed."

  // ---------------------------------------------------------------- tool

  /** The HTML-to-PDF tool's state. */
  class HtmlConverter {
    var htmlContent: string
    var htmlFile: Option<File>
    var inputMethod: InputMethod
    var status: Status
    var message: string
    var format: PaperFormat
    var orientation: Orientation
    var maxHeightPerPage: real
    var downloads: seq<Download>

    constructor()
      ensures htmlContent == "" && htmlFile == None && inputMethod == Paste && status == Idle && message == ""
      ensures format == A4 && orientation == Portrait && maxHeightPerPage == 0.0 && downloads == []
    {
      htmlContent := "";
      htmlFile := None;
      inputMethod := Paste;
      status := Idle;
      message := "";
      format := A4;
      orientation := Portrait;
      maxHeightPerPage := 0.0;
      downloads := [];
    }

    /** The render button is enabled, and `handleConvert` goes ahead: in paste
        mode some non-blank markup, in file mode a file. */
    predicate CanConvert()
      reads this
    {
      if inputMethod == Paste then !Blank(htmlContent) else htmlFile.Some?
    }

    /** The options as `handleConvert` hands them to the renderer. */
    function Options(): (r: RenderOptions)
      reads this
      ensures r.format == format && r.orientation == orientation
      ensures r.maxHeightPerPage.Some? <==> maxHeightPerPage > 0.0
      ensures r.maxHeightPerPage.Some? ==> r.maxHeightPerPage.value == maxHeightPerPage
    {
      RenderOptions(format, orientation, MaxHeight(maxHeightPerPage))
    }

    /** The "Code Input" toggle: paste mode, and the uploaded file is dropped. */
    method ChoosePaste()
      modifies this
      ensures inputMethod == Paste && htmlFile == None && htmlContent == old(htmlContent)
      ensures CanConvert() <==> !Blank(htmlContent)
      ensures status == old(status) && message == old(message) && downloads == old(downloads)
      ensures format == old(format) && orientation == old(orientation) && maxHeightPerPage == old(maxHeightPerPage)
    {
      inputMethod := Paste;
      htmlFile := None;
    }

    /** The "File Upload" toggle: file mode, and the typed markup is cleared. */
    method ChooseFile()
      modifies this
      ensures inputMethod == FromFile && htmlContent == "" && htmlFile == old(htmlFile)
      ensures CanConvert() <==> htmlFile.Some?
      ensures status == old(status) && message == old(message) && downloads == old(downloads)
      ensures format == old(format) && orientation == old(orientation) && maxHeightPerPage == old(maxHeightPerPage)
    {
      inputMethod := FromFile;
      htmlContent := "";
    }

    /** Typing in the text area. */
    method SetContent(text: string)
      modifies this
      ensures htmlContent == text && htmlFile == old(htmlFile) && inputMethod == old(inputMethod)
      ensures status == old(status) && message == old(message) && downloads == old(downloads)
      ensures format == old(format) && orientation == old(orientation) && maxHeightPerPage == old(maxHeightPerPage)
    {
      htmlContent := text;
    }

    /** `handleFileSelected`: a non-empty selection's first file becomes the
        file; an empty one changes nothing. Reading the file's text completes
        later, in `HandleFileRead`. */
    method HandleFileSelected(selected: seq<File>)
      modifies this
      ensures selected != [] ==> htmlFile == Some(selected[0]) && status == Idle
      ensures selected == [] ==> htmlFile == old(htmlFile) && status == old(status)
      ensures htmlContent == old(htmlContent) && inputMethod == old(inputMethod)
      ensures message == old(message) && downloads == old(downloads)
      ensures format == old(format) && orientation == old(orientation) && maxHeightPerPage == old(maxHeightPerPage)
    {
      if |selected| > 0 {
        htmlFile := Some(selected[0]);
        status := Idle;
      }
    }

    /** The file reader's `onload`: the file's text becomes the markup. */
    method HandleFileRead(content: string)
      modifies this
      ensures htmlContent == content && htmlFile == old(htmlFile) && inputMethod == old(inputMethod)
      ensures status == old(status) && message == old(message) && downloads == old(downloads)
      ensures format == old(format) && orientation == old(orientation) && maxHeightPerPage == old(maxHeightPerPage)
    {
      htmlContent := content;
    }

    /** The "Clear" button under an uploaded file. */
    method Clear()
      modifies this
      ensures htmlFile == None && htmlContent == "" && inputMethod == old(inputMethod)
      ensures inputMethod == FromFile ==> !CanConvert()
      ensures status == old(status) && message == old(message) && downloads == old(downloads)
      ensures format == old(format) && orientation == old(orientation) && maxHeightPerPage == old(maxHeightPerPage)
    {
      htmlFile := None;
      htmlContent := "";
    }

    method SetFormat(f: PaperFormat)
      modifies this
      ensures format == f && orientation == old(orientation) && maxHeightPerPage == old(maxHeightPerPage)
      ensures htmlContent == old(htmlContent) && htmlFile == old(htmlFile) && inputMethod == old(inputMethod)
      ensures status == old(status) && message == old(message) && downloads == old(downloads)
    {
      format := f;
    }

    method SetOrientation(o: Orientation)
      modifies this
      ensures orientation == o && format == old(format) && maxHeightPerPage == old(maxHeightPerPage)
      ensures htmlContent == old(htmlContent) && htmlFile == old(htmlFile) && inputMethod == old(inputMethod)
      ensures status == old(status) && message == old(message) && downloads == old(downloads)
    {
      orientation := o;
    }

    /** The "Max Height" field: `parsed` is `parseFloat` of the entry, None when
        it is not a number. */
    method SetMaxHeight(parsed: Option<real>)
      modifies this
      ensures maxHeightPerPage == NumberOrZero(parsed)
      ensures Options().maxHeightPerPage.None? <==> parsed.None? || parsed.value <= 0.0
      ensures format == old(format) && orientation == old(orientation)
      ensures htmlContent == old(htmlContent) && htmlFile == old(htmlFile) && inputMethod == old(inputMethod)
      ensures status == old(status) && message == old(message) && downloads == old(downloads)
    {
      maxHeightPerPage := NumberOrZero(parsed);
    }

    /** `handleConvert`: unless the guard holds nothing happens; otherwise the
        markup is rendered with the chosen options and downloaded. In file mode
        the markup is whatever the reader has delivered so far. `render` is the
        external renderer. */
    method HandleConvert(render: (string, RenderOptions) -> Result<seq<bv8>, string>)
      modifies this
      ensures htmlContent == old(htmlContent) && htmlFile == old(htmlFile) && inputMethod == old(inputMethod)
      ensures format == old(format) && orientation == old(orientation) && maxHeightPerPage == old(maxHeightPerPage)
      ensures !old(CanConvert()) ==> status == old(status) && message == old(message) && downloads == old(downloads)
      ensures old(CanConvert()) ==>
                match render(htmlContent, Options())
                case Ok(bytes) =>
                  status == Success && message == DoneMessage
                  && downloads == old(downloads) + [Download(OutputName(htmlFile), Bytes(bytes))]
                case Err(_) =>
                  status == Error && message == FailedMessage && downloads == old(downloads)
    {
      if !CanConvert() {
        return;
      }
      var content := htmlContent;
      var pdf := render(content, Options());
      if pdf.Err? {
        status := Error;
        message := FailedMessage;
        return;
      }
      var filename := OutputName(htmlFile);
      downloads := downloads + [Download(filename, Bytes(pdf.value))];
      status := Success;
      message := DoneMessage;
    }
  }
}
