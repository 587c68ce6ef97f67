/** The watermark tool (app/tools/watermark/page.tsx): a text stamped on every
    page of the selected file with the size, opacity and angle chosen on three
    sliders. */
module WatermarkTool {
  import opened Wrappers
  import opened PdfLib
  import opened PdfOperations
  import opened ToolState
  import opened Text

  const AppliedMessage := "Watermark applied successfully."
  const FailedMessage := "Operation failed."

  /** A whole number of tenths: the values an opacity slider with step 0.1 produces. */
  predicate InTenths(v: real) {
    (v * 10.0).Floor as real == v * 10.0
  }

  /** The slider domains: font size 20 to 200, opacity 0.1 to 1 in tenths,
      rotation -90 to 90 degrees, in whole steps where no step is given. */
  predicate InDomains(fontSize: int, opacity: real, rotation: int) {
    20 <= fontSize <= 200 && 0.1 <= opacity <= 1.0 && InTenths(opacity) && -90 <= rotation <= 90
  }

  /** The options the page passes to `addWatermark`: the three slider values as they are. */
  function Chosen(fontSize: int, opacity: real, rotation: int): (r: StampOptions)
    ensures r.fontSize == Some(fontSize as real) && r.opacity == Some(opacity) && r.rotation == Some(rotation as real)
  {
    StampOptions(Some(fontSize as real), Some(opacity), Some(rotation as real))
  }

  /** Within the slider domains the stamp gets the chosen size and opacity, and
      the chosen angle except 0, which the falsy default turns into -45. */
  lemma ChosenSettingsReachStamp(fontSize: int, opacity: real, rotation: int)
    requires InDomains(fontSize, opacity, rotation)
    ensures SettingsOf(Some(Chosen(fontSize, opacity, rotation)))
            == Settings(fontSize as real, opacity, if rotation == 0 then DefaultRotation else rotation as real)
  {
  }

  /** The watermark tool's state. */
  class Watermarker {
    var file: Option<File>
    var watermarkText: string
    var fontSize: int
    var opacity: real
    var rotation: int
    var status: Status
    var message: string
    var downloads: seq<Download>

    /** The slider values lie in their domains. */
    predicate Valid()
      reads this
    {
      InDomains(fontSize, opacity, rotation)
    }

    /** The initial parameters: 48 points, 30% opacity, -45 degrees. */
    constructor()
      ensures Valid()
      ensures file == None && watermarkText == "" && fontSize == 48 && opacity == 0.3 && rotation == -45
      ensures status == Idle && message == "" && downloads == []
    {
      file := None;
      watermarkText := "";
      fontSize := 48;
      opacity := 0.3;
      rotation := -45;
      status := Idle;
      message := "";
      downloads := [];
    }

    /** `handleAddWatermark` goes ahead: a file and some non-blank text. */
    predicate CanApply()
      reads this
    {
      file.Some? && !Blank(watermarkText)
    }

    /** `handleFileSelected`: the first file selected becomes the file. */
    method HandleFileSelected(selected: seq<File>)
      modifies this
      ensures file == First(selected) && status == Idle
      ensures watermarkText == old(watermarkText) && fontSize == old(fontSize) && opacity == old(opacity)
      ensures rotation == old(rotation) && message == old(message) && downloads == old(downloads)
    {
      file := First(selected);
      status := Idle;
    }

    /** The Change button: the file is dropped and the uploader shows again. */
    method RemoveFile()
      modifies this
      ensures old(Valid()) ==> Valid()
      ensures file == None && watermarkText == old(watermarkText) && fontSize == old(fontSize) && opacity == old(opacity)
      ensures rotation == old(rotation) && status == old(status) && message == old(message) && downloads == old(downloads)
    {
      file := None;
    }

    method SetText(text: string)
      modifies this
      ensures watermarkText == text && file == old(file) && fontSize == old(fontSize) && opacity == old(opacity)
      ensures rotation == old(rotation) && status == old(status) && message == old(message) && downloads == old(downloads)
    {
      watermarkText := text;
    }

    /** The font size slider. */
    method SetFontSize(v: int)
      requires 20 <= v <= 200
      modifies this
      ensures old(Valid()) ==> Valid()
      ensures fontSize == v && file == old(file) && watermarkText == old(watermarkText) && opacity == old(opacity)
      ensures rotation == old(rotation) && status == old(status) && message == old(message) && downloads == old(downloads)
    {
      fontSize := v;
    }

    /** The opacity slider. */
    method SetOpacity(v: real)
      requires 0.1 <= v <= 1.0 && InTenths(v)
      modifies this
      ensures old(Valid()) ==> Valid()
      ensures opacity == v && file == old(file) && watermarkText == old(watermarkText) && fontSize == old(fontSize)
      ensures rotation == old(rotation) && status == old(status) && message == old(message) && downloads == old(downloads)
    {
      opacity := v;
    }

    /** The rotation slider. */
    method SetRotation(v: int)
      requires -90 <= v <= 90
      modifies this
      ensures old(Valid()) ==> Valid()
      ensures rotation == v && file == old(file) && watermarkText == old(watermarkText) && fontSize == old(fontSize)
      ensures opacity == old(opacity) && status == old(status) && message == old(message) && downloads == old(downloads)
    {
      rotation := v;
    }

    /** `handleAddWatermark`: without a file or with blank text nothing happens;
        otherwise every page is stamped with the untrimmed text and the slider
        values, and the result is downloaded. `widthOfTextAtSize` is the font's
        text measure. */
    method HandleAddWatermark(widthOfTextAtSize: (string, real) -> real)
      modifies this
      ensures file == old(file) && watermarkText == old(watermarkText)
      ensures fontSize == old(fontSize) && opacity == old(opacity) && rotation == old(rotation)
      ensures !old(CanApply()) ==> status == old(status) && message == old(message) && downloads == old(downloads)
      ensures old(CanApply()) ==>
                match Watermarking(file.value, watermarkText, Some(Chosen(fontSize, opacity, rotation)), widthOfTextAtSize)
                case Ok(saved) =>
                  status == Success && message == AppliedMessage
                  && downloads == old(downloads) + [Download("watermarked-" + file.value.name, Pdf(saved))]
                case Err(_) =>
                  status == Error && message == FailedMessage && downloads == old(downloads)
    {
      if file.None? || Blank(watermarkText) {
        return;
      }
      var f := file.value;
      var options := Chosen(fontSize, opacity, rotation);
      var watermarkedPdf := AddWatermark(f, watermarkText, Some(options), widthOfTextAtSize);
      if watermarkedPdf.Err? {
        status := Error;
        message := FailedMessage;
        return;
      }
      downloads := downloads + [Download("watermarked-" + f.name, Pdf(watermarkedPdf.value))];
      status := Success;
      message := AppliedMessage;
    }
  }
}
