/** The compression tool (app/tools/compress/page.tsx): the selected file is
    compressed, the sizes before and after are shown, and the result can be
    downloaded. Number formatting with one decimal (`toFixed(1)`) and the length
    of a saved document are given as parameters. */
module CompressTool {
  import opened Wrappers
  import opened PdfLib
  import opened PdfOperations
  import opened ToolState
  import Text

  // ---------------------------------------------------------------- sizes

  /** A size as `formatSize` shows it: whole bytes, or kilobytes or megabytes
      before rounding to one decimal. */
  datatype SizeText = InBytes(bytes: nat) | InKilobytes(kb: real) | InMegabytes(mb: real)

  const KB: nat := 1024
  const MB: nat := 1024 * 1024

  /** `formatSize`: bytes below 1024, kilobytes below 1024 * 1024, megabytes above. */
  function FormatSize(bytes: nat): (r: SizeText)
    ensures r.InBytes? <==> bytes < KB
    ensures r.InKilobytes? <==> KB <= bytes < MB
    ensures r.InMegabytes? <==> MB <= bytes
  {
    if bytes < KB then InBytes(bytes)
    else if bytes < MB then InKilobytes(bytes as real / KB as real)
    else InMegabytes(bytes as real / MB as real)
  }

  /** The number shown is always in its unit's range: bytes below 1024,
      kilobytes from 1 to below 1024, megabytes from 1 up; and it gives back the
      byte count in that unit. */
  lemma FormatSizeInRange(bytes: nat)
    ensures match FormatSize(bytes)
            case InBytes(b) => b == bytes && b < 1024
            case InKilobytes(k) => 1.0 <= k < 1024.0 && k * 1024.0 == bytes as real
            case InMegabytes(m) => 1.0 <= m && m * 1048576.0 == bytes as real
  {
  }

  /** The text shown: `${bytes} B`, or the one-decimal rendering `fixed1` of the
      value followed by " KB" or " MB". */
  function SizeLabel(s: SizeText, fixed1: real -> string): string {
    match s
    case InBytes(b) => Text.Decimal(b) + " B"
    case InKilobytes(k) => fixed1(k) + " KB"
    case InMegabytes(m) => fixed1(m) + " MB"
  }

  // ---------------------------------------------------------------- reduction

  /** `(1 - out / in) * 100` as JavaScript evaluates it: a number, or minus
      infinity or NaN when the input size is 0. */
  datatype Percent = Finite(value: real) | MinusInfinity | NotANumber

  function Reduction(outSize: nat, inSize: nat): (r: Percent)
    ensures inSize == 0 ==> (r == NotANumber <==> outSize == 0) && (r == MinusInfinity <==> outSize > 0)
  {
    if inSize == 0 then (if outSize == 0 then NotANumber else MinusInfinity)
    else Finite((1.0 - outSize as real / inSize as real) * 100.0)
  }

  /** The reduction is not clamped: it is negative exactly when the output is
      larger than the input, zero when they are equal, and at most 100. */
  lemma ReductionSign(outSize: nat, inSize: nat)
    requires inSize > 0
    ensures Reduction(outSize, inSize).Finite?
    ensures Reduction(outSize, inSize).value < 0.0 <==> outSize > inSize
    ensures Reduction(outSize, inSize).value == 0.0 <==> outSize == inSize
    ensures Reduction(outSize, inSize).value <= 100.0
  {
    var q := outSize as real / inSize as real;
    assert q * inSize as real == outSize as real;
    if outSize > inSize {
      assert q > 1.0;
    } else if outSize == inSize {
      assert q == 1.0;
    } else {
      assert q < 1.0;
    }
  }

  function PercentLabel(p: Percent, fixed1: real -> string): string {
    match p
    case Finite(v) => fixed1(v)
    case MinusInfinity => "-Infinity"
    case NotANumber => "NaN"
  }

  const MissingMessage := "Please select a PDF file"
  const FailedMessage := "Failed to compress PDF. Please try again."

  function DoneMessage(p: Percent, fixed1: real -> string): string {
    "Optimization Complete. Reduced by " + PercentLabel(p, fixed1) + "%"
  }

  // ---------------------------------------------------------------- tool

  /** The compression tool's state. */
  class Compressor {
    var file: Option<File>
    var status: Status
    var message: string
    var originalSize: nat
    var compressedSize: nat
    var compressedPdfData: Option<Saved>
    var downloads: seq<Download>

    constructor()
      ensures file == None && status == Idle && message == "" && originalSize == 0 && compressedSize == 0
      ensures compressedPdfData == None && downloads == []
    {
      file := None;
      status := Idle;
      message := "";
      originalSize := 0;
      compressedSize := 0;
      compressedPdfData := None;
      downloads := [];
    }

    /** `handleFileSelected`: the first file becomes the file and the sizes and
        result are reset. With no file selected, reading its size throws and
        only the file is updated. */
    method HandleFileSelected(selected: seq<File>)
      modifies this
      ensures file == First(selected) && message == old(message) && downloads == old(downloads)
      ensures selected != [] ==>
                originalSize == selected[0].size && status == Idle && compressedSize == 0 && compressedPdfData == None
      ensures selected == [] ==>
                originalSize == old(originalSize) && status == old(status)
                && compressedSize == old(compressedSize) && compressedPdfData == old(compressedPdfData)
    {
      file := First(selected);
      if selected == [] {
        return;
      }
      originalSize := selected[0].size;
      status := Idle;
      compressedSize := 0;
      compressedPdfData := None;
    }

    /** The Remove button: the file is dropped and the uploader shows again. */
    method RemoveFile()
      modifies this
      ensures file == None && status == old(status) && message == old(message) && downloads == old(downloads)
      ensures originalSize == old(originalSize) && compressedSize == old(compressedSize)
      ensures compressedPdfData == old(compressedPdfData)
    {
      file := None;
    }

    /** The "Process Another File" button: the file is dropped and the status is idle again. */
    method ProcessAnother()
      modifies this
      ensures file == None && status == Idle && message == old(message) && downloads == old(downloads)
      ensures originalSize == old(originalSize) && compressedSize == old(compressedSize)
      ensures compressedPdfData == old(compressedPdfData)
    {
      file := None;
      status := Idle;
    }

    /** `handleCompress`: without a file an error is shown; otherwise the file
        is compressed and the reduction reported. `lengthOf` is the byte length
        of a saved document. */
    method HandleCompress(lengthOf: Saved -> nat, fixed1: real -> string)
      modifies this
      ensures file == old(file) && originalSize == old(originalSize) && downloads == old(downloads)
      ensures old(file).None? ==>
                status == Error && message == MissingMessage
                && compressedSize == old(compressedSize) && compressedPdfData == old(compressedPdfData)
      ensures old(file).Some? ==>
                match Compressed(old(file).value)
                case Ok(saved) =>
                  status == Success && compressedPdfData == Some(saved) && compressedSize == lengthOf(saved)
                  && message == DoneMessage(Reduction(lengthOf(saved), old(file).value.size), fixed1)
                case Err(_) =>
                  status == Error && message == FailedMessage
                  && compressedSize == old(compressedSize) && compressedPdfData == old(compressedPdfData)
    {
      if file.None? {
        status := Error;
        message := MissingMessage;
        return;
      }
      var f := file.value;
      var compressedPdf := CompressPdf(f);
      if compressedPdf.Err? {
        status := Error;
        message := FailedMessage;
        return;
      }
      compressedPdfData := Some(compressedPdf.value);
      compressedSize := lengthOf(compressedPdf.value);
      var reduction := Reduction(lengthOf(compressedPdf.value), f.size);
      status := Success;
      message := DoneMessage(reduction, fixed1);
    }

    /** `handleDownload`: the compressed result is downloaded when there is one and a file. */
    method HandleDownload()
      modifies this
      ensures file == old(file) && status == old(status) && message == old(message)
      ensures originalSize == old(originalSize) && compressedSize == old(compressedSize)
      ensures compressedPdfData == old(compressedPdfData)
      ensures downloads == (if compressedPdfData.Some? && file.Some?
                            then old(downloads) + [Download("compressed-" + file.value.name, Pdf(compressedPdfData.value))]
                            else old(downloads))
    {
      if compressedPdfData.Some? && file.Some? {
        downloads := downloads + [Download("compressed-" + file.value.name, Pdf(compressedPdfData.value))];
      }
    }
  }
}
