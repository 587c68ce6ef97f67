/** The images-to-PDF tool (app/tools/images-to-pdf/page.tsx): a list of image
    files compiled, in list order, into one document with a page per image. */
module ImagesTool {
  import opened Wrappers
  import opened PdfLib
  import opened PdfOperations
  import opened ListEdits
  import opened ToolState
  import Text

  const InvalidMessage := "Invalid format. Use PNG/JPG."
  const FailedMessage := "Conversion failed."
  const OutputName := "compiled-images.pdf"

  /** The success message, reporting the number of images compiled. */
  function CompiledMessage(count: nat): string {
    "Compiled " + Text.Decimal(count) + " images."
  }

  /** No file becomes a page exactly when none of them is a PNG or JPEG file. */
  lemma {:induction false} NothingSupported(files: seq<File>)
    ensures CountSupported(files) == 0 <==> forall k :: 0 <= k < |files| ==> !IsSupported(files[k])
  {
    if files != [] {
      NothingSupported(files[1..]);
      assert forall k :: 0 < k < |files| ==> files[k] == files[1..][k - 1];
    }
  }

  /** The count the tool reports, `files.length - skippedFiles.length`, is the
      number of image pages in the output. */
  lemma ConvertedCountIsPageCount(files: seq<File>)
    requires ImagesCompiling(files).Ok?
    ensures |files| - |ImagesCompiling(files).value.skippedFiles| == |ImagesCompiling(files).value.pdf.pages|
    ensures |ImagesCompiling(files).value.pdf.pages| == CountSupported(files)
  {
    CompiledMeaning(files);
  }

  /** The images-to-PDF tool's state. */
  class ImageCompiler {
    var files: seq<File>
    var status: Status
    var message: string
    var downloads: seq<Download>

    constructor()
      ensures files == [] && status == Idle && message == "" && downloads == []
    {
      files := [];
      status := Idle;
      message := "";
      downloads := [];
    }

    /** `handleFilesSelected`: the new files go after the ones already listed. */
    method HandleFilesSelected(selected: seq<File>)
      modifies this
      ensures files == old(files) + selected && status == Idle
      ensures message == old(message) && downloads == old(downloads)
    {
      files := files + selected;
      status := Idle;
    }

    /** `handleConvert`: nothing happens on an empty list; a list with no image
        file is an error; otherwise the compiled document is downloaded. */
    method HandleConvert()
      modifies this
      ensures files == old(files)
      ensures old(files) == [] ==> status == old(status) && message == old(message) && downloads == old(downloads)
      ensures old(files) != [] ==>
                match ImagesCompiling(old(files))
                case Err(_) =>
                  status == Error && message == FailedMessage && downloads == old(downloads)
                case Ok(out) =>
                  if CountSupported(old(files)) == 0 then
                    status == Error && message == InvalidMessage && downloads == old(downloads)
                  else
                    status == Success && message == CompiledMessage(CountSupported(old(files)))
                    && downloads == old(downloads) + [Download(OutputName, Pdf(out.pdf))]
    {
      if |files| == 0 {
        return;
      }
      var compiled := ImagesToPdf(files);
      CompiledMeaning(files);
      if compiled.Err? {
        status := Error;
        message := FailedMessage;
        return;
      }
      var convertedCount := |files| - |compiled.value.skippedFiles|;
      if convertedCount == 0 {
        status := Error;
        message := InvalidMessage;
        return;
      }
      downloads := downloads + [Download(OutputName, Pdf(compiled.value.pdf))];
      status := Success;
      message := CompiledMessage(convertedCount);
    }

    /** `removeFile`: the file at `index` leaves the list. */
    method RemoveFile(index: int)
      modifies this
      ensures files == RemovedAt(old(files), index)
      ensures status == old(status) && message == old(message) && downloads == old(downloads)
    {
      files := RemovedAt(files, index);
    }

    /** The Clear All button: the list is emptied. */
    method ClearFiles()
      modifies this
      ensures files == []
      ensures status == old(status) && message == old(message) && downloads == old(downloads)
    {
      files := [];
    }

    /** `moveFile`: the file at `index` swaps with its neighbour above or below,
        when there is one. */
    method MoveFile(index: nat, d: Direction)
      requires index < |files|
      modifies this
      ensures files == Moved(old(files), index, d) && multiset(files) == multiset(old(files))
      ensures status == old(status) && message == old(message) && downloads == old(downloads)
    {
      var newIndex := Target(index, d);
      if 0 <= newIndex < |files| {
        var newFiles := SwappedCopy(files, index, newIndex);
        SwapIsMove(files, index, d, newFiles);
        files := newFiles;
      }
    }
  }
}
