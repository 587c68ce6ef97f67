/** The merge tool (app/tools/merge/page.tsx): a list of PDF files the user
    adds to, reorders and prunes, merged in list order into one document. */
module MergeTool {
  import opened Wrappers
  import opened PdfLib
  import opened PdfOperations
  import opened ListEdits
  import opened ToolState

  const TooFewMessage := "Please select at least 2 PDF files"
  const MergedMessage := "Stack merged successfully."
  const FailedMessage := "Failed to merge PDFs. Please try again."
  const OutputName := "merged-stack.pdf"

  /** The merge tool's state. */
  class Merger {
    var files: seq<File>
    var status: Status
    var message: string
    var downloads: seq<Download>

    constructor()
      ensures files == [] && status == Idle && message == "" && downloads == []
    {
      files := [];
      status := Idle;
      message := "";
      downloads := [];
    }

    /** `handleFilesSelected`: the new files go after the ones already listed. */
    method HandleFilesSelected(selected: seq<File>)
      modifies this
      ensures files == old(files) + selected && status == Idle
      ensures message == old(message) && downloads == old(downloads)
    {
      files := files + selected;
      status := Idle;
    }

    /** `handleMerge`: fewer than two files is an error; otherwise the files are
        merged in list order and the result is downloaded. */
    method HandleMerge()
      modifies this
      ensures files == old(files)
      ensures |old(files)| < 2 ==> status == Error && message == TooFewMessage && downloads == old(downloads)
      ensures |old(files)| >= 2 ==>
                match Merging(old(files))
                case Ok(saved) =>
                  status == Success && message == MergedMessage
                  && downloads == old(downloads) + [Download(OutputName, Pdf(saved))]
                case Err(_) =>
                  status == Error && message == FailedMessage && downloads == old(downloads)
    {
      if |files| < 2 {
        status := Error;
        message := TooFewMessage;
        return;
      }
      var mergedPdf := MergePdfs(files);
      if mergedPdf.Ok? {
        downloads := downloads + [Download(OutputName, Pdf(mergedPdf.value))];
        status := Success;
        message := MergedMessage;
      } else {
        status := Error;
        message := FailedMessage;
      }
    }

    /** `removeFile`: the file at `index` leaves the list. */
    method RemoveFile(index: int)
      modifies this
      ensures files == RemovedAt(old(files), index)
      ensures status == old(status) && message == old(message) && downloads == old(downloads)
    {
      files := RemovedAt(files, index);
    }

    /** The Clear Stack button: the list is emptied. */
    method ClearFiles()
      modifies this
      ensures files == []
      ensures status == old(status) && message == old(message) && downloads == old(downloads)
    {
      files := [];
    }

    /** `moveFile`: the file at `index` swaps with its neighbour above or below,
        when there is one. */
    method MoveFile(index: nat, d: Direction)
      requires index < |files|
      modifies this
      ensures files == Moved(old(files), index, d) && multiset(files) == multiset(old(files))
      ensures status == old(status) && message == old(message) && downloads == old(downloads)
    {
      var newIndex := Target(index, d);
      if 0 <= newIndex < |files| {
        var newFiles := SwappedCopy(files, index, newIndex);
        SwapIsMove(files, index, d, newFiles);
        files := newFiles;
      }
    }
  }

  /** Merging at least two readable files succeeds: the first file's pages come
      first, then the merge of the others. */
  lemma MergeOfReadableFilesSucceeds(files: seq<File>)
    requires |files| >= 2 && AllParse(files)
    ensures Merging(files).Ok? && |Merging(files).value.pages| == TotalPages(files)
    ensures Merging(files).value.pages == Parse(files[0]).value.pages + Merged(files[1..]).value
  {
    assert AllParse(files[1..]) by {
      assert forall k :: 0 <= k < |files| - 1 ==> files[1..][k] == files[k + 1];
    }
  }
}
