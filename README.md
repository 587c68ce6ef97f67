# Any-File PDF tools: a Dafny model

Any-File is a browser application that edits PDF files locally. This project
models two parts of it:

- The page operations in `lib/pdf-operations.ts`:
  - `mergePDFs` concatenates files;
  - `extractPages` copies pages by index;
  - `rotatePDF` turns pages cumulatively, by default all of them, and skips indices that are not pages;
  - `compressPDF` clears six metadata fields;
  - `addWatermark` puts one identical stamp on every page, with `||`-style defaults;
  - `organizePDF` reorders and turns pages;
  - `imagesToPDF` gives one page per PNG or JPEG file and a list of skipped names.
- The state of each tool page that drives them: organize, split, merge,
  images-to-PDF, encrypt, decrypt, compress, HTML-to-PDF and watermark. The
  file picker `components/FileUploader.tsx` is modelled too.

The PDF library (pdf-lib) is not part of the repository, so it is modelled
abstractly in module `PdfLib`:

- A `File` carries what the library would read from its bytes: a parsed
  document, or an error with a message. It also carries the decoded PNG or
  JPEG image.
- A `Document` is a class holding a page sequence and a metadata record.
  Its methods append pages, copy pages, turn pages, draw on pages and set
  metadata, each changing only what it names.
- Saving yields a `Saved` snapshot of pages, metadata and save options. It
  does not serialise anything.

Each operation of `lib/pdf-operations.ts` is an imperative method over a
`Document`, with the source's own loops. Each is proved equal to a
specification function on sequences (`Merging`, `Extracted`, `Rotation`,
`Compressed`, `Watermarking`, `Organizing`, `ImagesCompiling`). The
properties the code promises are proved about those functions as lemmas.

Each tool page is a class whose fields are the page's React state. Its
methods are the page's handlers, each an atomic step, and their `ensures`
give the whole new state. The downloads a handler triggers are recorded in a
`downloads` field.

Routines the pages import but that no shown file defines are parameters of
the handlers that call them:

- `encryptPDF` and `decryptPDF`;
- `htmlToPDF`;
- the font's text measure;
- the byte length of a saved document;
- `toFixed(1)`.

Module layout:

| module | file | models |
|---|---|---|
| `Wrappers` | wrappers.dfy | Option, Result, the first element of a selection |
| `Text` | text.dfy | `trim`, `toLowerCase`, `includes`, case-insensitive suffixes, decimal numerals |
| `PdfLib` | pdf_lib.dfy | the abstract PDF library |
| `PdfOperations` | pdf_operations.dfy | `lib/pdf-operations.ts` |
| `ListEdits` | list_edits.dfy | remove-at and neighbour swap, shared by merge and images-to-PDF |
| `ToolState` | tool_state.dfy | status, downloads |
| `OrganizeTool`, `SplitTool`, `MergeTool`, `ImagesTool`, `EncryptTool`, `DecryptTool`, `CompressTool`, `HtmlTool`, `WatermarkTool` | one file each | the tool pages |
| `FileUploader` | file_uploader.dfy | `components/FileUploader.tsx` |

## Model

| member | source | states |
|---|---|---|
| Wrappers.First | app/tools/watermark/page.tsx:20 | `selectedFiles[0]`: present exactly when the selection is non-empty, and then it is the first file |
| Text.Trim | app/tools/watermark/page.tsx:25 | `trim()` is empty exactly when every character is white space; otherwise it starts and ends with a non-space |
| Text.TrimIdempotent | app/tools/watermark/page.tsx:25 | trimming twice is trimming once |
| Text.Lower | app/tools/decrypt/page.tsx:38 | `toLowerCase()` keeps the length and lower-cases each character |
| Text.LowerKeepsLowerWord | app/tools/decrypt/page.tsx:38-39 | a word without capitals that occurs in a message still occurs after lower-casing |
| Text.DecimalRoundTrip | app/tools/split/page.tsx:180 | the decimal numeral shown for a count reads back as that count |
| PdfLib.Parse | lib/pdf-operations.ts:8 | loading succeeds exactly when the library reads the bytes as a document; the result is that document, otherwise the library's error |
| PdfLib.Load | lib/pdf-operations.ts:8 | `PDFDocument.load` gives a fresh document with the parsed pages and metadata, or the parse error |
| PdfLib.Indices | lib/pdf-operations.ts:39 | `pages.map((_, i) => i)` and `getPageIndices()`: 0 to n-1 in order |
| PdfLib.Picked | lib/pdf-operations.ts:24 | `copyPages` succeeds exactly when every index is a page; copy k is source page `indices[k]`, one copy per index (duplicates included); otherwise the error names the first index that is not a page |
| PdfLib.PickedFirstBad | lib/pdf-operations.ts:24 | when every index before position k is a page and `indices[k]` is not, copying fails on `indices[k]` |
| PdfLib.Document.Create | lib/pdf-operations.ts:4 | `PDFDocument.create()` is a document with no page and none of the six modelled information fields |
| PdfLib.Document.CopyPages | lib/pdf-operations.ts:9 | the copies are exactly `Picked` of the source pages |
| PdfLib.Document.AddPage | lib/pdf-operations.ts:10 | `addPage` appends the page at the end and changes nothing else |
| PdfLib.Document.SetRotation | lib/pdf-operations.ts:46 | `setRotation` changes only the angle of that one page |
| PdfLib.Document.Draw | lib/pdf-operations.ts:92-100 | `drawText`/`drawImage` add one drawing on top of that one page only |
| PdfLib.Document.SetTitle | lib/pdf-operations.ts:58 | only the title changes |
| PdfLib.Document.SetAuthor | lib/pdf-operations.ts:59 | only the author changes |
| PdfLib.Document.SetSubject | lib/pdf-operations.ts:60 | only the subject changes |
| PdfLib.Document.SetKeywords | lib/pdf-operations.ts:61 | only the keywords change |
| PdfLib.Document.SetProducer | lib/pdf-operations.ts:62 | only the producer changes |
| PdfLib.Document.SetCreator | lib/pdf-operations.ts:63 | only the creator changes |
| PdfLib.Document.Save | lib/pdf-operations.ts:13 | the saved document is the current pages and metadata with the save options |
| PdfOperations.AddEach | lib/pdf-operations.ts:10 | `copiedPages.forEach(addPage)` appends all copies in order |
| PdfOperations.PickedAll | lib/pdf-operations.ts:9 | copying `getPageIndices()` copies every page, in order |
| PdfOperations.Merged | lib/pdf-operations.ts:6-10 | the merge succeeds exactly when every file loads, and then has the sum of their page counts |
| PdfOperations.MergedFailsAtFirstUnreadable | lib/pdf-operations.ts:6-10 | a failed merge reports the error of the first file that does not load, all earlier ones loading |
| PdfOperations.MergedAt | lib/pdf-operations.ts:6-10 | page j of file k is output page (pages of the files before k) + j |
| PdfOperations.MergedAppend | lib/pdf-operations.ts:6-10 | merging a + b is the merge of a followed by the merge of b |
| PdfOperations.MergePdfs | lib/pdf-operations.ts:3-14 | `mergePDFs`: the loop's result is the merge of all files into a new document |
| PdfOperations.Extracted | lib/pdf-operations.ts:16-28 | extraction succeeds exactly when the file loads and every index is a page; output page k is source page `pageIndices[k]`, one per index |
| PdfOperations.ExtractedAll | lib/pdf-operations.ts:24-25 | extracting every index in order gives back the file's pages |
| PdfOperations.ExtractPages | lib/pdf-operations.ts:16-28 | `extractPages` computes `Extracted` |
| PdfOperations.Rotated | lib/pdf-operations.ts:41-48 | pages keep their count and order; page j is turned by delta once per occurrence of j in the list, others keep their angle |
| PdfOperations.IndicesOnce | lib/pdf-operations.ts:39 | the default list names every page exactly once |
| PdfOperations.IndicesNever | lib/pdf-operations.ts:42 | an index outside the pages occurs in no default list and turns no page |
| PdfOperations.RotatedEveryPage | lib/pdf-operations.ts:39 | without `pageIndices` every page is turned by the delta |
| PdfOperations.RotatedTwice | lib/pdf-operations.ts:44-46 | rotation is cumulative: two passes are one pass over both lists |
| PdfOperations.RotatedAllTwice | lib/pdf-operations.ts:44-46 | turning all pages by a, then by b, turns them by a + b |
| PdfOperations.FourTurnsShowAsBefore | lib/pdf-operations.ts:44-46 | the angle is stored unreduced, yet four turns of a quarter multiple agree with the original modulo 360 |
| PdfOperations.RotatePdf | lib/pdf-operations.ts:30-51 | `rotatePDF` turns the listed pages in place, one after another, as `Rotation` says |
| PdfOperations.CompressedForgetsMetadata | lib/pdf-operations.ts:57-68 | compression keeps the pages and overwrites the six modelled information fields, so files differing only in those fields compress alike |
| PdfOperations.CompressPdf | lib/pdf-operations.ts:53-69 | `compressPDF` clears title, author, subject, producer and creator to "" and keywords to [], and saves with object streams and no default page |
| PdfOperations.OrDefault | lib/pdf-operations.ts:85-87 | `value \|\| fallback`: a present non-zero value is kept; absent or 0 gives the fallback |
| PdfOperations.SettingsOf | lib/pdf-operations.ts:85-87 | the stamp settings are never 0, and with no options they are 48, 0.3 and -45 |
| PdfOperations.ZeroAngleStampsAtDefault | lib/pdf-operations.ts:87 | an angle of 0 is stamped at -45 |
| PdfOperations.Watermarked | lib/pdf-operations.ts:89-101 | page count, sizes and angles are kept; each page gets exactly one drawing on top of its old ones |
| PdfOperations.StampsAlike | lib/pdf-operations.ts:89-101 | the stamps of any two pages share text, size, font, colour, opacity and angle; each sits at x = width/2 - textWidth/2, y = height/2 |
| PdfOperations.WatermarkingStampsEveryPage | lib/pdf-operations.ts:80-103 | a readable file keeps its page count and its six modelled information fields, and each page gets its stamp; an unreadable file is an error |
| PdfOperations.AddWatermark | lib/pdf-operations.ts:71-104 | `addWatermark` draws the stamp on each page in place, as `Watermarking` says |
| PdfOperations.Organized | lib/pdf-operations.ts:118-128 | one output page per order entry; a failure names an index that is not a page |
| PdfOperations.OrganizedMeaning | lib/pdf-operations.ts:118-128 | organizing succeeds exactly when every entry names a page; output page k is source page `originalIndex` with its angle increased by the entry's rotation |
| PdfOperations.OrganizePdf | lib/pdf-operations.ts:106-131 | `organizePDF` copies, turns and appends one page per entry, as `Organizing` says |
| PdfOperations.Compiled | lib/pdf-operations.ts:137-158 | pages + skipped names = number of files |
| PdfOperations.CompiledMeaning | lib/pdf-operations.ts:137-158 | success exactly when every PNG/JPEG file embeds; pages are one full-size image page per such file in order, skipped are the other names in order |
| PdfOperations.AddImagePage | lib/pdf-operations.ts:150-156 | a page of the image's size is appended with the image drawn at (0, 0) at full size |
| PdfOperations.ImagesToPdf | lib/pdf-operations.ts:133-160 | `imagesToPDF` computes `ImagesCompiling` by its loop |
| ListEdits.RemovedAt | app/tools/merge/page.tsx:50-52 | `filter((_, i) => i !== index)` drops exactly the element at index; an index outside the list drops nothing |
| ListEdits.RemovedAtTakesOne | app/tools/merge/page.tsx:50-52 | removal shortens by one and removes exactly that element from the multiset |
| ListEdits.Moved | app/tools/merge/page.tsx:54-61 | swap with the neighbour when the new index is in bounds, else unchanged; length and multiset are kept |
| ListEdits.MovedUpThenDown | app/tools/merge/page.tsx:54-61 | moving up then down again restores the list |
| ListEdits.MovedDownThenUp | app/tools/merge/page.tsx:54-61 | moving down then up again restores the list |
| ListEdits.SwappedCopy | app/tools/merge/page.tsx:55-58 | the copied array with slots i and j exchanged and nothing else changed |
| ListEdits.SwapIsMove | app/tools/merge/page.tsx:54-61 | the swap on the copy is the neighbour move |
| MergeTool.Merger.constructor | app/tools/merge/page.tsx:14-16 | no files, idle, no message |
| MergeTool.Merger.HandleFilesSelected | app/tools/merge/page.tsx:18-21 | new files go after the old ones, status idle |
| MergeTool.Merger.HandleMerge | app/tools/merge/page.tsx:23-48 | fewer than 2 files gives the error "Please select at least 2 PDF files"; otherwise the merge is downloaded as merged-stack.pdf, or the failure is shown |
| MergeTool.Merger.RemoveFile | app/tools/merge/page.tsx:50-52 | the file list is `RemovedAt` of the old one |
| MergeTool.Merger.ClearFiles | app/tools/merge/page.tsx:92 | the Clear Stack button empties the list and changes nothing else |
| MergeTool.Merger.MoveFile | app/tools/merge/page.tsx:54-61 | the file list is `Moved` of the old one, with the same multiset |
| MergeTool.MergeOfReadableFilesSucceeds | app/tools/merge/page.tsx:24-37 | two or more readable files merge, first file's pages first |
| ImagesTool.NothingSupported | app/tools/images-to-pdf/page.tsx:30-38 | no page is produced exactly when no file is PNG or JPEG |
| ImagesTool.ConvertedCountIsPageCount | app/tools/images-to-pdf/page.tsx:30-32 | `files.length - skippedFiles.length` is the number of pages produced |
| ImagesTool.ImageCompiler.constructor | app/tools/images-to-pdf/page.tsx:12-14 | no files, idle, no message |
| ImagesTool.ImageCompiler.HandleFilesSelected | app/tools/images-to-pdf/page.tsx:16-19 | new files go after the old ones, status idle |
| ImagesTool.ImageCompiler.HandleConvert | app/tools/images-to-pdf/page.tsx:21-49 | an empty list does nothing; no image file gives "Invalid format. Use PNG/JPG." with no download; otherwise compiled-images.pdf is downloaded with the count of images |
| ImagesTool.ImageCompiler.RemoveFile | app/tools/images-to-pdf/page.tsx:51-53 | the file list is `RemovedAt` of the old one |
| ImagesTool.ImageCompiler.ClearFiles | app/tools/images-to-pdf/page.tsx:90 | the Clear All button empties the list and changes nothing else |
| ImagesTool.ImageCompiler.MoveFile | app/tools/images-to-pdf/page.tsx:55-62 | the file list is `Moved` of the old one, with the same multiset |
| OrganizeTool.InitialPages | app/tools/organize/page.tsx:38-45 | n pages give entries 0..n-1, angle 0, none deleted |
| OrganizeTool.QuarterTurned | app/tools/organize/page.tsx:103-111 | the entries of that page turn to (angle + 90) mod 360; nothing else about them, and no other entry, changes |
| OrganizeTool.QuarterTurnedWellFormed | app/tools/organize/page.tsx:107 | angles stay in {0, 90, 180, 270} |
| OrganizeTool.FourQuarterTurnsRestore | app/tools/organize/page.tsx:103-111 | four turns restore the entries |
| OrganizeTool.Flagged | app/tools/organize/page.tsx:113-123 | the entries of that page get the given deleted flag (true to delete, false to restore); nothing else changes |
| OrganizeTool.FlaggedWellFormed | app/tools/organize/page.tsx:113-123 | delete and restore keep the entries well formed |
| OrganizeTool.FlaggedIdempotent | app/tools/organize/page.tsx:113-123 | deleting or restoring twice is doing it once |
| OrganizeTool.RestoreUndoesDelete | app/tools/organize/page.tsx:113-123 | restore after delete gives back the original entries |
| OrganizeTool.FindIndex | app/tools/organize/page.tsx:126 | `findIndex`: the first position listing the page, or -1 exactly when none does |
| OrganizeTool.PageMovedWellFormed | app/tools/organize/page.tsx:125-134 | a move keeps the entries well formed and keeps their multiset |
| OrganizeTool.PageMovedAndBack | app/tools/organize/page.tsx:125-134 | moving a page left and then right restores the order |
| OrganizeTool.PageOrder | app/tools/organize/page.tsx:145-150 | as many order entries as entries not deleted, each carrying such an entry's index and angle |
| OrganizeTool.PageOrderOne | app/tools/organize/page.tsx:145-150 | a deleted entry contributes nothing, any other its index and angle |
| OrganizeTool.PageOrderAppend | app/tools/organize/page.tsx:145-150 | the order of two lists shown in turn is the first's order followed by the second's: `filter(!deleted).map(...)` keeps display order |
| OrganizeTool.PageOrderComplete | app/tools/organize/page.tsx:145-150 | every entry not deleted is sent with its index and angle |
| OrganizeTool.PageOrderOnce | app/tools/organize/page.tsx:145-150 | when each page is listed once, no page index is sent twice |
| OrganizeTool.PageOrderNothingDeleted | app/tools/organize/page.tsx:145-150 | with nothing deleted the order is every entry in display order |
| OrganizeTool.NoActivePages | app/tools/organize/page.tsx:289 | the active count is 0 exactly when every entry is deleted |
| OrganizeTool.OrganizeSucceeds | app/tools/organize/page.tsx:145-152 | the order of well-formed entries organizes the file without error, one page per active entry; output page j is the source page order entry j names, turned further by its angle |
| OrganizeTool.Organizer.constructor | app/tools/organize/page.tsx:21-25 | no file, no entries, idle |
| OrganizeTool.Organizer.HandleFileSelected | app/tools/organize/page.tsx:27-51 | the first file is taken; its initial entries are listed when it loads, none otherwise |
| OrganizeTool.Organizer.Reset | app/tools/organize/page.tsx:200 | the file is dropped, nothing else changes |
| OrganizeTool.Organizer.RotatePage | app/tools/organize/page.tsx:103-111 | the entries become `QuarterTurned`: that page's angle advances a quarter turn, staying well formed |
| OrganizeTool.Organizer.DeletePage | app/tools/organize/page.tsx:113-117 | the entries become `Flagged(..., true)`: that page's entries are marked deleted, nothing else changes |
| OrganizeTool.Organizer.RestorePage | app/tools/organize/page.tsx:119-123 | the entries become `Flagged(..., false)`: that page's entries are no longer deleted, nothing else changes |
| OrganizeTool.Organizer.MovePage | app/tools/organize/page.tsx:125-134 | the entries become `PageMoved`, with the same multiset, staying well formed |
| OrganizeTool.Organizer.HandleOrganize | app/tools/organize/page.tsx:136-163 | without a file nothing happens; otherwise the active order is organized and `organized-` + name downloaded, or the failure shown; with a file and a non-empty entry list of a valid editor it succeeds, producing the pages `OrganizeSucceeds` describes |
| SplitTool.InitialThumbs | app/tools/split/page.tsx:42-48 | n pages give page numbers 1..n, none selected |
| SplitTool.Toggled | app/tools/split/page.tsx:106-112 | the matching thumbnail's selection flips; nothing else changes |
| SplitTool.ToggledTwice | app/tools/split/page.tsx:106-112 | toggling twice is the identity |
| SplitTool.RangeSelected | app/tools/split/page.tsx:120-134 | page numbers and length are kept |
| SplitTool.RangeSelectedOnlyAdds | app/tools/split/page.tsx:125-132 | a page is selected afterwards exactly when it was before or lies in [min, max] |
| SplitTool.RangeSelectedSymmetric | app/tools/split/page.tsx:122-123 | the range is the same from either end |
| SplitTool.AllSet | app/tools/split/page.tsx:153-159 | every flag set to the given value, page numbers kept |
| SplitTool.SelectedIndices | app/tools/split/page.tsx:164-166 | as many indices as selected pages |
| SplitTool.SelectedIndicesSorted | app/tools/split/page.tsx:164-166 | each index is a selected page within [0, n), strictly ascending |
| SplitTool.SelectedIndicesComplete | app/tools/split/page.tsx:164-166 | every selected page is sent |
| SplitTool.SelectedIndicesAscending | app/tools/split/page.tsx:164-166 | the indices are exactly the selected pages, in ascending order |
| SplitTool.SelectAllSendsEveryPage | app/tools/split/page.tsx:153-166 | after select-all the indices are 0..n-1 |
| SplitTool.DeselectAllSendsNothing | app/tools/split/page.tsx:157-168 | after deselect-all no index is sent |
| SplitTool.SplitSucceeds | app/tools/split/page.tsx:164-176 | extracting the selected pages of the loaded file succeeds, one page per selected thumbnail |
| SplitTool.Splitter.constructor | app/tools/split/page.tsx:20-27 | no file, no pages, not dragging |
| SplitTool.Splitter.HandleFileSelected | app/tools/split/page.tsx:30-54 | the first file is taken; its thumbnails and count are set when it loads |
| SplitTool.Splitter.TogglePage | app/tools/split/page.tsx:106-112 | the thumbnails become `Toggled`: that page's selection flips |
| SplitTool.Splitter.HandleMouseDown | app/tools/split/page.tsx:114-118 | dragging starts from this page, whose selection flips (`Toggled`) |
| SplitTool.Splitter.HandleMouseEnter | app/tools/split/page.tsx:120-134 | while dragging the range is selected; otherwise nothing changes |
| SplitTool.Splitter.HandleMouseUp | app/tools/split/page.tsx:136-151 | dragging ends and the start page is cleared |
| SplitTool.Splitter.Reset | app/tools/split/page.tsx:237 | the file is dropped, nothing else changes |
| SplitTool.Splitter.SelectAll | app/tools/split/page.tsx:153-155 | every thumbnail selected, nothing else changes |
| SplitTool.Splitter.DeselectAll | app/tools/split/page.tsx:157-159 | no thumbnail selected, nothing else changes |
| SplitTool.Splitter.HandleSplit | app/tools/split/page.tsx:161-186 | without a file or selection nothing happens; otherwise the selected pages are extracted and `extracted-` + name downloaded with the count, or the failure shown; from a valid state it succeeds |
| EncryptTool.PasswordStrength | app/tools/encrypt/page.tsx:32 | the empty password is weak with score 0 |
| EncryptTool.StrengthBands | app/tools/encrypt/page.tsx:33-40 | score at most 4; weak iff score ≤ 1, medium iff 2..3, strong iff 4 |
| EncryptTool.StrongMeansAllCriteria | app/tools/encrypt/page.tsx:33-40 | strong exactly when all four criteria hold |
| EncryptTool.ScoreGrowsWithTyping | app/tools/encrypt/page.tsx:33-37 | appending characters never lowers the score |
| EncryptTool.Encryptor.constructor | app/tools/encrypt/page.tsx:13-21 | no file, empty passwords, idle |
| EncryptTool.Encryptor.HandleFileSelected | app/tools/encrypt/page.tsx:23-29 | a new file clears both passwords and sets idle |
| EncryptTool.Encryptor.RemoveFile | app/tools/encrypt/page.tsx:102 | the file is dropped, the passwords stay |
| EncryptTool.Encryptor.SetPassword | app/tools/encrypt/page.tsx:124 | only the password changes |
| EncryptTool.Encryptor.SetConfirmPassword | app/tools/encrypt/page.tsx:158 | only the confirmation changes |
| EncryptTool.Encryptor.HandleEncrypt | app/tools/encrypt/page.tsx:45-72 | proceeds only with a file, a non-empty password and a matching confirmation; passes only the user password and downloads `encrypted-` + name |
| DecryptTool.Probe | app/tools/decrypt/page.tsx:28-47 | not encrypted iff the file loads; encrypted iff the load fails with a lower-cased message mentioning password, encrypted or decrypt; undecided otherwise |
| DecryptTool.ProbeSeesWordsAsWritten | app/tools/decrypt/page.tsx:38-40 | a load error containing one of the words as written is classified encrypted |
| DecryptTool.FormShownUnlessLoadable | app/tools/decrypt/page.tsx:130 | the password form shows exactly when the file does not load, undecided included |
| DecryptTool.FailureMessage | app/tools/decrypt/page.tsx:73-77 | "Incorrect password." iff the error contains "password" or "Incorrect", case-sensitively; otherwise "Decryption failed." |
| DecryptTool.CapitalisedPasswordIsPlainFailure | app/tools/decrypt/page.tsx:73 | an error saying only "Password" is a plain failure |
| DecryptTool.Decryptor.constructor | app/tools/decrypt/page.tsx:13-18 | no file, empty password, idle, undecided |
| DecryptTool.Decryptor.HandleFileSelected | app/tools/decrypt/page.tsx:20-48 | password and message cleared, idle, verdict `Probe`, "File is not encrypted." when it loads |
| DecryptTool.Decryptor.RemoveFile | app/tools/decrypt/page.tsx:120 | the file is dropped, nothing else changes |
| DecryptTool.Decryptor.SetPassword | app/tools/decrypt/page.tsx:141 | only the password changes |
| DecryptTool.Decryptor.HandleDecrypt | app/tools/decrypt/page.tsx:50-80 | nothing without a file or password; otherwise `decrypted-` + name is downloaded or `FailureMessage` shown |
| CompressTool.FormatSize | app/tools/compress/page.tsx:62-66 | bytes iff below 1024, KB iff 1024 ≤ b < 1048576, MB iff above |
| CompressTool.FormatSizeInRange | app/tools/compress/page.tsx:62-66 | the shown number is within its unit's range and converts back to the byte count |
| CompressTool.Reduction | app/tools/compress/page.tsx:46 | with input size 0 the result is NaN for output 0 and -Infinity otherwise |
| CompressTool.ReductionSign | app/tools/compress/page.tsx:46 | unclamped: negative iff output > input, zero iff equal, at most 100 |
| CompressTool.Compressor.constructor | app/tools/compress/page.tsx:12-17 | no file, sizes 0, no result |
| CompressTool.Compressor.HandleFileSelected | app/tools/compress/page.tsx:19-26 | file taken, original size set, compressed size 0, result cleared, idle |
| CompressTool.Compressor.RemoveFile | app/tools/compress/page.tsx:96 | the file is dropped, nothing else changes |
| CompressTool.Compressor.ProcessAnother | app/tools/compress/page.tsx:151-155 | the file is dropped and the status is idle |
| CompressTool.Compressor.HandleCompress | app/tools/compress/page.tsx:28-54 | without a file the error "Please select a PDF file"; otherwise the result, its length and the reduction message, or the failure |
| CompressTool.Compressor.HandleDownload | app/tools/compress/page.tsx:56-60 | downloads `compressed-` + name only when a result and a file exist |
| HtmlTool.ReplacedExtension | app/tools/html-to-pdf/page.tsx:53 | unchanged iff the name does not end in .html/.htm in any case; otherwise the stem kept and ".pdf" put at the end |
| HtmlTool.OutputName | app/tools/html-to-pdf/page.tsx:53 | never empty; converted-html.pdf without a file or with an empty name |
| HtmlTool.HtmlFileSavedAsPdf | app/tools/html-to-pdf/page.tsx:53 | stem + .html/.htm in any case is saved as stem + ".pdf" |
| HtmlTool.MaxHeight | app/tools/html-to-pdf/page.tsx:50 | passed only when positive, unchanged |
| HtmlTool.NumberOrZero | app/tools/html-to-pdf/page.tsx:176 | `parseFloat(..) \|\| 0`: NaN gives 0 |
| HtmlTool.AutomaticHeight | app/tools/html-to-pdf/page.tsx:176 | the height is automatic iff the entry is not a number or not positive |
| HtmlTool.HtmlConverter.constructor | app/tools/html-to-pdf/page.tsx:13-22 | paste mode, A4, portrait, height 0 |
| HtmlTool.HtmlConverter.Options | app/tools/html-to-pdf/page.tsx:47-51 | format and orientation as chosen; a height only when positive, and then the chosen height itself |
| HtmlTool.HtmlConverter.ChoosePaste | app/tools/html-to-pdf/page.tsx:80-84 | paste mode, file cleared |
| HtmlTool.HtmlConverter.ChooseFile | app/tools/html-to-pdf/page.tsx:92-96 | file mode, markup cleared |
| HtmlTool.HtmlConverter.SetContent | app/tools/html-to-pdf/page.tsx:111 | only the markup changes |
| HtmlTool.HtmlConverter.HandleFileSelected | app/tools/html-to-pdf/page.tsx:24-37 | a non-empty selection's first file is taken and idle set; an empty one changes nothing |
| HtmlTool.HtmlConverter.HandleFileRead | app/tools/html-to-pdf/page.tsx:31-34 | the read text becomes the markup |
| HtmlTool.HtmlConverter.Clear | app/tools/html-to-pdf/page.tsx:130 | file and markup cleared |
| HtmlTool.HtmlConverter.SetFormat | app/tools/html-to-pdf/page.tsx:148 | only the format changes |
| HtmlTool.HtmlConverter.SetOrientation | app/tools/html-to-pdf/page.tsx:161 | only the orientation changes |
| HtmlTool.HtmlConverter.SetMaxHeight | app/tools/html-to-pdf/page.tsx:176 | the height is `parseFloat \|\| 0` of the entry |
| HtmlTool.HtmlConverter.HandleConvert | app/tools/html-to-pdf/page.tsx:39-63 | nothing in paste mode with blank markup or in file mode without a file; otherwise renders with `Options` and downloads under `OutputName` |
| WatermarkTool.Chosen | app/tools/watermark/page.tsx:33-37 | the slider values are passed unchanged |
| WatermarkTool.ChosenSettingsReachStamp | app/tools/watermark/page.tsx:33-37 | within the slider domains the stamp gets the chosen values, except angle 0, which becomes -45 |
| WatermarkTool.Watermarker.constructor | app/tools/watermark/page.tsx:11-17 | 48 points, 0.3 opacity, -45 degrees, in the slider domains |
| WatermarkTool.Watermarker.HandleFileSelected | app/tools/watermark/page.tsx:19-22 | first file taken, idle |
| WatermarkTool.Watermarker.RemoveFile | app/tools/watermark/page.tsx:78 | the file is dropped, nothing else changes |
| WatermarkTool.Watermarker.SetText | app/tools/watermark/page.tsx:99 | only the text changes |
| WatermarkTool.Watermarker.SetFontSize | app/tools/watermark/page.tsx:116-119 | font size set within 20..200, domains kept |
| WatermarkTool.Watermarker.SetOpacity | app/tools/watermark/page.tsx:132-136 | opacity set within 0.1..1 in tenths, domains kept |
| WatermarkTool.Watermarker.SetRotation | app/tools/watermark/page.tsx:149-152 | angle set within -90..90, domains kept |
| WatermarkTool.Watermarker.HandleAddWatermark | app/tools/watermark/page.tsx:24-48 | nothing without a file or with blank text; otherwise stamps with the slider values and downloads `watermarked-` + name |
| FileUploader.SliceTo | components/FileUploader.tsx:27 | `slice(0, end)`: a prefix of length min(end, n), a negative end counting back |
| FileUploader.Delivered | components/FileUploader.tsx:22-32 | no callback without a list; otherwise a prefix of the list, the whole list when `maxFiles` is absent or 0 |
| FileUploader.LimitTakesFirstFiles | components/FileUploader.tsx:26-29 | with a positive limit exactly the first min(n, maxFiles) files, in order |
| FileUploader.DeliveryIdempotent | components/FileUploader.tsx:24-29 | delivering the delivered files again changes nothing |

## Left out

- pdf-lib internals: byte parsing, serialisation, object streams, `copyPages` resource remapping, image decoding and font metrics. The library is outside the repository. A file carries its parse result, and saving returns a snapshot.
- `encryptPDF`, `decryptPDF`, `htmlToPDF` and `EncryptionOptions`: the pages import them, but `lib/pdf-operations.ts` does not define them. They are parameters of the handlers that call them and may succeed or fail.
- Rasterisation: the pdfjs thumbnails of the organize and split pages, and the whole pdf-to-images page. This is canvas rendering. Thumbnail image URLs are not part of the modelled state.
- Browser I/O: `downloadPDF` and `downloadImage` are recorded as entries of `downloads`. `file.arrayBuffer()`, `FileReader` and the document-wide mouse-up listener are outside the model. The reader's completion is a separate step (`HtmlConverter.HandleFileRead`). The listener has the same effect as `Splitter.HandleMouseUp`.
- Asynchronous timing: the artificial delays, the intermediate "processing" status and its message, and the three-second form resets after encryption and decryption succeed. Each handler is one atomic step, from the state before it to its final status.
- Floating-point formatting: `toFixed(1)` is a parameter, and `toFixed(0)` in the organize header is not modelled. Sizes, opacity and angles are reals, and JavaScript's rounding of `1 - out/in` and of the stamp coordinates is not modelled.
- The rotate page: it calls `rotatePDF` with all pages and a chosen 90, 180 or 270, which `RotatePdf` covers.
- Presentation-only files: the landing and tool index pages, the layout, navigation, footer, shell, button, progress bar, loading overlay and processing status.
- PdfOperations.RotatePdf: requires a delta of 90, 180 or 270, the values the source's parameter type admits.
- ListEdits.Moved: requires an index inside the list. The pages pass positions of listed entries. An index outside the list makes the JavaScript swap write past the array's end, which is not modelled.
- MergeTool.Merger.MoveFile, ImagesTool.ImageCompiler.MoveFile: require an index inside the list, as `ListEdits.Moved` does.
- OrganizeTool.Organizer.MovePage: requires the page to be listed and not deleted, and the move not to go past either end, as the disabled buttons (app/tools/organize/page.tsx:245, 253) ensure.
- OrganizeTool.Organizer.RotatePage: requires a listed entry that is not deleted, as the disabled button (app/tools/organize/page.tsx:261) ensures.
- WatermarkTool.Watermarker.SetFontSize, WatermarkTool.Watermarker.SetOpacity, WatermarkTool.Watermarker.SetRotation: require the slider domains. A range input cannot produce other values.
- EncryptTool.PasswordStrength: counts characters rather than UTF-16 code units, so a length of 8 is counted on characters.
- Text.Lower: lower-cases only A to Z. JavaScript's `toLowerCase` also lower-cases other alphabets, which cannot make "password", "encrypted" or "decrypt" appear or vanish.
- FileUploader.Delivered: takes `maxFiles` as a whole number. A fractional limit, which `slice` would truncate, is not modelled.
- DecryptTool.Probe: the probe's outer failure (the file's bytes cannot be read) is not distinguished from "no file selected"; both give the undecided verdict, as in the source.
- Metadata: the model's information record holds only the six fields `compressPDF` sets (title, author, subject, keywords, producer, creator). Creation and modification dates, other information keys, an XMP metadata stream and pdf-lib's own stamping of Producer, ModDate, Creator and CreationDate on `create()` and `load()` are not modelled, so statements about metadata are about those six fields.
- Rotation angles are stored as the raw sum, with no reduction modulo 360, exactly as `lib/pdf-operations.ts` does. Only the organize editor reduces its own angles.
