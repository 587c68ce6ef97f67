/** The file picker every tool page uses (components/FileUploader.tsx): the
    files chosen or dropped are handed to the page, at most `maxFiles` of them
    when that limit is set. */
module FileUploader {
  import opened Wrappers

  /** JavaScript's `list.slice(0, end)` for a whole number `end`: a negative end
      counts back from the end of the list, and the end is clamped to the list. */
  function SliceTo<T>(list: seq<T>, end: int): (r: seq<T>)
    ensures |r| <= |list| && r == list[..|r|]
    ensures 0 <= end ==> |r| == if end < |list| then end else |list|
    ensures end < 0 ==> |r| == if |list| + end < 0 then 0 else |list| + end
  {
    if end < 0 then (if |list| + end < 0 then [] else list[..|list| + end])
    else if end < |list| then list[..end]
    else list
  }

  /** `handleFiles`: what the page's callback receives, or None when it is not
      called because there is no file list. A `maxFiles` that is absent or 0 sets
      no limit; otherwise a longer list is cut to its first `maxFiles` files. */
  function Delivered<T>(files: Option<seq<T>>, maxFiles: Option<int>): (r: Option<seq<T>>)
    ensures r.Some? <==> files.Some?
    ensures r.Some? ==> |r.value| <= |files.value| && r.value == files.value[..|r.value|]
    ensures files.Some? && (maxFiles.None? || maxFiles.value == 0) ==> r == files
  {
    match files
    case None => None
    case Some(list) =>
      if maxFiles.Some? && maxFiles.value != 0 && |list| > maxFiles.value then Some(SliceTo(list, maxFiles.value))
      else Some(list)
  }

  /** With a positive limit the page receives exactly the first
      `min(|list|, maxFiles)` files, in their original order. */
  lemma LimitTakesFirstFiles<T>(list: seq<T>, maxFiles: int)
    requires maxFiles > 0
    ensures var r := Delivered(Some(list), Some(maxFiles));
            r.Some? && |r.value| == (if |list| < maxFiles then |list| else maxFiles)
            && r.value == list[..|r.value|]
  {
  }

  /** Handing the delivered files through the picker again changes nothing
      when the limit is not negative. */
  lemma DeliveryIdempotent<T>(files: Option<seq<T>>, maxFiles: Option<int>)
    requires maxFiles.None? || maxFiles.value >= 0
    ensures Delivered(Delivered(files, maxFiles), maxFiles) == Delivered(files, maxFiles)
  {
    if files.Some? && maxFiles.Some? && maxFiles.value != 0 && |files.value| > maxFiles.value {
      assert |Delivered(files, maxFiles).value| == maxFiles.value;
    }
  }
}
