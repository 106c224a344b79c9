/** The image picker of the listing form: a bounded list of preview data URLs,
    grown by appending the processed files when they fit, shrunk by removing one
    index, and reported to the parent form after every change. */
module ImageUpload {

  import opened Common

  const DefaultMaxImages: int := 5

  /** `maxImages = 5` */
  function MaxImagesOf(setting: Option<int>): int {
    Or(setting, DefaultMaxImages)
  }

  /** `previews.length + files.length > maxImages` */
  predicate OverCapacity(previews: seq<string>, fileCount: nat, maxImages: int) {
    |previews| + fileCount > maxImages
  }

  /** `handleFileChange`: the previews after a selection of `fileCount` files whose
      compression and reading gave `processed` (`None` when either threw). A
      selection that does not fit, or that fails, changes nothing; otherwise the
      new previews follow the old ones and the list stays within capacity. */
  function AfterAdd(previews: seq<string>, fileCount: nat, processed: Option<seq<string>>, maxImages: int): (r: seq<string>)
    requires processed.Some? ==> |processed.value| == fileCount
    ensures OverCapacity(previews, fileCount, maxImages) || processed.None? ==> r == previews
    ensures r == previews || (processed.Some? && r == previews + processed.value && |r| <= maxImages)
  {
    if OverCapacity(previews, fileCount, maxImages) then previews
    else if processed.None? then previews
    else previews + processed.value
  }

  /** `previews.filter((_, i) => i !== index)` */
  function RemoveAt(previews: seq<string>, index: int): (r: seq<string>)
    ensures 0 <= index < |previews| ==> r == previews[..index] + previews[index + 1..]
    ensures !(0 <= index < |previews|) ==> r == previews
    decreases |previews|
  {
    if previews == [] then []
    else (if index == 0 then [] else [previews[0]]) + RemoveAt(previews[1..], index - 1)
  }

  /** Adding and removing never take a list that was within capacity above it. */
  lemma ChangesKeepCapacity(previews: seq<string>, fileCount: nat, processed: Option<seq<string>>,
                            maxImages: int, index: int)
    requires |previews| <= maxImages
    requires processed.Some? ==> |processed.value| == fileCount
    ensures |AfterAdd(previews, fileCount, processed, maxImages)| <= maxImages
    ensures |RemoveAt(previews, index)| <= maxImages
  {
  }

  /** When the add control is hidden the list is full, and no selection of at
      least one file gets in. */
  lemma HiddenControlMeansFull(previews: seq<string>, fileCount: nat, processed: Option<seq<string>>, maxImages: int)
    requires !(|previews| < maxImages) && fileCount >= 1
    requires processed.Some? ==> |processed.value| == fileCount
    ensures AfterAdd(previews, fileCount, processed, maxImages) == previews
  {
  }

  /** The component's state. `reported` is the list the parent last received
      through `onChange`. */
  class ImagePicker {
    var previews: seq<string>
    var reported: seq<string>
    var maxImages: int
    var isCompressing: bool

    /** `useState(images || [])` and the `maxImages` default. */
    constructor (images: Option<seq<string>>, maxSetting: Option<int>)
      ensures previews == Or(images, []) && reported == Or(images, [])
      ensures maxImages == MaxImagesOf(maxSetting) && !isCompressing
    {
      previews := Or(images, []);
      reported := Or(images, []);
      maxImages := MaxImagesOf(maxSetting);
      isCompressing := false;
    }

    /** `handleFileChange`; returns whether the "Maximum images" alert was shown. */
    method HandleFileChange(fileCount: nat, processed: Option<seq<string>>) returns (alerted: bool)
      requires processed.Some? ==> |processed.value| == fileCount
      modifies this`previews, this`reported, this`isCompressing
      ensures alerted <==> OverCapacity(old(previews), fileCount, maxImages)
      ensures previews == AfterAdd(old(previews), fileCount, processed, maxImages)
      ensures reported == (if !alerted && processed.Some? then previews else old(reported))
      ensures isCompressing == (alerted && old(isCompressing))
    {
      if OverCapacity(previews, fileCount, maxImages) {
        return true;
      }
      alerted := false;
      isCompressing := true;
      if processed.Some? {
        var updated := previews + processed.value;
        previews := updated;
        reported := updated;
      }
      isCompressing := false;
    }

    /** `removeImage(index)` */
    method RemoveImage(index: int)
      modifies this`previews, this`reported
      ensures previews == RemoveAt(old(previews), index) && reported == previews
    {
      var updated := RemoveAt(previews, index);
      previews := updated;
      reported := updated;
    }

    /** Whether the add control is rendered. */
    method ShowsAddControl() returns (shown: bool)
      ensures shown <==> |previews| < maxImages
    {
      shown := |previews| < maxImages;
    }
  }
}
