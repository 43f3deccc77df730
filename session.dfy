/**
 * The application session: the user's settings, the store of processed
 * images (a slot per image, emptied in place when its card is removed),
 * the batch loop that fills it, and the bridge between the store and the
 * edit session (open, finish, cancel).
 *
 * The stages that run in the browser or in the detector (reading the file,
 * decoding the image, detecting faces, landmarks and ages) are given as an
 * input per file: their outcome, or the stage that failed. The user-visible
 * toasts of the batch loop are recorded as notices.
 */
module Session {
  import opened Wrappers
  import opened Geometry
  import opened Masks
  import opened Compositing
  import opened Editor

  /** The foreign stage that failed for a file: the file read, the image decode, or detection. */
  datatype FailureKind = ReadFailed | LoadFailed | DetectFailed

  /** What the foreign stages produce for a file: the decoded image's natural size and the detections. */
  datatype Analysis = Analysis(naturalWidth: real, naturalHeight: real, detections: seq<Detection>)

  datatype ImageFile = ImageFile(name: string, analysis: Result<Analysis, FailureKind>)

  /** One entry of the store; `output` stands for the processed picture, as the list of what is drawn. */
  datatype ProcessedImage = ProcessedImage(
    originalName: string,
    processedName: string,
    faceCount: nat,
    maskedCount: nat,
    masks: seq<Mask>,
    width: real,
    height: real,
    output: seq<Paint>)

  /** The toasts of the batch loop. */
  datatype Notice = ModelNotReady | StillProcessing | FileFailed(name: string) | BatchDone(count: nat)

  /** The settings at start-up. */
  const DefaultSettings: Settings := Settings("😊", 110, Emoji, false, 12)

  /**
   * The result of processing one file: a failed stage fails the file;
   * otherwise the masks built from the detections, drawn over the image.
   */
  function Processed(f: ImageFile, s: Settings, math: Maths): (r: Result<ProcessedImage, FailureKind>)
    ensures r.Failure? <==> f.analysis.Failure?
    ensures r.Failure? ==> r.error == f.analysis.error
    ensures r.Success? ==>
      && r.value.originalName == f.name
      && r.value.processedName == "protected_" + f.name
      && r.value.faceCount == |f.analysis.value.detections|
      && r.value.maskedCount == |r.value.masks| <= r.value.faceCount
      && (!s.childOnlyMode ==> r.value.maskedCount == r.value.faceCount)
      && r.value.masks == MasksFor(f.analysis.value.detections, s, math)
      && r.value.output == CompositeOf(r.value.masks, f.analysis.value.naturalWidth, f.analysis.value.naturalHeight)
  {
    match f.analysis
    case Failure(e) => Failure(e)
    case Success(a) =>
      var masks := MasksFor(a.detections, s, math);
      MaskCount(a.detections, s, math);
      Success(ProcessedImage(f.name, "protected_" + f.name, |a.detections|, |masks|, masks,
                             a.naturalWidth, a.naturalHeight, CompositeOf(masks, a.naturalWidth, a.naturalHeight)))
  }

  lemma MaskCount(dets: seq<Detection>, s: Settings, math: Maths)
    ensures |MasksFor(dets, s, math)| <= |dets|
    ensures !s.childOnlyMode ==> |MasksFor(dets, s, math)| == |dets|
  {
    MaskedAtMostFaces(dets, s, math);
    if !s.childOnlyMode {
      MasksForAllFaces(dets, s, math);
    }
  }

  /** Processing one file: build the masks, count them, draw them. */
  method ProcessImage(f: ImageFile, s: Settings, math: Maths) returns (r: Result<ProcessedImage, FailureKind>)
    ensures r == Processed(f, s, math)
  {
    match f.analysis
    case Failure(e) =>
      r := Failure(e);
    case Success(a) =>
      var masks, maskedCount := BuildMasks(a.detections, s, math);
      var output := DrawMasks(masks, a.naturalWidth, a.naturalHeight);
      r := Success(ProcessedImage(f.name, "protected_" + f.name, |a.detections|, maskedCount, masks,
                                  a.naturalWidth, a.naturalHeight, output));
  }

  /** The processed images of a batch, in input order, failed files skipped. */
  function Successes(files: seq<ImageFile>, s: Settings, math: Maths): seq<ProcessedImage>
  {
    if |files| == 0 then []
    else
      var last := files[|files| - 1];
      Successes(files[..|files| - 1], s, math) +
        (match Processed(last, s, math) case Success(p) => [p] case Failure(_) => [])
  }

  /** The error toasts of a batch: one per failed file, in input order. */
  function FailureNotices(files: seq<ImageFile>): seq<Notice>
  {
    if |files| == 0 then []
    else
      var last := files[|files| - 1];
      FailureNotices(files[..|files| - 1]) + (if last.analysis.Failure? then [FileFailed(last.name)] else [])
  }

  /** A batch is processed file by file: the results of a concatenation are the concatenation of the results. */
  lemma {:induction false} SuccessesAppend(a: seq<ImageFile>, b: seq<ImageFile>, s: Settings, math: Maths)
    ensures Successes(a + b, s, math) == Successes(a, s, math) + Successes(b, s, math)
    ensures FailureNotices(a + b) == FailureNotices(a) + FailureNotices(b)
  {
    if |b| == 0 {
      assert a + b == a;
    } else {
      var init := b[..|b| - 1];
      assert (a + b)[..|a + b| - 1] == a + init;
      assert (a + b)[|a + b| - 1] == b[|b| - 1];
      SuccessesAppend(a, init, s, math);
    }
  }

  /** Every file of a batch is accounted for: it is either stored or reported as failed. */
  lemma {:induction false} EveryFileAccounted(files: seq<ImageFile>, s: Settings, math: Maths)
    ensures |Successes(files, s, math)| + |FailureNotices(files)| == |files|
  {
    if |files| > 0 {
      EveryFileAccounted(files[..|files| - 1], s, math);
    }
  }

  /** When no stage fails, every file is stored, i-th file in i-th place. */
  lemma {:induction false} AllSucceed(files: seq<ImageFile>, s: Settings, math: Maths)
    requires forall i :: 0 <= i < |files| ==> files[i].analysis.Success?
    ensures |Successes(files, s, math)| == |files|
    ensures forall i :: 0 <= i < |files| ==>
      Success(Successes(files, s, math)[i]) == Processed(files[i], s, math) &&
      Successes(files, s, math)[i].originalName == files[i].name
    ensures FailureNotices(files) == []
  {
    if |files| > 0 {
      AllSucceed(files[..|files| - 1], s, math);
    }
  }

  /** A failure in the middle of a batch is skipped; the files around it are stored in order. */
  lemma FailureInTheMiddle(a: Analysis, c: Analysis, s: Settings, math: Maths)
    ensures var files := [ImageFile("a", Success(a)), ImageFile("b", Failure(LoadFailed)), ImageFile("c", Success(c))];
      && Successes(files, s, math) ==
         [Processed(files[0], s, math).value, Processed(files[2], s, math).value]
      && FailureNotices(files) == [FileFailed("b")]
  {
    var files := [ImageFile("a", Success(a)), ImageFile("b", Failure(LoadFailed)), ImageFile("c", Success(c))];
    assert files[..2] == files[..2][..2];
    assert files[..2][..1] == files[..1];
    assert files[..1][..0] == [];
    assert Successes(files[..1], s, math) == [Processed(files[0], s, math).value];
    assert Successes(files[..2], s, math) == [Processed(files[0], s, math).value];
    assert FailureNotices(files[..1]) == [];
    assert FailureNotices(files[..2]) == [FileFailed("b")];
  }

  /** One more file of the batch: the stored results and the error toasts grow by that file's outcome. */
  lemma BatchStep(files: seq<ImageFile>, i: int, s: Settings, math: Maths)
    requires 0 <= i < |files|
    ensures Slots(Successes(files[..i + 1], s, math)) == Slots(Successes(files[..i], s, math)) +
      (match Processed(files[i], s, math) case Success(p) => [Some(p)] case Failure(_) => [])
    ensures FailureNotices(files[..i + 1]) == FailureNotices(files[..i]) +
      (if files[i].analysis.Failure? then [FileFailed(files[i].name)] else [])
  {
    assert files[..i + 1][..i] == files[..i];
  }

  /** The slots a batch appends to the store. */
  function Slots(ps: seq<ProcessedImage>): (r: seq<Option<ProcessedImage>>)
    ensures |r| == |ps|
    ensures forall i :: 0 <= i < |ps| ==> r[i] == Some(ps[i])
  {
    seq(|ps|, i requires 0 <= i < |ps| => Some(ps[i]))
  }

  /** The number of images still shown: the slots not emptied by a card removal. */
  function LiveCount(images: seq<Option<ProcessedImage>>): (n: nat)
    ensures n <= |images|
  {
    if |images| == 0 then 0
    else LiveCount(images[..|images| - 1]) + (if images[|images| - 1].Some? then 1 else 0)
  }

  /** Removing a card empties one slot: the live count drops by one when that slot was live, and no index moves. */
  lemma {:induction false} RemoveLowersLiveCount(images: seq<Option<ProcessedImage>>, i: int)
    requires 0 <= i < |images|
    ensures LiveCount(images[i := None]) == LiveCount(images) - (if images[i].Some? then 1 else 0)
  {
    var n := |images|;
    var after := images[i := None];
    if i < n - 1 {
      assert after[..n - 1] == images[..n - 1][i := None];
      RemoveLowersLiveCount(images[..n - 1], i);
    } else {
      assert after[..n - 1] == images[..n - 1];
    }
  }

  /** A batch adds one live image per stored result. */
  lemma {:induction false} AppendSlotsLiveCount(images: seq<Option<ProcessedImage>>, ps: seq<ProcessedImage>)
    ensures LiveCount(images + Slots(ps)) == LiveCount(images) + |ps|
  {
    if |ps| > 0 {
      var init := ps[..|ps| - 1];
      assert Slots(ps) == Slots(init) + [Some(ps[|ps| - 1])];
      assert (images + Slots(ps))[..|images + Slots(ps)| - 1] == images + Slots(init);
      assert (images + Slots(ps))[|images + Slots(ps)| - 1] == Some(ps[|ps| - 1]);
      AppendSlotsLiveCount(images, init);
    } else {
      assert images + Slots(ps) == images;
    }
  }

  /**
   * The store entry after an edit is finished: the edited masks, their
   * number as the masked count, and the picture redrawn as emoji glyphs.
   */
  function Finished(p: ProcessedImage, masks: seq<Mask>): ProcessedImage {
    p.(masks := masks, maskedCount := |masks|, output := GlyphsOf(masks))
  }

  /**
   * Finishing an edit that changed nothing gives back the freshly processed
   * entry exactly when all its masks are upright emoji masks; mosaic, blur
   * and rotated masks come back redrawn as upright emoji.
   */
  lemma FinishWithoutChanges(f: ImageFile, s: Settings, math: Maths)
    requires Processed(f, s, math).Success?
    ensures var p := Processed(f, s, math).value;
      Finished(p, p.masks) == p <==>
        forall i :: 0 <= i < |p.masks| ==> KindOf(p.masks[i]) == Emoji && RotationOf(p.masks[i]) == 0.0
  {
    var p := Processed(f, s, math).value;
    FinishRedrawMatches(p.masks, p.width, p.height);
    if Finished(p, p.masks) == p {
      assert GlyphsOf(p.masks) == Finished(p, p.masks).output;
    }
  }

  /** The page: settings, the store of processed images, the batch flags and the edit session. */
  class App {
    var settings: Settings
    var images: seq<Option<ProcessedImage>>
    var isModelLoaded: bool
    var isProcessing: bool
    var notices: seq<Notice>
    const edit: EditSession
    const math: Maths

    ghost predicate Valid()
      reads this, edit
    {
      edit.Valid() && edit.math == math
    }

    /** A slot that holds an image: in range and not removed. */
    predicate IsLive(index: int)
      reads this
    {
      0 <= index < |images| && images[index].Some?
    }

    constructor (math: Maths)
      ensures Valid() && this.math == math && fresh(edit)
      ensures settings == DefaultSettings && images == [] && !isModelLoaded && !isProcessing && notices == []
      ensures !edit.isEditing && edit.currentImageIndex == -1 && edit.masks == [] && edit.selected == -1
    {
      this.math := math;
      edit := new EditSession(math);
      settings, images, isModelLoaded, isProcessing, notices := DefaultSettings, [], false, false, [];
    }

    /** The detector's three networks have loaded. */
    method ModelsLoaded()
      requires Valid()
      modifies this`isModelLoaded
      ensures Valid() && isModelLoaded
    {
      isModelLoaded := true;
    }

    /** The emoji, size, mask type, child-only and age-threshold controls. */
    method Configure(s: Settings)
      requires Valid()
      modifies this`settings
      ensures Valid() && settings == s
    {
      settings := s;
    }

    /**
     * A batch of files. Before the models are loaded, or while a batch is
     * running, it only warns. Otherwise it processes the files one after the
     * other, appends each success to the store in input order, reports each
     * failure, and ends with the processing flag down and a toast that counts
     * every slot of the store.
     */
    method ProcessFiles(files: seq<ImageFile>)
      requires Valid()
      modifies this`images, this`isProcessing, this`notices
      ensures Valid()
      ensures !old(isModelLoaded) ==>
        images == old(images) && isProcessing == old(isProcessing) && notices == old(notices) + [ModelNotReady]
      ensures old(isModelLoaded) && old(isProcessing) ==>
        images == old(images) && isProcessing && notices == old(notices) + [StillProcessing]
      ensures old(isModelLoaded) && !old(isProcessing) ==>
        && images == old(images) + Slots(Successes(files, settings, math))
        && !isProcessing
        && notices == old(notices) + FailureNotices(files) + [BatchDone(|images|)]
    {
      if !isModelLoaded {
        notices := notices + [ModelNotReady];
        return;
      }
      if isProcessing {
        notices := notices + [StillProcessing];
        return;
      }
      isProcessing := true;
      for i := 0 to |files|
        invariant Valid()
        invariant images == old(images) + Slots(Successes(files[..i], settings, math))
        invariant notices == old(notices) + FailureNotices(files[..i])
      {
        BatchStep(files, i, settings, math);
        var r := ProcessImage(files[i], settings, math);
        match r
        case Success(p) =>
          images := images + [Some(p)];
        case Failure(_) =>
          notices := notices + [FileFailed(files[i].name)];
      }
      assert files[..|files|] == files;
      isProcessing := false;
      notices := notices + [BatchDone(|images|)];
    }

    /**
     * Opening the editor on slot `index`: the session takes its own copy of
     * the stored masks and the current emoji. On an emptied or missing slot
     * the source fails after recording the index and the editing flag.
     */
    method OpenEditMode(index: int)
      requires Valid()
      modifies edit`currentImageIndex, edit`isEditing, edit`masks, edit`selected, edit`addMode, edit`selectedEmoji
      ensures Valid()
      ensures images == old(images)
      ensures edit.currentImageIndex == index && edit.isEditing
      ensures IsLive(index) ==>
        edit.masks == images[index].value.masks && edit.selected == -1 && !edit.addMode &&
        edit.selectedEmoji == settings.selectedEmoji
      ensures !IsLive(index) ==>
        edit.masks == old(edit.masks) && edit.selected == old(edit.selected) && edit.addMode == old(edit.addMode) &&
        edit.selectedEmoji == old(edit.selectedEmoji)
    {
      var source := if IsLive(index) then Some(images[index].value.masks) else None;
      edit.Open(index, source, settings.selectedEmoji);
    }

    /**
     * Saving an edit: the open slot's masks become the working copy, the
     * masked count becomes their number and the picture is redrawn as emoji
     * glyphs; then the editor closes. When the slot has been emptied or
     * cleared, the source fails before writing anything.
     */
    method FinishEditing()
      requires Valid()
      modifies this`images, edit`isEditing, edit`currentImageIndex, edit`masks, edit`selected
      ensures Valid()
      ensures var k := old(edit.currentImageIndex);
        old(IsLive(k)) ==>
          && images == old(images)[k := Some(Finished(old(images)[k].value, old(edit.masks)))]
          && !edit.isEditing && edit.currentImageIndex == -1 && edit.masks == [] && edit.selected == -1
      ensures !old(IsLive(edit.currentImageIndex)) ==> images == old(images) && unchanged(edit)
    {
      var k := edit.currentImageIndex;
      if IsLive(k) {
        var p := images[k].value;
        var output := RedrawAsGlyphs(edit.masks);
        images := images[k := Some(p.(masks := edit.masks, maskedCount := |edit.masks|, output := output))];
        edit.Close();
      }
    }

    /** Cancelling (or closing) the editor drops the working copy; the store is untouched. */
    method CancelEditing()
      requires Valid()
      modifies edit`isEditing, edit`currentImageIndex, edit`masks, edit`selected
      ensures Valid()
      ensures images == old(images)
      ensures !edit.isEditing && edit.currentImageIndex == -1 && edit.masks == [] && edit.selected == -1
    {
      edit.Close();
    }

    /** Removing a card empties its slot; no other slot moves. */
    method RemoveCard(index: int)
      requires Valid()
      modifies this`images
      ensures Valid()
      ensures 0 <= index < |old(images)| ==> images == old(images)[index := None]
      ensures !(0 <= index < |old(images)|) ==> images == old(images)
    {
      if 0 <= index < |images| {
        images := images[index := None];
      }
    }

    /** Clearing empties the store. */
    method ClearAll()
      requires Valid()
      modifies this`images
      ensures Valid() && images == []
    {
      images := [];
    }
  }

  /**
   * Edits stay in the session until they are saved: opening an image,
   * editing it with any mouse-down and cancelling leaves the store as it was.
   */
  method EditThenCancel(app: App, index: int, p: Point, id: string)
    requires app.Valid()
    modifies app.edit
    ensures app.images == old(app.images)
    ensures !app.edit.isEditing && app.edit.masks == []
  {
    app.OpenEditMode(index);
    app.edit.MouseDown(p, id);
    app.CancelEditing();
  }
}
