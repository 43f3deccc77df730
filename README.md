# Child face privacy: a Dafny model of the masking core

The application is a browser page that hides children's faces in photos.
A face detector finds the faces and estimates each one's age. The page
covers every face, or in child-only mode only the faces at or below an age
threshold, with an emoji, a mosaic or a blur. The user can then correct
the masks in an editor: add, delete, drag, resize, pinch and rotate.

This project models the logic of `app.js`, in five modules, plus `Wrappers` (`wrappers.dfy`),
which holds only the `Option` and `Result` types.

- **Masks** (`masks.dfy`) builds a mask record from each detection: the box
  centre, the size from the larger box side and the size slider, the child
  flag, and the eye-line rotation.
- **Compositing** (`compositing.dfy`) says what `drawMask` paints for each
  mask, as values rather than pixels. It covers the mosaic's clamped source
  rectangle, its block size and the nested block loop, and the emoji-only
  redraw done when an edit is saved.
- **Editor** (`editor.dfy`) is the edit session, as a class whose fields are
  those of `editState`. It holds the hit tests, the pointer-down decision
  and the mouse and touch handlers.
- **Session** (`session.dfy`) is the page: the settings, the store of
  processed images and the batch loop that fills it. It also opens, saves
  and cancels edits.
- **Geometry** (`geometry.dfy`) holds the points, squared distances, the
  client-to-canvas conversion, the fit scale and the two-finger measures.

The host's `Math.sqrt` and `Math.atan2` are passed in as a `Maths` value.
Facts that need a true square root take `IsSqrt` as a requirement. Each hit
test compares squared distances, and `SquaredCompareAgrees` shows this
decides the same as the source's square-root comparison.

The file reader, the image decoder and the detector are foreign and
asynchronous. Each file of a batch is therefore given as its outcome:
either the natural size and the detections, or the stage that failed.

In three places the code does something other than one might expect, and the model follows the code:

- Saving an edit redraws every mask as an upright emoji glyph, whatever its
  type and rotation (`FinishRedrawMatches`, `FinishWithoutChanges`).
- Masks added by hand carry no box size, no mask type and no rotation.
- After a pinch, the one finger left does not resume a drag
  (`LoneFingerAfterPinch`).

The batch's closing toast counts every slot of the store. That includes
images from earlier batches and slots emptied by removing a card, not only
the images of this batch. `ProcessFiles` records that number.

## Model

| member | source | states |
|---|---|---|
| Masks.BuildMasks | app.js:556-594 | the detection loop returns exactly `MasksFor` of the detections, and `maskedCount` is the number of masks pushed |
| Masks.MasksForAppend | app.js:556-594 | the masks of a concatenation of detection lists are the concatenations of their masks: each detection is handled on its own, in order |
| Masks.MasksForOne | app.js:557-562 | one detection gives one mask built by `MaskOf`, or none exactly when child-only mode is on and its age is above the threshold |
| Masks.ThresholdInclusive | app.js:559-560 | at age equal to the threshold, child-only mode still masks the face, and the mask is flagged as a child |
| Masks.MasksForAllFaces | app.js:556-594 | without child-only mode there is exactly one mask per detection, the i-th mask built from the i-th detection |
| Masks.MaskedAtMostFaces | app.js:556-594 | never more masks than detections, so `maskedCount <= faceCount` |
| Masks.MasksForChildOnly | app.js:556-594 | in child-only mode the masks are exactly those of the detections aged at most the threshold, in order, and every one is flagged as a child |
| Masks.MaskOf | app.js:581-593 | the mask is centred on the detection box, its size is the larger box side scaled by the size slider, it keeps the box size, id and age, takes the chosen emoji and mask type and the eye-line rotation, and is a child exactly when the age is at most the threshold |
| Masks.EyeRotation | app.js:564-579 | the rotation is 0 without landmarks or with an empty eye list, and 0 for level eyes with the right eye to the right (for an arc tangent that is 0 along the positive x axis) |
| Masks.MasksComeFromDetections | app.js:581-593 | every mask is `MaskOf` an input detection that the policy lets through |
| Masks.MaskCoversBox | app.js:583-585 | with the size slider at 100% or more, the mask's square covers the whole detection box |
| Masks.SumShift | app.js:569-576 | shifting every eye point by a vector shifts the reduce-sum by the point count times that vector |
| Masks.MeanShift | app.js:569-576 | shifting every eye point shifts the eye centroid by the same vector |
| Masks.EyeRotationUnderTranslation | app.js:564-579 | the rotation from the eye centroids does not change when the whole face moves |
| Masks.EyeRotationExamples | app.js:564-579 | concrete eye lists give atan2 of the centroid difference, and an empty eye list gives rotation 0 |
| Geometry.SquaredCompareAgrees | app.js:1026 | for a non-negative square root, `sqrt(d2) < r` holds exactly when `d2 < r*r`, so the squared hit test decides as the source does |
| Geometry.CanvasCoords | app.js:1000-1008 | the canvas point maps back to the client point: rect origin plus point times scale |
| Geometry.FitScale | app.js:908-910 | the edit scale is at most 1, fits the image within both maxima, equals one of the three bounds, and is positive when both maxima are |
| Geometry.TouchCenter | app.js:1125-1130 | the midpoint is equidistant from both touches, at half their distance |
| Geometry.TouchMeasuresUnderPan | app.js:1111-1130 | moving both fingers by one vector keeps their distance and angle and moves their midpoint by that vector |
| Geometry.TouchDistance | app.js:1111-1115 | the touch distance does not depend on finger order, and with a true square root it is non-negative and squares to the squared distance |
| Geometry.TouchAngle | app.js:1118-1122 | the angle of the finger line is 0 when the second finger is level with the first and to its right (for an arc tangent that is 0 along the positive x axis) |
| Compositing.SourceRegion | app.js:677-680 | the source rectangle starts at or after 0, ends inside the image and is no larger than the mask; its left edge is 0 or the square's left edge, its top edge 0 or the square's top edge, and its width and height are the mask size or run to the image's right and bottom edge; so it is exactly the square when that lies inside the image, and after a clamp at the left or top it keeps the full mask size |
| Compositing.BlockSize | app.js:672 | the block edge is at least 8, and is the floor of size/8 whenever that is larger |
| Compositing.StepsFrom | app.js:692-693 | every loop position is at or after the start and before the limit |
| Compositing.StepsClosedForm | app.js:692-693 | the k-th loop position is `start + k * step` |
| Compositing.StepsCount | app.js:692-693 | there are just enough loop positions: one more step past the last reaches the limit, so the count is the number of steps that fit in `[start, limit)` |
| Compositing.MosaicBlocks | app.js:671-703 | the mosaic has no blocks exactly when the clamped region has no width or no height, and otherwise it has the block at the region's corner |
| Compositing.DrawMosaic | app.js:671-703 | the blocks drawn equal `MosaicBlocks` of the mask and the image size |
| Compositing.DrawGrid | app.js:692-702 | the outer `bx` loop yields the grid of column and row positions, column by column |
| Compositing.DrawColumn | app.js:693-701 | the inner `by` loop yields one block per row position, each sampling `(min(bx, srcW-1), min(by, srcH-1))` |
| Compositing.GridLength | app.js:692-702 | the grid has one block per pair of column and row positions |
| Compositing.GridMembers | app.js:692-702 | every block comes from a column position and a row position and samples as `BlockAt` says |
| Compositing.GridHasBlock | app.js:692-702 | every pair of column and row positions has its block in the grid |
| Compositing.StepsCover | app.js:692-693 | consecutive positions cover `[start, limit)` with no gap |
| Compositing.MosaicBlocksInRegion | app.js:671-703 | the mosaic has as many blocks as column positions times row positions; each starts inside the clamped region and samples a pixel no further than the region's last pixel and less than one pixel before its own corner; once the region is at least one pixel wide and high that pixel lies inside it |
| Compositing.MosaicCoversRegion | app.js:671-703 | every point of the clamped source region lies in some mosaic block |
| Compositing.MosaicEmptyOffImage | app.js:679-692 | a mask wholly past the image's right edge yields no blocks |
| Compositing.CompositeOf | app.js:606-608 | the composite has one paint per mask, the i-th the paint of the i-th mask |
| Compositing.PaintOf | app.js:644-668 | the paint sits at the mask centre with the mask's rotation (0 if none); it is a glyph exactly for emoji masks (also when the type is missing), a pixelation exactly for mosaic masks and a blur exactly for blur masks; the glyph has the mask's emoji at the mask's size; the others clip to half the size, read the clamped source region and start at the square's corner `(-size/2, -size/2)`; the pixelation has the mask's block size and blocks, and the blur reduces the region to a tenth; when the square is not clamped at the left or top, each block is coloured from a pixel under it and the blur copy lands on the region it read |
| Compositing.RegionCorner | app.js:677-680 | the clamped region's corner, in the mask's frame, is the square's corner whenever the square is not clamped at the left or top edge |
| Compositing.MosaicSamplesOwnBlock | app.js:692-700 | a mosaic grid painted from the clamped region's corner has every block coloured from a pixel under it |
| Compositing.ClampShiftAsWritten | app.js:644-728 | as the code paints them, a 100-pixel mask centred at (10, 50) gets its first mosaic block painted at -50 but coloured from the pixel at -10, outside the block, and its blur copy drawn from image x = -40 instead of 0 |
| Compositing.PaintOfIntended | app.js:644-728 | the intended paint differs from `PaintOf` only in starting the mosaic grid and the blur copy at the clamped region's corner; it equals `PaintOf` whenever the square is not clamped at the left or top, colours every mosaic block from a pixel under it, and lands every blur copy on the region it read |
| Compositing.DrawMask | app.js:644-668 | one mask's paint is `PaintOf`: a glyph, a pixelation or a blur chosen by mask type, with the mask's rotation, the mosaic and blur starting at the square's corner |
| Compositing.DrawMasks | app.js:606-608 | the drawing loop gives `CompositeOf` of the masks |
| Compositing.GlyphsOf | app.js:1243-1248 | the saved-edit redraw has one upright emoji glyph per mask, in order |
| Compositing.RedrawAsGlyphs | app.js:1243-1248 | the redraw loop gives `GlyphsOf` of the masks |
| Compositing.FinishRedrawMatches | app.js:1243-1248 | the saved-edit redraw equals the original composite exactly when every mask is an emoji mask with rotation 0 |
| Editor.FindMaskAt | app.js:1010-1020 | gives the largest index whose closed square `centre ± size/2` contains the point (no later mask contains it), or -1 exactly when no mask contains it |
| Editor.PressTarget | app.js:1036-1083 | in add mode the press adds a mask; otherwise, with a selection, it deletes exactly when on the delete button, resizes exactly when on the resize handle but not on the delete button; otherwise it selects the topmost mask under the pointer, or deselects when there is none |
| Editor.DeleteWinsOverResize | app.js:1057-1069 | on a small mask both affordances can be hit at once, and the press then deletes |
| Editor.DeleteButtonByDistance | app.js:1022-1027 | with a true square root, the delete-button test holds exactly when the pointer is less than 15 display pixels from the mask's top-right corner, as the source's `sqrt` comparison says |
| Editor.ResizeHandleByDistance | app.js:1029-1034 | with a true square root, the resize-handle test holds exactly when the pointer is less than 12 display pixels from the mask's bottom-right corner, as the source's `sqrt` comparison says |
| Editor.RemoveAt | app.js:1061 | `splice(i, 1)` drops exactly element i and keeps the others in order |
| Editor.RemoveAtMultiset | app.js:1061 | the deletion loses exactly the one mask, as multisets |
| Editor.ResizeSize | app.js:1095-1097 | the resized size is at least 30; it is twice the pointer's distance from the centre whenever that is at least 30, and exactly 30 when it is less |
| Editor.ResizeHasNoCeiling | app.js:1097 | with a true square root, the single-pointer resize reaches any size |
| Editor.PinchSize | app.js:1175-1177 | the pinch size always lies in [30, 500]; for a non-zero starting distance it is the starting size times the distance ratio when that is in range, exactly 30 when it is below and exactly 500 when it is above |
| Editor.PinchStartKeepsSize | app.js:1175-1177 | before the fingers move, a pinch keeps a size already in [30, 500] |
| Editor.PanTelescopes | app.js:1188-1196 | over a whole two-finger gesture the mask moves by the midpoint's total displacement divided by the scale |
| Editor.TwoFingerRotation | app.js:1180-1185 | the mask turns by exactly the angle the finger line turned since the gesture started, so it keeps its starting rotation while the line has not turned |
| Editor.Pan | app.js:1188-1195 | scaled back to display pixels, the mask's move equals the midpoint's move since the last event; no midpoint move, no mask move |
| Editor.TwoFingerStep | app.js:1171-1196 | a two-finger move gives the mask the `PinchSize` of the starting size and distance ratio while pinching (so within [30, 500]), the `TwoFingerRotation` of the finger angle while rotating, and, when a previous midpoint is known, the `Pan` of its centre by the midpoint's move; a flag that is off leaves size or rotation alone, no previous midpoint leaves the centre alone, and id, emoji, type, child flag, age and box never change |
| Editor.EditSession.constructor | app.js:54-77 | the initial edit state: not editing, index -1, no masks, no selection, all flags off, emoji 😊, scale 1 |
| Editor.EditSession.Open | app.js:888-894 | opening records the index and the editing flag; on a live slot it takes the masks as a value, clears selection and add mode and takes the page's emoji; otherwise nothing else changes |
| Editor.EditSession.ImageLoaded | app.js:907-910 | the scale becomes the fit of the image into the wrapper less 40 pixels, never above 1 |
| Editor.EditSession.Close | app.js:1270-1276 | closing drops the working copy and resets editing, index and selection |
| Editor.EditSession.ToggleAddMode | app.js:993-998 | add mode flips and the selection is cleared |
| Editor.EditSession.SelectEmoji | app.js:979-991 | the editor emoji is set, and only the selected mask, if any, takes it |
| Editor.EditSession.MouseDown | app.js:1036-1083 | the state after a press is the one its `PressTarget` decision calls for (`Pressed`): add appends one 80-pixel child mask aged 0 at the pointer, selects it and leaves add mode; delete removes exactly the selected mask and clears the selection; resize only sets the resize flag; select records the index, starts a drag and records the offset; a miss clears the selection |
| Editor.EditSession.Apply | app.js:1039-1081 | carries out each pointer-down decision with the post-state `Pressed` describes, touching nothing else |
| Editor.EditSession.MouseMove | app.js:1085-1101 | a drag puts only the selected mask's centre at pointer minus offset, a resize sets only its size; nothing changes without a drag, a resize or a selection |
| Editor.EditSession.MouseUp | app.js:1103-1106 | drag and resize end |
| Editor.EditSession.TouchStart | app.js:1133-1160 | one touch acts as a press at its canvas position; two touches with a selection start pinch and rotation, end drag and resize, and record distance, size, angle, rotation and midpoint; anything else changes nothing |
| Editor.EditSession.StartPinch | app.js:1142-1153 | records the gesture start from the selected mask and the two touches, with drag and resize off |
| Editor.EditSession.TouchMove | app.js:1163-1200 | one touch acts as a pointer move; two touches with a selection replace only the selected mask by `TwoFingerStep` and record the new midpoint; anything else changes nothing |
| Editor.EditSession.TouchEnd | app.js:1203-1226 | down to 0 or 1 touches, pinch, rotation and midpoint end; down to 0, drag and resize end too; with 1 left they stay as they were; with more nothing changes |
| Editor.DragStartKeepsCentre | app.js:1078 | a press that selects a mask followed by a move to the same point leaves every mask where it was: the recorded offset reproduces the centre |
| Editor.LoneFingerAfterPinch | app.js:1146 | after a two-finger start and a lift to one finger, a one-finger move changes no mask and no drag is under way |
| Session.Processed | app.js:502-640 | a file fails exactly when a stage failed, with that stage's error; otherwise the result keeps the name, is named `protected_` plus it, counts every detection as a face, has `maskedCount` equal to its masks (never more than faces, all of them without child-only mode), and its picture is the composite of those masks |
| Session.ProcessImage | app.js:553-632 | processing one file gives `Processed` of it |
| Session.SuccessesAppend | app.js:367-387 | the stored results and the error toasts of a concatenated batch are the concatenations: files are handled one after the other, in order |
| Session.EveryFileAccounted | app.js:367-387 | every file of a batch is either stored or reported as failed |
| Session.AllSucceed | app.js:367-387 | when no stage fails, every file is stored, the i-th file in the i-th new slot, and no error is reported |
| Session.FailureInTheMiddle | app.js:367-387 | in a batch of three whose middle file fails, the first and third are stored in order and only the middle one is reported |
| Session.LiveCount | app.js:1343 | the number of live images never exceeds the number of slots |
| Session.RemoveLowersLiveCount | app.js:1339-1343 | emptying a live slot lowers the live count by exactly one, and emptying a dead one leaves it |
| Session.AppendSlotsLiveCount | app.js:377 | a batch adds one live image per stored result |
| Session.FinishWithoutChanges | app.js:1229-1251 | saving an unchanged edit gives back the freshly processed entry exactly when all its masks are upright emoji masks |
| Session.App.constructor | app.js:41-51 | the initial page state: emoji 😊, size 110%, emoji masks, child-only off, threshold 12, an empty store, models not loaded, not processing; the edit session is fresh and closed |
| Session.App.ModelsLoaded | app.js:301 | the models-loaded flag is set |
| Session.App.Configure | app.js:193-229 | the settings get exactly the chosen values |
| Session.App.ProcessFiles | app.js:352-403 | before the models load, or during a batch, only a warning is recorded; otherwise the store grows by the batch's successes in input order, each failure is reported, the processing flag ends down, and the last toast counts every slot of the store |
| Session.App.OpenEditMode | app.js:888-894 | the editor records the index and the editing flag; on a live slot it takes a copy of that slot's masks and the page emoji; the store does not change |
| Session.App.FinishEditing | app.js:1228-1263 | on a live slot the entry gets the working masks, their number as masked count and the emoji-glyph redraw, and the editor closes; on a dead slot nothing changes |
| Session.App.CancelEditing | app.js:1266-1276 | the working copy is dropped and the store is untouched |
| Session.App.RemoveCard | app.js:1335-1348 | an in-range slot is emptied and no other slot moves; an out-of-range index changes nothing |
| Session.App.ClearAll | app.js:1350-1356 | the store becomes empty |
| Session.EditThenCancel | app.js:891 | opening, pressing anywhere and cancelling leaves the store as it was |

## Findings

| source | as written | input that shows it | evidently intended | confidence | as-written member | corrected member |
|---|---|---|---|---|---|---|
| app.js:644-728 | the mosaic and the blur read the source region clamped at the image's left and top edges, but paint from the corner of the unclamped mask square (app.js:653, app.js:656, app.js:700, app.js:728) | a 100-pixel mask centred at (10, 50) on a 200 by 200 image: the region starts at x = 0; a mosaic paints its first block at x = -50 in the mask's frame and colours it from the pixel at -10; a blur draws the region's copy from image x = -40; both are shifted 40 pixels left of the face | paint the grid and draw the copy from the clamped region's corner, so that each block covers the pixels it was sampled from and the blur lands on the region it read; this agrees with the code whenever the square is not clamped at the left or top | medium, not executed | Compositing.ClampShiftAsWritten | Compositing.PaintOfIntended |

The rest of the model, from `CompositeOf` to `Processed`, paints as the code does (`PaintOf`). `PaintOfIntended` is the corrected paint, and `RegionCorner` is its starting corner.

## Left out

- Pixels: `fillText`, `drawImage`, `getImageData` colours, clipping paths and the blur's down-and-up resampling are not modelled. The model records only what each mask draws, where, at what size and rotation, and which source pixel each mosaic block samples.
- Foreign asynchronous stages: the file read, the image decode, `toBlob`/`toDataURL`, detector model loading and inference. Each file's outcome is an input; model loading is the `ModelsLoaded` event.
- Interleaving: the model runs the batch loop without interruption, so other handlers cannot run between files. The still-processing guard is modelled but is reachable only from a state where the flag is already up. Settings are fixed for the length of a batch.
- Asynchronous gaps: `openEditMode` sets the scale when its image has loaded (`ImageLoaded`, a separate event), and `finishEditing` writes the redrawn picture and the count in an image callback. The model does the write in one step, at call time.
- ImageLoaded: requires a wrapper wider and taller than 40 pixels and an image of positive size. Without these the source would produce a zero or negative scale, which this model does not cover.
- PinchSize: JavaScript division by a zero starting distance gives Infinity or NaN. The model takes 500 when the fingers and the size are apart from zero, and 30 otherwise; NaN sizes are not modelled.
- Floating point: all coordinates are reals; `Math.sqrt` and `Math.atan2` are abstract, and `Math.round` of the age is replaced by taking the age as an integer. The mosaic canvas's truncation of a fractional width and the `parseInt` of the sliders are not modelled.
- Ids: mask ids from `Date.now()` and `Math.random()` are opaque strings passed in.
- UI: progress bars and overlays, preview cards, the comparison slider, cursors, the edit canvas rendering, toasts other than those of the batch loop, event wiring, `setTimeout`, `navigator.vibrate` and the touch-duration timer.
- Export: downloads and the ZIP export, the install prompt, the `getContext` patch and the service worker (`sw.js` is not part of this model).
- Mouse coordinates: the mouse handlers take a point already converted to canvas coordinates; the conversion is `CanvasCoords` and is applied explicitly for touches.
- Settings handlers: the per-control handlers at app.js:193-229 and app.js:339-349 each set one field. The model sets the whole `Settings` value at once (`Configure`).
