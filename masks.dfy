/**
 * The mask record and its construction from the face detector's output:
 * one mask per detection that the child-only policy lets through, centred
 * on the detection box, sized from the box's larger side and the size
 * slider, and turned to the line between the two eye centroids.
 */
module Masks {
  import opened Wrappers
  import opened Geometry

  datatype MaskType = Emoji | Mosaic | Blur

  /**
   * One privacy mask. Masks built from a detection carry every field; masks
   * added by hand in the editor have no box size, no mask type and no
   * rotation (`None`), which the drawing code reads as emoji and 0.
   */
  datatype Mask = Mask(
    id: string,
    x: real,
    y: real,
    size: real,
    width: Option<real>,
    height: Option<real>,
    emoji: string,
    maskType: Option<MaskType>,
    rotation: Option<real>,
    isChild: bool,
    age: int)

  /** `mask.maskType || 'emoji'` */
  function KindOf(m: Mask): MaskType { m.maskType.GetOr(Emoji) }

  /** `mask.rotation || 0` */
  function RotationOf(m: Mask): real { m.rotation.GetOr(0.0) }

  function Center(m: Mask): Point { Point(m.x, m.y) }

  datatype Box = Box(x: real, y: real, width: real, height: real)

  datatype Landmarks = Landmarks(leftEye: seq<Point>, rightEye: seq<Point>)

  /**
   * One detector result: the face box, the landmarks when the landmark net
   * ran, the age already rounded to an integer, and the opaque id the
   * source generates for the mask it builds from this detection.
   */
  datatype Detection = Detection(box: Box, landmarks: Option<Landmarks>, age: int, id: string)

  /** The user's choices that mask construction reads. */
  datatype Settings = Settings(
    selectedEmoji: string,
    emojiSizePercent: int,
    maskType: MaskType,
    childOnlyMode: bool,
    ageThreshold: int)

  function SumPoints(pts: seq<Point>): Point
  {
    if |pts| == 0 then Point(0.0, 0.0)
    else var s := SumPoints(pts[..|pts| - 1]); Point(s.x + pts[|pts| - 1].x, s.y + pts[|pts| - 1].y)
  }

  /** The centroid `reduce(sum) / length` of a non-empty list of points. */
  function Mean(pts: seq<Point>): Point
    requires |pts| > 0
  {
    var s := SumPoints(pts);
    Point(s.x / |pts| as real, s.y / |pts| as real)
  }

  /**
   * The face's in-plane rotation: the angle from the left-eye centroid to the
   * right-eye centroid, or 0 without landmarks or with an empty eye list.
   */
  function EyeRotation(lm: Option<Landmarks>, math: Maths): (r: real)
    ensures lm.None? || |lm.value.leftEye| == 0 || |lm.value.rightEye| == 0 ==> r == 0.0
    ensures (&& lm.Some? && |lm.value.leftEye| > 0 && |lm.value.rightEye| > 0 && LevelIsZero(math.atan2)
             && Mean(lm.value.leftEye).y == Mean(lm.value.rightEye).y && Mean(lm.value.leftEye).x < Mean(lm.value.rightEye).x)
      ==> r == 0.0
  {
    match lm
    case None => 0.0
    case Some(l) =>
      if |l.leftEye| > 0 && |l.rightEye| > 0 then
        var lc, rc := Mean(l.leftEye), Mean(l.rightEye);
        math.atan2(rc.y - lc.y, rc.x - lc.x)
      else 0.0
  }

  /** A detection yields a mask unless child-only mode is on and the age is above the threshold. */
  predicate Eligible(d: Detection, s: Settings) {
    !s.childOnlyMode || d.age <= s.ageThreshold
  }

  /** The mask record built for one detection. */
  function MaskOf(d: Detection, s: Settings, math: Maths): (m: Mask)
    ensures 2.0 * m.x == d.box.x + (d.box.x + d.box.width) && 2.0 * m.y == d.box.y + (d.box.y + d.box.height)
    ensures var f := s.emojiSizePercent as real / 100.0;
      0.0 <= f ==> d.box.width * f <= m.size && d.box.height * f <= m.size &&
                   (m.size == d.box.width * f || m.size == d.box.height * f)
    ensures m.width == Some(d.box.width) && m.height == Some(d.box.height)
    ensures m.id == d.id && m.emoji == s.selectedEmoji && m.maskType == Some(s.maskType) && m.age == d.age
    ensures m.rotation == Some(EyeRotation(d.landmarks, math))
    ensures m.isChild <==> d.age <= s.ageThreshold
  {
    Mask(
      d.id,
      d.box.x + d.box.width / 2.0,
      d.box.y + d.box.height / 2.0,
      Max(d.box.width, d.box.height) * (s.emojiSizePercent as real / 100.0),
      Some(d.box.width),
      Some(d.box.height),
      s.selectedEmoji,
      Some(s.maskType),
      Some(EyeRotation(d.landmarks, math)),
      d.age <= s.ageThreshold,
      d.age)
  }

  /** The masks built from `dets`, in detection order. */
  function MasksFor(dets: seq<Detection>, s: Settings, math: Maths): seq<Mask>
  {
    if |dets| == 0 then []
    else
      var last := dets[|dets| - 1];
      MasksFor(dets[..|dets| - 1], s, math) + (if Eligible(last, s) then [MaskOf(last, s, math)] else [])
  }

  /** The loop of the detection stage: push a mask and count it for every eligible detection. */
  method BuildMasks(dets: seq<Detection>, s: Settings, math: Maths) returns (masks: seq<Mask>, maskedCount: nat)
    ensures masks == MasksFor(dets, s, math)
    ensures maskedCount == |masks|
  {
    masks, maskedCount := [], 0;
    for i := 0 to |dets|
      invariant masks == MasksFor(dets[..i], s, math)
      invariant maskedCount == |masks|
    {
      assert dets[..i + 1][..i] == dets[..i];
      var d := dets[i];
      if Eligible(d, s) {
        masks := masks + [MaskOf(d, s, math)];
        maskedCount := maskedCount + 1;
      }
    }
    assert dets[..|dets|] == dets;
  }

  /** Construction works detection by detection: the masks of a concatenation are the concatenation of the masks. */
  lemma {:induction false} MasksForAppend(a: seq<Detection>, b: seq<Detection>, s: Settings, math: Maths)
    ensures MasksFor(a + b, s, math) == MasksFor(a, s, math) + MasksFor(b, s, math)
    decreases |b|
  {
    if |b| == 0 {
      assert a + b == a;
    } else {
      var b' := b[..|b| - 1];
      assert (a + b)[..|a + b| - 1] == a + b';
      assert (a + b)[|a + b| - 1] == b[|b| - 1];
      MasksForAppend(a, b', s, math);
    }
  }

  /**
   * A single detection yields exactly one mask, built by `MaskOf`, unless
   * child-only mode is on and its age is strictly above the threshold, in
   * which case it yields none.
   */
  lemma MasksForOne(d: Detection, s: Settings, math: Maths)
    ensures MasksFor([d], s, math) == if s.childOnlyMode && d.age > s.ageThreshold then [] else [MaskOf(d, s, math)]
  {
    assert [d][..0] == [];
  }

  /** The threshold is inclusive: at age == threshold a child-only run still masks the face, as a child. */
  lemma ThresholdInclusive(d: Detection, s: Settings, math: Maths)
    requires s.childOnlyMode && d.age == s.ageThreshold
    ensures MasksFor([d], s, math) == [MaskOf(d, s, math)]
    ensures MaskOf(d, s, math).isChild
  {
    MasksForOne(d, s, math);
  }

  /** Without child-only mode every detection is masked, one mask per detection in the same order. */
  lemma {:induction false} MasksForAllFaces(dets: seq<Detection>, s: Settings, math: Maths)
    requires !s.childOnlyMode
    ensures |MasksFor(dets, s, math)| == |dets|
    ensures forall i :: 0 <= i < |dets| ==> MasksFor(dets, s, math)[i] == MaskOf(dets[i], s, math)
  {
    if |dets| > 0 {
      MasksForAllFaces(dets[..|dets| - 1], s, math);
    }
  }

  /** Never more masks than faces: `maskedCount <= faceCount` for every processed image. */
  lemma {:induction false} MaskedAtMostFaces(dets: seq<Detection>, s: Settings, math: Maths)
    ensures |MasksFor(dets, s, math)| <= |dets|
  {
    if |dets| > 0 {
      MaskedAtMostFaces(dets[..|dets| - 1], s, math);
    }
  }

  /** The detections a child-only run masks: those at or below the threshold, in order. */
  function Minors(dets: seq<Detection>, threshold: int): (r: seq<Detection>)
    ensures |r| <= |dets|
    ensures forall d :: d in r ==> d in dets && d.age <= threshold
  {
    if |dets| == 0 then []
    else
      var last := dets[|dets| - 1];
      Minors(dets[..|dets| - 1], threshold) + (if last.age <= threshold then [last] else [])
  }

  /**
   * In child-only mode the masks are exactly those of the minors, one each in
   * the same order, and every one of them is flagged as a child.
   */
  lemma {:induction false} MasksForChildOnly(dets: seq<Detection>, s: Settings, math: Maths)
    requires s.childOnlyMode
    ensures |MasksFor(dets, s, math)| == |Minors(dets, s.ageThreshold)|
    ensures forall i :: 0 <= i < |Minors(dets, s.ageThreshold)| ==>
      MasksFor(dets, s, math)[i] == MaskOf(Minors(dets, s.ageThreshold)[i], s, math)
    ensures forall m :: m in MasksFor(dets, s, math) ==> m.isChild && m.age <= s.ageThreshold
  {
    if |dets| > 0 {
      MasksForChildOnly(dets[..|dets| - 1], s, math);
    }
  }

  /** Every mask that is built comes from one of the detections that the policy lets through. */
  lemma {:induction false} MasksComeFromDetections(dets: seq<Detection>, s: Settings, math: Maths)
    ensures forall m :: m in MasksFor(dets, s, math) ==>
      exists d :: d in dets && Eligible(d, s) && m == MaskOf(d, s, math)
  {
    if |dets| > 0 {
      var init := dets[..|dets| - 1];
      MasksComeFromDetections(init, s, math);
      forall m | m in MasksFor(dets, s, math)
        ensures exists d :: d in dets && Eligible(d, s) && m == MaskOf(d, s, math)
      {
        if m in MasksFor(init, s, math) {
          var d :| d in init && Eligible(d, s) && m == MaskOf(d, s, math);
          assert d in dets;
        } else {
          assert dets[|dets| - 1] in dets;
        }
      }
    }
  }

  /**
   * With the size slider at 100% or more, the square of side `size` centred
   * on the mask covers the whole detection box.
   */
  lemma MaskCoversBox(d: Detection, s: Settings, math: Maths)
    requires 0.0 <= d.box.width && 0.0 <= d.box.height && 100 <= s.emojiSizePercent
    ensures var m := MaskOf(d, s, math);
      m.x - m.size / 2.0 <= d.box.x && d.box.x + d.box.width <= m.x + m.size / 2.0 &&
      m.y - m.size / 2.0 <= d.box.y && d.box.y + d.box.height <= m.y + m.size / 2.0
  {
    var side := Max(d.box.width, d.box.height);
    var f := s.emojiSizePercent as real / 100.0;
    assert 1.0 <= f;
    var z := side * f;
    assert side <= z by { MulAtLeastOne(side, f); }
  }

  lemma MulAtLeastOne(a: real, f: real)
    requires 0.0 <= a && 1.0 <= f
    ensures a <= a * f
  {
    var p := a * (f - 1.0);
    assert 0.0 <= p;
  }

  function ShiftPoints(pts: seq<Point>, dx: real, dy: real): (r: seq<Point>)
    ensures |r| == |pts|
  {
    seq(|pts|, i requires 0 <= i < |pts| => Translate(pts[i], dx, dy))
  }

  /** `k * d` as `k` repeated additions, which keeps the induction below linear. */
  function Repeat(k: nat, d: real): real {
    if k == 0 then 0.0 else Repeat(k - 1, d) + d
  }

  lemma {:induction false} RepeatIsProduct(k: nat, d: real)
    ensures Repeat(k, d) == k as real * d
  {
    if k > 0 {
      RepeatIsProduct(k - 1, d);
      var n := (k - 1) as real;
      assert (n + 1.0) * d == n * d + d;
    }
  }

  /** Shifting every point by a vector shifts the sum by `|pts|` times that vector. */
  lemma {:induction false} SumShift(pts: seq<Point>, dx: real, dy: real)
    ensures SumPoints(ShiftPoints(pts, dx, dy)) ==
      Point(SumPoints(pts).x + |pts| as real * dx, SumPoints(pts).y + |pts| as real * dy)
  {
    SumShiftRepeat(pts, dx, dy);
    RepeatIsProduct(|pts|, dx);
    RepeatIsProduct(|pts|, dy);
    var s, t := SumPoints(pts), SumPoints(ShiftPoints(pts, dx, dy));
    var rx, ry := Repeat(|pts|, dx), Repeat(|pts|, dy);
    assert t == Point(s.x + rx, s.y + ry);
    var n := |pts| as real;
    assert rx == n * dx && ry == n * dy;
    assert t == Point(s.x + n * dx, s.y + n * dy);
  }

  lemma {:induction false} SumShiftRepeat(pts: seq<Point>, dx: real, dy: real)
    ensures SumPoints(ShiftPoints(pts, dx, dy)) ==
      Point(SumPoints(pts).x + Repeat(|pts|, dx), SumPoints(pts).y + Repeat(|pts|, dy))
  {
    if |pts| > 0 {
      var init, sp := pts[..|pts| - 1], ShiftPoints(pts, dx, dy);
      assert sp[..|pts| - 1] == ShiftPoints(init, dx, dy);
      SumShiftRepeat(init, dx, dy);
    }
  }

  lemma MeanShift(pts: seq<Point>, dx: real, dy: real)
    requires |pts| > 0
    ensures Mean(ShiftPoints(pts, dx, dy)) == Translate(Mean(pts), dx, dy)
  {
    SumShift(pts, dx, dy);
    var n := |pts| as real;
    var s := SumPoints(pts);
    DivShift(s.x, n, dx);
    DivShift(s.y, n, dy);
  }

  lemma DivShift(a: real, n: real, d: real)
    requires n != 0.0
    ensures (a + n * d) / n == a / n + d
  {
    var q, nd := a / n, n * d;
    assert q * n == a;
    assert (q + d) * n == q * n + nd;
  }

  /**
   * The eye-line rotation depends only on where the eyes are relative to
   * each other: moving the whole face leaves it unchanged.
   */
  lemma EyeRotationUnderTranslation(l: Landmarks, dx: real, dy: real, math: Maths)
    ensures EyeRotation(Some(Landmarks(ShiftPoints(l.leftEye, dx, dy), ShiftPoints(l.rightEye, dx, dy))), math)
         == EyeRotation(Some(l), math)
  {
    var left, right := ShiftPoints(l.leftEye, dx, dy), ShiftPoints(l.rightEye, dx, dy);
    if |l.leftEye| > 0 && |l.rightEye| > 0 {
      MeanShift(l.leftEye, dx, dy);
      MeanShift(l.rightEye, dx, dy);
      var lc, rc := Mean(l.leftEye), Mean(l.rightEye);
      var lc', rc' := Mean(left), Mean(right);
      assert rc'.y - lc'.y == rc.y - lc.y && rc'.x - lc'.x == rc.x - lc.x;
    }
  }

  /** Eyes whose centroids are (10,10) and (20,10) give atan2(0, 10); (10,10) and (20,20) give atan2(10, 10). */
  lemma EyeRotationExamples(math: Maths)
    ensures EyeRotation(Some(Landmarks([Point(10.0, 10.0)], [Point(20.0, 10.0)])), math) == math.atan2(0.0, 10.0)
    ensures EyeRotation(Some(Landmarks([Point(8.0, 10.0), Point(12.0, 10.0)], [Point(20.0, 20.0)])), math) == math.atan2(10.0, 10.0)
    ensures EyeRotation(Some(Landmarks([], [Point(20.0, 20.0)])), math) == 0.0
  {
    var two := [Point(8.0, 10.0), Point(12.0, 10.0)];
    assert two[..1] == [Point(8.0, 10.0)];
    assert [Point(8.0, 10.0)][..0] == [];
    assert [Point(10.0, 10.0)][..0] == [];
    assert [Point(20.0, 10.0)][..0] == [];
    assert [Point(20.0, 20.0)][..0] == [];
  }
}
