/** The hand tracker of the gesture sender: the skin-colour bounds and their
    calibration, the choice of the hand among the contours found in the skin
    mask, and the decision whether that hand is a fist.

    The image work (colour conversion, masking, contour, hull and defect
    extraction, the triangle geometry of a defect) is not modelled: its results
    enter as values. A contour is its enclosed area and the shape facts the
    classifier reads from it. */
module Tracker {

  datatype Option<T> = None | Some(value: T)

  // ---------------------------------------------------------------------------
  // Skin-colour model
  // ---------------------------------------------------------------------------

  /** One channel of an 8-bit image. */
  type Channel = x: int | 0 <= x <= 255

  /** A colour with three 8-bit channels: hue, saturation and value. OpenCV's
      conversion gives hues only up to 180, but the type, like the uint8 array
      it models, admits any channel value up to 255. */
  datatype Hsv = Hsv(h: Channel, s: Channel, v: Channel)

  const HueOffset := 30
  const SaturationOffset := 40
  const ValueOffset := 40
  const HueMax := 180
  const ChannelMax := 255

  /** The bounds a tracker starts with, before any calibration. */
  const DefaultLower := Hsv(0, 20, 70)
  const DefaultUpper := Hsv(20, 255, 255)

  /** The mask test: a colour lies within the bounds, inclusively, channel by channel. */
  predicate Admits(lower: Hsv, upper: Hsv, c: Hsv) {
    lower.h <= c.h <= upper.h && lower.s <= c.s <= upper.s && lower.v <= c.v <= upper.v
  }

  /** Lower bound after calibration: each channel is the widest band below the
      mean, of the channel's fixed offset, that stays inside the channel's range. */
  function CalibratedLower(mean: Hsv): (lower: Hsv)
    ensures lower.h <= mean.h && mean.h - lower.h <= HueOffset
    ensures lower.h == 0 || mean.h - lower.h == HueOffset
    ensures lower.s <= mean.s && mean.s - lower.s <= SaturationOffset
    ensures lower.s == 0 || mean.s - lower.s == SaturationOffset
    ensures lower.v <= mean.v && mean.v - lower.v <= ValueOffset
    ensures lower.v == 0 || mean.v - lower.v == ValueOffset
  {
    Hsv(Floor0(mean.h - HueOffset), Floor0(mean.s - SaturationOffset), Floor0(mean.v - ValueOffset))
  }

  /** Upper bound after calibration: the hue reaches the hue offset above the
      mean but never past the top of the hue range; saturation and value are
      left fully open. */
  function CalibratedUpper(mean: Hsv): (upper: Hsv)
    ensures upper.h <= HueMax && upper.h - mean.h <= HueOffset
    ensures upper.h == HueMax || upper.h - mean.h == HueOffset
    ensures mean.h <= HueMax ==> mean.h <= upper.h
    ensures upper.s == ChannelMax && upper.v == ChannelMax
  {
    Hsv(if mean.h + HueOffset < HueMax then mean.h + HueOffset else HueMax, ChannelMax, ChannelMax)
  }

  function Floor0(x: int): int { if x < 0 then 0 else x }

  /** The calibrated bounds admit exactly the colours that lie within the fixed
      offsets around the mean (and inside the hue range on top): in particular
      the sampled mean itself whenever its hue is a real hue. */
  lemma CalibratedBoundsAdmit(mean: Hsv, c: Hsv)
    ensures Admits(CalibratedLower(mean), CalibratedUpper(mean), c) <==>
      && mean.h - HueOffset <= c.h <= mean.h + HueOffset && c.h <= HueMax
      && mean.s - SaturationOffset <= c.s
      && mean.v - ValueOffset <= c.v
    ensures mean.h <= HueMax ==> Admits(CalibratedLower(mean), CalibratedUpper(mean), mean)
  {
  }

  // ---------------------------------------------------------------------------
  // Contours and the fist classifier's inputs
  // ---------------------------------------------------------------------------

  /** One convexity defect as the classifier measures it: the opening angle at
      the deepest point (in the source's degrees) and the perpendicular depth,
      or Degenerate when computing them raises (a zero side, a domain error). */
  datatype Defect = Measured(angle: real, depth: real) | Degenerate

  /** What the convexity-defect query gives: it raises, it returns no defects,
      or it returns a list of them. */
  datatype Defects = Raised | NoDefects | Found(items: seq<Defect>)

  /** The facts about one contour that the classifier reads: the number of
      convex-hull indices and the result of the defect query. */
  datatype Shape = Shape(hullIndices: nat, defects: Defects)

  /** A contour of the skin mask: its enclosed area and its shape. */
  datatype Contour = Contour(area: real, shape: Shape)

  const MinHandArea: real := 3000.0
  const MinHullIndices := 3
  const MaxValleyAngle: real := 90.0
  const MinValleyDepth: real := 30.0
  const MaxFistValleys := 1

  // ---------------------------------------------------------------------------
  // Hand selection
  // ---------------------------------------------------------------------------

  /** The index of the first contour of largest area, as a left-to-right scan
      that replaces its candidate only on a strictly larger area picks it. */
  function FirstLargest(contours: seq<Contour>): (k: nat)
    requires |contours| > 0
    ensures k < |contours|
    ensures forall j :: 0 <= j < |contours| ==> contours[j].area <= contours[k].area
    ensures forall j :: 0 <= j < k ==> contours[j].area < contours[k].area
  {
    if |contours| == 1 then 0
    else
      var k := FirstLargest(contours[..|contours| - 1]);
      if contours[|contours| - 1].area > contours[k].area then |contours| - 1 else k
  }

  /** The contour taken as the hand: the first one of largest area, provided
      that area is above the minimum; none when there is no contour or the
      largest one is too small. */
  function FindHand(contours: seq<Contour>): (r: Option<nat>)
    ensures r.Some? <==> exists j :: 0 <= j < |contours| && contours[j].area > MinHandArea
    ensures r.Some? ==> r.value < |contours| && contours[r.value].area > MinHandArea
    ensures r.Some? ==> forall j :: 0 <= j < |contours| ==> contours[j].area <= contours[r.value].area
    ensures r.Some? ==> forall j :: 0 <= j < r.value ==> contours[j].area < contours[r.value].area
  {
    if |contours| == 0 then None
    else
      var k := FirstLargest(contours);
      if contours[k].area > MinHandArea then Some(k) else None
  }

  /** The shape handed to the classifier for one frame's contours. */
  function HandShape(contours: seq<Contour>): Option<Shape> {
    match FindHand(contours)
    case None => None
    case Some(k) => Some(contours[k].shape)
  }

  // ---------------------------------------------------------------------------
  // Fist decision
  // ---------------------------------------------------------------------------

  /** A finger valley: a measured defect that is sharp enough and deep enough. */
  predicate IsValley(d: Defect) {
    d.Measured? && d.angle <= MaxValleyAngle && d.depth > MinValleyDepth
  }

  /** The number of finger valleys among the defects. */
  function ValleyCount(ds: seq<Defect>): nat {
    if ds == [] then 0
    else ValleyCount(ds[..|ds| - 1]) + (if IsValley(ds[|ds| - 1]) then 1 else 0)
  }

  predicate HasDegenerate(ds: seq<Defect>) {
    exists i :: 0 <= i < |ds| && ds[i].Degenerate?
  }

  /** The fist decision: a contour is present, its hull has more than three
      indices, the defect query does not raise, no defect is degenerate, and at
      most one defect is a finger valley. */
  predicate IsFist(contour: Option<Shape>) {
    match contour
    case None => false
    case Some(shape) =>
      shape.hullIndices > MinHullIndices &&
      match shape.defects
      case Raised => false
      case NoDefects => true
      case Found(ds) => !HasDegenerate(ds) && ValleyCount(ds) <= MaxFistValleys
  }

  /** Some defect is a valley exactly when the valley count is positive. */
  lemma {:induction false} ValleyCountPositive(ds: seq<Defect>)
    ensures ValleyCount(ds) > 0 <==> exists i :: 0 <= i < |ds| && IsValley(ds[i])
  {
    if ds != [] {
      var init := ds[..|ds| - 1];
      ValleyCountPositive(init);
      if exists i :: 0 <= i < |init| && IsValley(init[i]) {
        var i :| 0 <= i < |init| && IsValley(init[i]);
        assert IsValley(ds[i]);
      }
      if exists i :: 0 <= i < |ds| && IsValley(ds[i]) {
        var i :| 0 <= i < |ds| && IsValley(ds[i]);
        if i < |init| { assert IsValley(init[i]); }
      }
    }
  }

  /** At most one valley means no two distinct defects are both valleys. */
  lemma {:induction false} AtMostOneValley(ds: seq<Defect>)
    ensures ValleyCount(ds) <= 1 <==>
      !exists i, j :: 0 <= i < j < |ds| && IsValley(ds[i]) && IsValley(ds[j])
  {
    if ds != [] {
      var init := ds[..|ds| - 1];
      var last := |ds| - 1;
      AtMostOneValley(init);
      ValleyCountPositive(init);
      if ValleyCount(ds) > 1 {
        if IsValley(ds[last]) {
          var i :| 0 <= i < |init| && IsValley(init[i]);
          assert IsValley(ds[i]) && IsValley(ds[last]);
        } else {
          var i, j :| 0 <= i < j < |init| && IsValley(init[i]) && IsValley(init[j]);
          assert IsValley(ds[i]) && IsValley(ds[j]);
        }
      }
      if exists i, j :: 0 <= i < j < |ds| && IsValley(ds[i]) && IsValley(ds[j]) {
        var i, j :| 0 <= i < j < |ds| && IsValley(ds[i]) && IsValley(ds[j]);
        if j < last {
          assert IsValley(init[i]) && IsValley(init[j]);
        } else {
          assert IsValley(init[i]);
        }
      }
    }
  }

  /** A frame whose contours are all at or below the minimum area shows no hand,
      so it is never a fist. */
  lemma SmallContoursAreNoFist(contours: seq<Contour>)
    requires forall j :: 0 <= j < |contours| ==> contours[j].area <= MinHandArea
    ensures HandShape(contours) == None && !IsFist(HandShape(contours))
  {
  }

  // ---------------------------------------------------------------------------
  // The tracker object
  // ---------------------------------------------------------------------------

  /** The tracker holds the skin-colour bounds and whether they were calibrated. */
  class HandTracker {
    var lowerSkin: Hsv
    var upperSkin: Hsv
    var calibrated: bool

    constructor ()
      ensures lowerSkin == DefaultLower && upperSkin == DefaultUpper && !calibrated
    {
      lowerSkin := DefaultLower;
      upperSkin := DefaultUpper;
      calibrated := false;
    }

    /** Recalibrates the bounds from the per-channel mean of the sampled region. */
    method Calibrate(mean: Hsv)
      modifies this
      ensures lowerSkin == CalibratedLower(mean) && upperSkin == CalibratedUpper(mean)
      ensures calibrated
    {
      lowerSkin := CalibratedLower(mean);
      upperSkin := CalibratedUpper(mean);
      calibrated := true;
    }

    /** Classifies the contour (or its absence) as fist or not, counting the
        finger valleys among its convexity defects. */
    method CheckFist(contour: Option<Shape>) returns (isFist: bool)
      ensures isFist == IsFist(contour)
    {
      if contour.None? {
        return false;
      }
      var shape := contour.value;
      if shape.hullIndices > MinHullIndices {
        if shape.defects.Raised? {
          return false;
        }
        var count := 0;
        if shape.defects.Found? {
          var ds := shape.defects.items;
          for i := 0 to |ds|
            invariant count == ValleyCount(ds[..i])
            invariant forall j :: 0 <= j < i ==> !ds[j].Degenerate?
          {
            if ds[i].Degenerate? {
              return false;
            }
            assert ds[..i + 1][..i] == ds[..i];
            if ds[i].angle <= MaxValleyAngle && ds[i].depth > MinValleyDepth {
              count := count + 1;
            }
          }
          assert ds[..|ds|] == ds;
        }
        if count <= MaxFistValleys {
          return true;
        }
      }
      return false;
    }
  }
}
