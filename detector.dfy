/** The output of the external MobileNet-SSD detector as the counting loops
    read it, and the exceptions reading it can raise. */
module Detector {
  import opened Floats
  import opened Wrappers

  /** One row `detections[0, 0, i]`: class id, confidence and the box
      corners relative to the frame size. */
  datatype Detection = Detection(classId: Float, confidence: Float,
                                 startX: Float, startY: Float, endX: Float, endY: Float)

  /** A box in pixels, `(startX, startY, endX, endY)`. */
  datatype Rect = Rect(startX: int, startY: int, endX: int, endY: int)

  /** Exceptions raised inside a frame loop. */
  datatype Fault =
    | ZeroDivision                    // `totalFrames % skip_frames` with skip_frames == 0
    | LabelNotInteger                 // `int(label)` of NaN (ValueError) or of an infinity (OverflowError)
    | ClassIndexOutOfRange(idx: int)  // `CLASSES[idx]` raised IndexError
    | NoFrame                         // a webcam read gave None and resizing it raised
    | SourceFailed(reason: string)    // the video source or decoder raised
    | ThresholdTypeError              // `sum(total) >= threshold` with a threshold that is not a number

  /** `int(detections[0, 0, i, 1])`. */
  function LabelIndex(f: Float): (r: Result<int, Fault>)
    ensures r.Ok? <==> f.Finite?
    ensures f.Finite? ==> r == Ok(Trunc(f.r))
  {
    match f
    case Finite(x) => Ok(Trunc(x))
    case _ => Err(LabelNotInteger)
  }

  /** Python list indexing `classes[idx]`, negative indices counting from the end. */
  function ClassAt(classes: seq<string>, idx: int): (r: Result<string, Fault>)
    ensures r.Ok? <==> -|classes| <= idx < |classes|
    ensures 0 <= idx < |classes| ==> r == Ok(classes[idx])
    ensures -|classes| <= idx < 0 ==> r == Ok(classes[|classes| + idx])
    ensures r.Err? ==> r.error == ClassIndexOutOfRange(idx)
  {
    if 0 <= idx < |classes| then Ok(classes[idx])
    else if -|classes| <= idx < 0 then Ok(classes[|classes| + idx])
    else Err(ClassIndexOutOfRange(idx))
  }

  /** The `CLASSES` list of parallel/worker.py (MobileNet-SSD's VOC labels). */
  const MobileNetClasses: seq<string> :=
    ["background", "aeroplane", "bicycle", "bird", "boat",
     "bottle", "bus", "car", "cat", "chair", "cow", "diningtable",
     "dog", "horse", "motorbike", "person", "pottedplant", "sheep",
     "sofa", "train", "tvmonitor"]

  /** Exactly two label values select "person" in that list: 15, and -6 through
      Python's negative indexing. */
  lemma PersonLabels(idx: int)
    ensures ClassAt(MobileNetClasses, idx) == Ok("person") <==> idx == 15 || idx == -6
  {
    forall k | 0 <= k < |MobileNetClasses|
      ensures MobileNetClasses[k] == "person" <==> k == 15
    {
      if k != 15 && |MobileNetClasses[k]| == 6 {
        assert MobileNetClasses[k][0] != 'p';
      }
    }
  }

  /** What a detection loop does with one row: skip it, seed a tracker at a
      box, or raise. */
  type RowRule = Detection -> Result<Option<Rect>, Fault>

  /** The trackers a detection loop seeds, in row order, or the first
      exception a row raises. */
  function Seeds(ds: seq<Detection>, rule: RowRule): Result<seq<Rect>, Fault>
    decreases |ds|
  {
    if |ds| == 0 then Ok([])
    else
      match Seeds(ds[..|ds| - 1], rule)
      case Err(e) => Err(e)
      case Ok(rs) =>
        match rule(ds[|ds| - 1])
        case Err(e) => Err(e)
        case Ok(None) => Ok(rs)
        case Ok(Some(r)) => Ok(rs + [r])
  }

  /** The boxes of the rows a rule keeps, in order. */
  function Kept(ds: seq<Detection>, rule: RowRule): seq<Rect>
    decreases |ds|
  {
    if |ds| == 0 then []
    else
      var last := rule(ds[|ds| - 1]);
      Kept(ds[..|ds| - 1], rule) + (if last.Ok? && last.value.Some? then [last.value.value] else [])
  }

  /** A detection loop finishes exactly when no row raises, and then seeds one
      tracker per kept row, in row order. */
  lemma {:induction false} SeedsCharacterized(ds: seq<Detection>, rule: RowRule)
    ensures Seeds(ds, rule).Ok? <==> forall k :: 0 <= k < |ds| ==> rule(ds[k]).Ok?
    ensures Seeds(ds, rule).Ok? ==> Seeds(ds, rule).value == Kept(ds, rule)
    decreases |ds|
  {
    if |ds| > 0 {
      var init := ds[..|ds| - 1];
      SeedsCharacterized(init, rule);
      assert forall k :: 0 <= k < |init| ==> init[k] == ds[k];
    }
  }

  /** Every seeded box comes from a row the rule keeps. */
  lemma {:induction false} KeptFromRows(ds: seq<Detection>, rule: RowRule)
    ensures |Kept(ds, rule)| <= |ds|
    ensures forall r :: r in Kept(ds, rule) ==> exists k :: 0 <= k < |ds| && rule(ds[k]) == Ok(Some(r))
    decreases |ds|
  {
    if |ds| > 0 {
      var init := ds[..|ds| - 1];
      KeptFromRows(init, rule);
      forall r | r in Kept(ds, rule)
        ensures exists k :: 0 <= k < |ds| && rule(ds[k]) == Ok(Some(r))
      {
        if r in Kept(init, rule) {
          var k :| 0 <= k < |init| && rule(init[k]) == Ok(Some(r));
          assert ds[k] == init[k];
        } else {
          assert rule(ds[|ds| - 1]) == Ok(Some(r));
        }
      }
    }
  }

  lemma {:induction false} SeedsErrPersists(ds: seq<Detection>, i: nat, rule: RowRule)
    requires i <= |ds|
    requires Seeds(ds[..i], rule).Err?
    ensures Seeds(ds, rule) == Seeds(ds[..i], rule)
    decreases |ds| - i
  {
    if i < |ds| {
      assert ds[..i + 1][..i] == ds[..i];
      SeedsErrPersists(ds, i + 1, rule);
    } else {
      assert ds[..i] == ds;
    }
  }

  /** The detection loop: `trackers = []`, then the body for each row. */
  method DetectRows(ds: seq<Detection>, rule: RowRule) returns (r: Result<seq<Rect>, Fault>)
    ensures r == Seeds(ds, rule)
  {
    var trackers: seq<Rect> := [];
    var i := 0;
    while i < |ds|
      invariant 0 <= i <= |ds|
      invariant Seeds(ds[..i], rule) == Ok(trackers)
    {
      assert ds[..i + 1][..i] == ds[..i];
      var step := rule(ds[i]);
      if step.Err? {
        SeedsErrPersists(ds, i + 1, rule);
        return Err(step.error);
      }
      if step.value.Some? {
        trackers := trackers + [step.value.value];
      }
      i := i + 1;
    }
    assert ds[..i] == ds;
    r := Ok(trackers);
  }
}
