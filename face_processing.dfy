/** `gender_analysis/core/services/face_processing.py`: face boxes from a
    cascade detector are filtered by size, clamped into the image and cut
    out, at most `max_faces` of them per frame. The detector's raw boxes and
    the resize to model input are parameters. */
module FaceProcessing {
  import opened Wrappers

  /** An image as its rows of pixels; a NumPy array is rectangular. */
  type Image<P> = rows: seq<seq<P>> | forall i :: 0 <= i < |rows| ==> |rows[i]| == |rows[0]|

  function Height<P>(img: Image<P>): nat { |img| }
  function Width<P>(img: Image<P>): nat { if |img| == 0 then 0 else |img[0]| }

  /** `image.size == 0`. */
  predicate IsEmpty<P>(img: Image<P>) { Height(img) == 0 || Width(img) == 0 }

  /** A box as `(x, y, width, height)`. */
  datatype Box = Box(x: int, y: int, w: int, h: int)

  function Max(a: int, b: int): int { if a >= b then a else b }
  function Min(a: int, b: int): int { if a <= b then a else b }

  /** The clamping in `extract_face_crop`: the corner is moved into the
      image, then the sides are cut to what is left of it. The sides are
      not shortened by the distance the corner moved. */
  function Clamp(b: Box, height: nat, width: nat): (c: Box)
    ensures 0 <= c.x <= width && 0 <= c.y <= height
    ensures c.w <= width - c.x && c.h <= height - c.y
    ensures c.w <= b.w && c.h <= b.h
    ensures 0 <= b.x <= width ==> c.x == b.x
    ensures 0 <= b.y <= height ==> c.y == b.y
  {
    var x := Max(0, Min(b.x, width));
    var y := Max(0, Min(b.y, height));
    Box(x, y, Min(b.w, width - x), Min(b.h, height - y))
  }

  /** A box inside the image is left as it is. */
  lemma ClampInside(b: Box, height: nat, width: nat)
    requires 0 <= b.x && 0 <= b.w && b.x + b.w <= width
    requires 0 <= b.y && 0 <= b.h && b.y + b.h <= height
    ensures Clamp(b, height, width) == b
  {
  }

  /** Clamping twice is clamping once. */
  lemma ClampIdempotent(b: Box, height: nat, width: nat)
    ensures Clamp(Clamp(b, height, width), height, width) == Clamp(b, height, width)
  {
  }

  /** `image[y:y+h, x:x+w]` for a region inside the image. */
  function Region<P>(img: Image<P>, c: Box): (r: Image<P>)
    requires 0 <= c.x && 0 < c.w && c.x + c.w <= Width(img)
    requires 0 <= c.y && 0 < c.h && c.y + c.h <= Height(img)
    ensures Height(r) == c.h && Width(r) == c.w
    ensures forall i, j :: 0 <= i < c.h && 0 <= j < c.w ==> r[i][j] == img[c.y + i][c.x + j]
  {
    seq(c.h, i requires 0 <= i < c.h => img[c.y + i][c.x..c.x + c.w])
  }

  /** `extract_face_crop`: no crop for a missing or empty image or for a
      clamped box without area; otherwise the clamped region. */
  function ExtractFaceCrop<P>(image: Option<Image<P>>, bbox: Box): (r: Option<Image<P>>)
    ensures image.None? || IsEmpty(image.value) ==> r.None?
    ensures image.Some? && !IsEmpty(image.value) ==>
              var c := Clamp(bbox, Height(image.value), Width(image.value));
              && (r.None? <==> c.w <= 0 || c.h <= 0)
              && (r.Some? ==>
                    && Height(r.value) == c.h && Width(r.value) == c.w
                    && c.x + c.w <= Width(image.value) && c.y + c.h <= Height(image.value)
                    && forall i, j :: 0 <= i < c.h && 0 <= j < c.w ==>
                         r.value[i][j] == image.value[c.y + i][c.x + j])
  {
    if image.None? || IsEmpty(image.value) then None
    else
      var img := image.value;
      var c := Clamp(bbox, Height(img), Width(img));
      if c.w <= 0 || c.h <= 0 then None
      else Some(Region(img, c))
  }

  /** A box with positive sides inside a non-empty image is cut out exactly. */
  lemma CropInside<P>(img: Image<P>, b: Box)
    requires !IsEmpty(img) && 0 < b.w && 0 < b.h
    requires 0 <= b.x && b.x + b.w <= Width(img) && 0 <= b.y && b.y + b.h <= Height(img)
    ensures ExtractFaceCrop(Some(img), b) == Some(Region(img, b))
  {
    ClampInside(b, Height(img), Width(img));
  }

  // ---------------------------------------------------------------------
  // detect_faces
  // ---------------------------------------------------------------------

  datatype FaceError = RuntimeError(message: string) | ValueError(message: string)

  /** A kept face; a cascade gives no score, so it is always `1.0`. */
  datatype Detection = Detection(box: Box, confidence: real)

  /** The detector: its minimum face size, its confidence setting, and
      whether the cascade could be loaded. */
  datatype FaceDetector = FaceDetector(minFaceSize: int, confidenceThreshold: real, initialized: bool)

  const DefaultMinFaceSize := 50
  const DefaultConfidence: real := 0.5

  function Detections(raw: seq<Box>, minFaceSize: int): (r: seq<Detection>)
    ensures |r| <= |raw|
    ensures forall k :: 0 <= k < |r| ==> r[k].confidence == 1.0
    ensures forall k :: 0 <= k < |r| ==> r[k].box.w >= minFaceSize && r[k].box.h >= minFaceSize
    decreases |raw|
  {
    if |raw| == 0 then []
    else
      var last := raw[|raw| - 1];
      Detections(raw[..|raw| - 1], minFaceSize) +
        if last.w >= minFaceSize && last.h >= minFaceSize then [Detection(last, 1.0)] else []
  }

  /** Every raw box big enough is kept, in order, and no other. */
  lemma {:induction false} DetectionsKeep(raw: seq<Box>, minFaceSize: int)
    ensures forall b :: b in raw && b.w >= minFaceSize && b.h >= minFaceSize ==>
              Detection(b, 1.0) in Detections(raw, minFaceSize)
    ensures forall d :: d in Detections(raw, minFaceSize) ==> d.box in raw
    decreases |raw|
  {
    if |raw| > 0 {
      var init := raw[..|raw| - 1];
      DetectionsKeep(init, minFaceSize);
      assert raw == init + [raw[|raw| - 1]];
    }
  }

  /** `detect_faces`, given the boxes `detectMultiScale` returns. */
  method DetectFaces<P>(detector: FaceDetector, image: Option<Image<P>>, raw: seq<Box>)
    returns (r: Result<seq<Detection>, FaceError>)
    ensures !detector.initialized ==> r == Err(RuntimeError("Face detector not initialized"))
    ensures detector.initialized && (image.None? || IsEmpty(image.value)) ==>
              r == Err(ValueError("Invalid image provided"))
    ensures detector.initialized && image.Some? && !IsEmpty(image.value) ==>
              r == Ok(Detections(raw, detector.minFaceSize))
  {
    if !detector.initialized {
      return Err(RuntimeError("Face detector not initialized"));
    }
    if image.None? || IsEmpty(image.value) {
      return Err(ValueError("Invalid image provided"));
    }
    var results := [];
    for i := 0 to |raw|
      invariant results == Detections(raw[..i], detector.minFaceSize)
    {
      assert raw[..i + 1][..i] == raw[..i];
      var b := raw[i];
      if b.w >= detector.minFaceSize && b.h >= detector.minFaceSize {
        results := results + [Detection(b, 1.0)];
      } else {
        assert results + [] == results;
      }
    }
    assert raw[..|raw|] == raw;
    return Ok(results);
  }

  // ---------------------------------------------------------------------
  // FaceProcessor.process_frame
  // ---------------------------------------------------------------------

  /** `detections[:m]`, a negative `m` counting from the end. */
  function Take<T>(s: seq<T>, m: int): (r: seq<T>)
    ensures |r| <= |s|
    ensures 0 <= m ==> |r| == Min(m, |s|)
    ensures r == s[..|r|]
  {
    if m >= |s| then s
    else if m >= 0 then s[..m]
    else if |s| + m >= 0 then s[..|s| + m]
    else []
  }

  /** The face limit: only a `max_faces` that is set and non-zero, and that
      the detections exceed, shortens the list. */
  function Limited<T>(detections: seq<T>, maxFaces: Option<int>): (r: seq<T>)
    ensures |r| <= |detections| && r == detections[..|r|]
    ensures maxFaces.Some? && maxFaces.value > 0 ==> |r| == Min(maxFaces.value, |detections|)
    ensures maxFaces.None? || maxFaces.value == 0 ==> r == detections
  {
    if maxFaces.Some? && maxFaces.value != 0 && |detections| > maxFaces.value then Take(detections, maxFaces.value)
    else detections
  }

  /** The crops of the detections that give one, each resized, with its detection. */
  function Crops<P>(frame: Image<P>, detections: seq<Detection>, resize: Image<P> -> Image<P>):
    (r: seq<(Image<P>, Detection)>)
    ensures |r| <= |detections|
    decreases |detections|
  {
    if |detections| == 0 then []
    else
      var d := detections[|detections| - 1];
      Crops(frame, detections[..|detections| - 1], resize) +
        match ExtractFaceCrop(Some(frame), d.box)
        case None => []
        case Some(crop) => [(resize(crop), d)]
  }

  /** Each result pairs a kept detection with its resized crop, in the
      detections' order; a detection inside the frame is never dropped. */
  lemma {:induction false} CropsSpec<P>(frame: Image<P>, detections: seq<Detection>, resize: Image<P> -> Image<P>)
    ensures forall k :: 0 <= k < |Crops(frame, detections, resize)| ==>
              var (img, d) := Crops(frame, detections, resize)[k];
              d in detections && ExtractFaceCrop(Some(frame), d.box).Some? &&
              img == resize(ExtractFaceCrop(Some(frame), d.box).value)
    ensures (forall k :: 0 <= k < |detections| ==> ExtractFaceCrop(Some(frame), detections[k].box).Some?) ==>
              |Crops(frame, detections, resize)| == |detections|
    decreases |detections|
  {
    if |detections| > 0 {
      var init := detections[..|detections| - 1];
      CropsSpec(frame, init, resize);
      var prev := Crops(frame, init, resize);
      var all := Crops(frame, detections, resize);
      forall k | 0 <= k < |all|
        ensures var (img, d) := all[k];
                d in detections && ExtractFaceCrop(Some(frame), d.box).Some? &&
                img == resize(ExtractFaceCrop(Some(frame), d.box).value)
      {
        if k < |prev| {
          assert all[k] == prev[k];
          assert prev[k].1 in init;
        }
      }
    }
  }

  /** `process_frame`: detect, limit, then crop and resize each face; the
      error `detect_faces` raises escapes unchanged. */
  method ProcessFrame<P>(detector: FaceDetector, frame: Option<Image<P>>, maxFaces: Option<int>, raw: seq<Box>,
                         resize: Image<P> -> Image<P>)
    returns (r: Result<seq<(Image<P>, Detection)>, FaceError>)
    ensures var detected := if frame.Some? && !IsEmpty(frame.value) && detector.initialized
                            then Some(Detections(raw, detector.minFaceSize)) else None;
            && (!detector.initialized ==> r == Err(RuntimeError("Face detector not initialized")))
            && (detector.initialized && (frame.None? || IsEmpty(frame.value)) ==>
                  r == Err(ValueError("Invalid image provided")))
            && (detected.Some? ==> r == Ok(Crops(frame.value, Limited(detected.value, maxFaces), resize)))
  {
    var detections := DetectFaces(detector, frame, raw);
    if detections.Err? {
      return Err(detections.error);
    }
    var limited := detections.value;
    if maxFaces.Some? && maxFaces.value != 0 && |limited| > maxFaces.value {
      limited := Take(limited, maxFaces.value);
    }
    var results := CropFaces(frame.value, limited, resize);
    return Ok(results);
  }

  /** The crop loop of `process_frame`: a detection whose crop is empty is skipped. */
  method CropFaces<P>(frame: Image<P>, detections: seq<Detection>, resize: Image<P> -> Image<P>)
    returns (results: seq<(Image<P>, Detection)>)
    ensures results == Crops(frame, detections, resize)
  {
    results := [];
    for i := 0 to |detections|
      invariant results == Crops(frame, detections[..i], resize)
    {
      assert detections[..i + 1][..i] == detections[..i];
      var crop := ExtractFaceCrop(Some(frame), detections[i].box);
      if crop.Some? {
        results := results + [(resize(crop.value), detections[i])];
      } else {
        assert results + [] == results;
      }
    }
    assert detections[..|detections|] == detections;
  }

  /** With `max_faces` set to a positive number, at most that many faces
      come back, and never more than were detected. */
  lemma ProcessFrameBound<P>(frame: Image<P>, detections: seq<Detection>, maxFaces: Option<int>,
                             resize: Image<P> -> Image<P>)
    ensures var n := |Crops(frame, Limited(detections, maxFaces), resize)|;
            n <= |detections| && (maxFaces.Some? && maxFaces.value > 0 ==> n <= maxFaces.value)
  {
  }
}
