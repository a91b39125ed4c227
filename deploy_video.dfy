/** `deploy_video_analysis.py`: the per-frame counting of
    `DetailedVideoProcessor.process_frame`. Confident "person" rows of the
    detector become boxes, the centroid tracker is updated only when there
    are boxes, and every object seen a second time is counted once, as
    leaving when it moved up since its last centroid and as entering
    otherwise. The tracker's output is a parameter: a function of every
    list of boxes it has been given. */
module DeployVideo {
  import opened Wrappers
  import opened Floats
  import opened Detector
  import opened Trackable
  import opened Crossing

  /** The "person" class index of the Caffe MobileNet-SSD model used here. */
  const PersonClass := 15
  const DefaultConfidence: real := 0.4

  /** `box.astype("int")` of the relative corners scaled to the frame. */
  function ScaledBox(d: Detection, width: int, height: int): Rect {
    Rect(AsInt64(MulInt(d.startX, width)), AsInt64(MulInt(d.startY, height)),
         AsInt64(MulInt(d.endX, width)), AsInt64(MulInt(d.endY, height)))
  }

  /** What the detection loop does with one row. `int(label)` is only
      reached for a confident row, and raises for a non-finite label. */
  function DeployRule(confidence: real, width: int, height: int): RowRule {
    (d: Detection) =>
      if !GreaterThan(d.confidence, confidence) then Ok(None)
      else match LabelIndex(d.classId)
        case Err(e) => Err(e)
        case Ok(idx) => if idx == PersonClass then Ok(Some(ScaledBox(d, width, height))) else Ok(None)
  }

  /** A row gives a box exactly when it is confident and its label
      truncates to 15; it raises exactly when it is confident and its label
      is NaN or infinite. */
  lemma DeployRuleCharacterized(confidence: real, width: int, height: int, d: Detection)
    ensures var r := DeployRule(confidence, width, height)(d);
            && (r.Err? <==> GreaterThan(d.confidence, confidence) && !d.classId.Finite?)
            && (r.Ok? && r.value.Some? <==>
                  GreaterThan(d.confidence, confidence) && d.classId.Finite? && Trunc(d.classId.r) == PersonClass)
            && (r.Ok? && r.value.Some? ==> r.value.value == ScaledBox(d, width, height))
  {
  }

  /** The index of the first row that raises, or the number of rows. */
  function FirstFault(rows: seq<Detection>, rule: RowRule, from: nat): (k: nat)
    requires from <= |rows|
    ensures from <= k <= |rows|
    ensures forall j :: from <= j < k ==> rule(rows[j]).Ok?
    ensures k < |rows| ==> rule(rows[k]).Err?
    decreases |rows| - from
  {
    if from == |rows| then from
    else if rule(rows[from]).Err? then from
    else FirstFault(rows, rule, from + 1)
  }

  /** The detection loop: the boxes kept before the first row that raises,
      and that row's exception. */
  method SelectRows(rows: seq<Detection>, rule: RowRule) returns (rects: seq<Rect>, fault: Option<Fault>)
    ensures var k := FirstFault(rows, rule, 0);
            && rects == Kept(rows[..k], rule)
            && (fault.None? <==> k == |rows|)
            && (fault.Some? ==> fault.value == rule(rows[k]).error)
  {
    rects := [];
    var i := 0;
    while i < |rows|
      invariant 0 <= i <= |rows|
      invariant FirstFault(rows, rule, 0) == FirstFault(rows, rule, i)
      invariant rects == Kept(rows[..i], rule)
    {
      var step := rule(rows[i]);
      if step.Err? {
        return rects, Some(step.error);
      }
      assert rows[..i + 1][..i] == rows[..i];
      if step.value.Some? {
        rects := rects + [step.value.value];
      } else {
        assert rects + [] == rects;
      }
      i := i + 1;
    }
    return rects, None;
  }

  // ---------------------------------------------------------------------
  // The counting rule
  // ---------------------------------------------------------------------

  /** `trackableObjects` and the two counters of `stats`. */
  datatype Counts = Counts(objects: map<int, TrackedObject>, peopleIn: nat, peopleOut: nat)

  /** One iteration of the loop over the tracker's objects. */
  function Visit(s: Counts, o: Observation): Counts {
    if o.id !in s.objects then
      s.(objects := s.objects[o.id := NewTrackableObject(o.id, o.centroid)])
    else
      var t := s.objects[o.id];
      var direction := o.centroid.y - t.centroids[|t.centroids| - 1].y;
      var moved := AddCentroid(t, o.centroid);
      if t.counted then s.(objects := s.objects[o.id := moved])
      else if direction < 0 then Counts(s.objects[o.id := MarkCounted(moved)], s.peopleIn, s.peopleOut + 1)
      else Counts(s.objects[o.id := MarkCounted(moved)], s.peopleIn + 1, s.peopleOut)
  }

  function VisitAll(s: Counts, obs: seq<Observation>): Counts
    decreases |obs|
  {
    if |obs| == 0 then s else Visit(VisitAll(s, obs[..|obs| - 1]), obs[|obs| - 1])
  }

  /** A first sighting registers a fresh, uncounted object and counts nothing. */
  lemma FirstSighting(s: Counts, o: Observation)
    requires o.id !in s.objects
    ensures var t := Visit(s, o);
            && t.peopleIn == s.peopleIn && t.peopleOut == s.peopleOut
            && t.objects == s.objects[o.id := NewTrackableObject(o.id, o.centroid)]
            && t.objects[o.id].centroids == [o.centroid] && !t.objects[o.id].counted
  {
  }

  /** A second sighting of an uncounted object counts it once: as leaving
      when it moved up (`direction < 0`), as entering otherwise, a
      direction of 0 included. A counted object only gains a centroid. */
  lemma SecondSighting(s: Counts, o: Observation)
    requires o.id in s.objects
    ensures var before := s.objects[o.id];
            var direction := o.centroid.y - before.centroids[|before.centroids| - 1].y;
            var t := Visit(s, o);
            && o.id in t.objects
            && t.objects[o.id].centroids == before.centroids + [o.centroid]
            && t.objects[o.id].counted
            && (before.counted ==> t.peopleIn == s.peopleIn && t.peopleOut == s.peopleOut)
            && (!before.counted && direction < 0 ==> t.peopleIn == s.peopleIn && t.peopleOut == s.peopleOut + 1)
            && (!before.counted && direction >= 0 ==> t.peopleIn == s.peopleIn + 1 && t.peopleOut == s.peopleOut)
  {
  }

  /** Every count belongs to exactly one counted object. */
  predicate Balanced(s: Counts) {
    s.peopleIn + s.peopleOut == |CountedIds(s.objects)|
  }

  lemma VisitBalanced(s: Counts, o: Observation)
    requires Balanced(s)
    ensures Balanced(Visit(s, o))
  {
    var t := Visit(s, o);
    if o.id !in s.objects {
      assert CountedIds(t.objects) == CountedIds(s.objects);
    } else if s.objects[o.id].counted {
      assert CountedIds(t.objects) == CountedIds(s.objects);
    } else {
      assert CountedIds(t.objects) == CountedIds(s.objects) + {o.id};
      assert o.id !in CountedIds(s.objects);
    }
  }

  lemma {:induction false} VisitAllBalanced(s: Counts, obs: seq<Observation>)
    requires Balanced(s)
    ensures Balanced(VisitAll(s, obs))
    decreases |obs|
  {
    if |obs| > 0 {
      VisitAllBalanced(s, obs[..|obs| - 1]);
      VisitBalanced(VisitAll(s, obs[..|obs| - 1]), obs[|obs| - 1]);
    }
  }

  /** Objects are counted at most once: the two counters together never
      exceed the number of objects seen. */
  lemma CountsBounded(s: Counts)
    requires Balanced(s)
    ensures s.peopleIn + s.peopleOut <= |s.objects|
  {
    SubsetCardinality(CountedIds(s.objects), s.objects.Keys);
  }

  /** Visiting objects never forgets one, and never un-counts one. */
  lemma VisitKeeps(s: Counts, o: Observation)
    ensures var t := Visit(s, o);
            && s.objects.Keys + {o.id} == t.objects.Keys
            && CountedIds(s.objects) <= CountedIds(t.objects)
            && s.peopleIn <= t.peopleIn && s.peopleOut <= t.peopleOut
  {
    var t := Visit(s, o);
    assert s.objects.Keys + {o.id} == t.objects.Keys;
  }

  // ---------------------------------------------------------------------
  // DetailedVideoProcessor
  // ---------------------------------------------------------------------

  /** The counters `process_frame` returns in `stats`. */
  datatype Stats = Stats(frameCount: nat, detections: nat, peopleIn: nat, peopleOut: nat)

  class DetailedVideoProcessor {
    var frameCount: nat
    var detections: nat
    var peopleIn: nat
    var peopleOut: nat
    var trackableObjects: map<int, TrackedObject>
    /** Every list of boxes given to the centroid tracker, in order. */
    var fed: seq<seq<Rect>>

    function Current(): Counts
      reads this
    {
      Counts(trackableObjects, peopleIn, peopleOut)
    }

    ghost predicate Valid()
      reads this
    {
      Balanced(Current())
    }

    constructor()
      ensures Valid()
      ensures frameCount == 0 && detections == 0 && peopleIn == 0 && peopleOut == 0
      ensures trackableObjects == map[] && fed == []
    {
      frameCount := 0;
      detections := 0;
      peopleIn := 0;
      peopleOut := 0;
      trackableObjects := map[];
      fed := [];
      assert CountedIds(map[]) == {};
    }

    /** `process_frame` for the detector's rows; `tracker(fed)` is what
        `ct.update` returns after being fed the lists `fed`. */
    method ProcessFrame(rows: seq<Detection>, width: int, height: int, confidence: real,
                        tracker: seq<seq<Rect>> -> seq<Observation>)
      returns (r: Result<Stats, Fault>)
      requires Valid()
      modifies this
      ensures Valid()
      ensures frameCount == old(frameCount) + 1
      ensures var rule := DeployRule(confidence, width, height);
              var k := FirstFault(rows, rule, 0);
              && detections == old(detections) + |Kept(rows[..k], rule)|
              && (k < |rows| ==>
                    && r == Err(rule(rows[k]).error)
                    && Current() == old(Current()) && fed == old(fed))
              && (k == |rows| && Kept(rows, rule) == [] ==>
                    && Current() == old(Current()) && fed == old(fed))
              && (k == |rows| && Kept(rows, rule) != [] ==>
                    && fed == old(fed) + [Kept(rows, rule)]
                    && Current() == VisitAll(old(Current()), tracker(fed)))
              && (k == |rows| ==> r == Ok(Stats(frameCount, detections, peopleIn, peopleOut)))
    {
      frameCount := frameCount + 1;
      var rule := DeployRule(confidence, width, height);
      var rects, fault := SelectRows(rows, rule);
      detections := detections + |rects|;
      if fault.Some? {
        return Err(fault.value);
      }
      assert rows[..|rows|] == rows;
      var objects: seq<Observation> := [];
      if |rects| > 0 {
        fed := fed + [rects];
        objects := tracker(fed);
      }
      UpdateObjects(objects);
      return Ok(Stats(frameCount, detections, peopleIn, peopleOut));
    }

    /** The loop over `objects.items()`. */
    method UpdateObjects(objects: seq<Observation>)
      requires Valid()
      modifies this
      ensures Valid()
      ensures Current() == VisitAll(old(Current()), objects)
      ensures frameCount == old(frameCount) && detections == old(detections) && fed == old(fed)
    {
      ghost var start := Current();
      for i := 0 to |objects|
        invariant Current() == VisitAll(start, objects[..i])
        invariant Valid()
        invariant frameCount == old(frameCount) && detections == old(detections) && fed == old(fed)
      {
        assert objects[..i + 1][..i] == objects[..i];
        VisitBalanced(Current(), objects[i]);
        VisitObject(objects[i]);
      }
      assert objects[..|objects|] == objects;
    }

    /** One iteration: register a new object, or append the centroid and
        count the object the first time it is seen again. */
    method VisitObject(o: Observation)
      modifies this
      ensures Current() == Visit(old(Current()), o)
      ensures frameCount == old(frameCount) && detections == old(detections) && fed == old(fed)
    {
      if o.id !in trackableObjects {
        trackableObjects := trackableObjects[o.id := NewTrackableObject(o.id, o.centroid)];
      } else {
        var t := trackableObjects[o.id];
        var direction := o.centroid.y - t.centroids[|t.centroids| - 1].y;
        t := AddCentroid(t, o.centroid);
        if !t.counted {
          if direction < 0 {
            peopleOut := peopleOut + 1;
          } else {
            peopleIn := peopleIn + 1;
          }
          t := MarkCounted(t);
        }
        trackableObjects := trackableObjects[o.id := t];
      }
    }
  }

  /** The counters that `process_frame` reports never exceed the number of
      objects it has registered. */
  lemma ReportedBounded(p: DetailedVideoProcessor)
    requires p.Valid()
    ensures p.peopleIn + p.peopleOut <= |p.trackableObjects|
  {
    CountsBounded(p.Current());
  }
}
