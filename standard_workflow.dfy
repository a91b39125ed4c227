/** `StandardPeopleCountingWorkflow.process_video`
    (parallel/standard_workflow.py): the detect/track schedule of module Video
    with person boxes as seeds, and the crossing rule of module Crossing
    applied to every object the centroid tracker reports. */
module StandardWorkflow {
  import opened Wrappers
  import opened Json
  import opened Floats
  import opened Detector
  import opened Trackable
  import opened Crossing
  import opened Video

  /** `args["skip_frames"]`, `args["confidence"]`, the class list given to the
      constructor, whether `args["input"]` names a file, and the value of
      `config.get("Threshold", 10)` the alert test compares with. */
  datatype Settings = Settings(classes: seq<string>, skipFrames: int, confidence: real, fromFile: bool,
                               threshold: Json)

  /** The returned tuple `(totalDown, totalUp, totalFrames, total_inside)`. */
  datatype Outcome = Outcome(totalDown: nat, totalUp: nat, totalFrames: nat, totalInside: int)

  /** The box `detections[0, 0, i, 3:7] * [W, H, W, H]` cast with `astype("int")`. */
  function PixelRect(d: Detection, w: int, h: int): Rect {
    Rect(AsInt64(MulInt(d.startX, w)), AsInt64(MulInt(d.startY, h)),
         AsInt64(MulInt(d.endX, w)), AsInt64(MulInt(d.endY, h)))
  }

  /** A row the loop seeds a tracker from. */
  predicate IsPerson(d: Detection, classes: seq<string>, confidence: real) {
    && GreaterThan(d.confidence, confidence)
    && LabelIndex(d.classId).Ok?
    && ClassAt(classes, LabelIndex(d.classId).value) == Ok("person")
  }

  /** A row whose confidence passes but whose class id raises. */
  predicate RaisesOn(d: Detection, classes: seq<string>, confidence: real) {
    && GreaterThan(d.confidence, confidence)
    && (LabelIndex(d.classId).Err? || ClassAt(classes, LabelIndex(d.classId).value).Err?)
  }

  /** The body of the detection loop for one row. */
  function SeedFor(d: Detection, classes: seq<string>, confidence: real, w: int, h: int): Result<Option<Rect>, Fault> {
    if !GreaterThan(d.confidence, confidence) then Ok(None)
    else
      match LabelIndex(d.classId)
      case Err(e) => Err(e)
      case Ok(idx) =>
        match ClassAt(classes, idx)
        case Err(e) => Err(e)
        case Ok(name) => if name != "person" then Ok(None) else Ok(Some(PixelRect(d, w, h)))
  }

  function StandardRule(classes: seq<string>, confidence: real, w: int, h: int): RowRule {
    d => SeedFor(d, classes, confidence, w, h)
  }

  /** A row raises exactly when its confidence passes and its class id does
      not index the class list; it seeds a tracker exactly when it is a
      person above the threshold, at its scaled box. */
  lemma SeedForCharacterized(d: Detection, classes: seq<string>, confidence: real, w: int, h: int)
    ensures SeedFor(d, classes, confidence, w, h).Err? <==> RaisesOn(d, classes, confidence)
    ensures forall r :: SeedFor(d, classes, confidence, w, h) == Ok(Some(r)) <==>
                        IsPerson(d, classes, confidence) && r == PixelRect(d, w, h)
  {
  }

  /** The per-row rule with `W` and `H` of the first read. */
  function RuleOf(stream: seq<Option<Frame>>, s: Settings): RowRule {
    var fs := if |stream| > 0 && stream[0].Some? then [stream[0].value] else [];
    StandardRule(s.classes, s.confidence, FirstWidth(fs), FirstHeight(fs))
  }

  /** The trackers frame `k` seeds if it is a detection frame. */
  function SeedsAt(stream: seq<Option<Frame>>, k: nat, s: Settings): Result<seq<Rect>, Fault>
    requires k < |stream| && stream[k].Some?
  {
    Seeds(stream[k].value.detections, RuleOf(stream, s))
  }

  /** Read `k` raises in the alert test `sum(total) >= config.get("Threshold", 10)`:
      the threshold is not a number and the frame holds an entry event. */
  predicate EntryRaises(stream: seq<Option<Frame>>, s: Settings, k: nat)
    requires k < |stream| && stream[k].Some?
  {
    !OrderedWithInt(s.threshold) && EntersAt(Present(stream[..k]), stream[k].value)
  }

  /** What a completed run reports: a file is read up to its end (the first
      missing frame) and every read processed; the counts are the crossing
      rule applied to every reported object in order; detection runs exactly
      on the frames whose index is a multiple of `skip_frames`. */
  ghost predicate Completed(stream: seq<Option<Frame>>, s: Settings, follow: (Rect, nat) -> Rect,
                            o: Outcome, fed: seq<seq<Rect>>)
  {
    && o.totalFrames <= |stream|
    && (forall k :: 0 <= k < o.totalFrames ==> stream[k].Some?)
    && (o.totalFrames < |stream| ==> stream[o.totalFrames].None? && s.fromFile)
    && (var t := Counted(Present(stream[..o.totalFrames]));
        o.totalUp == t.totalUp && o.totalDown == t.totalDown)
    && o.totalInside == o.totalDown - o.totalUp
    && |fed| == o.totalFrames
    && (var fs := Present(stream[..o.totalFrames]);
        forall k :: 0 <= k < o.totalFrames ==>
          s.skipFrames != 0 && k < |fs| &&
          FedCorrectly(fs, s.skipFrames, RuleOf(stream, s), follow, fed, k))
  }

  /** Why a run fails: `skip_frames` is zero, a camera frame is missing, a
      detection frame has a raising row, or an entry meets a threshold that
      is not a number. */
  predicate FailsWith(stream: seq<Option<Frame>>, s: Settings, e: Fault) {
    || (e == ZeroDivision && s.skipFrames == 0)
    || (e == NoFrame && !s.fromFile && exists k :: 0 <= k < |stream| && stream[k].None?)
    || (exists k :: 0 <= k < |stream| && stream[k].Some? && s.skipFrames != 0 && k % s.skipFrames == 0
                   && SeedsAt(stream, k, s) == Err(e))
    || (e == ThresholdTypeError && exists k :: 0 <= k < |stream| && stream[k].Some? && EntryRaises(stream, s, k))
  }

  /** A file whose every detection frame seeds cleanly, read with a nonzero
      `skip_frames` and a numeric threshold. */
  predicate CannotFail(stream: seq<Option<Frame>>, s: Settings) {
    && s.fromFile && s.skipFrames != 0 && OrderedWithInt(s.threshold)
    && forall k :: 0 <= k < |stream| && stream[k].Some? ==> SeedsAt(stream, k, s).Ok?
  }

  /** The first read at or after `k` the loop does not process: the end of
      the stream, a missing frame (a file's end, or a camera read that
      raises), a zero `skip_frames`, a detection frame with a raising row, or
      an entry event checked against a threshold that is not a number. */
  function LoopEnd(stream: seq<Option<Frame>>, s: Settings, k: nat): (n: nat)
    requires k <= |stream|
    ensures k <= n <= |stream|
    ensures n < |stream| ==> stream[n].None? || s.skipFrames == 0 ||
                             (n % s.skipFrames == 0 && SeedsAt(stream, n, s).Err?) || EntryRaises(stream, s, n)
    ensures forall j :: k <= j < n ==> stream[j].Some? && s.skipFrames != 0 &&
                                       (j % s.skipFrames != 0 || SeedsAt(stream, j, s).Ok?) &&
                                       !EntryRaises(stream, s, j)
    decreases |stream| - k
  {
    if k == |stream| then k
    else if stream[k].None? || s.skipFrames == 0 || (k % s.skipFrames == 0 && SeedsAt(stream, k, s).Err?)
            || EntryRaises(stream, s, k) then k
    else LoopEnd(stream, s, k + 1)
  }

  /** The exception that ends the loop, if any: the one raised at `LoopEnd`. */
  function LoopFault(stream: seq<Option<Frame>>, s: Settings): (f: Option<Fault>)
    ensures f.Some? ==> FailsWith(stream, s, f.value) && !CannotFail(stream, s)
  {
    var n := LoopEnd(stream, s, 0);
    if n == |stream| then None
    else if stream[n].None? then (if s.fromFile then None else Some(NoFrame))
    else if s.skipFrames == 0 then Some(ZeroDivision)
    else
      var seeded := SeedsAt(stream, n, s);
      if n % s.skipFrames == 0 && seeded.Err? then Some(seeded.error)
      else if EntryRaises(stream, s, n) then Some(ThresholdTypeError)
      else None
  }

  /** A clean file never raises, and a run raises exactly when it stops
      before the end at a read other than a file's first missing frame. */
  lemma LoopFaultExactly(stream: seq<Option<Frame>>, s: Settings)
    ensures CannotFail(stream, s) ==> LoopFault(stream, s).None?
    ensures var n := LoopEnd(stream, s, 0);
            LoopFault(stream, s).None? <==> n == |stream| || (stream[n].None? && s.fromFile)
  {
    var n := LoopEnd(stream, s, 0);
    if n < |stream| && stream[n].Some? && s.skipFrames != 0 {
      assert (n % s.skipFrames == 0 && SeedsAt(stream, n, s).Err?) || EntryRaises(stream, s, n);
    }
  }

  /** The loop stops at read `k` once it has reached it and `k` stops it. */
  lemma StopsAt(stream: seq<Option<Frame>>, s: Settings, k: nat)
    requires k < |stream| && LoopEnd(stream, s, 0) == LoopEnd(stream, s, k)
    requires stream[k].None? || s.skipFrames == 0 || (k % s.skipFrames == 0 && SeedsAt(stream, k, s).Err?)
             || EntryRaises(stream, s, k)
    ensures LoopEnd(stream, s, 0) == k
    ensures stream[k].None? ==> LoopFault(stream, s) == if s.fromFile then None else Some(NoFrame)
    ensures stream[k].Some? && s.skipFrames == 0 ==> LoopFault(stream, s) == Some(ZeroDivision)
    ensures stream[k].Some? && s.skipFrames != 0 && k % s.skipFrames == 0 && SeedsAt(stream, k, s).Err? ==>
              LoopFault(stream, s) == Some(SeedsAt(stream, k, s).error)
    ensures stream[k].Some? && s.skipFrames != 0 && !(k % s.skipFrames == 0 && SeedsAt(stream, k, s).Err?) ==>
              LoopFault(stream, s) == Some(ThresholdTypeError)
  {
  }

  /** A read the loop processes does not move where it stops. */
  lemma ContinuesPast(stream: seq<Option<Frame>>, s: Settings, k: nat)
    requires k < |stream| && stream[k].Some? && s.skipFrames != 0
    requires k % s.skipFrames != 0 || SeedsAt(stream, k, s).Ok?
    requires !EntryRaises(stream, s, k)
    ensures LoopEnd(stream, s, k) == LoopEnd(stream, s, k + 1)
  {
  }

  /** The loop's state when it stops without an exception. */
  lemma CompletedAtExit(stream: seq<Option<Frame>>, s: Settings, follow: (Rect, nat) -> Rect,
                        frames: seq<Frame>, ledger: Ledger, trackers: seq<Rect>, fed: seq<seq<Rect>>, n: nat)
    requires n <= |stream|
    requires forall k :: 0 <= k < n ==> stream[k].Some?
    requires frames == Present(stream[..n]) && |frames| == n
    requires n < |stream| ==> stream[n].None? && s.fromFile
    requires Scheduled(frames, s.skipFrames, RuleOf(stream, s), follow, ledger, trackers, fed)
    ensures var t := ledger.tally;
            Completed(stream, s, follow, Outcome(t.totalDown, t.totalUp, n, |t.moveIn| - |t.moveOut|), fed)
    ensures s.skipFrames == 0 && |stream| > 0 ==> stream[0].None?
  {
    StreamCountsBounded(FlatObjects(frames), Midline(frames));
  }

  /** A raising detection frame is a failure a clean file cannot have. */
  lemma FaultAt(stream: seq<Option<Frame>>, s: Settings, k: nat, e: Fault)
    requires k < |stream| && stream[k].Some? && s.skipFrames != 0 && k % s.skipFrames == 0
    requires SeedsAt(stream, k, s) == Err(e)
    ensures FailsWith(stream, s, e) && !CannotFail(stream, s)
  {
  }

  /** An entry against a threshold that is not a number is a failure a clean
      file cannot have. */
  lemma ThresholdFaultAt(stream: seq<Option<Frame>>, s: Settings, k: nat)
    requires k < |stream| && stream[k].Some? && EntryRaises(stream, s, k)
    ensures FailsWith(stream, s, ThresholdTypeError) && !CannotFail(stream, s)
  {
  }

  /** A frame whose pass raised, the way `Video.Advance` reports it, ends the
      loop there with `LoopFault`. */
  lemma FrameRaises(stream: seq<Option<Frame>>, s: Settings, k: nat, fault: Option<Fault>)
    requires k < |stream| && stream[k].Some? && s.skipFrames != 0 && fault.Some?
    requires LoopEnd(stream, s, 0) == LoopEnd(stream, s, k)
    requires k % s.skipFrames == 0 && SeedsAt(stream, k, s).Err? ==> fault == Some(SeedsAt(stream, k, s).error)
    requires !(k % s.skipFrames == 0 && SeedsAt(stream, k, s).Err?) ==>
               EntryRaises(stream, s, k) && fault == Some(ThresholdTypeError)
    ensures LoopEnd(stream, s, 0) == k && fault == LoopFault(stream, s)
    ensures FailsWith(stream, s, fault.value) && !CannotFail(stream, s)
  {
    if k % s.skipFrames == 0 && SeedsAt(stream, k, s).Err? {
      FaultAt(stream, s, k, fault.value);
    } else {
      ThresholdFaultAt(stream, s, k);
    }
    StopsAt(stream, s, k);
  }

  /** The body of the frame loop for read `k`, once it holds a frame and
      `skip_frames` is nonzero: detect or track, then count. It raises
      exactly `LoopFault` when `k` is where the loop stops, and otherwise
      leaves the state its specification gives for one more frame. */
  method CountFrame(stream: seq<Option<Frame>>, s: Settings, follow: (Rect, nat) -> Rect, k: nat,
                    frames: seq<Frame>, wdt: int, hgt: int, ledger: Ledger, trackers: seq<Rect>, fed: seq<seq<Rect>>)
    returns (fault: Option<Fault>, ledger2: Ledger, trackers2: seq<Rect>, fed2: seq<seq<Rect>>)
    requires k < |stream| && stream[k].Some? && stream[0].Some? && s.skipFrames != 0
    requires frames == Present(stream[..k]) && |frames| == k
    requires k > 0 ==> frames[0] == stream[0].value
    requires wdt == stream[0].value.width && hgt == stream[0].value.height
    requires Scheduled(frames, s.skipFrames, RuleOf(stream, s), follow, ledger, trackers, fed)
    requires LoopEnd(stream, s, 0) == LoopEnd(stream, s, k)
    ensures fault.Some? ==> LoopEnd(stream, s, 0) == k && fault == LoopFault(stream, s)
    ensures fault.Some? ==> FailsWith(stream, s, fault.value) && !CannotFail(stream, s)
    ensures fault.None? ==> Scheduled(frames + [stream[k].value], s.skipFrames, RuleOf(stream, s), follow,
                                      ledger2, trackers2, fed2)
    ensures fault.None? ==> LoopEnd(stream, s, k) == LoopEnd(stream, s, k + 1)
  {
    var frame := stream[k].value;
    assert FirstWidth([stream[0].value]) == wdt && FirstHeight([stream[0].value]) == hgt;
    assert hgt == FirstHeight(frames + [frame]);
    fault, ledger2, trackers2, fed2 :=
      Advance(frames, frame, s.skipFrames, StandardRule(s.classes, s.confidence, wdt, hgt), follow,
              hgt / 2, OrderedWithInt(s.threshold), ledger, trackers, fed);
    assert RuleOf(stream, s) == StandardRule(s.classes, s.confidence, wdt, hgt);
    if fault.Some? {
      FrameRaises(stream, s, k, fault);
    } else {
      ContinuesPast(stream, s, k);
    }
  }

  /** The frame loop of `process_video`: the frames it processed and the
      loop's state, or the exception that ended it. */
  method FrameLoop(stream: seq<Option<Frame>>, s: Settings, follow: (Rect, nat) -> Rect)
    returns (fault: Option<Fault>, frames: seq<Frame>, ledger: Ledger, trackers: seq<Rect>, fed: seq<seq<Rect>>)
    ensures |frames| <= |stream| && forall k :: 0 <= k < |frames| ==> stream[k].Some?
    ensures frames == Present(stream[..|frames|])
    ensures fault.None? ==> |frames| < |stream| ==> stream[|frames|].None? && s.fromFile
    ensures fault.None? ==> Scheduled(frames, s.skipFrames, RuleOf(stream, s), follow, ledger, trackers, fed)
    ensures fault.Some? ==> FailsWith(stream, s, fault.value) && !CannotFail(stream, s)
    ensures s.skipFrames == 0 && |stream| > 0 && stream[0].Some? ==> fault == Some(ZeroDivision)
    ensures |frames| == LoopEnd(stream, s, 0) && fault == LoopFault(stream, s)
  {
    ledger := EmptyLedger;
    trackers := [];
    var totalFrames: nat := 0;
    frames := [];
    var wdt, hgt := 0, 0;
    fed := [];
    ScheduledInitially(s.skipFrames, RuleOf(stream, s), follow);
    while totalFrames < |stream|
      invariant totalFrames <= |stream|
      invariant forall k :: 0 <= k < totalFrames ==> stream[k].Some?
      invariant frames == Present(stream[..totalFrames]) && |frames| == totalFrames
      invariant totalFrames > 0 ==> frames[0] == stream[0].value
      invariant totalFrames > 0 ==> wdt == stream[0].value.width && hgt == stream[0].value.height
      invariant Scheduled(frames, s.skipFrames, RuleOf(stream, s), follow, ledger, trackers, fed)
      invariant LoopEnd(stream, s, 0) == LoopEnd(stream, s, totalFrames)
    {
      var next := stream[totalFrames];
      if next.None? {
        StopsAt(stream, s, totalFrames);
        if s.fromFile {
          break;
        }
        return Some(NoFrame), frames, ledger, trackers, fed;
      }
      var frame := next.value;
      if totalFrames == 0 {
        wdt, hgt := frame.width, frame.height;
      }
      if s.skipFrames == 0 {
        StopsAt(stream, s, totalFrames);
        return Some(ZeroDivision), frames, ledger, trackers, fed;
      }
      var stepFault, ledger2, trackers2, fed2 := CountFrame(stream, s, follow, totalFrames, frames, wdt, hgt,
                                                            ledger, trackers, fed);
      if stepFault.Some? {
        return stepFault, frames, ledger, trackers, fed;
      }
      PresentStep(stream, totalFrames);
      frames, ledger, trackers, fed := frames + [frame], ledger2, trackers2, fed2;
      totalFrames := totalFrames + 1;
    }
    fault := None;
  }

  /** `process_video` over the reads of the source (`None` once it is
      exhausted). Returns the counts, or the exception that escaped; `fed`
      lists what each processed frame gave the centroid tracker. */
  method ProcessVideo(stream: seq<Option<Frame>>, s: Settings, follow: (Rect, nat) -> Rect)
    returns (r: Result<Outcome, Fault>, fed: seq<seq<Rect>>)
    ensures r.Ok? ==> Completed(stream, s, follow, r.value, fed)
    ensures CannotFail(stream, s) ==> r.Ok?
    ensures s.skipFrames == 0 && |stream| > 0 && stream[0].Some? ==> r == Err(ZeroDivision)
    ensures r.Err? ==> FailsWith(stream, s, r.error)
    ensures r.Err? <==> LoopFault(stream, s).Some?
    ensures r.Err? ==> r.error == LoopFault(stream, s).value
    ensures r.Ok? ==> r.value.totalFrames == LoopEnd(stream, s, 0)
  {
    var fault, frames, ledger, trackers;
    fault, frames, ledger, trackers, fed := FrameLoop(stream, s, follow);
    if fault.Some? {
      return Err(fault.value), fed;
    }
    CompletedAtExit(stream, s, follow, frames, ledger, trackers, fed, |frames|);
    var t := ledger.tally;
    r := Ok(Outcome(t.totalDown, t.totalUp, |frames|, |t.moveIn| - |t.moveOut|));
  }
}
