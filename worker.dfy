/** `PeopleCounterWorker` (parallel/worker.py): `count_people` runs the
    detect/track schedule of module Video with validated person boxes as
    seeds and the crossing rule of module Crossing, reporting progress every
    ten frames and always a final 'completed' record; `run` takes tasks from
    the queue until the shutdown sentinel. */
module Worker {
  import opened Wrappers
  import opened Floats
  import opened Json
  import opened Detector
  import opened Trackable
  import opened Crossing
  import opened Video
  import opened Records

  /** `task_config.get('skip_frames', 30)` and `task_config.get('confidence', 0.4)`. */
  datatype TaskConfig = TaskConfig(skipFrames: Option<int>, confidence: Option<real>)

  function SkipFrames(cfg: TaskConfig): int { cfg.skipFrames.GetOr(30) }

  function Confidence(cfg: TaskConfig): real { cfg.confidence.GetOr(0.4) }

  /** The bound of `np.clip(box, -999999, 999999)`. */
  const ClipBound: int := 999999

  /** A progress record goes out whenever the frame count reaches a multiple of this. */
  const ReportEvery: nat := 10

  /** `int(c)` of a coordinate after clipping. */
  function ClipTrunc(x: real): (i: int)
    ensures -ClipBound <= i <= ClipBound
    ensures -(ClipBound as real) <= x <= ClipBound as real ==> i == Trunc(x)
  {
    Trunc(if x < -(ClipBound as real) then -(ClipBound as real)
          else if x > ClipBound as real then ClipBound as real else x)
  }

  /** The rejection test `endX <= startX or endY <= startY or startX < 0 or startY < 0`. */
  predicate Malformed(r: Rect) {
    r.endX <= r.startX || r.endY <= r.startY || r.startX < 0 || r.startY < 0
  }

  predicate AllFinite(d: Detection, w: int, h: int) {
    && MulInt(d.startX, w).Finite? && MulInt(d.startY, h).Finite?
    && MulInt(d.endX, w).Finite? && MulInt(d.endY, h).Finite?
  }

  /** The box of a person row: skipped if any scaled coordinate is NaN or
      infinite, otherwise clipped, truncated and then validated. */
  function ValidatedBox(d: Detection, w: int, h: int): Option<Rect> {
    if !AllFinite(d, w, h) then None
    else
      var r := Rect(ClipTrunc(MulInt(d.startX, w).r), ClipTrunc(MulInt(d.startY, h).r),
                    ClipTrunc(MulInt(d.endX, w).r), ClipTrunc(MulInt(d.endY, h).r));
      if Malformed(r) then None else Some(r)
  }

  /** The body of the worker's detection loop for one row. */
  function WorkerSeedFor(d: Detection, confidence: real, w: int, h: int): Result<Option<Rect>, Fault> {
    if !GreaterThan(d.confidence, confidence) then Ok(None)
    else
      match LabelIndex(d.classId)
      case Err(e) => Err(e)
      case Ok(idx) =>
        match ClassAt(MobileNetClasses, idx)
        case Err(e) => Err(e)
        case Ok(name) => if name != "person" then Ok(None) else Ok(ValidatedBox(d, w, h))
  }

  function WorkerRule(confidence: real, w: int, h: int): RowRule {
    d => WorkerSeedFor(d, confidence, w, h)
  }

  /** A seeded box comes from a person row strictly above the threshold, has
      no NaN or infinite coordinate, lies within the clip bounds and passes the
      validity test; a row raises exactly when its label is not an integer
      or indexes outside the class list. */
  lemma WorkerSeedForCharacterized(d: Detection, confidence: real, w: int, h: int)
    ensures WorkerSeedFor(d, confidence, w, h).Err? <==>
              && GreaterThan(d.confidence, confidence)
              && (LabelIndex(d.classId).Err? || !(-21 <= LabelIndex(d.classId).value < 21))
    ensures forall r: Rect :: WorkerSeedFor(d, confidence, w, h) == Ok(Some(r)) ==>
              && GreaterThan(d.confidence, confidence)
              && (LabelIndex(d.classId) == Ok(15) || LabelIndex(d.classId) == Ok(-6))
              && AllFinite(d, w, h)
              && 0 <= r.startX < r.endX <= ClipBound && 0 <= r.startY < r.endY <= ClipBound
    ensures !AllFinite(d, w, h) ==> !(WorkerSeedFor(d, confidence, w, h).Ok? && WorkerSeedFor(d, confidence, w, h).value.Some?)
  {
    if GreaterThan(d.confidence, confidence) && LabelIndex(d.classId).Ok? {
      PersonLabels(LabelIndex(d.classId).value);
    }
  }

  /** A person row above the threshold with finite coordinates is kept exactly
      when its clipped box is well formed. */
  lemma PersonRowKept(d: Detection, confidence: real, w: int, h: int)
    requires GreaterThan(d.confidence, confidence)
    requires LabelIndex(d.classId) == Ok(15) || LabelIndex(d.classId) == Ok(-6)
    ensures WorkerSeedFor(d, confidence, w, h) == Ok(ValidatedBox(d, w, h))
    ensures ValidatedBox(d, w, h).Some? <==>
              AllFinite(d, w, h) &&
              !Malformed(Rect(ClipTrunc(MulInt(d.startX, w).r), ClipTrunc(MulInt(d.startY, h).r),
                              ClipTrunc(MulInt(d.endX, w).r), ClipTrunc(MulInt(d.endY, h).r)))
  {
    PersonLabels(LabelIndex(d.classId).value);
  }

  /** Frame `k` of the readable frames raises on the loop: through a zero
      `skip_frames` (`totalFrames % skip_frames`), through a detection row,
      or through the alert test `sum(total) >= threshold` of an entry event
      when the threshold is not a number (`numeric` false). */
  predicate RaisesAt(src: seq<Frame>, skip: int, rule: RowRule, numeric: bool, k: nat)
    requires k < |src|
  {
    || skip == 0
    || (k % skip == 0 && Seeds(src[k].detections, rule).Err?)
    || (!numeric && EntersAt(src[..k], src[k]))
  }

  /** Frame `k` raises through the alert test and through nothing earlier. */
  predicate EntryFault(src: seq<Frame>, skip: int, rule: RowRule, numeric: bool, k: nat)
    requires k < |src|
  {
    && skip != 0 && !(k % skip == 0 && Seeds(src[k].detections, rule).Err?)
    && !numeric && EntersAt(src[..k], src[k])
  }

  /** The index of the frame at which `count_people` stops, counted from `k`:
      the first frame that raises, or the end of the source. */
  function StopAt(src: seq<Frame>, skip: int, rule: RowRule, numeric: bool, k: nat): (n: nat)
    requires k <= |src|
    ensures k <= n <= |src|
    ensures n < |src| ==> RaisesAt(src, skip, rule, numeric, n)
    ensures forall j :: k <= j < n ==> !RaisesAt(src, skip, rule, numeric, j)
    decreases |src| - k
  {
    if k == |src| then k
    else if RaisesAt(src, skip, rule, numeric, k) then k
    else StopAt(src, skip, rule, numeric, k + 1)
  }

  /** The exception frame `n` raises (when it is not past the end). */
  function FaultAt(src: seq<Frame>, skip: int, rule: RowRule, numeric: bool, n: nat): (f: Option<Fault>)
    requires n <= |src|
    ensures n < |src| ==> (f.Some? <==> RaisesAt(src, skip, rule, numeric, n))
    ensures n < |src| && EntryFault(src, skip, rule, numeric, n) ==> f == Some(ThresholdTypeError)
  {
    if n == |src| then None
    else if skip == 0 then Some(ZeroDivision)
    else
      var s := Seeds(src[n].detections, rule);
      if n % skip == 0 && s.Err? then Some(s.error)
      else if !numeric && EntersAt(src[..n], src[n]) then Some(ThresholdTypeError)
      else None
  }

  /** The counts the `finally` clause reports when the loop stopped at frame
      `n`: every object of the earlier frames, and when frame `n` raised
      through the alert test, its objects up to and including that entry. */
  function StopCounts(src: seq<Frame>, skip: int, rule: RowRule, numeric: bool, n: nat): Tally
    requires n <= |src|
  {
    if n < |src| && EntryFault(src, skip, rule, numeric, n) then EnteredCounts(src[..n], src[n])
    else Counted(src[..n])
  }

  /** The index of the first `None` read. */
  function FirstMissing(stream: seq<Option<Frame>>): (i: nat)
    ensures i <= |stream|
    ensures i < |stream| ==> stream[i].None?
    ensures forall k :: 0 <= k < i ==> stream[k].Some?
    decreases |stream|
  {
    if |stream| == 0 || stream[0].None? then 0 else 1 + FirstMissing(stream[1..])
  }

  /** The frames the loop can get: a camera skips `None` reads, a video ends at
      the first one. */
  function Readable(stream: seq<Option<Frame>>, isCamera: bool): seq<Frame> {
    if isCamera then Present(stream) else Present(stream[..FirstMissing(stream)])
  }

  lemma {:induction false} PresentPrefix(stream: seq<Option<Frame>>, i: nat, j: nat)
    requires i <= j <= |stream|
    ensures |Present(stream[..i])| <= |Present(stream[..j])|
    ensures Present(stream[..i]) == Present(stream[..j])[..|Present(stream[..i])|]
    decreases j - i
  {
    if i < j {
      PresentPrefix(stream, i, j - 1);
      PresentStep(stream, j - 1);
    }
  }

  /** The read at `i < last` that is a frame is the next readable frame. */
  lemma NextReadable(stream: seq<Option<Frame>>, i: nat, last: nat, frames: seq<Frame>)
    requires i < last <= |stream| && stream[i].Some?
    requires frames == Present(stream[..i])
    ensures Present(stream[..i + 1]) == frames + [stream[i].value]
    ensures |frames| < |Present(stream[..last])|
    ensures frames + [stream[i].value] == Present(stream[..last])[..|frames| + 1]
  {
    PresentStep(stream, i);
    PresentPrefix(stream, i + 1, last);
  }

  lemma SkipMissing(stream: seq<Option<Frame>>, i: nat, frames: seq<Frame>)
    requires i < |stream| && stream[i].None?
    requires frames == Present(stream[..i])
    ensures Present(stream[..i + 1]) == frames
  {
    PresentStep(stream, i);
  }

  /** The loop ran out of reads, or a video read gave no frame: every
      readable frame has been processed. */
  lemma EndOfSource(stream: seq<Option<Frame>>, isCamera: bool, i: nat, frames: seq<Frame>)
    requires i <= |stream|
    requires !isCamera ==> i <= FirstMissing(stream)
    requires frames == Present(stream[..i])
    requires i == |stream| || (stream[i].None? && !isCamera)
    ensures frames == Readable(stream, isCamera)
  {
    assert stream[..|stream|] == stream;
  }

  /** Stopping at `n`: no fault before it, and `n` is the end or faults. */
  lemma StopsHere(src: seq<Frame>, skip: int, rule: RowRule, numeric: bool, n: nat)
    requires n <= |src|
    requires n < |src| ==> RaisesAt(src, skip, rule, numeric, n)
    ensures StopAt(src, skip, rule, numeric, n) == n
  {
  }

  /** A frame that raises nothing does not stop the loop. */
  lemma StopContinues(src: seq<Frame>, skip: int, rule: RowRule, numeric: bool, n: nat)
    requires n < |src| && !RaisesAt(src, skip, rule, numeric, n)
    ensures StopAt(src, skip, rule, numeric, n) == StopAt(src, skip, rule, numeric, n + 1)
  {
  }

  /** The `status` a frame ends with. */
  function StatusOf(k: nat, skip: int): string
    requires skip != 0
  {
    if k % skip == 0 then "Detecting" else "Tracking"
  }

  /** Who sends the records of a task. */
  datatype Sender = Sender(workerId: string, taskId: Json, cameraId: Json, videoId: Json)

  /** The progress record sent once the frames have been processed. */
  function Progress(who: Sender, frames: seq<Frame>, skip: int, fpsAt: nat -> real): Record
    requires skip != 0 && |frames| > 0
  {
    var t := Counted(frames);
    Record(Some(who.workerId), Some(who.taskId), Some(who.cameraId), Some(who.videoId),
           Some(fpsAt(|frames|)), Some(t.totalDown), Some(t.totalUp), Some(|t.moveIn| - |t.moveOut|),
           Some(StatusOf(|frames| - 1, skip)), Some(|frames|), None, None, None)
  }

  /** The progress records sent while processing the frames. */
  function Periodic(who: Sender, frames: seq<Frame>, skip: int, fpsAt: nat -> real): seq<Record>
    requires skip != 0 || |frames| == 0
    decreases |frames|
  {
    if |frames| == 0 then []
    else Periodic(who, frames[..|frames| - 1], skip, fpsAt) +
         (if |frames| % ReportEvery == 0 then [Progress(who, frames, skip, fpsAt)] else [])
  }

  /** The record the `finally` clause sends after `frameCount` frames with
      the counts `t`. */
  function Final(who: Sender, frameCount: nat, t: Tally, avgFps: real, elapsed: real): Record {
    Record(Some(who.workerId), Some(who.taskId), Some(who.cameraId), Some(who.videoId),
           Some(avgFps), Some(t.totalDown), Some(t.totalUp), Some(|t.moveIn| - |t.moveOut|),
           Some("completed"), Some(frameCount), Some(elapsed), None, None)
  }

  lemma PeriodicStep(who: Sender, frames: seq<Frame>, frame: Frame, skip: int, fpsAt: nat -> real)
    requires skip != 0
    ensures Periodic(who, frames + [frame], skip, fpsAt) ==
            Periodic(who, frames, skip, fpsAt) +
            (if (|frames| + 1) % ReportEvery == 0 then [Progress(who, frames + [frame], skip, fpsAt)] else [])
  {
    assert (frames + [frame])[..|frames|] == frames;
  }

  /** One progress record per ten frames, the i-th after frame 10*(i+1). */
  lemma {:induction false} PeriodicShape(who: Sender, frames: seq<Frame>, skip: int, fpsAt: nat -> real)
    requires skip != 0
    ensures |Periodic(who, frames, skip, fpsAt)| == |frames| / ReportEvery
    ensures forall i :: 0 <= i < |frames| / ReportEvery ==>
              Periodic(who, frames, skip, fpsAt)[i] == Progress(who, frames[..ReportEvery * (i + 1)], skip, fpsAt)
    decreases |frames|
  {
    if |frames| > 0 {
      var init := frames[..|frames| - 1];
      PeriodicShape(who, init, skip, fpsAt);
      forall i | 0 <= i < |init| / ReportEvery
        ensures Periodic(who, frames, skip, fpsAt)[i] == Progress(who, frames[..ReportEvery * (i + 1)], skip, fpsAt)
      {
        assert init[..ReportEvery * (i + 1)] == frames[..ReportEvery * (i + 1)];
      }
      if |frames| % ReportEvery == 0 {
        assert frames[..ReportEvery * (|frames| / ReportEvery)] == frames;
      }
    }
  }

  /** Every record of a task reports `current_count == total_in - total_out`,
      and neither counter exceeds the number of identities seen. */
  lemma TallyAgrees(frames: seq<Frame>)
    ensures var t := Counted(frames);
            && |t.moveIn| - |t.moveOut| == t.totalDown - t.totalUp
            && t.totalDown + t.totalUp <= |Ids(FlatObjects(frames))|
  {
    StreamCountsBounded(FlatObjects(frames), Midline(frames));
  }

  /** The counts reported when the loop stops keep the same balance, whether
      it stopped between frames or in the middle of an entry. */
  lemma StopCountsAgree(src: seq<Frame>, skip: int, rule: RowRule, numeric: bool, n: nat)
    requires n <= |src|
    ensures var t := StopCounts(src, skip, rule, numeric, n);
            |t.moveIn| - |t.moveOut| == t.totalDown - t.totalUp
  {
    if n < |src| && EntryFault(src, skip, rule, numeric, n) {
      EnteredCountsAgree(src[..n], src[n]);
    } else {
      TallyAgrees(src[..n]);
    }
  }

  /** The readable frames of a source and where the loop stops on them. */
  function StopOf(stream: seq<Option<Frame>>, isCamera: bool, cfg: TaskConfig, threshold: Json): (n: nat)
    ensures n <= |Readable(stream, isCamera)|
  {
    var src := Readable(stream, isCamera);
    StopAt(src, SkipFrames(cfg), WorkerRule(Confidence(cfg), FirstWidth(src), FirstHeight(src)),
           OrderedWithInt(threshold), 0)
  }

  /** What `count_people` sends for a source, with the task's `threshold`. */
  function TaskRecords(who: Sender, stream: seq<Option<Frame>>, isCamera: bool, cfg: TaskConfig, threshold: Json,
                       fpsAt: nat -> real, avgFps: real, elapsed: real): seq<Record>
  {
    var src := Readable(stream, isCamera);
    var skip := SkipFrames(cfg);
    var rule := WorkerRule(Confidence(cfg), FirstWidth(src), FirstHeight(src));
    var n := StopAt(src, skip, rule, OrderedWithInt(threshold), 0);
    Periodic(who, src[..n], skip, fpsAt) + [Final(who, n, StopCounts(src, skip, rule, OrderedWithInt(threshold), n), avgFps, elapsed)]
  }

  /** The last record of a task is 'completed', counts the frames processed
      before the loop stopped, and reports `current_count == total_in - total_out`. */
  lemma FinalRecordAgrees(who: Sender, stream: seq<Option<Frame>>, isCamera: bool, cfg: TaskConfig, threshold: Json,
                          fpsAt: nat -> real, avgFps: real, elapsed: real)
    ensures var rs := TaskRecords(who, stream, isCamera, cfg, threshold, fpsAt, avgFps, elapsed);
            var r := rs[|rs| - 1];
            && r.status == Some("completed") && r.frameCount == Some(StopOf(stream, isCamera, cfg, threshold))
            && r.currentCount.Some? && r.totalIn.Some? && r.totalOut.Some?
            && r.currentCount.value == r.totalIn.value - r.totalOut.value
  {
    var src := Readable(stream, isCamera);
    var rule := WorkerRule(Confidence(cfg), FirstWidth(src), FirstHeight(src));
    StopCountsAgree(src, SkipFrames(cfg), rule, OrderedWithInt(threshold), StopOf(stream, isCamera, cfg, threshold));
  }

  /** A threshold that is a number only feeds a log line: which number it is
      changes nothing the task sends. */
  lemma NumericThresholdUnused(who: Sender, stream: seq<Option<Frame>>, isCamera: bool, cfg: TaskConfig,
                               t1: Json, t2: Json, fpsAt: nat -> real, avgFps: real, elapsed: real)
    requires OrderedWithInt(t1) && OrderedWithInt(t2)
    ensures TaskRecords(who, stream, isCamera, cfg, t1, fpsAt, avgFps, elapsed) ==
            TaskRecords(who, stream, isCamera, cfg, t2, fpsAt, avgFps, elapsed)
  {
  }

  /** With a threshold that is not a number, the first entry raises: when it
      happens on frame `n`, the task completes with `frame_count` n and
      `total_in` one more than the entries of the frames before. */
  lemma NonNumericThresholdStopsAtEntry(who: Sender, stream: seq<Option<Frame>>, isCamera: bool, cfg: TaskConfig,
                                        threshold: Json, fpsAt: nat -> real, avgFps: real, elapsed: real)
    requires !OrderedWithInt(threshold)
    ensures var src := Readable(stream, isCamera);
            var n := StopOf(stream, isCamera, cfg, threshold);
            var rs := TaskRecords(who, stream, isCamera, cfg, threshold, fpsAt, avgFps, elapsed);
            n < |src| && EntryFault(src, SkipFrames(cfg), WorkerRule(Confidence(cfg), FirstWidth(src), FirstHeight(src)), false, n) ==>
              && rs[|rs| - 1].frameCount == Some(n)
              && rs[|rs| - 1].totalIn == Some(Counted(src[..n]).totalDown + 1)
  {
    var src := Readable(stream, isCamera);
    var n := StopOf(stream, isCamera, cfg, threshold);
    if n < |src| && EntryFault(src, SkipFrames(cfg), WorkerRule(Confidence(cfg), FirstWidth(src), FirstHeight(src)), false, n) {
      EnteredCountsDown(src[..n], src[n]);
    }
  }

  /** Which reads the readable frames come from. */
  function LastRead(stream: seq<Option<Frame>>, isCamera: bool): (last: nat)
    ensures last <= |stream|
    ensures Readable(stream, isCamera) == Present(stream[..last])
  {
    assert stream[..|stream|] == stream;
    if isCamera then |stream| else FirstMissing(stream)
  }

  /** The read at the top of the loop: a camera read that gives no frame is
      skipped (`continue`), a video read that gives none ends the loop
      (`break`). The reads before `i` gave `frames`. */
  method ReadFrame(stream: seq<Option<Frame>>, isCamera: bool, i: nat, ghost frames: seq<Frame>)
    returns (j: nat, next: Option<Frame>)
    requires i <= LastRead(stream, isCamera)
    requires frames == Present(stream[..i])
    ensures next.None? ==> frames == Present(stream[..LastRead(stream, isCamera)])
    ensures next.Some? ==>
              && i < j <= LastRead(stream, isCamera)
              && Present(stream[..j]) == frames + [next.value]
              && |frames| < |Readable(stream, isCamera)|
              && Readable(stream, isCamera)[|frames|] == next.value
              && Readable(stream, isCamera)[..|frames| + 1] == frames + [next.value]
  {
    ghost var last := LastRead(stream, isCamera);
    j := i;
    while j < |stream|
      invariant i <= j <= last
      invariant frames == Present(stream[..j])
      decreases |stream| - j
    {
      PresentStep(stream, j);
      if stream[j].Some? {
        ReadAt(stream, isCamera, j, frames);
        next := stream[j];
        j := j + 1;
        return;
      }
      if !isCamera {
        break;
      }
      j := j + 1;
    }
    next := None;
  }

  /** A read that gives a frame extends the readable frames seen so far. */
  lemma ReadAt(stream: seq<Option<Frame>>, isCamera: bool, j: nat, frames: seq<Frame>)
    requires j < LastRead(stream, isCamera) && stream[j].Some?
    requires frames == Present(stream[..j])
    ensures Present(stream[..j + 1]) == frames + [stream[j].value]
    ensures |frames| < |Readable(stream, isCamera)|
    ensures Readable(stream, isCamera)[..|frames| + 1] == frames + [stream[j].value]
    ensures Readable(stream, isCamera)[|frames|] == stream[j].value
  {
    var got := frames + [stream[j].value];
    PresentStep(stream, j);
    PresentPrefix(stream, j + 1, LastRead(stream, isCamera));
    assert Readable(stream, isCamera)[..|got|] == got;
    assert got[|frames|] == stream[j].value;
  }

  /** What the loop has sent once it stops is what `count_people` sends. */
  lemma RecordsOfRun(who: Sender, stream: seq<Option<Frame>>, isCamera: bool, cfg: TaskConfig, threshold: Json,
                     fpsAt: nat -> real, avgFps: real, elapsed: real, frames: seq<Frame>, counts: Tally)
    requires var src := Readable(stream, isCamera);
             var rule := WorkerRule(Confidence(cfg), FirstWidth(src), FirstHeight(src));
             && frames == src[..StopAt(src, SkipFrames(cfg), rule, OrderedWithInt(threshold), 0)]
             && counts == StopCounts(src, SkipFrames(cfg), rule, OrderedWithInt(threshold), |frames|)
    requires SkipFrames(cfg) != 0 || |frames| == 0
    ensures TaskRecords(who, stream, isCamera, cfg, threshold, fpsAt, avgFps, elapsed) ==
            Periodic(who, frames, SkipFrames(cfg), fpsAt) + [Final(who, |frames|, counts, avgFps, elapsed)]
  {
  }

  /** The variables of the `count_people` loop: the frames processed so far,
      `trackableObjects` with the counters, the trackers, what each frame fed
      the centroid tracker, the records sent, and the row rule and midline
      fixed by the first frame. */
  datatype Loop = Loop(frames: seq<Frame>, ledger: Ledger, trackers: seq<Rect>, fed: seq<seq<Rect>>,
                       sent: seq<Record>, rule: RowRule, midline: int)

  /** The loop invariant, for the readable frames `src` and the rule they fix. */
  ghost predicate Sound(st: Loop, who: Sender, src: seq<Frame>, skip: int, specRule: RowRule, numeric: bool,
                        follow: (Rect, nat) -> Rect, fpsAt: nat -> real)
  {
    && |st.frames| <= |src| && st.frames == src[..|st.frames|]
    && StopAt(src, skip, specRule, numeric, 0) == StopAt(src, skip, specRule, numeric, |st.frames|)
    && (|st.frames| > 0 ==> st.rule == specRule && st.midline == Midline(src))
    && Scheduled(st.frames, skip, specRule, follow, st.ledger, st.trackers, st.fed)
    && (skip != 0 || |st.frames| == 0)
    && st.sent == Periodic(who, st.frames, skip, fpsAt)
  }

  /** One pass of the loop body for the next readable frame. `numeric`
      says whether the task's threshold is a number; when the frame raises,
      `counts` are the counters the `finally` clause then reads. */
  method Step(st: Loop, frame: Frame, who: Sender, skip: int, confidence: real, numeric: bool,
              follow: (Rect, nat) -> Rect, fpsAt: nat -> real, ghost src: seq<Frame>)
    returns (st2: Loop, fault: Option<Fault>, counts: Tally)
    requires Sound(st, who, src, skip, WorkerRule(confidence, FirstWidth(src), FirstHeight(src)), numeric, follow, fpsAt)
    requires |st.frames| < |src| && src[|st.frames|] == frame
    ensures fault.None? ==>
              && st2.frames == st.frames + [frame]
              && Sound(st2, who, src, skip, WorkerRule(confidence, FirstWidth(src), FirstHeight(src)), numeric, follow, fpsAt)
    ensures fault.Some? ==>
              var specRule := WorkerRule(confidence, FirstWidth(src), FirstHeight(src));
              && st2 == st
              && StopAt(src, skip, specRule, numeric, 0) == |st.frames|
              && fault == FaultAt(src, skip, specRule, numeric, |st.frames|)
              && counts == StopCounts(src, skip, specRule, numeric, |st.frames|)
  {
    ghost var specRule := WorkerRule(confidence, FirstWidth(src), FirstHeight(src));
    var rule, midline := st.rule, st.midline;
    if |st.frames| == 0 {
      rule := WorkerRule(confidence, frame.width, frame.height);
      midline := frame.height / 2;
    }
    assert rule == specRule && midline == Midline(st.frames + [frame]);
    assert st.frames == src[..|st.frames|];
    if skip == 0 {
      StopsAtFrame(st, who, src, skip, specRule, numeric, follow, fpsAt);
      return st, Some(ZeroDivision), st.ledger.tally;
    }
    var stepFault, ledger, trackers, fed :=
      Advance(st.frames, frame, skip, rule, follow, midline, numeric, st.ledger, st.trackers, st.fed);
    if stepFault.Some? {
      FaultedStep(st, frame, who, src, skip, specRule, numeric, follow, fpsAt, stepFault, ledger.tally);
      return st, stepFault, ledger.tally;
    }
    st2 := Report(st, frame, who, skip, numeric, follow, fpsAt, src, specRule, rule, midline, ledger, trackers, fed);
    fault, counts := None, ledger.tally;
  }

  /** The end of the loop body for a frame that raised nothing: the frame is
      counted, and every tenth frame a progress record is sent. */
  method Report(st: Loop, frame: Frame, who: Sender, skip: int, numeric: bool,
                follow: (Rect, nat) -> Rect, fpsAt: nat -> real, ghost src: seq<Frame>, ghost specRule: RowRule,
                rule: RowRule, midline: int, ledger: Ledger, trackers: seq<Rect>, fed: seq<seq<Rect>>)
    returns (st2: Loop)
    requires Sound(st, who, src, skip, specRule, numeric, follow, fpsAt)
    requires |st.frames| < |src| && src[|st.frames|] == frame && skip != 0
    requires |st.frames| % skip != 0 || Seeds(frame.detections, specRule).Ok?
    requires numeric || !EntersAt(st.frames, frame)
    requires rule == specRule && midline == Midline(st.frames + [frame])
    requires Scheduled(st.frames + [frame], skip, specRule, follow, ledger, trackers, fed)
    ensures st2.frames == st.frames + [frame]
    ensures Sound(st2, who, src, skip, specRule, numeric, follow, fpsAt)
  {
    var frames := st.frames + [frame];
    PeriodicStep(who, st.frames, frame, skip, fpsAt);
    var sent := st.sent;
    if |frames| % ReportEvery == 0 {
      var t := ledger.tally;
      sent := sent + [Record(Some(who.workerId), Some(who.taskId), Some(who.cameraId), Some(who.videoId),
                             Some(fpsAt(|frames|)), Some(t.totalDown), Some(t.totalUp),
                             Some(|t.moveIn| - |t.moveOut|), Some(StatusOf(|frames| - 1, skip)),
                             Some(|frames|), None, None, None)];
    }
    st2 := Loop(frames, ledger, trackers, fed, sent, rule, midline);
    StepSound(st, st2, frame, who, src, skip, specRule, numeric, follow, fpsAt);
  }

  /** A frame that raises ends the loop where it is reached; the counts then
      reported are the loop's, or the entered counts when the frame raised
      in the alert test. */
  lemma StopsAtFrame(st: Loop, who: Sender, src: seq<Frame>, skip: int, specRule: RowRule, numeric: bool,
                     follow: (Rect, nat) -> Rect, fpsAt: nat -> real)
    requires Sound(st, who, src, skip, specRule, numeric, follow, fpsAt)
    requires |st.frames| < |src| && RaisesAt(src, skip, specRule, numeric, |st.frames|)
    ensures StopAt(src, skip, specRule, numeric, 0) == |st.frames|
    ensures !EntryFault(src, skip, specRule, numeric, |st.frames|) ==>
              StopCounts(src, skip, specRule, numeric, |st.frames|) == st.ledger.tally
    ensures EntryFault(src, skip, specRule, numeric, |st.frames|) ==>
              StopCounts(src, skip, specRule, numeric, |st.frames|) == EnteredCounts(st.frames, src[|st.frames|])
  {
    StopsHere(src, skip, specRule, numeric, |st.frames|);
  }

  /** What the frame's pass raised, and the counts it left, are the fault
      and the counts of the loop's stop point. */
  lemma FaultedStep(st: Loop, frame: Frame, who: Sender, src: seq<Frame>, skip: int, specRule: RowRule,
                    numeric: bool, follow: (Rect, nat) -> Rect, fpsAt: nat -> real, fault: Option<Fault>, counts: Tally)
    requires Sound(st, who, src, skip, specRule, numeric, follow, fpsAt)
    requires |st.frames| < |src| && src[|st.frames|] == frame && skip != 0 && fault.Some?
    requires |st.frames| % skip == 0 && Seeds(frame.detections, specRule).Err? ==>
               fault == Some(Seeds(frame.detections, specRule).error) && counts == st.ledger.tally
    requires !(|st.frames| % skip == 0 && Seeds(frame.detections, specRule).Err?) ==>
               !numeric && EntersAt(st.frames, frame) &&
               fault == Some(ThresholdTypeError) && counts == EnteredCounts(st.frames, frame)
    ensures StopAt(src, skip, specRule, numeric, 0) == |st.frames|
    ensures fault == FaultAt(src, skip, specRule, numeric, |st.frames|)
    ensures counts == StopCounts(src, skip, specRule, numeric, |st.frames|)
  {
    assert src[..|st.frames|] == st.frames;
    StopsAtFrame(st, who, src, skip, specRule, numeric, follow, fpsAt);
  }

  /** The invariant holds again after a frame that raised nothing. */
  lemma StepSound(st: Loop, st2: Loop, frame: Frame, who: Sender, src: seq<Frame>, skip: int,
                  specRule: RowRule, numeric: bool, follow: (Rect, nat) -> Rect, fpsAt: nat -> real)
    requires Sound(st, who, src, skip, specRule, numeric, follow, fpsAt)
    requires |st.frames| < |src| && src[|st.frames|] == frame && skip != 0
    requires |st.frames| % skip != 0 || Seeds(frame.detections, specRule).Ok?
    requires numeric || !EntersAt(st.frames, frame)
    requires st2.frames == st.frames + [frame]
    requires st2.rule == specRule && st2.midline == Midline(st2.frames)
    requires Scheduled(st2.frames, skip, specRule, follow, st2.ledger, st2.trackers, st2.fed)
    requires st2.sent == Periodic(who, st.frames, skip, fpsAt) +
                         (if |st2.frames| % ReportEvery == 0 then [Progress(who, st2.frames, skip, fpsAt)] else [])
    ensures Sound(st2, who, src, skip, specRule, numeric, follow, fpsAt)
  {
    assert st2.frames == src[..|st2.frames|];
    assert st2.frames[0] == src[0];
    assert src[..|st.frames|] == st.frames;
    StopContinues(src, skip, specRule, numeric, |st.frames|);
    PeriodicStep(who, st.frames, frame, skip, fpsAt);
  }

  /** `count_people` with the task's `threshold`: `frames` are the frames
      processed, `fault` the exception that ended the loop, if any. */
  method CountPeople(who: Sender, stream: seq<Option<Frame>>, isCamera: bool, cfg: TaskConfig, threshold: Json,
                     follow: (Rect, nat) -> Rect, fpsAt: nat -> real, avgFps: real, elapsed: real)
    returns (sent: seq<Record>, frames: seq<Frame>, fed: seq<seq<Rect>>, fault: Option<Fault>)
    ensures var src := Readable(stream, isCamera);
            var rule := WorkerRule(Confidence(cfg), FirstWidth(src), FirstHeight(src));
            && frames == src[..StopAt(src, SkipFrames(cfg), rule, OrderedWithInt(threshold), 0)]
            && fault == FaultAt(src, SkipFrames(cfg), rule, OrderedWithInt(threshold), |frames|)
            && |fed| == |frames|
            && (forall k :: 0 <= k < |frames| ==>
                  SkipFrames(cfg) != 0 && FedCorrectly(frames, SkipFrames(cfg), rule, follow, fed, k))
    ensures sent == TaskRecords(who, stream, isCamera, cfg, threshold, fpsAt, avgFps, elapsed)
  {
    ghost var src := Readable(stream, isCamera);
    var skip := SkipFrames(cfg);
    var confidence := Confidence(cfg);
    var numeric := OrderedWithInt(threshold);
    ghost var specRule := WorkerRule(confidence, FirstWidth(src), FirstHeight(src));
    ScheduledInitially(skip, specRule, follow);
    var st := Loop([], EmptyLedger, [], [], [], WorkerRule(confidence, 0, 0), 0);
    fault := None;
    var t := st.ledger.tally;
    var i := 0;
    ghost var last := LastRead(stream, isCamera);
    while true
      invariant i <= last
      invariant st.frames == Present(stream[..i])
      invariant Sound(st, who, src, skip, specRule, numeric, follow, fpsAt)
      decreases |stream| - i
    {
      var j, next := ReadFrame(stream, isCamera, i, st.frames);
      if next.None? {
        StopsHere(src, skip, specRule, numeric, |st.frames|);
        t := st.ledger.tally;
        break;
      }
      var st2, stepFault, counts := Step(st, next.value, who, skip, confidence, numeric, follow, fpsAt, src);
      if stepFault.Some? {
        fault, t := stepFault, counts;
        break;
      }
      st, i := st2, j;
    }
    RecordsOfRun(who, stream, isCamera, cfg, threshold, fpsAt, avgFps, elapsed, st.frames, t);
    frames, fed := st.frames, st.fed;
    sent := st.sent + [Record(Some(who.workerId), Some(who.taskId), Some(who.cameraId), Some(who.videoId),
                              Some(avgFps), Some(t.totalDown), Some(t.totalUp), Some(|t.moveIn| - |t.moveOut|),
                              Some("completed"), Some(|frames|), Some(elapsed), None, None)];
  }

  /** What a task's source gives the worker: whether opening it succeeds, its
      reads, and the FPS meter's readings (at each frame count, the average
      and the elapsed time at the end). */
  datatype Feed = Feed(opens: bool, stream: seq<Option<Frame>>, fpsAt: nat -> real, avgFps: real, elapsed: real)

  /** What `task_queue.get(timeout=1)` gives: nothing within the timeout, the
      `None` sentinel, or a task dictionary with the source behind it. */
  datatype QueueItem = Idle | Shutdown | Job(task: map<string, Json>, feed: Feed)

  /** `str(e)` of the `KeyError` raised by `task[key]`. */
  function KeyErrorMessage(key: string): string {
    "'" + key + "'"
  }

  /** The 'error' record the `except` clause of `run` sends, when
      `self.current_task` is truthy (a non-empty dictionary). */
  function Failed(workerId: string, task: map<string, Json>, key: string): seq<Record> {
    if |task| > 0 then [ErrorRecord(workerId, Get(task, "task_id", JStr("unknown")), KeyErrorMessage(key))] else []
  }

  /** `task.get('threshold', 10)` in `process_camera`, `task.get('threshold', 5)`
      in `process_video`. */
  function TaskThreshold(task: map<string, Json>, isCamera: bool): (t: Json)
    ensures "threshold" in task ==> t == task["threshold"]
    ensures "threshold" !in task ==> t == JInt(if isCamera then 10 else 5)
  {
    Get(task, "threshold", JInt(if isCamera then 10 else 5))
  }

  /** The records `run` sends for one task: dispatch on `task['type']` to
      `process_camera` or `process_video`, which open the source (returning
      quietly if that raises) and call `count_people`. */
  function JobRecords(workerId: string, cfg: TaskConfig, task: map<string, Json>, feed: Feed): seq<Record> {
    if "task_id" !in task then Failed(workerId, task, "task_id")
    else if "type" !in task then Failed(workerId, task, "type")
    else if task["type"] == JStr("camera") then
      if "camera_id" !in task then Failed(workerId, task, "camera_id")
      else if "source" !in task then Failed(workerId, task, "source")
      else if !feed.opens then []
      else TaskRecords(Sender(workerId, task["task_id"], task["camera_id"], JNull), feed.stream, true, cfg,
                       TaskThreshold(task, true), feed.fpsAt, feed.avgFps, feed.elapsed)
    else if task["type"] == JStr("video") then
      if "video_id" !in task then Failed(workerId, task, "video_id")
      else if "source" !in task then Failed(workerId, task, "source")
      else if !feed.opens then []
      else TaskRecords(Sender(workerId, task["task_id"], JNull, task["video_id"]), feed.stream, false, cfg,
                       TaskThreshold(task, false), feed.fpsAt, feed.avgFps, feed.elapsed)
    else []
  }

  /** The records `run` sends for the items it takes, up to the sentinel. */
  function WorkerRecords(workerId: string, cfg: TaskConfig, items: seq<QueueItem>): seq<Record>
    decreases |items|
  {
    if |items| == 0 then []
    else
      match items[0]
      case Shutdown => []
      case Idle => WorkerRecords(workerId, cfg, items[1..])
      case Job(task, feed) => JobRecords(workerId, cfg, task, feed) + WorkerRecords(workerId, cfg, items[1..])
  }

  /** Nothing after the shutdown sentinel is processed. */
  lemma {:induction false} ShutdownStops(workerId: string, cfg: TaskConfig, items: seq<QueueItem>, i: nat)
    requires i < |items| && items[i].Shutdown?
    ensures WorkerRecords(workerId, cfg, items) == WorkerRecords(workerId, cfg, items[..i])
    decreases i
  {
    if i > 0 {
      assert items[1..][..i - 1] == items[..i][1..];
      ShutdownStops(workerId, cfg, items[1..], i - 1);
    }
  }

  /** A task missing one of the keys `run` reads yields exactly one 'error'
      record, for task id 'unknown' when that is the missing key; an empty
      dictionary yields none. */
  lemma MissingKeyReported(workerId: string, cfg: TaskConfig, task: map<string, Json>, feed: Feed)
    requires "task_id" !in task || "type" !in task
    ensures |task| == 0 ==> JobRecords(workerId, cfg, task, feed) == []
    ensures |task| > 0 ==> |JobRecords(workerId, cfg, task, feed)| == 1 &&
                           JobRecords(workerId, cfg, task, feed)[0].status == Some("error")
    ensures |task| > 0 && "task_id" !in task ==>
              JobRecords(workerId, cfg, task, feed)[0].taskId == Some(JStr("unknown"))
  {
  }

  /** A well-formed task whose source opens ends with the 'completed' record,
      whose current count is total_in - total_out. */
  lemma CompletedLast(workerId: string, cfg: TaskConfig, task: map<string, Json>, feed: Feed)
    requires "task_id" in task && "source" in task && feed.opens
    requires (Get(task, "type", JNull) == JStr("camera") && "camera_id" in task) ||
             (Get(task, "type", JNull) == JStr("video") && "video_id" in task)
    ensures var rs := JobRecords(workerId, cfg, task, feed);
            && |rs| > 0
            && rs[|rs| - 1].status == Some("completed")
            && rs[|rs| - 1].taskId == Some(task["task_id"])
            && rs[|rs| - 1].currentCount.Some? && rs[|rs| - 1].totalIn.Some? && rs[|rs| - 1].totalOut.Some?
            && rs[|rs| - 1].currentCount.value == rs[|rs| - 1].totalIn.value - rs[|rs| - 1].totalOut.value
  {
    var isCamera := task["type"] == JStr("camera");
    var src := Readable(feed.stream, isCamera);
    var threshold := TaskThreshold(task, isCamera);
    var rule := WorkerRule(Confidence(cfg), FirstWidth(src), FirstHeight(src));
    StopCountsAgree(src, SkipFrames(cfg), rule, OrderedWithInt(threshold), StopOf(feed.stream, isCamera, cfg, threshold));
  }

  /** The body of `run`'s loop for one task. */
  method ProcessTask(workerId: string, cfg: TaskConfig, task: map<string, Json>, feed: Feed,
                     follow: (Rect, nat) -> Rect)
    returns (sent: seq<Record>)
    ensures sent == JobRecords(workerId, cfg, task, feed)
  {
    if "task_id" !in task {
      return Failed(workerId, task, "task_id");
    }
    if "type" !in task {
      return Failed(workerId, task, "type");
    }
    var isCamera: bool;
    var sourceId: string;
    if task["type"] == JStr("camera") {
      isCamera, sourceId := true, "camera_id";
    } else if task["type"] == JStr("video") {
      isCamera, sourceId := false, "video_id";
    } else {
      return [];
    }
    if sourceId !in task {
      return Failed(workerId, task, sourceId);
    }
    if "source" !in task {
      return Failed(workerId, task, "source");
    }
    if !feed.opens {
      return [];
    }
    var who := if isCamera then Sender(workerId, task["task_id"], task[sourceId], JNull)
               else Sender(workerId, task["task_id"], JNull, task[sourceId]);
    var frames, fed, fault;
    var threshold := TaskThreshold(task, isCamera);
    sent, frames, fed, fault := CountPeople(who, feed.stream, isCamera, cfg, threshold, follow, feed.fpsAt, feed.avgFps, feed.elapsed);
  }

  /** One item of the records `run` sends from position `i` on. */
  lemma WorkerRecordsAt(workerId: string, cfg: TaskConfig, items: seq<QueueItem>, i: nat)
    requires i < |items|
    ensures WorkerRecords(workerId, cfg, items[i..]) ==
            match items[i]
            case Shutdown => []
            case Idle => WorkerRecords(workerId, cfg, items[i + 1..])
            case Job(task, feed) => JobRecords(workerId, cfg, task, feed) + WorkerRecords(workerId, cfg, items[i + 1..])
  {
    assert items[i..][1..] == items[i + 1..];
  }

  /** One item of `run` past the sentinel check: what a job sends, or
      nothing for an idle poll, extends the records sent so far. */
  lemma RunStep(workerId: string, cfg: TaskConfig, items: seq<QueueItem>, i: nat, sent: seq<Record>, rs: seq<Record>)
    requires i < |items| && !items[i].Shutdown?
    requires WorkerRecords(workerId, cfg, items) == sent + WorkerRecords(workerId, cfg, items[i..])
    requires items[i].Job? ==> rs == JobRecords(workerId, cfg, items[i].task, items[i].feed)
    requires items[i].Idle? ==> rs == []
    ensures WorkerRecords(workerId, cfg, items) == (sent + rs) + WorkerRecords(workerId, cfg, items[i + 1..])
  {
    WorkerRecordsAt(workerId, cfg, items, i);
    var rest := WorkerRecords(workerId, cfg, items[i + 1..]);
    match items[i]
    case Idle =>
      assert WorkerRecords(workerId, cfg, items[i..]) == rest;
      assert sent + rest == (sent + rs) + rest;
    case Job(task, feed) =>
      assert WorkerRecords(workerId, cfg, items[i..]) == rs + rest;
      assert sent + (rs + rest) == (sent + rs) + rest;
  }

  /** `run`: take items until the sentinel, processing each task. */
  method RunWorker(workerId: string, cfg: TaskConfig, items: seq<QueueItem>, follow: (Rect, nat) -> Rect)
    returns (sent: seq<Record>)
    ensures sent == WorkerRecords(workerId, cfg, items)
  {
    sent := [];
    var i := 0;
    assert items[0..] == items;
    while i < |items|
      invariant 0 <= i <= |items|
      invariant WorkerRecords(workerId, cfg, items) == sent + WorkerRecords(workerId, cfg, items[i..])
    {
      if items[i].Shutdown? {
        WorkerRecordsAt(workerId, cfg, items, i);
        break;
      }
      var rs := [];
      if items[i].Job? {
        rs := ProcessTask(workerId, cfg, items[i].task, items[i].feed, follow);
      }
      RunStep(workerId, cfg, items, i, sent, rs);
      sent := sent + rs;
      i := i + 1;
    }
  }
}
