/** The frame stream both counting loops read, and the detect/track schedule
    they share: every `skip_frames`-th frame the detector runs and fresh
    correlation trackers are seeded; on the other frames those trackers are
    advanced and their boxes go to the centroid tracker.

    The centroid tracker and the correlation trackers are external: a frame
    carries what the centroid tracker returns for it, and `follow(seed, k)` is
    the box a correlation tracker seeded at `seed` reports on frame `k`. */
module Video {
  import opened Wrappers
  import opened Detector
  import opened Crossing

  /** A frame as a loop sees it after resizing: its size, the detector's rows
      for it, and the centroid tracker's `objects.items()` for it. */
  datatype Frame = Frame(height: nat, width: nat, detections: seq<Detection>, objects: seq<Observation>)

  /** The frames of a stream of reads, a `None` read giving no frame. */
  function Present(stream: seq<Option<Frame>>): (fs: seq<Frame>)
    ensures |fs| <= |stream|
    decreases |stream|
  {
    if |stream| == 0 then []
    else Present(stream[..|stream| - 1]) +
         (if stream[|stream| - 1].Some? then [stream[|stream| - 1].value] else [])
  }

  lemma PresentStep(stream: seq<Option<Frame>>, i: nat)
    requires i < |stream|
    ensures Present(stream[..i + 1]) ==
            Present(stream[..i]) + (if stream[i].Some? then [stream[i].value] else [])
  {
    assert stream[..i + 1][..i] == stream[..i];
  }

  /** A stream that starts with a frame yields that frame first. */
  lemma {:induction false} PresentHead(stream: seq<Option<Frame>>)
    requires |stream| > 0 && stream[0].Some?
    ensures |Present(stream)| > 0 && Present(stream)[0] == stream[0].value
    decreases |stream|
  {
    if |stream| > 1 {
      var init := stream[..|stream| - 1];
      assert init[0] == stream[0];
      PresentHead(init);
    }
  }

  /** A stream without `None` reads yields every read. */
  lemma {:induction false} PresentAllSome(stream: seq<Option<Frame>>)
    requires forall k :: 0 <= k < |stream| ==> stream[k].Some?
    ensures |Present(stream)| == |stream|
    ensures forall k :: 0 <= k < |stream| ==> Present(stream)[k] == stream[k].value
    decreases |stream|
  {
    if |stream| > 0 {
      var init := stream[..|stream| - 1];
      assert forall k :: 0 <= k < |init| ==> init[k] == stream[k];
      PresentAllSome(init);
    }
  }

  /** All tracker outputs of the frames, in order. */
  function FlatObjects(frames: seq<Frame>): seq<Observation>
    decreases |frames|
  {
    if |frames| == 0 then [] else FlatObjects(frames[..|frames| - 1]) + frames[|frames| - 1].objects
  }

  lemma FlatObjectsStep(frames: seq<Frame>, f: Frame)
    ensures FlatObjects(frames + [f]) == FlatObjects(frames) + f.objects
  {
    assert (frames + [f])[..|frames|] == frames;
  }

  /** `W`, `H` and the counting line `H // 2`, all fixed by the first frame. */
  function FirstWidth(frames: seq<Frame>): nat {
    if |frames| > 0 then frames[0].width else 0
  }

  function FirstHeight(frames: seq<Frame>): nat {
    if |frames| > 0 then frames[0].height else 0
  }

  function Midline(frames: seq<Frame>): int {
    FirstHeight(frames) / 2
  }

  /** The counts after the crossing rule has seen every object of the frames. */
  function Counted(frames: seq<Frame>): Tally {
    ObserveAll(EmptyLedger, FlatObjects(frames), Midline(frames)).tally
  }

  /** The most recent detection frame at or before frame `k`. */
  function LastDetection(k: nat, skip: int): (j: nat)
    requires skip != 0
    ensures j <= k && j % skip == 0
    ensures forall i :: j < i <= k ==> i % skip != 0
    decreases k
  {
    if k % skip == 0 then k else LastDetection(k - 1, skip)
  }

  /** The boxes the correlation trackers report on frame `k`, one per tracker. */
  function Followed(trackers: seq<Rect>, k: nat, follow: (Rect, nat) -> Rect): (rs: seq<Rect>)
    ensures |rs| == |trackers|
    ensures forall i :: 0 <= i < |trackers| ==> rs[i] == follow(trackers[i], k)
  {
    seq(|trackers|, i requires 0 <= i < |trackers| => follow(trackers[i], k))
  }

  /** What frame `k` gave the centroid tracker: nothing on a detection frame;
      otherwise the boxes of the trackers the last detection frame seeded. */
  ghost predicate FedCorrectly(frames: seq<Frame>, skip: int, rule: RowRule, follow: (Rect, nat) -> Rect,
                               fed: seq<seq<Rect>>, k: nat)
    requires skip != 0 && k < |fed| && k < |frames|
  {
    if k % skip == 0 then fed[k] == []
    else
      var j := LastDetection(k, skip);
      Seeds(frames[j].detections, rule).Ok? && fed[k] == Followed(Seeds(frames[j].detections, rule).value, k, follow)
  }

  /** Adding a frame keeps what was said about the earlier ones. */
  lemma FedExtends(frames: seq<Frame>, f: Frame, skip: int, rule: RowRule, follow: (Rect, nat) -> Rect,
                   fed: seq<seq<Rect>>, rects: seq<Rect>)
    requires skip != 0 && |fed| == |frames|
    requires forall j :: 0 <= j < |frames| ==> FedCorrectly(frames, skip, rule, follow, fed, j)
    requires FedCorrectly(frames + [f], skip, rule, follow, fed + [rects], |frames|)
    ensures forall j :: 0 <= j <= |frames| ==> FedCorrectly(frames + [f], skip, rule, follow, fed + [rects], j)
  {
    forall j | 0 <= j < |frames|
      ensures FedCorrectly(frames + [f], skip, rule, follow, fed + [rects], j)
    {
      assert FedCorrectly(frames, skip, rule, follow, fed, j);
      assert (fed + [rects])[j] == fed[j];
      assert (frames + [f])[LastDetection(j, skip)] == frames[LastDetection(j, skip)];
    }
  }

  /** The loop over `objects.items()` of one frame. When the threshold
      cannot be compared with an integer, the alert test of the first entry
      event raises: the loop stops there with that entry half done. */
  method CountObjects(ledger: Ledger, objects: seq<Observation>, midline: int, numericThreshold: bool)
    returns (l: Ledger, raised: bool)
    ensures raised <==> !numericThreshold && FirstEntry(ledger, objects, midline) < |objects|
    ensures !raised ==> l == ObserveAll(ledger, objects, midline)
    ensures raised ==>
              var k := FirstEntry(ledger, objects, midline);
              l == Entering(ObserveAll(ledger, objects[..k], midline), objects[k], midline)
  {
    l := ledger;
    var i := 0;
    while i < |objects|
      invariant 0 <= i <= |objects|
      invariant l == ObserveAll(ledger, objects[..i], midline)
      invariant !numericThreshold ==> FirstEntry(ledger, objects, midline) == FirstEntryFrom(ledger, objects, midline, i)
    {
      assert objects[..i + 1][..i] == objects[..i];
      FirstEntryFromStep(ledger, objects, midline, i);
      if !numericThreshold && IsEntry(l, objects[i], midline) {
        return Entering(l, objects[i], midline), true;
      }
      l := Observe(l, objects[i], midline);
      i := i + 1;
    }
    assert objects[..i] == objects;
    raised := false;
  }

  /** The ledger after the crossing rule has seen every object of the frames. */
  function FrameLedger(frames: seq<Frame>): Ledger {
    ObserveAll(EmptyLedger, FlatObjects(frames), Midline(frames))
  }

  /** The position of the first entry event among the objects of `frame`,
      processed after `frames`; `|frame.objects|` when there is none. */
  function EntryIndex(frames: seq<Frame>, frame: Frame): (k: nat)
    ensures k <= |frame.objects|
  {
    FirstEntry(FrameLedger(frames), frame.objects, Midline(frames + [frame]))
  }

  /** `frame` holds an entry event. */
  predicate EntersAt(frames: seq<Frame>, frame: Frame) {
    EntryIndex(frames, frame) < |frame.objects|
  }

  /** The counts when the alert test raises at the first entry of `frame`:
      the crossing rule over every earlier object and this frame's objects up
      to and including that entry. */
  function EnteredCounts(frames: seq<Frame>, frame: Frame): Tally
    requires EntersAt(frames, frame)
  {
    ObserveAll(EmptyLedger, FlatObjects(frames) + frame.objects[..EntryIndex(frames, frame) + 1],
               Midline(frames + [frame])).tally
  }

  /** The counts of a raising entry are those of a stream of observations, so
      the inside count is entries minus exits and each identity counts at
      most once. */
  lemma EnteredCountsAgree(frames: seq<Frame>, frame: Frame)
    requires EntersAt(frames, frame)
    ensures var t := EnteredCounts(frames, frame);
            && |t.moveIn| - |t.moveOut| == t.totalDown - t.totalUp
            && t.totalDown + t.totalUp <= |Ids(FlatObjects(frames) + frame.objects[..EntryIndex(frames, frame) + 1])|
  {
    StreamCountsBounded(FlatObjects(frames) + frame.objects[..EntryIndex(frames, frame) + 1],
                        Midline(frames + [frame]));
  }

  /** The ledger where the loop raised at the first entry of `frame` holds the
      entered counts. */
  lemma EnteringCounts(frames: seq<Frame>, frame: Frame, ledger: Ledger)
    requires ledger == FrameLedger(frames) && EntersAt(frames, frame)
    ensures var mid := Midline(frames + [frame]);
            var k := EntryIndex(frames, frame);
            Entering(ObserveAll(ledger, frame.objects[..k], mid), frame.objects[k], mid).tally ==
            EnteredCounts(frames, frame)
  {
    var mid := Midline(frames + [frame]);
    var k := EntryIndex(frames, frame);
    EnteringTally(ledger, frame.objects, mid, k);
    SameLedgerAtMidline(frames, frame);
    ObserveAllAppend(EmptyLedger, FlatObjects(frames), frame.objects[..k + 1], mid);
  }

  /** Adding a frame does not move the counting line of earlier frames. */
  lemma SameLedgerAtMidline(frames: seq<Frame>, frame: Frame)
    ensures FrameLedger(frames) == ObserveAll(EmptyLedger, FlatObjects(frames), Midline(frames + [frame]))
  {
    if |frames| == 0 {
      assert FlatObjects(frames) == [];
    } else {
      assert (frames + [frame])[0] == frames[0];
    }
  }

  /** A raising entry counts one person in on top of the earlier frames'
      entries: the objects before it in its frame enter nobody. */
  lemma EnteredCountsDown(frames: seq<Frame>, frame: Frame)
    requires EntersAt(frames, frame)
    ensures EnteredCounts(frames, frame).totalDown == Counted(frames).totalDown + 1
  {
    var mid := Midline(frames + [frame]);
    var k := EntryIndex(frames, frame);
    var ledger := FrameLedger(frames);
    EnteringCounts(frames, frame, ledger);
    NoEntryKeepsDown(ledger, frame.objects, mid, k);
  }

  /** Counting one more frame extends the fold over all objects. */
  lemma CountedStep(frames: seq<Frame>, f: Frame, ledger: Ledger)
    requires ledger == ObserveAll(EmptyLedger, FlatObjects(frames), Midline(frames))
    ensures ObserveAll(ledger, f.objects, Midline(frames + [f])) ==
            ObserveAll(EmptyLedger, FlatObjects(frames + [f]), Midline(frames + [f]))
  {
    FlatObjectsStep(frames, f);
    ObserveAllAppend(EmptyLedger, FlatObjects(frames), f.objects, Midline(frames + [f]));
    if |frames| == 0 {
      assert FlatObjects(frames) == [];
    } else {
      assert (frames + [f])[0] == frames[0];
    }
  }

  /** What the frame loops maintain after processing `frames` with a per-row
      rule: the ledger is the crossing rule over every reported object, the
      trackers are those the last detection frame seeded, and each frame fed
      the centroid tracker what the schedule says. */
  ghost predicate Scheduled(frames: seq<Frame>, skip: int, rule: RowRule, follow: (Rect, nat) -> Rect,
                            ledger: Ledger, trackers: seq<Rect>, fed: seq<seq<Rect>>)
  {
    && (|frames| > 0 ==> skip != 0)
    && ledger == ObserveAll(EmptyLedger, FlatObjects(frames), Midline(frames))
    && |fed| == |frames|
    && (|frames| > 0 ==> Seeds(frames[LastDetection(|frames| - 1, skip)].detections, rule) == Ok(trackers))
    && (forall k :: 0 <= k < |frames| ==> FedCorrectly(frames, skip, rule, follow, fed, k))
  }

  lemma ScheduledInitially(skip: int, rule: RowRule, follow: (Rect, nat) -> Rect)
    ensures Scheduled([], skip, rule, follow, EmptyLedger, [], [])
  {
    assert FlatObjects([]) == [];
  }

  /** The schedule extends by one frame once that frame fed the centroid
      tracker correctly and the trackers are those its last detection seeded. */
  lemma ScheduledStep(frames: seq<Frame>, frame: Frame, skip: int, rule: RowRule, follow: (Rect, nat) -> Rect,
                      ledger: Ledger, trackers2: seq<Rect>, fed: seq<seq<Rect>>, rects: seq<Rect>)
    requires skip != 0
    requires ledger == ObserveAll(EmptyLedger, FlatObjects(frames), Midline(frames))
    requires |fed| == |frames|
    requires forall k :: 0 <= k < |frames| ==> FedCorrectly(frames, skip, rule, follow, fed, k)
    requires FedCorrectly(frames + [frame], skip, rule, follow, fed + [rects], |frames|)
    requires Seeds((frames + [frame])[LastDetection(|frames|, skip)].detections, rule) == Ok(trackers2)
    ensures Scheduled(frames + [frame], skip, rule, follow,
                      ObserveAll(ledger, frame.objects, Midline(frames + [frame])), trackers2, fed + [rects])
  {
    FedExtends(frames, frame, skip, rule, follow, fed, rects);
    CountedStep(frames, frame, ledger);
  }

  /** Either branch of one frame keeps the schedule. */
  lemma AdvanceScheduled(frames: seq<Frame>, frame: Frame, skip: int, rule: RowRule, follow: (Rect, nat) -> Rect,
                         ledger: Ledger, trackers: seq<Rect>, fed: seq<seq<Rect>>,
                         trackers2: seq<Rect>, rects: seq<Rect>)
    requires skip != 0
    requires Scheduled(frames, skip, rule, follow, ledger, trackers, fed)
    requires |frames| % skip == 0 ==> Seeds(frame.detections, rule) == Ok(trackers2) && rects == []
    requires |frames| % skip != 0 ==> trackers2 == trackers && rects == Followed(trackers, |frames|, follow)
    ensures Scheduled(frames + [frame], skip, rule, follow,
                      ObserveAll(ledger, frame.objects, Midline(frames + [frame])), trackers2, fed + [rects])
  {
    var next := frames + [frame];
    assert next[|frames|] == frame;
    if |frames| % skip == 0 {
      assert LastDetection(|frames|, skip) == |frames|;
    } else {
      var j := LastDetection(|frames| - 1, skip);
      assert LastDetection(|frames|, skip) == j;
      assert next[j] == frames[j];
    }
    ScheduledStep(frames, frame, skip, rule, follow, ledger, trackers2, fed, rects);
  }

  /** One frame of either loop once `totalFrames % skip_frames` has not
      raised: detect and reseed or advance the trackers, then run the
      crossing rule over the frame's objects. A raising detection row ends
      the frame before any object is seen; with a threshold that is not a
      number, the first entry event ends it half done. */
  method Advance(frames: seq<Frame>, frame: Frame, skip: int, rule: RowRule, follow: (Rect, nat) -> Rect,
                 midline: int, numericThreshold: bool, ledger: Ledger, trackers: seq<Rect>, fed: seq<seq<Rect>>)
    returns (fault: Option<Fault>, ledger2: Ledger, trackers2: seq<Rect>, fed2: seq<seq<Rect>>)
    requires skip != 0
    requires midline == Midline(frames + [frame])
    requires Scheduled(frames, skip, rule, follow, ledger, trackers, fed)
    ensures |frames| % skip == 0 && Seeds(frame.detections, rule).Err? ==>
              fault == Some(Seeds(frame.detections, rule).error) && ledger2 == ledger
    ensures !(|frames| % skip == 0 && Seeds(frame.detections, rule).Err?) ==>
              (fault.Some? <==> !numericThreshold && EntersAt(frames, frame))
    ensures !(|frames| % skip == 0 && Seeds(frame.detections, rule).Err?) && fault.Some? ==>
              fault == Some(ThresholdTypeError) && ledger2.tally == EnteredCounts(frames, frame)
    ensures fault.None? ==> Scheduled(frames + [frame], skip, rule, follow, ledger2, trackers2, fed2)
  {
    var rects: seq<Rect>;
    trackers2 := trackers;
    if |frames| % skip == 0 {
      var seeded := DetectRows(frame.detections, rule);
      if seeded.Err? {
        return Some(seeded.error), ledger, trackers, fed;
      }
      trackers2 := seeded.value;
      rects := [];
    } else {
      rects := Followed(trackers, |frames|, follow);
    }
    SameLedgerAtMidline(frames, frame);
    var raised;
    ledger2, raised := CountObjects(ledger, frame.objects, midline, numericThreshold);
    fed2 := fed + [rects];
    if raised {
      EnteringCounts(frames, frame, ledger);
      return Some(ThresholdTypeError), ledger2, trackers2, fed2;
    }
    AdvanceScheduled(frames, frame, skip, rule, follow, ledger, trackers, fed, trackers2, rects);
    fault := None;
  }
}
