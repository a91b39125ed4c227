/** The line-crossing rule that parallel/standard_workflow.py and
    parallel/worker.py apply, in identical code, to every object the centroid
    tracker reports in a frame. Both loops use the functions here.

    Floats are avoided: `direction = cy - mean(ys)` has the sign of
    `cy * n - sum(ys)` for the `n > 0` prior centroids (see
    ScaledDirectionSign). */
module Crossing {
  import opened Trackable

  /** totalUp / totalDown and the `move_out` / `move_in` lists that record the
      running counter value at each event. */
  datatype Tally = Tally(totalUp: nat, totalDown: nat, moveOut: seq<nat>, moveIn: seq<nat>)

  const NoCounts: Tally := Tally(0, 0, [], [])

  /** `trackableObjects` together with the counters. */
  datatype Ledger = Ledger(objects: map<int, TrackedObject>, tally: Tally)

  const EmptyLedger: Ledger := Ledger(map[], NoCounts)

  /** One `(objectID, centroid)` item of the centroid tracker's output. */
  datatype Observation = Observation(id: int, centroid: Point)

  function SumY(cs: seq<Point>): int
    decreases |cs|
  {
    if |cs| == 0 then 0 else SumY(cs[..|cs| - 1]) + cs[|cs| - 1].y
  }

  /** `(cy - mean(ys)) * n` where `ys` are the y coordinates of the history. */
  function ScaledDirection(history: seq<Point>, cy: int): int {
    cy * |history| - SumY(history)
  }

  /** The float-free direction has the sign of the one the source computes. */
  lemma ScaledDirectionSign(history: seq<Point>, cy: int)
    requires |history| > 0
    ensures var mean := SumY(history) as real / |history| as real;
            && (ScaledDirection(history, cy) < 0 <==> (cy as real) - mean < 0.0)
            && (ScaledDirection(history, cy) > 0 <==> (cy as real) - mean > 0.0)
            && (ScaledDirection(history, cy) == 0 <==> (cy as real) - mean == 0.0)
  {
    var n := |history| as real;
    var mean := SumY(history) as real / n;
    assert ((cy as real) - mean) * n == ScaledDirection(history, cy) as real;
  }

  datatype Event = NoEvent | MovedOut | MovedIn

  /** The test applied to an object that is not yet counted: up and above the
      midline is an exit, down and below it an entry. */
  function Classify(history: seq<Point>, c: Point, midline: int): Event {
    var d := ScaledDirection(history, c.y);
    if d < 0 && c.y < midline then MovedOut
    else if d > 0 && c.y > midline then MovedIn
    else NoEvent
  }

  /** One iteration of `for (objectID, centroid) in objects.items()`. */
  function Observe(l: Ledger, o: Observation, midline: int): Ledger {
    var objs := l.objects;
    var t := l.tally;
    if o.id !in objs then
      Ledger(objs[o.id := NewTrackableObject(o.id, o.centroid)], t)
    else
      var to := objs[o.id];
      var moved := AddCentroid(to, o.centroid);
      if to.counted then Ledger(objs[o.id := moved], t)
      else
        match Classify(to.centroids, o.centroid, midline)
        case MovedOut =>
          Ledger(objs[o.id := MarkCounted(moved)],
                 Tally(t.totalUp + 1, t.totalDown, t.moveOut + [t.totalUp + 1], t.moveIn))
        case MovedIn =>
          Ledger(objs[o.id := MarkCounted(moved)],
                 Tally(t.totalUp, t.totalDown + 1, t.moveOut, t.moveIn + [t.totalDown + 1]))
        case NoEvent => Ledger(objs[o.id := moved], t)
  }

  /** The whole loop over one or more frames' tracker outputs, in order. */
  function ObserveAll(l: Ledger, os: seq<Observation>, midline: int): Ledger
    decreases |os|
  {
    if |os| == 0 then l else Observe(ObserveAll(l, os[..|os| - 1], midline), os[|os| - 1], midline)
  }

  lemma {:induction false} ObserveAllAppend(l: Ledger, a: seq<Observation>, b: seq<Observation>, midline: int)
    ensures ObserveAll(l, a + b, midline) == ObserveAll(ObserveAll(l, a, midline), b, midline)
    decreases |b|
  {
    if |b| == 0 {
      assert a + b == a;
    } else {
      ObserveAllAppend(l, a, b[..|b| - 1], midline);
      assert (a + b)[..|a + b| - 1] == a + b[..|b| - 1];
    }
  }

  /** `[1, 2, ..., n]`: what `move_out` / `move_in` hold after n events. */
  function Ascending(n: nat): (s: seq<nat>)
    ensures |s| == n
    ensures forall k :: 0 <= k < n ==> s[k] == k + 1
    decreases n
  {
    if n == 0 then [] else Ascending(n - 1) + [n]
  }

  function CountedIds(objs: map<int, TrackedObject>): set<int> {
    set id | id in objs && objs[id].counted
  }

  /** What the loop maintains: objects are keyed by their own id, the event
      lists match the counters, and every count is owned by exactly one
      counted object. */
  predicate Consistent(l: Ledger) {
    && (forall id :: id in l.objects ==> l.objects[id].objectID == id)
    && l.tally.moveOut == Ascending(l.tally.totalUp)
    && l.tally.moveIn == Ascending(l.tally.totalDown)
    && l.tally.totalUp + l.tally.totalDown == |CountedIds(l.objects)|
  }

  lemma EmptyLedgerConsistent()
    ensures Consistent(EmptyLedger)
  {
    assert CountedIds(map[]) == {};
  }

  lemma ObservePreservesConsistency(l: Ledger, o: Observation, midline: int)
    requires Consistent(l)
    ensures Consistent(Observe(l, o, midline))
  {
    var objs := l.objects;
    var r := Observe(l, o, midline);
    if o.id !in objs {
      assert CountedIds(r.objects) == CountedIds(objs);
    } else if objs[o.id].counted || Classify(objs[o.id].centroids, o.centroid, midline) == NoEvent {
      assert CountedIds(r.objects) == CountedIds(objs);
    } else {
      assert o.id !in CountedIds(objs);
      assert CountedIds(r.objects) == CountedIds(objs) + {o.id};
      assert |CountedIds(r.objects)| == |CountedIds(objs)| + 1;
      assert r.tally.moveOut == Ascending(r.tally.totalUp);
      assert r.tally.moveIn == Ascending(r.tally.totalDown);
    }
  }

  lemma {:induction false} ObserveAllPreservesConsistency(l: Ledger, os: seq<Observation>, midline: int)
    requires Consistent(l)
    ensures Consistent(ObserveAll(l, os, midline))
    decreases |os|
  {
    if |os| > 0 {
      ObserveAllPreservesConsistency(l, os[..|os| - 1], midline);
      ObservePreservesConsistency(ObserveAll(l, os[..|os| - 1], midline), os[|os| - 1], midline);
    }
  }

  /** Each identity adds at most one to totalUp + totalDown over its
      lifetime: the counts never exceed the number of identities seen. */
  lemma AtMostOncePerIdentity(l: Ledger)
    requires Consistent(l)
    ensures l.tally.totalUp + l.tally.totalDown <= |l.objects|
    ensures |l.tally.moveIn| - |l.tally.moveOut| == l.tally.totalDown - l.tally.totalUp
  {
    SubsetCardinality(CountedIds(l.objects), l.objects.Keys);
  }

  lemma {:induction false} SubsetCardinality<T>(a: set<T>, b: set<T>)
    requires a <= b
    ensures |a| <= |b|
    decreases |b|
  {
    if a != {} {
      var x :| x in a;
      SubsetCardinality(a - {x}, b - {x});
    }
  }

  function Ids(os: seq<Observation>): set<int> {
    set k | 0 <= k < |os| :: os[k].id
  }

  /** Starting from nothing, the ledger holds exactly the identities the
      tracker reported. */
  lemma {:induction false} ObserveAllKeys(os: seq<Observation>, midline: int)
    ensures ObserveAll(EmptyLedger, os, midline).objects.Keys == Ids(os)
    decreases |os|
  {
    if |os| > 0 {
      var init := os[..|os| - 1];
      ObserveAllKeys(init, midline);
      assert Ids(os) == Ids(init) + {os[|os| - 1].id} by {
        forall id | id in Ids(os) ensures id in Ids(init) + {os[|os| - 1].id} {
          var k :| 0 <= k < |os| && os[k].id == id;
          if k < |os| - 1 { assert init[k] == os[k]; }
        }
        forall id | id in Ids(init) ensures id in Ids(os) {
          var k :| 0 <= k < |init| && init[k].id == id;
          assert os[k] == init[k];
        }
      }
    }
  }

  /** Counting a whole stream: at most one event per distinct identity, and
      the inside count is entries minus exits. */
  lemma StreamCountsBounded(os: seq<Observation>, midline: int)
    ensures var t := ObserveAll(EmptyLedger, os, midline).tally;
            && t.totalUp + t.totalDown <= |Ids(os)|
            && |t.moveIn| - |t.moveOut| == t.totalDown - t.totalUp
  {
    EmptyLedgerConsistent();
    ObserveAllPreservesConsistency(EmptyLedger, os, midline);
    ObserveAllKeys(os, midline);
    AtMostOncePerIdentity(ObserveAll(EmptyLedger, os, midline));
  }

  /** The effect of one observation, case by case. */
  lemma ObserveCases(l: Ledger, o: Observation, midline: int)
    ensures var r := Observe(l, o, midline);
            && o.id in r.objects
            && r.objects[o.id].objectID == (if o.id in l.objects then l.objects[o.id].objectID else o.id)
            && r.objects[o.id].centroids ==
                 (if o.id in l.objects then l.objects[o.id].centroids + [o.centroid] else [o.centroid])
            && (forall id :: id in l.objects && id != o.id ==> id in r.objects && r.objects[id] == l.objects[id])
            && r.objects.Keys == l.objects.Keys + {o.id}
            // a first sighting creates the object uncounted and counts nothing
            && (o.id !in l.objects ==> !r.objects[o.id].counted && r.tally == l.tally)
            // an object already counted never changes either counter
            && (o.id in l.objects && l.objects[o.id].counted ==> r.objects[o.id].counted && r.tally == l.tally)
            // an exit: moving up, strictly above the midline
            && (r.tally.totalUp == l.tally.totalUp + 1 <==>
                  && o.id in l.objects && !l.objects[o.id].counted
                  && ScaledDirection(l.objects[o.id].centroids, o.centroid.y) < 0
                  && o.centroid.y < midline)
            // an entry: moving down, strictly below the midline
            && (r.tally.totalDown == l.tally.totalDown + 1 <==>
                  && o.id in l.objects && !l.objects[o.id].counted
                  && ScaledDirection(l.objects[o.id].centroids, o.centroid.y) > 0
                  && o.centroid.y > midline)
            && (r.tally.totalUp == l.tally.totalUp || r.tally.totalUp == l.tally.totalUp + 1)
            && (r.tally.totalDown == l.tally.totalDown || r.tally.totalDown == l.tally.totalDown + 1)
            && r.tally.totalUp + r.tally.totalDown <= l.tally.totalUp + l.tally.totalDown + 1
            // the latch is set exactly when a count happens, and never cleared
            && (r.objects[o.id].counted <==>
                  (o.id in l.objects && l.objects[o.id].counted) || r.tally != l.tally)
  {
  }

  /** A centroid exactly on the midline, or no movement against the mean,
      never counts. */
  lemma NoCountOnMidlineOrStill(l: Ledger, o: Observation, midline: int)
    requires o.centroid.y == midline
          || (o.id in l.objects && ScaledDirection(l.objects[o.id].centroids, o.centroid.y) == 0)
    ensures Observe(l, o, midline).tally == l.tally
  {
  }

  /** The latch survives any later frames: a counted identity stays counted. */
  lemma {:induction false} LatchIsPermanent(l: Ledger, os: seq<Observation>, midline: int, id: int)
    requires id in l.objects && l.objects[id].counted
    ensures var r := ObserveAll(l, os, midline);
            id in r.objects && r.objects[id].counted
    decreases |os|
  {
    if |os| > 0 {
      LatchIsPermanent(l, os[..|os| - 1], midline, id);
    }
  }

  /** An observation that is an entry event: the object was seen before, is
      not yet counted, and moves down below the midline. */
  predicate IsEntry(l: Ledger, o: Observation, midline: int) {
    && o.id in l.objects && !l.objects[o.id].counted
    && Classify(l.objects[o.id].centroids, o.centroid, midline) == MovedIn
  }

  /** The state when the alert test `sum(total) >= threshold` raises on an
      entry event: the centroid is appended and `totalDown` / `move_in` are
      updated, but the object is not yet marked counted. */
  function Entering(l: Ledger, o: Observation, midline: int): (r: Ledger)
    requires IsEntry(l, o, midline)
    ensures r.tally == Observe(l, o, midline).tally
    ensures r.objects.Keys == l.objects.Keys && !r.objects[o.id].counted
    ensures r.objects[o.id].centroids == l.objects[o.id].centroids + [o.centroid]
  {
    var t := l.tally;
    Ledger(l.objects[o.id := AddCentroid(l.objects[o.id], o.centroid)],
           Tally(t.totalUp, t.totalDown + 1, t.moveOut, t.moveIn + [t.totalDown + 1]))
  }

  /** The position of the first entry event in `os` at or after `j`, or `|os|`. */
  function FirstEntryFrom(l: Ledger, os: seq<Observation>, midline: int, j: nat): (k: nat)
    requires j <= |os|
    ensures j <= k <= |os|
    ensures k < |os| ==> IsEntry(ObserveAll(l, os[..k], midline), os[k], midline)
    ensures forall i :: j <= i < k ==> !IsEntry(ObserveAll(l, os[..i], midline), os[i], midline)
    decreases |os| - j
  {
    if j == |os| || IsEntry(ObserveAll(l, os[..j], midline), os[j], midline) then j
    else FirstEntryFrom(l, os, midline, j + 1)
  }

  /** The search for the first entry stops at an entry and passes over
      anything else. */
  lemma FirstEntryFromStep(l: Ledger, os: seq<Observation>, midline: int, i: nat)
    requires i < |os|
    ensures IsEntry(ObserveAll(l, os[..i], midline), os[i], midline) ==> FirstEntryFrom(l, os, midline, i) == i
    ensures !IsEntry(ObserveAll(l, os[..i], midline), os[i], midline) ==>
              FirstEntryFrom(l, os, midline, i) == FirstEntryFrom(l, os, midline, i + 1)
  {
  }

  /** The position of the first entry event in `os`, or `|os|` when none. */
  function FirstEntry(l: Ledger, os: seq<Observation>, midline: int): (k: nat)
    ensures k <= |os|
  {
    FirstEntryFrom(l, os, midline, 0)
  }

  /** An entry is exactly an observation that raises `totalDown`. */
  lemma EntryRaisesDown(l: Ledger, o: Observation, midline: int)
    ensures IsEntry(l, o, midline) <==> Observe(l, o, midline).tally.totalDown == l.tally.totalDown + 1
    ensures !IsEntry(l, o, midline) ==> Observe(l, o, midline).tally.totalDown == l.tally.totalDown
  {
  }

  /** The counts at a raising entry are those after observing up to and
      including that entry. */
  lemma EnteringTally(l: Ledger, os: seq<Observation>, midline: int, k: nat)
    requires k < |os| && IsEntry(ObserveAll(l, os[..k], midline), os[k], midline)
    ensures Entering(ObserveAll(l, os[..k], midline), os[k], midline).tally ==
            ObserveAll(l, os[..k + 1], midline).tally
  {
    assert os[..k + 1][..k] == os[..k];
  }

  /** Observations before the first entry leave `totalDown` as it was. */
  lemma {:induction false} NoEntryKeepsDown(l: Ledger, os: seq<Observation>, midline: int, k: nat)
    requires k <= |os|
    requires forall i :: 0 <= i < k ==> !IsEntry(ObserveAll(l, os[..i], midline), os[i], midline)
    ensures ObserveAll(l, os[..k], midline).tally.totalDown == l.tally.totalDown
  {
    if k > 0 {
      NoEntryKeepsDown(l, os, midline, k - 1);
      assert os[..k][..k - 1] == os[..k - 1];
      EntryRaisesDown(ObserveAll(l, os[..k - 1], midline), os[k - 1], midline);
    }
  }
}
