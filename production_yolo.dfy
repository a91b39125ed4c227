/** `production_yolo_final.py`: the box geometry around YOLO body detection.
    Overlapping body boxes are merged pairwise, duplicate face boxes are
    removed after a sort by confidence, tracked objects are matched greedily
    to the nearest free box, and a person is re-analysed when its last
    analysis is stale or found no face. Boxes are `(x, y, w, h)` in integer
    pixels; an IoU above 0.3 is decided as `10 * inter > 3 * union`. */
module ProductionYolo {
  import opened Wrappers

  datatype Box = Box(x: int, y: int, w: int, h: int)

  function Min(a: int, b: int): int { if a <= b then a else b }
  function Max(a: int, b: int): int { if a >= b then a else b }

  function Area(b: Box): int { b.w * b.h }

  /** The sides of the intersection rectangle; not positive when the boxes
      do not overlap along that axis. */
  function InterWidth(a: Box, b: Box): int { Min(a.x + a.w, b.x + b.w) - Max(a.x, b.x) }
  function InterHeight(a: Box, b: Box): int { Min(a.y + a.h, b.y + b.h) - Max(a.y, b.y) }

  predicate Overlaps(a: Box, b: Box) { InterWidth(a, b) > 0 && InterHeight(a, b) > 0 }

  function Inter(a: Box, b: Box): int { InterWidth(a, b) * InterHeight(a, b) }
  function Union(a: Box, b: Box): int { Area(a) + Area(b) - Inter(a, b) }

  /** IoU above 0.3 between two overlapping boxes. */
  predicate IouAbove(a: Box, b: Box) {
    Overlaps(a, b) && 10 * Inter(a, b) > 3 * Union(a, b)
  }

  lemma MulMono(p: int, q: int, r: int, s: int)
    requires 0 < p <= r && 0 < q <= s
    ensures 0 < p * q <= r * s
  {
    assert p * q <= r * q;
    assert r * q <= r * s;
  }

  /** Overlapping boxes have positive sides, so their union is positive:
      the `union > 0` guard in the merge is never needed, and the division
      in `_deduplicate` never divides by zero. */
  lemma UnionPositive(a: Box, b: Box)
    requires Overlaps(a, b)
    ensures a.w > 0 && a.h > 0 && b.w > 0 && b.h > 0
    ensures 0 < Inter(a, b) <= Area(a) && Inter(a, b) <= Area(b)
    ensures Union(a, b) >= Area(a) > 0 && Union(a, b) >= Area(b)
  {
    MulMono(InterWidth(a, b), InterHeight(a, b), a.w, a.h);
    MulMono(InterWidth(a, b), InterHeight(a, b), b.w, b.h);
  }

  /** The overlap test does not depend on the order of the two boxes. */
  lemma IouSymmetric(a: Box, b: Box)
    ensures IouAbove(a, b) == IouAbove(b, a)
  {
    assert InterWidth(a, b) == InterWidth(b, a) && InterHeight(a, b) == InterHeight(b, a);
  }

  // ---------------------------------------------------------------------
  // merge_overlapping_boxes
  // ---------------------------------------------------------------------

  /** The smallest box containing both. */
  function Hull(a: Box, b: Box): Box {
    var x := Min(a.x, b.x);
    var y := Min(a.y, b.y);
    Box(x, y, Max(a.x + a.w, b.x + b.w) - x, Max(a.y + a.h, b.y + b.h) - y)
  }

  predicate Contains(outer: Box, inner: Box) {
    && outer.x <= inner.x && inner.x + inner.w <= outer.x + outer.w
    && outer.y <= inner.y && inner.y + inner.h <= outer.y + outer.h
  }

  /** The merged box contains both inputs, and every box containing both
      contains it. */
  lemma HullLeast(a: Box, b: Box, c: Box)
    ensures Contains(Hull(a, b), a) && Contains(Hull(a, b), b)
    ensures Contains(c, a) && Contains(c, b) ==> Contains(c, Hull(a, b))
  {
  }

  /** Box `j` may be absorbed by box `i`: later, not yet absorbed, and
      overlapping enough. */
  predicate Absorbable(boxes: seq<Box>, i: nat, used: set<nat>, j: nat)
    requires i < |boxes| && j < |boxes|
  {
    i < j && j !in used && IouAbove(boxes[i], boxes[j])
  }

  /** The first absorbable box at or after `j`. */
  function PartnerFrom(boxes: seq<Box>, i: nat, used: set<nat>, j: nat): (p: Option<nat>)
    requires i < |boxes| && j <= |boxes|
    ensures p.None? <==> forall k :: j <= k < |boxes| ==> !Absorbable(boxes, i, used, k)
    ensures p.Some? ==> j <= p.value < |boxes| && Absorbable(boxes, i, used, p.value)
    ensures p.Some? ==> forall k :: j <= k < p.value ==> !Absorbable(boxes, i, used, k)
    decreases |boxes| - j
  {
    if j == |boxes| then None
    else if Absorbable(boxes, i, used, j) then Some(j)
    else PartnerFrom(boxes, i, used, j + 1)
  }

  /** What the merge does from box `i` on, given the absorbed set: the
      boxes it emits and the number of merges. */
  function MergeFrom(boxes: seq<Box>, i: nat, used: set<nat>): (seq<Box>, nat)
    decreases |boxes| - i
  {
    if i >= |boxes| then ([], 0)
    else if i in used then MergeFrom(boxes, i + 1, used)
    else match PartnerFrom(boxes, i, used, 0)
      case None =>
        var rest := MergeFrom(boxes, i + 1, used);
        ([boxes[i]] + rest.0, rest.1)
      case Some(j) =>
        var rest := MergeFrom(boxes, i + 1, used + {j});
        ([Hull(boxes[i], boxes[j])] + rest.0, rest.1 + 1)
  }

  /** The result of `merge_overlapping_boxes`. */
  function Merged(boxes: seq<Box>): seq<Box> {
    if |boxes| < 2 then boxes else MergeFrom(boxes, 0, {}).0
  }

  /** How much `merge_overlapping_boxes` adds to `stats['merged_boxes']`. */
  function MergeCount(boxes: seq<Box>): nat {
    if |boxes| < 2 then 0 else MergeFrom(boxes, 0, {}).1
  }

  /** The number of boxes from `i` on that have not been absorbed. */
  function Unabsorbed(n: nat, i: nat, used: set<nat>): nat
    decreases n - i
  {
    if i >= n then 0 else (if i in used then 0 else 1) + Unabsorbed(n, i + 1, used)
  }

  lemma {:induction false} UnabsorbedRemove(n: nat, i: nat, used: set<nat>, j: nat)
    requires i <= j < n && j !in used
    ensures Unabsorbed(n, i, used + {j}) == Unabsorbed(n, i, used) - 1
    decreases n - i
  {
    if i < j {
      UnabsorbedRemove(n, i + 1, used, j);
    } else {
      UnabsorbedSame(n, i + 1, used, j);
    }
  }

  lemma {:induction false} UnabsorbedSame(n: nat, i: nat, used: set<nat>, j: nat)
    requires j < i
    ensures Unabsorbed(n, i, used + {j}) == Unabsorbed(n, i, used)
    decreases n - i
  {
    if i < n {
      UnabsorbedSame(n, i + 1, used, j);
    }
  }

  lemma {:induction false} UnabsorbedNone(n: nat, i: nat)
    requires i <= n
    ensures Unabsorbed(n, i, {}) == n - i
    decreases n - i
  {
    if i < n {
      UnabsorbedNone(n, i + 1);
    }
  }

  lemma {:induction false} MergeFromLength(boxes: seq<Box>, i: nat, used: set<nat>)
    ensures |MergeFrom(boxes, i, used).0| + MergeFrom(boxes, i, used).1 == Unabsorbed(|boxes|, i, used)
    decreases |boxes| - i
  {
    if i < |boxes| {
      if i in used {
        MergeFromLength(boxes, i + 1, used);
      } else {
        match PartnerFrom(boxes, i, used, 0)
        case None =>
          MergeFromLength(boxes, i + 1, used);
        case Some(j) =>
          MergeFromLength(boxes, i + 1, used + {j});
          UnabsorbedRemove(|boxes|, i + 1, used, j);
      }
    }
  }

  /** Each merge removes exactly one box: the output is as long as the
      input less the number of merges, so at most half the boxes merge. */
  lemma MergedLength(boxes: seq<Box>)
    ensures |Merged(boxes)| + MergeCount(boxes) == |boxes|
    ensures 2 * MergeCount(boxes) <= |boxes|
  {
    if |boxes| >= 2 {
      MergeFromLength(boxes, 0, {});
      UnabsorbedNone(|boxes|, 0);
      MergeFromAtLeastHalf(boxes, 0, {});
    }
  }

  lemma {:induction false} MergeFromAtLeastHalf(boxes: seq<Box>, i: nat, used: set<nat>)
    ensures MergeFrom(boxes, i, used).1 <= |MergeFrom(boxes, i, used).0|
    decreases |boxes| - i
  {
    if i < |boxes| {
      if i in used {
        MergeFromAtLeastHalf(boxes, i + 1, used);
      } else {
        match PartnerFrom(boxes, i, used, 0)
        case None =>
          MergeFromAtLeastHalf(boxes, i + 1, used);
        case Some(j) =>
          MergeFromAtLeastHalf(boxes, i + 1, used + {j});
      }
    }
  }

  lemma {:induction false} MergeFromDisjoint(boxes: seq<Box>, i: nat)
    requires forall a, b :: 0 <= a < b < |boxes| ==> !IouAbove(boxes[a], boxes[b])
    ensures MergeFrom(boxes, i, {}) == (if i < |boxes| then boxes[i..] else [], 0)
    decreases |boxes| - i
  {
    if i < |boxes| {
      MergeFromDisjoint(boxes, i + 1);
      assert PartnerFrom(boxes, i, {}, 0).None?;
      assert boxes[i..] == [boxes[i]] + (if i + 1 < |boxes| then boxes[i + 1..] else []);
    }
  }

  /** When no two boxes overlap enough, nothing merges. */
  lemma MergedDisjoint(boxes: seq<Box>)
    requires forall a, b :: 0 <= a < b < |boxes| ==> !IouAbove(boxes[a], boxes[b])
    ensures Merged(boxes) == boxes && MergeCount(boxes) == 0
  {
    if |boxes| >= 2 {
      MergeFromDisjoint(boxes, 0);
      assert boxes[0..] == boxes;
    }
  }

  /** Two overlapping boxes become their hull. */
  lemma MergedPair(a: Box, b: Box)
    requires IouAbove(a, b)
    ensures Merged([a, b]) == [Hull(a, b)] && MergeCount([a, b]) == 1
  {
    var boxes := [a, b];
    assert Absorbable(boxes, 0, {}, 1);
    assert PartnerFrom(boxes, 0, {}, 0) == Some(1);
    assert {} + {1} == {1};
    assert MergeFrom(boxes, 2, {1}) == ([], 0);
    assert MergeFrom(boxes, 1, {1}) == ([], 0);
    assert MergeFrom(boxes, 0, {}) == ([Hull(a, b)] + [], 0 + 1);
  }

  // ---------------------------------------------------------------------
  // _deduplicate
  // ---------------------------------------------------------------------

  /** A face candidate: its box and its detector confidence. */
  datatype Face = Face(box: Box, confidence: real)

  predicate SortedDown(faces: seq<Face>) {
    forall a, b :: 0 <= a < b < |faces| ==> faces[a].confidence >= faces[b].confidence
  }

  /** Insert behind every face at least as confident, which keeps the sort
      stable (Python's `sort(reverse=True)` is stable). */
  function Insert(f: Face, sorted: seq<Face>): (r: seq<Face>)
    ensures multiset(r) == multiset(sorted) + multiset{f}
    ensures |r| == |sorted| + 1
    decreases |sorted|
  {
    if |sorted| == 0 then [f]
    else if sorted[0].confidence >= f.confidence then
      assert sorted == [sorted[0]] + sorted[1..];
      [sorted[0]] + Insert(f, sorted[1..])
    else [f] + sorted
  }

  /** Inserting a face no more confident than `c` into faces no more
      confident than `c` keeps every face at most `c`. */
  lemma {:induction false} InsertBounded(f: Face, s: seq<Face>, c: real)
    requires f.confidence <= c
    requires forall k :: 0 <= k < |s| ==> s[k].confidence <= c
    ensures forall k :: 0 <= k < |Insert(f, s)| ==> Insert(f, s)[k].confidence <= c
    decreases |s|
  {
    if |s| > 0 && s[0].confidence >= f.confidence {
      InsertBounded(f, s[1..], c);
      assert Insert(f, s) == [s[0]] + Insert(f, s[1..]);
    }
  }

  /** Insertion keeps a list sorted by decreasing confidence. */
  lemma {:induction false} InsertSorted(f: Face, s: seq<Face>)
    requires SortedDown(s)
    ensures SortedDown(Insert(f, s))
    decreases |s|
  {
    if |s| > 0 && s[0].confidence >= f.confidence {
      assert SortedDown(s[1..]) by {
        forall a, b | 0 <= a < b < |s[1..]| ensures s[1..][a].confidence >= s[1..][b].confidence {
          assert s[1..][a] == s[a + 1] && s[1..][b] == s[b + 1];
        }
      }
      InsertSorted(f, s[1..]);
      InsertBounded(f, s[1..], s[0].confidence);
      ConsSorted(s[0], Insert(f, s[1..]));
    } else if |s| > 0 {
      forall k | 0 <= k < |s| ensures s[k].confidence <= f.confidence {
        assert k == 0 || s[0].confidence >= s[k].confidence;
      }
      ConsSorted(f, s);
    }
  }

  /** A face at least as confident as every face of a sorted list, put in
      front, keeps it sorted. */
  lemma ConsSorted(f: Face, s: seq<Face>)
    requires SortedDown(s)
    requires forall k :: 0 <= k < |s| ==> s[k].confidence <= f.confidence
    ensures SortedDown([f] + s)
  {
    var r := [f] + s;
    forall a, b | 0 <= a < b < |r| ensures r[a].confidence >= r[b].confidence {
      assert r[b] == s[b - 1];
      if a > 0 {
        assert r[a] == s[a - 1];
      }
    }
  }

  /** `faces.sort(key=confidence, reverse=True)`. */
  function SortByConfidence(faces: seq<Face>): (r: seq<Face>)
    ensures SortedDown(r)
    ensures multiset(r) == multiset(faces)
    decreases |faces|
  {
    if |faces| == 0 then []
    else
      assert faces == faces[..|faces| - 1] + [faces[|faces| - 1]];
      var prev := SortByConfidence(faces[..|faces| - 1]);
      InsertSorted(faces[|faces| - 1], prev);
      Insert(faces[|faces| - 1], prev)
  }

  /** The face overlaps one already kept. */
  predicate Clashes(f: Face, kept: seq<Face>) {
    exists k :: 0 <= k < |kept| && IouAbove(f.box, kept[k].box)
  }

  /** The faces the loop of `_deduplicate` keeps, in order. */
  function Kept(faces: seq<Face>): seq<Face>
    decreases |faces|
  {
    if |faces| == 0 then []
    else
      var kept := Kept(faces[..|faces| - 1]);
      if Clashes(faces[|faces| - 1], kept) then kept else kept + [faces[|faces| - 1]]
  }

  /** `a` is `b` with some elements left out. */
  predicate Subsequence(a: seq<Face>, b: seq<Face>)
    decreases |b|
  {
    if |a| == 0 then true
    else if |b| == 0 then false
    else if a[|a| - 1] == b[|b| - 1] then Subsequence(a[..|a| - 1], b[..|b| - 1])
    else Subsequence(a, b[..|b| - 1])
  }

  lemma SubsequenceSnoc(a: seq<Face>, b: seq<Face>, f: Face)
    requires Subsequence(a, b)
    ensures Subsequence(a, b + [f]) && Subsequence(a + [f], b + [f])
  {
    assert (b + [f])[..|b|] == b;
    assert (a + [f])[..|a|] == a;
    SubsequenceWeaken(a, b, f);
  }

  /** Dropping the last element of a subsequence leaves a subsequence. */
  lemma {:induction false} SubsequenceDrop(a: seq<Face>, b: seq<Face>)
    requires |a| > 0 && Subsequence(a, b)
    ensures Subsequence(a[..|a| - 1], b)
    decreases |b|, 1
  {
    var b0 := b[..|b| - 1];
    assert b0 + [b[|b| - 1]] == b;
    if a[|a| - 1] == b[|b| - 1] {
      SubsequenceWeaken(a[..|a| - 1], b0, b[|b| - 1]);
    } else {
      SubsequenceDrop(a, b0);
      SubsequenceWeaken(a[..|a| - 1], b0, b[|b| - 1]);
    }
  }

  /** A subsequence of `b` is one of `b + [f]`. */
  lemma {:induction false} SubsequenceWeaken(a: seq<Face>, b: seq<Face>, f: Face)
    requires Subsequence(a, b)
    ensures Subsequence(a, b + [f])
    decreases |b| + 1, 0
  {
    assert (b + [f])[..|b|] == b;
    if |a| > 0 && a[|a| - 1] == f {
      SubsequenceDrop(a, b);
    }
  }

  lemma {:induction false} SubsequenceSorted(a: seq<Face>, b: seq<Face>)
    requires Subsequence(a, b) && SortedDown(b)
    ensures SortedDown(a)
    ensures forall x :: 0 <= x < |a| ==> a[x] in b
    decreases |b|
  {
    if |a| > 0 {
      var b0 := b[..|b| - 1];
      assert SortedDown(b0);
      if a[|a| - 1] == b[|b| - 1] {
        SubsequenceSorted(a[..|a| - 1], b0);
        forall x | 0 <= x < |a| - 1 ensures a[x].confidence >= a[|a| - 1].confidence {
          assert a[..|a| - 1][x] in b0;
        }
        forall x | 0 <= x < |a| ensures a[x] in b {
          if x < |a| - 1 {
            assert a[..|a| - 1][x] in b0;
          }
        }
      } else {
        SubsequenceSorted(a, b0);
      }
    }
  }

  lemma {:induction false} KeptSubsequence(faces: seq<Face>)
    ensures Subsequence(Kept(faces), faces)
    decreases |faces|
  {
    if |faces| > 0 {
      var init := faces[..|faces| - 1];
      KeptSubsequence(init);
      SubsequenceSnoc(Kept(init), init, faces[|faces| - 1]);
      assert init + [faces[|faces| - 1]] == faces;
    }
  }

  /** No two faces overlap with an IoU above 0.3. */
  predicate Apart(faces: seq<Face>) {
    forall a, b :: 0 <= a < b < |faces| ==> !IouAbove(faces[a].box, faces[b].box)
  }

  lemma {:induction false} KeptApart(faces: seq<Face>)
    ensures Apart(Kept(faces))
    decreases |faces|
  {
    if |faces| > 0 {
      var init := faces[..|faces| - 1];
      KeptApart(init);
      var f := faces[|faces| - 1];
      var kept := Kept(init);
      if !Clashes(f, kept) {
        var grown := kept + [f];
        forall a, b | 0 <= a < b < |grown| ensures !IouAbove(grown[a].box, grown[b].box) {
          if b == |kept| {
            assert grown[a] == kept[a] && grown[b] == f;
            assert !IouAbove(f.box, kept[a].box);
            IouSymmetric(kept[a].box, f.box);
            assert !IouAbove(kept[a].box, f.box);
          } else {
            assert grown[a] == kept[a] && grown[b] == kept[b];
            assert !IouAbove(kept[a].box, kept[b].box);
          }
        }
      }
    }
  }

  lemma {:induction false} KeptGrows(faces: seq<Face>, n: nat)
    requires n <= |faces|
    ensures |Kept(faces[..n])| <= |Kept(faces)| && Kept(faces[..n]) == Kept(faces)[..|Kept(faces[..n])|]
    decreases |faces| - n
  {
    if n < |faces| {
      var init := faces[..|faces| - 1];
      assert faces[..n] == init[..n];
      KeptGrows(init, n);
    } else {
      assert faces[..n] == faces;
    }
  }

  lemma {:induction false} KeptCovers(faces: seq<Face>)
    ensures forall x :: 0 <= x < |faces| ==> faces[x] in Kept(faces) || Clashes(faces[x], Kept(faces))
  {
    forall x | 0 <= x < |faces| ensures faces[x] in Kept(faces) || Clashes(faces[x], Kept(faces)) {
      var before := Kept(faces[..x]);
      KeptGrows(faces, x + 1);
      assert faces[..x + 1][..x] == faces[..x];
      var after := Kept(faces[..x + 1]);
      var all := Kept(faces);
      if Clashes(faces[x], before) {
        var k :| 0 <= k < |before| && IouAbove(faces[x].box, before[k].box);
        KeptGrows(faces, x);
        assert all[k] == before[k];
      } else {
        assert after[|after| - 1] == faces[x];
        assert all[|after| - 1] == faces[x];
      }
    }
  }

  /** What `_deduplicate` returns: for no faces nothing, otherwise the
      faces in descending confidence that overlap no more confident face
      already kept. */
  function Deduplicated(faces: seq<Face>): seq<Face> {
    if |faces| == 0 then [] else Kept(SortByConfidence(faces))
  }

  /** The kept faces are taken from the input, stay sorted by confidence,
      overlap each other by no more than 0.3, and every dropped face
      overlaps a kept one; the most confident face is always kept. */
  lemma DeduplicatedSpec(faces: seq<Face>)
    ensures var u := Deduplicated(faces);
            && |u| <= |faces|
            && SortedDown(u)
            && (forall x :: 0 <= x < |u| ==> u[x] in multiset(faces))
            && Apart(u)
            && (forall f :: f in faces ==> f in u || Clashes(f, u))
            && (|faces| > 0 ==> |u| > 0 && u[0] == SortByConfidence(faces)[0])
  {
    if |faces| > 0 {
      var sorted := SortByConfidence(faces);
      KeptSubsequence(sorted);
      SubsequenceSorted(Kept(sorted), sorted);
      SubsequenceLength(Kept(sorted), sorted);
      KeptApart(sorted);
      KeptDrawn(faces, sorted);
      KeptCoversInput(faces, sorted);
      KeptFirst(sorted);
    }
  }

  /** The kept faces of a sorted permutation of `faces` are faces of `faces`. */
  lemma KeptDrawn(faces: seq<Face>, sorted: seq<Face>)
    requires multiset(sorted) == multiset(faces) && SortedDown(sorted)
    ensures forall x :: 0 <= x < |Kept(sorted)| ==> Kept(sorted)[x] in multiset(faces)
  {
    KeptSubsequence(sorted);
    SubsequenceSorted(Kept(sorted), sorted);
    forall x | 0 <= x < |Kept(sorted)| ensures Kept(sorted)[x] in multiset(faces) {
      assert Kept(sorted)[x] in sorted;
    }
  }

  /** Every face of `faces` is kept from its permutation, or clashes with a kept face. */
  lemma KeptCoversInput(faces: seq<Face>, sorted: seq<Face>)
    requires multiset(sorted) == multiset(faces)
    ensures forall f :: f in faces ==> f in Kept(sorted) || Clashes(f, Kept(sorted))
  {
    KeptCovers(sorted);
    forall f | f in faces ensures f in Kept(sorted) || Clashes(f, Kept(sorted)) {
      assert f in multiset(sorted);
      var x :| 0 <= x < |sorted| && sorted[x] == f;
    }
  }

  /** The first face is always kept. */
  lemma KeptFirst(sorted: seq<Face>)
    requires |sorted| > 0
    ensures |Kept(sorted)| > 0 && Kept(sorted)[0] == sorted[0]
  {
    KeptGrows(sorted, 1);
    assert sorted[..1] == [sorted[0]];
    assert Kept(sorted[..1]) == [sorted[0]] by {
      assert sorted[..1][..0] == [];
    }
  }

  lemma {:induction false} SubsequenceLength(a: seq<Face>, b: seq<Face>)
    requires Subsequence(a, b)
    ensures |a| <= |b|
    decreases |b|
  {
    if |a| > 0 {
      if a[|a| - 1] == b[|b| - 1] {
        SubsequenceLength(a[..|a| - 1], b[..|b| - 1]);
      } else {
        SubsequenceLength(a, b[..|b| - 1]);
      }
    }
  }

  /** `_deduplicate`. */
  method Deduplicate(faces: seq<Face>) returns (unique: seq<Face>)
    ensures unique == Deduplicated(faces)
  {
    if |faces| == 0 {
      return [];
    }
    var sorted := SortByConfidence(faces);
    unique := [];
    for i := 0 to |sorted|
      invariant unique == Kept(sorted[..i])
    {
      var face := sorted[i];
      var overlaps := false;
      var e := 0;
      while e < |unique|
        invariant 0 <= e <= |unique|
        invariant overlaps <==> exists k :: 0 <= k < e && IouAbove(face.box, unique[k].box)
        invariant overlaps ==> e > 0
        decreases |unique| - e, if overlaps then 0 else 1
      {
        if Overlaps(face.box, unique[e].box) {
          var inter := Inter(face.box, unique[e].box);
          var union := Union(face.box, unique[e].box);
          UnionPositive(face.box, unique[e].box);
          if 10 * inter > 3 * union {
            overlaps := true;
            e := e + 1;
            break;
          }
        }
        e := e + 1;
      }
      assert sorted[..i + 1][..i] == sorted[..i];
      if overlaps {
        assert Clashes(face, unique);
      } else {
        unique := unique + [face];
      }
    }
    assert sorted[..|sorted|] == sorted;
  }

  // ---------------------------------------------------------------------
  // The object-to-box map of process_frame
  // ---------------------------------------------------------------------

  datatype Point = Point(x: int, y: int)

  /** `(x + w // 2, y + h // 2)`; Python's `//` floors, as Dafny's `/` does
      for a positive divisor. */
  function Center(b: Box): Point { Point(b.x + b.w / 2, b.y + b.h / 2) }

  /** The squared distance; `np.sqrt` is increasing, so comparing these
      compares the distances. */
  function Dist2(c: Point, p: Point): int {
    (c.x - p.x) * (c.x - p.x) + (c.y - p.y) * (c.y - p.y)
  }

  /** The nearest box among the first `n` not already used, the first one
      on a tie. */
  function Nearest(c: Point, boxes: seq<Box>, used: set<nat>, n: nat): (p: Option<nat>)
    requires n <= |boxes|
    ensures p.None? <==> forall k :: 0 <= k < n ==> k in used
    ensures p.Some? ==> p.value < n && p.value !in used
    ensures p.Some? ==> forall k :: 0 <= k < n && k !in used ==>
                          Dist2(c, Center(boxes[p.value])) <= Dist2(c, Center(boxes[k]))
    ensures p.Some? ==> forall k :: 0 <= k < p.value && k !in used ==>
                          Dist2(c, Center(boxes[p.value])) < Dist2(c, Center(boxes[k]))
  {
    if n == 0 then None
    else
      var p := Nearest(c, boxes, used, n - 1);
      if n - 1 in used then p
      else if p.None? || Dist2(c, Center(boxes[n - 1])) < Dist2(c, Center(boxes[p.value])) then Some(n - 1)
      else p
  }

  /** The inner loop: the best free box for one centroid. */
  method NearestBox(c: Point, boxes: seq<Box>, used: set<nat>) returns (best: Option<nat>)
    ensures best == Nearest(c, boxes, used, |boxes|)
  {
    best := None;
    var bestDistance := 0;
    for k := 0 to |boxes|
      invariant best == Nearest(c, boxes, used, k)
      invariant best.Some? ==> bestDistance == Dist2(c, Center(boxes[best.value]))
    {
      if k !in used {
        var dist := Dist2(c, Center(boxes[k]));
        if best.None? || dist < bestDistance {
          bestDistance := dist;
          best := Some(k);
        }
      }
    }
  }

  /** The greedy map over the tracked objects, in order, and the boxes taken. */
  function Assign(objects: seq<(int, Point)>, boxes: seq<Box>): (r: (map<int, nat>, set<nat>))
    decreases |objects|
  {
    if |objects| == 0 then (map[], {})
    else
      var prev := Assign(objects[..|objects| - 1], boxes);
      var o := objects[|objects| - 1];
      match Nearest(o.1, boxes, prev.1, |boxes|)
      case None => prev
      case Some(b) => (prev.0[o.0 := b], prev.1 + {b})
  }

  /** The indices below `n`. */
  function Range(n: nat): (r: set<nat>)
    ensures forall k: nat :: k in r <==> k < n
    ensures |r| == n
  {
    if n == 0 then {} else Range(n - 1) + {n - 1}
  }

  lemma {:induction false} SubsetSize(a: set<nat>, b: set<nat>)
    requires a <= b
    ensures |a| <= |b|
    ensures |a| == |b| ==> a == b
    decreases |a|
  {
    if a != {} {
      var x :| x in a;
      SubsetSize(a - {x}, b - {x});
      assert |a - {x}| == |a| - 1 && |b - {x}| == |b| - 1;
      assert a == (a - {x}) + {x} && b == (b - {x}) + {x};
    } else if b != {} {
      var x :| x in b;
    }
  }

  /** Once the taken boxes are indices, no box is free exactly when all are taken. */
  lemma NearestNone(c: Point, boxes: seq<Box>, used: set<nat>)
    requires used <= Range(|boxes|)
    ensures Nearest(c, boxes, used, |boxes|).None? <==> |used| == |boxes|
  {
    SubsetSize(used, Range(|boxes|));
    if Nearest(c, boxes, used, |boxes|).None? {
      assert Range(|boxes|) <= used;
      SubsetSize(Range(|boxes|), used);
    }
  }

  predicate DistinctIds(objects: seq<(int, Point)>) {
    forall a, b :: 0 <= a < b < |objects| ==> objects[a].0 != objects[b].0
  }

  /** The boxes taken are indices, one per matched object, and the map's
      values are among them. */
  lemma {:induction false} AssignTaken(objects: seq<(int, Point)>, boxes: seq<Box>)
    ensures var (m, used) := Assign(objects, boxes);
            && used <= Range(|boxes|)
            && |used| == (if |objects| <= |boxes| then |objects| else |boxes|)
            && (forall id :: id in m ==> m[id] in used)
    decreases |objects|
  {
    if |objects| > 0 {
      var init := objects[..|objects| - 1];
      AssignTaken(init, boxes);
      var used := Assign(init, boxes).1;
      var o := objects[|objects| - 1];
      NearestNone(o.1, boxes, used);
    }
  }

  lemma AssignKeys(objects: seq<(int, Point)>, boxes: seq<Box>)
    requires DistinctIds(objects)
    ensures var m := Assign(objects, boxes).0;
            && (forall k :: 0 <= k < |objects| ==> (objects[k].0 in m <==> k < |boxes|))
            && (forall id :: id in m ==> exists k :: 0 <= k < |objects| && objects[k].0 == id)
  {
    AssignKeysPositions(objects, boxes);
    AssignKeysFrom(objects, boxes);
  }

  /** The objects matched are those at positions below the number of boxes. */
  lemma {:induction false} AssignKeysPositions(objects: seq<(int, Point)>, boxes: seq<Box>)
    requires DistinctIds(objects)
    ensures forall k :: 0 <= k < |objects| ==> (objects[k].0 in Assign(objects, boxes).0 <==> k < |boxes|)
    decreases |objects|
  {
    if |objects| > 0 {
      var init := objects[..|objects| - 1];
      assert DistinctIds(init);
      AssignKeysPositions(init, boxes);
      AssignLastKeys(objects, boxes);
      LastIdFresh(objects, boxes);
      PositionsStep(objects, boxes, Assign(init, boxes).0.Keys, Assign(objects, boxes).0.Keys);
    }
  }

  /** With distinct ids, the last object is not matched before its own step. */
  lemma LastIdFresh(objects: seq<(int, Point)>, boxes: seq<Box>)
    requires |objects| > 0 && DistinctIds(objects)
    ensures objects[|objects| - 1].0 !in Assign(objects[..|objects| - 1], boxes).0
  {
    var init := objects[..|objects| - 1];
    AssignKeysFrom(init, boxes);
    forall k | 0 <= k < |init| ensures init[k].0 != objects[|objects| - 1].0 {
      assert init[k] == objects[k];
    }
  }

  /** The position fact for a sequence, from the one for its prefix and the last step. */
  lemma PositionsStep(objects: seq<(int, Point)>, boxes: seq<Box>, keys: set<int>, keys': set<int>)
    requires |objects| > 0 && DistinctIds(objects)
    requires forall k :: 0 <= k < |objects| - 1 ==> (objects[k].0 in keys <==> k < |boxes|)
    requires objects[|objects| - 1].0 !in keys
    requires keys' == keys + (if |objects| - 1 < |boxes| then {objects[|objects| - 1].0} else {})
    ensures forall k :: 0 <= k < |objects| ==> (objects[k].0 in keys' <==> k < |boxes|)
  {
    var n := |objects| - 1;
    forall k | 0 <= k < |objects| ensures (objects[k].0 in keys' <==> k < |boxes|) {
      if k < n {
        assert objects[k].0 != objects[n].0;
      }
    }
  }

  /** The last object gains a box exactly when fewer objects than boxes came before it. */
  lemma AssignLastKeys(objects: seq<(int, Point)>, boxes: seq<Box>)
    requires |objects| > 0
    ensures Assign(objects, boxes).0.Keys ==
            Assign(objects[..|objects| - 1], boxes).0.Keys
            + (if |objects| - 1 < |boxes| then {objects[|objects| - 1].0} else {})
  {
    var init := objects[..|objects| - 1];
    AssignTaken(init, boxes);
    var used := Assign(init, boxes).1;
    NearestNone(objects[|objects| - 1].1, boxes, used);
  }

  /** Every matched id is the id of some object. */
  lemma {:induction false} AssignKeysFrom(objects: seq<(int, Point)>, boxes: seq<Box>)
    ensures forall id :: id in Assign(objects, boxes).0 ==> exists k :: 0 <= k < |objects| && objects[k].0 == id
    decreases |objects|
  {
    if |objects| > 0 {
      var init := objects[..|objects| - 1];
      AssignKeysFrom(init, boxes);
      var m := Assign(init, boxes).0;
      var m' := Assign(objects, boxes).0;
      var o := objects[|objects| - 1];
      assert m'.Keys <= m.Keys + {o.0};
      forall id | id in m' ensures exists k :: 0 <= k < |objects| && objects[k].0 == id {
        if id in m {
          var k :| 0 <= k < |init| && init[k].0 == id;
          assert objects[k] == init[k];
        } else {
          assert objects[|objects| - 1].0 == id;
        }
      }
    }
  }

  lemma {:induction false} AssignInjective(objects: seq<(int, Point)>, boxes: seq<Box>)
    requires DistinctIds(objects)
    ensures var m := Assign(objects, boxes).0;
            forall id1, id2 :: id1 in m && id2 in m && id1 != id2 ==> m[id1] != m[id2]
    decreases |objects|
  {
    if |objects| > 0 {
      var init := objects[..|objects| - 1];
      assert DistinctIds(init);
      AssignInjective(init, boxes);
      AssignTaken(init, boxes);
      AssignKeys(init, boxes);
      var (m, used) := Assign(init, boxes);
      var o := objects[|objects| - 1];
      assert o.0 !in m;
    }
  }

  lemma {:induction false} AssignNoBoxes(objects: seq<(int, Point)>, boxes: seq<Box>)
    requires |boxes| == 0
    ensures Assign(objects, boxes).0 == map[]
    decreases |objects|
  {
    if |objects| > 0 {
      AssignNoBoxes(objects[..|objects| - 1], boxes);
    }
  }

  /** The object-to-box map: each value indexes a box, no box goes to two
      objects, and the first objects in order (as many as there are boxes)
      are the ones matched. */
  lemma AssignmentSpec(objects: seq<(int, Point)>, boxes: seq<Box>)
    requires DistinctIds(objects)
    ensures var m := Assign(objects, boxes).0;
            && (forall id :: id in m ==> m[id] < |boxes|)
            && (forall id1, id2 :: id1 in m && id2 in m && id1 != id2 ==> m[id1] != m[id2])
            && (forall k :: 0 <= k < |objects| ==> (objects[k].0 in m <==> k < |boxes|))
            && (forall id :: id in m ==> exists k :: 0 <= k < |objects| && objects[k].0 == id)
  {
    AssignTaken(objects, boxes);
    AssignKeys(objects, boxes);
    AssignInjective(objects, boxes);
  }

  /** The object-to-box map of `process_frame`; it is only built when there
      are boxes and tracked objects, and is empty otherwise. */
  method ObjectToBoxMap(objects: seq<(int, Point)>, boxes: seq<Box>) returns (m: map<int, nat>)
    requires DistinctIds(objects)
    ensures m == Assign(objects, boxes).0
  {
    if |boxes| == 0 || |objects| == 0 {
      if |boxes| == 0 {
        AssignNoBoxes(objects, boxes);
      }
      return map[];
    }
    m := map[];
    var usedBoxes: set<nat> := {};
    for i := 0 to |objects|
      invariant (m, usedBoxes) == Assign(objects[..i], boxes)
    {
      assert objects[..i + 1][..i] == objects[..i];
      var best := NearestBox(objects[i].1, boxes, usedBoxes);
      if best.Some? {
        m := m[objects[i].0 := best.value];
        usedBoxes := usedBoxes + {best.value};
      }
    }
    assert objects[..|objects|] == objects;
  }

  // ---------------------------------------------------------------------
  // should_re_analyze and the per-person record
  // ---------------------------------------------------------------------

  /** What `person_data` holds about a person: the frame of the analysis
      (absent when the face crop was empty) and whether a face was found. */
  datatype Analysis = Analysis(frame: Option<int>, faceDetected: bool)

  /** The record `estimate_gender_age` returns for a non-empty face crop. */
  function Estimated(frameIdx: int): Analysis { Analysis(Some(frameIdx), true) }
  /** The record `estimate_gender_age` returns for an empty face crop. */
  function EmptyCrop(): Analysis { Analysis(None, false) }
  /** The record `process_frame` stores when no face is found. */
  function NoFace(frameIdx: int): Analysis { Analysis(Some(frameIdx), false) }

  class YoloFinalSystem {
    var mergedBoxes: nat
    var personData: map<int, Analysis>

    constructor()
      ensures mergedBoxes == 0 && personData == map[]
    {
      mergedBoxes := 0;
      personData := map[];
    }

    /** `should_re_analyze`: an unseen id, a last analysis more than 30
        frames back (a missing frame counts as 0), or no face found. */
    function ShouldReAnalyze(trackId: int, frameIdx: int): (r: bool)
      reads this
      ensures trackId !in personData ==> r
      ensures trackId in personData && personData[trackId].faceDetected ==>
                (r <==> frameIdx - personData[trackId].frame.GetOr(0) > 30)
      ensures trackId in personData && !personData[trackId].faceDetected ==> r
    {
      if trackId !in personData then true
      else if frameIdx - personData[trackId].frame.GetOr(0) > 30 then true
      else !personData[trackId].faceDetected
    }

    /** `merge_overlapping_boxes`, counting merges in `stats['merged_boxes']`. */
    method MergeOverlappingBoxes(boxes: seq<Box>) returns (merged: seq<Box>)
      modifies this
      ensures merged == Merged(boxes)
      ensures mergedBoxes == old(mergedBoxes) + MergeCount(boxes)
      ensures personData == old(personData)
    {
      if |boxes| < 2 {
        return boxes;
      }
      var count;
      merged, count := MergeLoop(boxes);
      mergedBoxes := mergedBoxes + count;
    }
  }

  /** The outer loop of `merge_overlapping_boxes` and its merge count. */
  method MergeLoop(boxes: seq<Box>) returns (merged: seq<Box>, count: nat)
    ensures (merged, count) == MergeFrom(boxes, 0, {})
  {
    merged := [];
    count := 0;
    var used: set<nat> := {};
    ghost var total := MergeFrom(boxes, 0, {});
    for i := 0 to |boxes|
      invariant merged + MergeFrom(boxes, i, used).0 == total.0
      invariant count + MergeFrom(boxes, i, used).1 == total.1
    {
      ghost var here := MergeFrom(boxes, i, used);
      if i in used {
        assert here == MergeFrom(boxes, i + 1, used);
        continue;
      }
      var partner := FindPartner(boxes, i, used);
      if partner.Some? {
        ghost var rest := MergeFrom(boxes, i + 1, used + {partner.value});
        assert here == ([Hull(boxes[i], boxes[partner.value])] + rest.0, rest.1 + 1);
        assert merged + [Hull(boxes[i], boxes[partner.value])] + rest.0 == merged + here.0;
        merged := merged + [Hull(boxes[i], boxes[partner.value])];
        used := used + {partner.value};
        count := count + 1;
      } else {
        ghost var rest := MergeFrom(boxes, i + 1, used);
        assert here == ([boxes[i]] + rest.0, rest.1);
        assert merged + [boxes[i]] + rest.0 == merged + here.0;
        merged := merged + [boxes[i]];
      }
    }
    assert merged + [] == merged;
  }

  /** The inner loop of `merge_overlapping_boxes`: the first later free box
      whose IoU with box `i` is above 0.3. */
  method FindPartner(boxes: seq<Box>, i: nat, used: set<nat>) returns (partner: Option<nat>)
    requires i < |boxes|
    ensures partner == PartnerFrom(boxes, i, used, 0)
  {
    var box1 := boxes[i];
    var j := 0;
    while j < |boxes|
      invariant 0 <= j <= |boxes|
      invariant PartnerFrom(boxes, i, used, 0) == PartnerFrom(boxes, i, used, j)
    {
      if i < j && j !in used {
        var box2 := boxes[j];
        if Overlaps(box1, box2) {
          var inter := Inter(box1, box2);
          var union := Union(box1, box2);
          UnionPositive(box1, box2);
          if union > 0 && 10 * inter > 3 * union {
            return Some(j);
          }
        }
      }
      j := j + 1;
    }
    return None;
  }

  /** After a successful analysis at frame `f`, the person is not analysed
      again until frame `f + 31`; after one that found no face, or had an
      empty crop, it is analysed on the next frame. */
  lemma ReAnalysisSchedule(s: YoloFinalSystem, trackId: int, f: int, g: int)
    requires trackId in s.personData
    ensures s.personData[trackId] == Estimated(f) ==> (s.ShouldReAnalyze(trackId, g) <==> g > f + 30)
    ensures s.personData[trackId] == NoFace(f) ==> s.ShouldReAnalyze(trackId, g)
    ensures s.personData[trackId] == EmptyCrop() ==> s.ShouldReAnalyze(trackId, g)
  {
  }
}
