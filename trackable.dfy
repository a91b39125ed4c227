/** The per-identity record kept by every counting loop
    (tracker/trackableobject.py). */
module Trackable {

  /** An integer centroid `(x, y)` as returned by the centroid tracker. */
  datatype Point = Point(x: int, y: int)

  datatype TrackableObject = TrackableObject(objectID: int, centroids: seq<Point>, counted: bool)

  /** A trackable object as the program can hold one: it is created with one
      centroid and its history only grows, so the history is never empty. */
  type TrackedObject = t: TrackableObject | |t.centroids| > 0
    witness TrackableObject(0, [Point(0, 0)], false)

  /** `TrackableObject(objectID, centroid)`. */
  function NewTrackableObject(objectID: int, centroid: Point): (t: TrackedObject)
    ensures t.objectID == objectID
    ensures t.centroids == [centroid]
    ensures !t.counted
  {
    TrackableObject(objectID, [centroid], false)
  }

  /** `to.centroids.append(centroid)`: the identity and the latch are kept. */
  function AddCentroid(t: TrackedObject, c: Point): (u: TrackedObject)
    ensures u.objectID == t.objectID && u.counted == t.counted
    ensures u.centroids == t.centroids + [c]
  {
    t.(centroids := t.centroids + [c])
  }

  /** `to.counted = True`: the one-way latch. */
  function MarkCounted(t: TrackedObject): (u: TrackedObject)
    ensures u.objectID == t.objectID && u.centroids == t.centroids && u.counted
  {
    t.(counted := true)
  }
}
