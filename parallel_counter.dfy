/** `parallel/parallel_people_counter.py`: submitting camera and video tasks
    with duplicate-source rejection, the collector's bookkeeping of the
    results workers send, and the latest result per task. The task queue is
    modelled as the sequence of tasks put on it, in order. */
module ParallelCounter {
  import opened Wrappers
  import opened Text
  import opened Json
  import opened Records
  import opened ResultHandler
  import Video
  import Worker

  const CameraThreshold := 10
  const CameraPriority := 1
  const VideoThreshold := 5
  const VideoPriority := 2

  /** `**kwargs` cannot repeat a named parameter (Python refuses the call). */
  predicate KeywordsFree(extra: map<string, Json>, named: set<string>) {
    forall key :: key in extra ==> key !in named
  }

  /** An optional argument as the function body sees it: `None` stands for
      an omitted argument, which takes `default`, and `Some(v)` for a value
      the caller passed, possibly an explicit `None` (`JNull`). */
  predicate IsNoneArg(arg: Option<Json>) {
    arg.None? || arg.value == JNull
  }

  /** The id used by `if camera_id is None: camera_id = f"{kind}_{int(time.time())}"`,
      with the clock reading `now` passed in: an omitted id and an explicit
      `None` both become the timestamped default. */
  function IdOrDefault(kind: string, id: Option<Json>, now: int): (r: Json)
    ensures !IsNoneArg(id) ==> r == id.value
    ensures IsNoneArg(id) ==> r == JStr(kind + "_" + IntToString(now))
    ensures r != JNull
  {
    if IsNoneArg(id) then JStr(kind + "_" + IntToString(now)) else id.value
  }

  /** `if alias is None: alias = <id>`. */
  function AliasOrId(alias: Option<Json>, id: Json): (r: Json)
    ensures IsNoneArg(alias) ==> r == id
    ensures !IsNoneArg(alias) ==> r == alias.value
  {
    if IsNoneArg(alias) then id else alias.value
  }

  /** The task dictionary `add_camera` (kind "camera", id key "camera_id")
      or `add_video` (kind "video", id key "video_id") builds. The keyword
      arguments are spread last, so they override the fixed fields. */
  function NewTask(kind: string, idKey: string, source: Json, id: Json, alias: Json,
                   threshold: Json, priority: Json, extra: map<string, Json>): (t: map<string, Json>)
    requires idKey !in {"task_id", "type", "source", "alias", "threshold", "priority", "status"}
    ensures t.Keys == {"task_id", "type", idKey, "source", "alias", "threshold", "priority", "status"} + extra.Keys
    ensures forall key :: key in extra ==> t[key] == extra[key]
    ensures "task_id" !in extra ==> t["task_id"] == JStr(kind + "_" + PyStr(id))
    ensures "type" !in extra ==> t["type"] == JStr(kind)
    ensures "status" !in extra ==> t["status"] == JStr("pending")
    ensures idKey !in extra ==> t[idKey] == id
    ensures "source" !in extra ==> t["source"] == source
    ensures "alias" !in extra ==> t["alias"] == alias
    ensures "threshold" !in extra ==> t["threshold"] == threshold
    ensures "priority" !in extra ==> t["priority"] == priority
  {
    map["task_id" := JStr(kind + "_" + PyStr(id)), "type" := JStr(kind), idKey := id,
        "source" := source, "alias" := alias, "threshold" := threshold,
        "priority" := priority, "status" := JStr("pending")] + extra
  }

  /** `add_camera`'s task for a source not yet added. */
  function CameraTask(source: Json, cameraId: Option<Json>, alias: Option<Json>, threshold: Option<Json>,
                      priority: Option<Json>, extra: map<string, Json>, now: int): map<string, Json>
  {
    var id := IdOrDefault("camera", cameraId, now);
    NewTask("camera", "camera_id", source, id, AliasOrId(alias, id),
            threshold.GetOr(JInt(CameraThreshold)), priority.GetOr(JInt(CameraPriority)), extra)
  }

  /** `add_video`'s task for a path not yet added. */
  function VideoTask(path: Json, videoId: Option<Json>, alias: Option<Json>, threshold: Option<Json>,
                     priority: Option<Json>, extra: map<string, Json>, now: int): map<string, Json>
  {
    var id := IdOrDefault("video", videoId, now);
    NewTask("video", "video_id", path, id, AliasOrId(alias, id),
            threshold.GetOr(JInt(VideoThreshold)), priority.GetOr(JInt(VideoPriority)), extra)
  }

  /** With no keyword arguments, a camera task carries the id with the
      `camera_` prefix and is 'pending'. An omitted or explicit `None` id
      becomes `camera_<now>`, an omitted or explicit `None` alias becomes the
      id, and an omitted threshold or priority becomes 10 or 1, while one
      that was passed, even `None`, is stored as given. */
  lemma CameraTaskFields(source: Json, cameraId: Option<Json>, alias: Option<Json>, threshold: Option<Json>,
                         priority: Option<Json>, now: int)
    ensures var t := CameraTask(source, cameraId, alias, threshold, priority, map[], now);
            && t.Keys == {"task_id", "type", "camera_id", "source", "alias", "threshold", "priority", "status"}
            && t["task_id"] == JStr("camera_" + PyStr(t["camera_id"]))
            && t["type"] == JStr("camera") && t["status"] == JStr("pending") && t["source"] == source
            && (IsNoneArg(cameraId) ==> t["camera_id"] == JStr("camera_" + IntToString(now)))
            && (!IsNoneArg(cameraId) ==> t["camera_id"] == cameraId.value)
            && (IsNoneArg(alias) ==> t["alias"] == t["camera_id"])
            && (!IsNoneArg(alias) ==> t["alias"] == alias.value)
            && t["threshold"] == threshold.GetOr(JInt(10))
            && t["priority"] == priority.GetOr(JInt(1))
  {
    var extra: map<string, Json> := map[];
    var id := IdOrDefault("camera", cameraId, now);
    var t := NewTask("camera", "camera_id", source, id, AliasOrId(alias, id),
                     threshold.GetOr(JInt(CameraThreshold)), priority.GetOr(JInt(CameraPriority)), extra);
    assert extra.Keys == {};
    assert CameraTask(source, cameraId, alias, threshold, priority, extra, now) == t;
    assert t["camera_id"] == id && t["alias"] == AliasOrId(alias, id);
    assert t["task_id"] == JStr("camera_" + PyStr(id));
    assert t["threshold"] == threshold.GetOr(JInt(CameraThreshold));
    assert t["priority"] == priority.GetOr(JInt(CameraPriority));
  }

  /** The same for a video task, with the `video_` prefix and defaults 5/2. */
  lemma VideoTaskFields(path: Json, videoId: Option<Json>, alias: Option<Json>, threshold: Option<Json>,
                        priority: Option<Json>, now: int)
    ensures var t := VideoTask(path, videoId, alias, threshold, priority, map[], now);
            && t.Keys == {"task_id", "type", "video_id", "source", "alias", "threshold", "priority", "status"}
            && t["task_id"] == JStr("video_" + PyStr(t["video_id"]))
            && t["type"] == JStr("video") && t["status"] == JStr("pending") && t["source"] == path
            && (IsNoneArg(videoId) ==> t["video_id"] == JStr("video_" + IntToString(now)))
            && (!IsNoneArg(videoId) ==> t["video_id"] == videoId.value)
            && (IsNoneArg(alias) ==> t["alias"] == t["video_id"])
            && (!IsNoneArg(alias) ==> t["alias"] == alias.value)
            && t["threshold"] == threshold.GetOr(JInt(5))
            && t["priority"] == priority.GetOr(JInt(2))
  {
    var extra: map<string, Json> := map[];
    var id := IdOrDefault("video", videoId, now);
    var t := NewTask("video", "video_id", path, id, AliasOrId(alias, id),
                     threshold.GetOr(JInt(VideoThreshold)), priority.GetOr(JInt(VideoPriority)), extra);
    assert extra.Keys == {};
    assert VideoTask(path, videoId, alias, threshold, priority, extra, now) == t;
    assert t["video_id"] == id && t["alias"] == AliasOrId(alias, id);
    assert t["task_id"] == JStr("video_" + PyStr(id));
    assert t["threshold"] == threshold.GetOr(JInt(VideoThreshold));
    assert t["priority"] == priority.GetOr(JInt(VideoPriority));
  }

  /** Passing `None` explicitly for the id or the alias builds the same task
      as leaving the argument out. */
  lemma ExplicitNoneIsOmitted(source: Json, threshold: Option<Json>, priority: Option<Json>,
                              extra: map<string, Json>, now: int)
    ensures CameraTask(source, Some(JNull), Some(JNull), threshold, priority, extra, now)
            == CameraTask(source, None, None, threshold, priority, extra, now)
    ensures VideoTask(source, Some(JNull), Some(JNull), threshold, priority, extra, now)
            == VideoTask(source, None, None, threshold, priority, extra, now)
  {
  }

  /** A record dictionary is truthy unless it is the empty dictionary. */
  predicate NonEmpty(r: Record) {
    r != Record(None, None, None, None, None, None, None, None, None, None, None, None, None)
  }

  /** The key the collector files a record under. */
  function CollectedId(r: Record): (k: Json)
    ensures r.taskId.Some? ==> k == r.taskId.value
    ensures r.taskId.None? ==> k == JStr("unknown")
  {
    r.taskId.GetOr(JStr("unknown"))
  }

  /** The histories after `add_result(task_id, r)` at time `now`. */
  function Added(h: History, taskId: Json, r: Record, now: string): History {
    h[taskId := (if taskId in h then h[taskId] else []) + [r.(timestamp := Some(now))]]
  }

  /** The histories after the collector has taken `items`, stamped `stamps`. */
  function Collected(h: History, items: seq<Record>, stamps: seq<string>): History
    requires |stamps| == |items|
    decreases |items|
  {
    if |items| == 0 then h
    else
      var before := Collected(h, items[..|items| - 1], stamps[..|items| - 1]);
      var r := items[|items| - 1];
      if NonEmpty(r) then Added(before, CollectedId(r), r, stamps[|items| - 1]) else before
  }

  /** A record the collector counts as a completed task. */
  predicate Completes(r: Record) {
    r.status == Some("completed")
  }

  /** How many of `rs` the collector counts as completed tasks. */
  function Completions(rs: seq<Record>): (n: nat)
    ensures n <= |rs|
    decreases |rs|
  {
    if |rs| == 0 then 0
    else Completions(rs[..|rs| - 1]) + (if Completes(rs[|rs| - 1]) then 1 else 0)
  }

  lemma {:induction false} CompletionsAppend(a: seq<Record>, b: seq<Record>)
    ensures Completions(a + b) == Completions(a) + Completions(b)
    decreases |b|
  {
    if b == [] {
      assert a + b == a;
    } else {
      var b0 := b[..|b| - 1];
      assert (a + b)[..|a + b| - 1] == a + b0;
      assert (a + b)[|a + b| - 1] == b[|b| - 1];
      CompletionsAppend(a, b0);
    }
  }

  /** Progress records report 'Detecting' or 'Tracking', never 'completed'. */
  lemma {:induction false} PeriodicNeverCompletes(who: Worker.Sender, frames: seq<Video.Frame>, skip: int,
                                                  fpsAt: nat -> real)
    requires skip != 0 || |frames| == 0
    ensures Completions(Worker.Periodic(who, frames, skip, fpsAt)) == 0
    decreases |frames|
  {
    if |frames| > 0 {
      var init := frames[..|frames| - 1];
      PeriodicNeverCompletes(who, init, skip, fpsAt);
      var tail := if |frames| % Worker.ReportEvery == 0 then [Worker.Progress(who, frames, skip, fpsAt)] else [];
      CompletionsAppend(Worker.Periodic(who, init, skip, fpsAt), tail);
      if tail != [] {
        assert tail[..0] == [];
      }
    }
  }

  /** A task that runs to the end sends exactly one 'completed' record.
      `completed_tasks` therefore counts each well-formed task whose source
      opened exactly once, and every other task not at all. */
  lemma OneCompletionPerTask(workerId: string, cfg: Worker.TaskConfig, task: map<string, Json>, feed: Worker.Feed)
    ensures var runs :=
              && "task_id" in task && "source" in task && feed.opens
              && ((Get(task, "type", JNull) == JStr("camera") && "camera_id" in task) ||
                  (Get(task, "type", JNull) == JStr("video") && "video_id" in task));
            Completions(Worker.JobRecords(workerId, cfg, task, feed)) == if runs then 1 else 0
  {
    if "task_id" in task && "type" in task && "source" in task && feed.opens &&
       ((task["type"] == JStr("camera") && "camera_id" in task) ||
        (task["type"] == JStr("video") && "video_id" in task)) {
      var isCamera := task["type"] == JStr("camera");
      var who := if isCamera then Worker.Sender(workerId, task["task_id"], task["camera_id"], JNull)
                 else Worker.Sender(workerId, task["task_id"], JNull, task["video_id"]);
      var threshold := Worker.TaskThreshold(task, isCamera);
      assert Worker.JobRecords(workerId, cfg, task, feed) ==
             Worker.TaskRecords(who, feed.stream, isCamera, cfg, threshold, feed.fpsAt, feed.avgFps, feed.elapsed);
      TaskRecordsComplete(who, feed.stream, isCamera, cfg, threshold, feed.fpsAt, feed.avgFps, feed.elapsed);
    } else {
      var rs := Worker.JobRecords(workerId, cfg, task, feed);
      assert rs == [] || (|rs| == 1 && !Completes(rs[0]));
      if rs != [] {
        assert rs[..0] == [];
      }
    }
  }

  /** What `count_people` sends holds exactly one 'completed' record: the last. */
  lemma TaskRecordsComplete(who: Worker.Sender, stream: seq<Option<Video.Frame>>, isCamera: bool,
                            cfg: Worker.TaskConfig, threshold: Json, fpsAt: nat -> real, avgFps: real, elapsed: real)
    ensures Completions(Worker.TaskRecords(who, stream, isCamera, cfg, threshold, fpsAt, avgFps, elapsed)) == 1
  {
    var src := Worker.Readable(stream, isCamera);
    var skip := Worker.SkipFrames(cfg);
    var rule := Worker.WorkerRule(Worker.Confidence(cfg), Video.FirstWidth(src), Video.FirstHeight(src));
    var numeric := OrderedWithInt(threshold);
    var n := Worker.StopAt(src, skip, rule, numeric, 0);
    var last := Worker.Final(who, n, Worker.StopCounts(src, skip, rule, numeric, n), avgFps, elapsed);
    PeriodicNeverCompletes(who, src[..n], skip, fpsAt);
    CompletionsAppend(Worker.Periodic(who, src[..n], skip, fpsAt), [last]);
    assert [last][..0] == [];
  }

  /** The `ParallelPeopleCounter` object's bookkeeping. */
  class ParallelPeopleCounter {
    var taskQueue: seq<map<string, Json>>
    var addedSources: set<Json>
    var totalTasks: nat
    var completedTasks: nat
    var handler: ResultHandler

    /** One queued task per distinct source, counted by `total_tasks`. */
    ghost predicate Valid()
      reads this, handler
    {
      handler.Valid() && totalTasks == |addedSources| && |taskQueue| == totalTasks
    }

    constructor()
      ensures Valid() && fresh(handler)
      ensures taskQueue == [] && addedSources == {} && totalTasks == 0 && completedTasks == 0
      ensures handler.results == map[]
    {
      taskQueue := [];
      addedSources := {};
      totalTasks := 0;
      completedTasks := 0;
      handler := new ResultHandler();
    }

    /** `add_camera`: a source already added changes nothing; otherwise one
        task is queued, the source recorded and `total_tasks` incremented. */
    method AddCamera(source: Json, cameraId: Option<Json>, alias: Option<Json>, threshold: Option<Json>,
                     priority: Option<Json>, extra: map<string, Json>, now: int)
      requires Valid()
      requires KeywordsFree(extra, {"source", "camera_id", "alias", "threshold", "priority"})
      modifies this
      ensures Valid() && handler == old(handler) && completedTasks == old(completedTasks)
      ensures source in old(addedSources) ==>
                taskQueue == old(taskQueue) && addedSources == old(addedSources) && totalTasks == old(totalTasks)
      ensures source !in old(addedSources) ==>
                && taskQueue == old(taskQueue) + [CameraTask(source, cameraId, alias, threshold, priority, extra, now)]
                && addedSources == old(addedSources) + {source}
                && totalTasks == old(totalTasks) + 1
    {
      if source in addedSources {
        return;
      }
      var id := IdOrDefault("camera", cameraId, now);
      var task := NewTask("camera", "camera_id", source, id, AliasOrId(alias, id),
                          threshold.GetOr(JInt(CameraThreshold)), priority.GetOr(JInt(CameraPriority)), extra);
      taskQueue := taskQueue + [task];
      addedSources := addedSources + {source};
      totalTasks := totalTasks + 1;
    }

    /** `add_video`: the same with the `video_` prefix; cameras and videos
        share one set of added sources. */
    method AddVideo(path: Json, videoId: Option<Json>, alias: Option<Json>, threshold: Option<Json>,
                    priority: Option<Json>, extra: map<string, Json>, now: int)
      requires Valid()
      requires KeywordsFree(extra, {"video_path", "video_id", "alias", "threshold", "priority"})
      modifies this
      ensures Valid() && handler == old(handler) && completedTasks == old(completedTasks)
      ensures path in old(addedSources) ==>
                taskQueue == old(taskQueue) && addedSources == old(addedSources) && totalTasks == old(totalTasks)
      ensures path !in old(addedSources) ==>
                && taskQueue == old(taskQueue) + [VideoTask(path, videoId, alias, threshold, priority, extra, now)]
                && addedSources == old(addedSources) + {path}
                && totalTasks == old(totalTasks) + 1
    {
      if path in addedSources {
        return;
      }
      var id := IdOrDefault("video", videoId, now);
      var task := NewTask("video", "video_id", path, id, AliasOrId(alias, id),
                          threshold.GetOr(JInt(VideoThreshold)), priority.GetOr(JInt(VideoPriority)), extra);
      taskQueue := taskQueue + [task];
      addedSources := addedSources + {path};
      totalTasks := totalTasks + 1;
    }

    /** One pass of `_collect_results` that received `result`: a truthy
        record is filed under its task id ('unknown' without one), and a
        'completed' one counts a completed task. */
    method Collect(result: Record, now: string)
      requires Valid()
      modifies this, handler
      ensures Valid() && handler == old(handler)
      ensures taskQueue == old(taskQueue) && addedSources == old(addedSources) && totalTasks == old(totalTasks)
      ensures handler.results == (if NonEmpty(result) then Added(old(handler.results), CollectedId(result), result, now)
                                  else old(handler.results))
      ensures completedTasks == old(completedTasks) + (if Completes(result) then 1 else 0)
    {
      if !NonEmpty(result) {
        return;
      }
      var taskId := result.taskId.GetOr(JStr("unknown"));
      handler.AddResult(taskId, result, now);
      if result.status == Some("completed") {
        completedTasks := completedTasks + 1;
      }
    }

    /** `_collect_results` over the records it receives, in order. */
    method CollectAll(items: seq<Record>, stamps: seq<string>)
      requires Valid() && |stamps| == |items|
      modifies this, handler
      ensures Valid() && handler == old(handler)
      ensures taskQueue == old(taskQueue) && addedSources == old(addedSources) && totalTasks == old(totalTasks)
      ensures handler.results == Collected(old(handler.results), items, stamps)
      ensures completedTasks == old(completedTasks) + Completions(items)
    {
      var i := 0;
      while i < |items|
        invariant 0 <= i <= |items|
        invariant Valid() && handler == old(handler)
        invariant taskQueue == old(taskQueue) && addedSources == old(addedSources) && totalTasks == old(totalTasks)
        invariant handler.results == Collected(old(handler.results), items[..i], stamps[..i])
        invariant completedTasks == old(completedTasks) + Completions(items[..i])
      {
        assert items[..i + 1][..i] == items[..i];
        assert stamps[..i + 1][..i] == stamps[..i];
        Collect(items[i], stamps[i]);
        i := i + 1;
      }
      assert items[..|items|] == items;
      assert stamps[..|stamps|] == stamps;
    }

    /** `get_latest_results`: the latest record of every task that has one. */
    function LatestResults(): (m: map<Json, Record>)
      reads this, handler
      ensures forall k :: k in m <==> handler.LatestResult(k).Some?
      ensures forall k :: k in m ==> handler.LatestResult(k) == Some(m[k])
    {
      map k | k in handler.results && |handler.results[k]| > 0 :: handler.results[k][|handler.results[k]| - 1]
    }
  }
}
