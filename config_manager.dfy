/** `parallel/config_manager.py`: validation of the loaded configuration
    (which fills in a default worker count), the enabled-camera and
    enabled-video filters, lookup by id, and the task list built from them.
    The configuration file's contents are passed in as a JSON object. */
module ConfigManager {
  import opened Wrappers
  import opened Text
  import opened Json
  import Worker
  import ParallelCounter

  /** `raise ValueError(message)`; `TypeError` stands for what Python raises
      when a section has the wrong JSON kind. */
  datatype ConfigError = ValueError(message: string) | TypeError(section: string)

  const RequiredKeys: seq<string> := ["parallel_config", "cameras", "videos"]

  const DefaultWorkerCount := 4

  /** The keys `_validate_config` demands of every camera or video entry. */
  predicate WellFormed(entry: Json, idKey: string, otherKey: string) {
    entry.JObj? && idKey in entry.fields && otherKey in entry.fields
  }

  /** The error for entry `i`, when it has one. */
  function EntryFault(entry: Json, i: nat, noun: string, idKey: string, otherKey: string): Option<ConfigError> {
    if !entry.JObj? then Some(TypeError(noun + " " + IntToString(i)))
    else if idKey !in entry.fields then Some(ValueError(noun + " " + IntToString(i) + " missing " + idKey))
    else if otherKey !in entry.fields then Some(ValueError(noun + " " + IntToString(i) + " missing " + otherKey))
    else None
  }

  /** The first error among entries `i..`, scanning in order. */
  function EntriesFault(entries: seq<Json>, i: nat, noun: string, idKey: string, otherKey: string): Option<ConfigError>
    requires i <= |entries|
    decreases |entries| - i
  {
    if i == |entries| then None
    else if EntryFault(entries[i], i, noun, idKey, otherKey).Some? then EntryFault(entries[i], i, noun, idKey, otherKey)
    else EntriesFault(entries, i + 1, noun, idKey, otherKey)
  }

  /** The scan succeeds exactly when every entry is well formed, and a
      failure reports the first entry that is not. */
  lemma {:induction false} EntriesFaultFirst(entries: seq<Json>, i: nat, noun: string, idKey: string, otherKey: string)
    requires i <= |entries|
    ensures EntriesFault(entries, i, noun, idKey, otherKey).None? <==>
            forall k :: i <= k < |entries| ==> WellFormed(entries[k], idKey, otherKey)
    ensures EntriesFault(entries, i, noun, idKey, otherKey).Some? ==>
            exists k :: i <= k < |entries| && !WellFormed(entries[k], idKey, otherKey) &&
                        (forall j :: i <= j < k ==> WellFormed(entries[j], idKey, otherKey)) &&
                        EntriesFault(entries, i, noun, idKey, otherKey) == EntryFault(entries[k], k, noun, idKey, otherKey)
    decreases |entries| - i
  {
    if i < |entries| {
      EntriesFaultFirst(entries, i + 1, noun, idKey, otherKey);
      if !WellFormed(entries[i], idKey, otherKey) {
        assert EntriesFault(entries, i, noun, idKey, otherKey) == EntryFault(entries[i], i, noun, idKey, otherKey);
      } else if EntriesFault(entries, i + 1, noun, idKey, otherKey).Some? {
        var k :| i + 1 <= k < |entries| && !WellFormed(entries[k], idKey, otherKey) &&
                 (forall j :: i + 1 <= j < k ==> WellFormed(entries[j], idKey, otherKey)) &&
                 EntriesFault(entries, i + 1, noun, idKey, otherKey) == EntryFault(entries[k], k, noun, idKey, otherKey);
        assert forall j :: i <= j < k ==> WellFormed(entries[j], idKey, otherKey);
      }
    }
  }

  function MissingKeyMessage(key: string): string {
    "Missing required key in config: " + key
  }

  /** Whether the three required sections are present. */
  predicate HasSections(config: map<string, Json>) {
    "parallel_config" in config && "cameras" in config && "videos" in config
  }

  /** What `_validate_config` raises, if anything: a missing section (in the
      order listed), then the shape of `parallel_config`, then the cameras
      in order, then the videos in order. */
  function ValidationFault(config: map<string, Json>): Option<ConfigError> {
    if "parallel_config" !in config then Some(ValueError(MissingKeyMessage("parallel_config")))
    else if "cameras" !in config then Some(ValueError(MissingKeyMessage("cameras")))
    else if "videos" !in config then Some(ValueError(MissingKeyMessage("videos")))
    else if !config["parallel_config"].JObj? then Some(TypeError("parallel_config"))
    else if !config["cameras"].JList? then Some(TypeError("cameras"))
    else if EntriesFault(config["cameras"].items, 0, "Camera", "camera_id", "source").Some? then
      EntriesFault(config["cameras"].items, 0, "Camera", "camera_id", "source")
    else if !config["videos"].JList? then Some(TypeError("videos"))
    else EntriesFault(config["videos"].items, 0, "Video", "video_id", "path")
  }

  /** A configuration `_validate_config` accepts. */
  predicate Accepted(config: map<string, Json>) {
    ValidationFault(config).None?
  }

  /** The configuration after `parallel_config['worker_count'] = 4` when it
      had no worker count (a dictionary shared with the configuration). */
  function Defaulted(config: map<string, Json>): (c: map<string, Json>)
    requires HasSections(config) && config["parallel_config"].JObj?
    ensures c.Keys == config.Keys
    ensures forall key :: key in config && key != "parallel_config" ==> c[key] == config[key]
    ensures c["parallel_config"].JObj? && "worker_count" in c["parallel_config"].fields
  {
    var pc := config["parallel_config"].fields;
    if "worker_count" in pc then config
    else config["parallel_config" := JObj(pc["worker_count" := JInt(DefaultWorkerCount)])]
  }

  /** Filling in the default is all validation changes: the result is still
      accepted, its worker count is the given one or 4, and validating it
      again changes nothing. */
  lemma DefaultedStable(config: map<string, Json>)
    requires HasSections(config) && config["parallel_config"].JObj?
    ensures Accepted(Defaulted(config)) <==> Accepted(config)
    ensures Defaulted(config)["parallel_config"].fields["worker_count"]
         == Get(config["parallel_config"].fields, "worker_count", JInt(4))
    ensures Defaulted(Defaulted(config)) == Defaulted(config)
  {
  }

  /** Python truthiness of `entry.get('enabled', True)`. */
  predicate IsEnabled(entry: map<string, Json>) {
    Truthy(Get(entry, "enabled", JBool(true)))
  }

  /** The list comprehension of `get_enabled_cameras`/`get_enabled_videos`. */
  function Enabled(entries: seq<map<string, Json>>): (r: seq<map<string, Json>>)
    ensures |r| <= |entries|
    ensures forall x :: x in r ==> x in entries && IsEnabled(x)
    decreases |entries|
  {
    if |entries| == 0 then []
    else Enabled(entries[..|entries| - 1]) + (if IsEnabled(entries[|entries| - 1]) then [entries[|entries| - 1]] else [])
  }

  /** The filter works piecewise, so it keeps the entries' order. */
  lemma {:induction false} EnabledAppend(a: seq<map<string, Json>>, b: seq<map<string, Json>>)
    ensures Enabled(a + b) == Enabled(a) + Enabled(b)
    decreases |b|
  {
    if b == [] {
      assert a + b == a;
    } else {
      var b0 := b[..|b| - 1];
      assert (a + b)[..|a + b| - 1] == a + b0;
      assert (a + b)[|a + b| - 1] == b[|b| - 1];
      EnabledAppend(a, b0);
    }
  }

  /** No enabled entry is dropped. */
  lemma {:induction false} EnabledComplete(entries: seq<map<string, Json>>)
    ensures forall x :: x in entries && IsEnabled(x) ==> x in Enabled(entries)
    decreases |entries|
  {
    if |entries| > 0 {
      var init := entries[..|entries| - 1];
      EnabledComplete(init);
      assert entries == init + [entries[|entries| - 1]];
    }
  }

  /** The dictionaries of a list of JSON objects. */
  function Objects(items: seq<Json>): (r: seq<map<string, Json>>)
    requires forall k :: 0 <= k < |items| ==> items[k].JObj?
    ensures |r| == |items|
    ensures forall k :: 0 <= k < |items| ==> r[k] == items[k].fields
    decreases |items|
  {
    if |items| == 0 then [] else Objects(items[..|items| - 1]) + [items[|items| - 1].fields]
  }

  /** The task `create_tasks` builds for an enabled camera. */
  function CameraTask(camera: map<string, Json>): map<string, Json>
    requires "camera_id" in camera && "source" in camera
  {
    var id := camera["camera_id"];
    map["task_id" := JStr("camera_" + PyStr(id)), "type" := JStr("camera"), "camera_id" := id,
        "source" := camera["source"], "alias" := Get(camera, "alias", id),
        "location" := Get(camera, "location", JStr("")), "threshold" := Get(camera, "threshold", JInt(10)),
        "config" := JObj(camera), "priority" := JInt(1), "status" := JStr("pending")]
  }

  /** The task `create_tasks` builds for an enabled video: its `path`
      becomes the task's `source`. */
  function VideoTask(video: map<string, Json>): map<string, Json>
    requires "video_id" in video && "path" in video
  {
    var id := video["video_id"];
    map["task_id" := JStr("video_" + PyStr(id)), "type" := JStr("video"), "video_id" := id,
        "source" := video["path"], "alias" := Get(video, "alias", id),
        "threshold" := Get(video, "threshold", JInt(5)),
        "config" := JObj(video), "priority" := JInt(2), "status" := JStr("pending")]
  }

  /** A camera task names the camera with the `camera_` prefix, keeps its
      source, defaults alias to the id, location to '' and threshold to 10,
      and is 'pending' with priority 1. */
  lemma CameraTaskFields(camera: map<string, Json>)
    requires "camera_id" in camera && "source" in camera
    ensures var t := CameraTask(camera);
            var id := camera["camera_id"];
            && "task_id" in t && t["task_id"] == JStr("camera_" + PyStr(id))
            && "type" in t && t["type"] == JStr("camera")
            && "camera_id" in t && t["camera_id"] == id
            && "source" in t && t["source"] == camera["source"]
            && "alias" in t && t["alias"] == Get(camera, "alias", id)
            && "location" in t && t["location"] == Get(camera, "location", JStr(""))
            && "threshold" in t && t["threshold"] == Get(camera, "threshold", JInt(10))
            && "config" in t && t["config"] == JObj(camera)
            && "priority" in t && t["priority"] == JInt(1)
            && "status" in t && t["status"] == JStr("pending")
  {
  }

  /** A video task names the video with the `video_` prefix, takes its
      `path` as the source, defaults alias to the id and threshold to 5, has
      no location, and is 'pending' with priority 2. */
  lemma VideoTaskFields(video: map<string, Json>)
    requires "video_id" in video && "path" in video
    ensures var t := VideoTask(video);
            var id := video["video_id"];
            && "task_id" in t && t["task_id"] == JStr("video_" + PyStr(id))
            && "type" in t && t["type"] == JStr("video")
            && "video_id" in t && t["video_id"] == id
            && "source" in t && t["source"] == video["path"]
            && "alias" in t && t["alias"] == Get(video, "alias", id)
            && "location" !in t
            && "threshold" in t && t["threshold"] == Get(video, "threshold", JInt(5))
            && "config" in t && t["config"] == JObj(video)
            && "priority" in t && t["priority"] == JInt(2)
            && "status" in t && t["status"] == JStr("pending")
  {
  }

  predicate AllHave(entries: seq<map<string, Json>>, idKey: string, otherKey: string) {
    forall e :: e in entries ==> idKey in e && otherKey in e
  }

  function CameraTasks(cameras: seq<map<string, Json>>): (ts: seq<map<string, Json>>)
    requires AllHave(cameras, "camera_id", "source")
    ensures |ts| == |cameras|
    ensures forall k :: 0 <= k < |cameras| ==> ts[k] == CameraTask(cameras[k])
    decreases |cameras|
  {
    if |cameras| == 0 then [] else CameraTasks(cameras[..|cameras| - 1]) + [CameraTask(cameras[|cameras| - 1])]
  }

  function VideoTasks(videos: seq<map<string, Json>>): (ts: seq<map<string, Json>>)
    requires AllHave(videos, "video_id", "path")
    ensures |ts| == |videos|
    ensures forall k :: 0 <= k < |videos| ==> ts[k] == VideoTask(videos[k])
    decreases |videos|
  {
    if |videos| == 0 then [] else VideoTasks(videos[..|videos| - 1]) + [VideoTask(videos[|videos| - 1])]
  }

  /** Entries that passed validation are objects with the two keys. */
  lemma AcceptedEntries(config: map<string, Json>)
    requires Accepted(config)
    ensures HasSections(config) && config["parallel_config"].JObj?
    ensures config["cameras"].JList? && config["videos"].JList?
    ensures forall k :: 0 <= k < |config["cameras"].items| ==>
              WellFormed(config["cameras"].items[k], "camera_id", "source")
    ensures forall k :: 0 <= k < |config["videos"].items| ==>
              WellFormed(config["videos"].items[k], "video_id", "path")
  {
    EntriesFaultFirst(config["cameras"].items, 0, "Camera", "camera_id", "source");
    EntriesFaultFirst(config["videos"].items, 0, "Video", "video_id", "path");
  }

  /** The enabled entries of a validated section, in order:
      `[e for e in config.get(section, []) if e.get('enabled', True)]`. */
  function EnabledEntries(config: map<string, Json>, section: string, idKey: string, otherKey: string)
    : (r: seq<map<string, Json>>)
    requires section in config && config[section].JList?
    requires forall k :: 0 <= k < |config[section].items| ==> WellFormed(config[section].items[k], idKey, otherKey)
    ensures AllHave(r, idKey, otherKey)
  {
    var items := config[section].items;
    assert forall k :: 0 <= k < |items| ==> items[k].JObj? && idKey in items[k].fields && otherKey in items[k].fields by {
      forall k | 0 <= k < |items|
        ensures items[k].JObj? && idKey in items[k].fields && otherKey in items[k].fields
      {
        assert WellFormed(items[k], idKey, otherKey);
      }
    }
    var all := Objects(items);
    assert AllHave(all, idKey, otherKey);
    Enabled(all)
  }

  /** A task of the configured list, given to a worker whose source opens,
      runs to its 'completed' record: `create_tasks` always supplies the
      keys `run` reads. */
  lemma ConfiguredTaskCompletes(workerId: string, cfg: Worker.TaskConfig, entry: map<string, Json>,
                                isCamera: bool, feed: Worker.Feed)
    requires isCamera ==> "camera_id" in entry && "source" in entry
    requires !isCamera ==> "video_id" in entry && "path" in entry
    requires feed.opens
    ensures var task := if isCamera then CameraTask(entry) else VideoTask(entry);
            ParallelCounter.Completions(Worker.JobRecords(workerId, cfg, task, feed)) == 1
  {
    var task := if isCamera then CameraTask(entry) else VideoTask(entry);
    if isCamera {
      CameraTaskFields(entry);
    } else {
      VideoTaskFields(entry);
    }
    ParallelCounter.OneCompletionPerTask(workerId, cfg, task, feed);
  }

  /** The `ConfigManager` object: the validated configuration. */
  class ConfigManager {
    var config: map<string, Json>

    ghost predicate Valid()
      reads this
    {
      Accepted(config) && "worker_count" in config["parallel_config"].fields
    }

    /** `_load_config`, with the file's contents passed in. */
    constructor(loaded: map<string, Json>)
      ensures config == loaded
    {
      config := loaded;
    }

    /** `_validate_config`: raise the first fault, having filled in the
        default worker count once the sections exist (even when a camera or
        video check fails afterwards). */
    method ValidateConfig() returns (fault: Option<ConfigError>)
      modifies this
      ensures fault == ValidationFault(old(config))
      ensures config == if HasSections(old(config)) && old(config)["parallel_config"].JObj?
                        then Defaulted(old(config)) else old(config)
      ensures fault.None? ==> Valid()
    {
      assert RequiredKeys[0] == "parallel_config" && RequiredKeys[1] == "cameras" && RequiredKeys[2] == "videos";
      var i := 0;
      while i < |RequiredKeys|
        invariant 0 <= i <= |RequiredKeys|
        invariant forall j :: 0 <= j < i ==> RequiredKeys[j] in config
      {
        if RequiredKeys[i] !in config {
          return Some(ValueError(MissingKeyMessage(RequiredKeys[i])));
        }
        i := i + 1;
      }
      assert HasSections(config);
      if !config["parallel_config"].JObj? {
        return Some(TypeError("parallel_config"));
      }
      var pc := config["parallel_config"].fields;
      if "worker_count" !in pc {
        config := config["parallel_config" := JObj(pc["worker_count" := JInt(DefaultWorkerCount)])];
      }
      assert config == Defaulted(old(config));
      DefaultedStable(old(config));
      if !config["cameras"].JList? {
        return Some(TypeError("cameras"));
      }
      fault := CheckEntries(config["cameras"].items, "Camera", "camera_id", "source");
      if fault.Some? {
        return;
      }
      if !config["videos"].JList? {
        return Some(TypeError("videos"));
      }
      fault := CheckEntries(config["videos"].items, "Video", "video_id", "path");
    }

    /** `get_enabled_cameras`. */
    function EnabledCameras(): (r: seq<map<string, Json>>)
      reads this
      requires Valid()
      ensures AllHave(r, "camera_id", "source")
    {
      AcceptedEntries(config);
      EnabledEntries(config, "cameras", "camera_id", "source")
    }

    /** `get_enabled_videos`. */
    function EnabledVideos(): (r: seq<map<string, Json>>)
      reads this
      requires Valid()
      ensures AllHave(r, "video_id", "path")
    {
      AcceptedEntries(config);
      EnabledEntries(config, "videos", "video_id", "path")
    }

    /** `get_camera_config`: the first enabled camera with that id. */
    method GetCameraConfig(cameraId: Json) returns (r: Option<map<string, Json>>)
      requires Valid()
      ensures r.None? <==> forall k :: 0 <= k < |EnabledCameras()| ==> EnabledCameras()[k]["camera_id"] != cameraId
      ensures r.Some? ==> exists k :: 0 <= k < |EnabledCameras()| && EnabledCameras()[k] == r.value &&
                                      r.value["camera_id"] == cameraId &&
                                      forall j :: 0 <= j < k ==> EnabledCameras()[j]["camera_id"] != cameraId
    {
      var entries := EnabledCameras();
      r := FirstWithId(entries, "camera_id", "source", cameraId);
      assert entries == EnabledCameras();
    }

    /** `get_video_config`: the first enabled video with that id. */
    method GetVideoConfig(videoId: Json) returns (r: Option<map<string, Json>>)
      requires Valid()
      ensures r.None? <==> forall k :: 0 <= k < |EnabledVideos()| ==> EnabledVideos()[k]["video_id"] != videoId
      ensures r.Some? ==> exists k :: 0 <= k < |EnabledVideos()| && EnabledVideos()[k] == r.value &&
                                      r.value["video_id"] == videoId &&
                                      forall j :: 0 <= j < k ==> EnabledVideos()[j]["video_id"] != videoId
    {
      var entries := EnabledVideos();
      r := FirstWithId(entries, "video_id", "path", videoId);
      assert entries == EnabledVideos();
    }

    /** `create_tasks`: the enabled cameras' tasks, then the enabled videos'. */
    method CreateTasks() returns (tasks: seq<map<string, Json>>)
      requires Valid()
      ensures tasks == CameraTasks(EnabledCameras()) + VideoTasks(EnabledVideos())
    {
      var cameras := EnabledCameras();
      var videos := EnabledVideos();
      var cameraTasks := BuildCameraTasks(cameras);
      var videoTasks := BuildVideoTasks(videos);
      tasks := cameraTasks + videoTasks;
    }

    /** `get_worker_count`: the configured count, 4 when validation filled it in. */
    function WorkerCount(): (n: Json)
      reads this
      requires Valid()
      ensures n == config["parallel_config"].fields["worker_count"]
    {
      Get(Get(config, "parallel_config", JObj(map[])).fields, "worker_count", JInt(DefaultWorkerCount))
    }
  }

  /** The scan `_validate_config` makes over one list of entries. */
  method CheckEntries(entries: seq<Json>, noun: string, idKey: string, otherKey: string)
    returns (fault: Option<ConfigError>)
    ensures fault == EntriesFault(entries, 0, noun, idKey, otherKey)
  {
    var i := 0;
    while i < |entries|
      invariant 0 <= i <= |entries|
      invariant EntriesFault(entries, 0, noun, idKey, otherKey) == EntriesFault(entries, i, noun, idKey, otherKey)
    {
      var entry := entries[i];
      if !entry.JObj? {
        return Some(TypeError(noun + " " + IntToString(i)));
      }
      if idKey !in entry.fields {
        return Some(ValueError(noun + " " + IntToString(i) + " missing " + idKey));
      }
      if otherKey !in entry.fields {
        return Some(ValueError(noun + " " + IntToString(i) + " missing " + otherKey));
      }
      i := i + 1;
    }
    return None;
  }

  /** The lookup loop of `get_camera_config` and `get_video_config`. */
  method FirstWithId(entries: seq<map<string, Json>>, idKey: string, otherKey: string, id: Json)
    returns (r: Option<map<string, Json>>)
    requires AllHave(entries, idKey, otherKey)
    ensures r.None? <==> forall k :: 0 <= k < |entries| ==> entries[k][idKey] != id
    ensures r.Some? ==> exists k :: 0 <= k < |entries| && entries[k] == r.value && r.value[idKey] == id &&
                                    forall j :: 0 <= j < k ==> entries[j][idKey] != id
  {
    var i := 0;
    while i < |entries|
      invariant 0 <= i <= |entries|
      invariant forall j :: 0 <= j < i ==> entries[j][idKey] != id
    {
      if Get(entries[i], idKey, JNull) == id {
        return Some(entries[i]);
      }
      i := i + 1;
    }
    return None;
  }

  /** `ConfigManager(config_path)`: load, then validate; a fault means the
      constructor raises and no manager exists. */
  method Load(loaded: map<string, Json>) returns (r: Result<ConfigManager, ConfigError>)
    ensures r.Err? <==> ValidationFault(loaded).Some?
    ensures r.Err? ==> r.error == ValidationFault(loaded).value
    ensures r.Ok? ==> fresh(r.value) && r.value.Valid() && r.value.config == Defaulted(loaded)
  {
    var m := new ConfigManager(loaded);
    var fault := m.ValidateConfig();
    if fault.Some? {
      return Err(fault.value);
    }
    AcceptedEntries(loaded);
    return Ok(m);
  }

  /** The first loop of `create_tasks`. */
  method BuildCameraTasks(cameras: seq<map<string, Json>>) returns (tasks: seq<map<string, Json>>)
    requires AllHave(cameras, "camera_id", "source")
    ensures tasks == CameraTasks(cameras)
  {
    tasks := [];
    var i := 0;
    while i < |cameras|
      invariant 0 <= i <= |cameras|
      invariant tasks == CameraTasks(cameras[..i])
    {
      assert cameras[..i + 1][..i] == cameras[..i];
      tasks := tasks + [CameraTask(cameras[i])];
      i := i + 1;
    }
    assert cameras[..|cameras|] == cameras;
  }

  /** The second loop of `create_tasks`. */
  method BuildVideoTasks(videos: seq<map<string, Json>>) returns (tasks: seq<map<string, Json>>)
    requires AllHave(videos, "video_id", "path")
    ensures tasks == VideoTasks(videos)
  {
    tasks := [];
    var i := 0;
    while i < |videos|
      invariant 0 <= i <= |videos|
      invariant tasks == VideoTasks(videos[..i])
    {
      assert videos[..i + 1][..i] == videos[..i];
      tasks := tasks + [VideoTask(videos[i])];
      i := i + 1;
    }
    assert videos[..|videos|] == videos;
  }

  /** Each camera entry's task is a 'camera' task for that camera, with priority 1. */
  lemma CameraTasksShape(cameras: seq<map<string, Json>>)
    requires AllHave(cameras, "camera_id", "source")
    ensures forall k :: 0 <= k < |cameras| ==>
              var t := CameraTasks(cameras)[k];
              "type" in t && t["type"] == JStr("camera") &&
              "camera_id" in t && t["camera_id"] == cameras[k]["camera_id"] &&
              "priority" in t && t["priority"] == JInt(1)
  {
    forall k | 0 <= k < |cameras|
      ensures var t := CameraTasks(cameras)[k];
              "type" in t && t["type"] == JStr("camera") &&
              "camera_id" in t && t["camera_id"] == cameras[k]["camera_id"] &&
              "priority" in t && t["priority"] == JInt(1)
    {
      assert cameras[k] in cameras;
      CameraTaskFields(cameras[k]);
    }
  }

  /** Each video entry's task is a 'video' task for that video, with priority 2. */
  lemma VideoTasksShape(videos: seq<map<string, Json>>)
    requires AllHave(videos, "video_id", "path")
    ensures forall k :: 0 <= k < |videos| ==>
              var t := VideoTasks(videos)[k];
              "type" in t && t["type"] == JStr("video") &&
              "video_id" in t && t["video_id"] == videos[k]["video_id"] &&
              "priority" in t && t["priority"] == JInt(2)
  {
    forall k | 0 <= k < |videos|
      ensures var t := VideoTasks(videos)[k];
              "type" in t && t["type"] == JStr("video") &&
              "video_id" in t && t["video_id"] == videos[k]["video_id"] &&
              "priority" in t && t["priority"] == JInt(2)
    {
      assert videos[k] in videos;
      VideoTaskFields(videos[k]);
    }
  }

  /** An index past the first part of a concatenation reads the second part. */
  lemma AppendRight<T>(a: seq<T>, b: seq<T>, k: nat)
    requires |a| <= k < |a| + |b|
    ensures (a + b)[k] == b[k - |a|]
  {
  }

  /** The configured task list: one task per enabled camera, then one per
      enabled video, in the configuration's order, so every camera task
      comes before every video task. */
  lemma TaskListShape(cameras: seq<map<string, Json>>, videos: seq<map<string, Json>>)
    requires AllHave(cameras, "camera_id", "source") && AllHave(videos, "video_id", "path")
    ensures var ts := CameraTasks(cameras) + VideoTasks(videos);
            && |ts| == |cameras| + |videos|
            && (forall k :: 0 <= k < |cameras| ==> "type" in ts[k] && ts[k]["type"] == JStr("camera"))
            && (forall k :: |cameras| <= k < |ts| ==> "type" in ts[k] && ts[k]["type"] == JStr("video"))
  {
    CameraTasksShape(cameras);
    VideoTasksShape(videos);
    var cs, vs := CameraTasks(cameras), VideoTasks(videos);
    var ts := cs + vs;
    forall k | 0 <= k < |cameras| ensures "type" in ts[k] && ts[k]["type"] == JStr("camera") {
      assert ts[k] == cs[k];
    }
    forall k | |cameras| <= k < |ts| ensures "type" in ts[k] && ts[k]["type"] == JStr("video") {
      AppendRight(cs, vs, k);
    }
  }
}
