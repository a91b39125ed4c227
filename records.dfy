/** The result dictionaries workers put on the result queue. A key the
    dictionary does not have is `None`; `dict.get(key, default)` is
    `GetOr(default)`. */
module Records {
  import opened Wrappers
  import opened Json

  datatype Record = Record(
    workerId: Option<string>,
    taskId: Option<Json>,
    cameraId: Option<Json>,
    videoId: Option<Json>,
    fps: Option<real>,
    totalIn: Option<int>,
    totalOut: Option<int>,
    currentCount: Option<int>,
    status: Option<string>,
    frameCount: Option<int>,
    elapsedTime: Option<real>,
    error: Option<string>,
    timestamp: Option<string>)

  /** The record a worker sends when processing a task raised `message`. */
  function ErrorRecord(workerId: string, taskId: Json, message: string): (r: Record)
    ensures r.status == Some("error") && r.taskId == Some(taskId) && r.error == Some(message)
    ensures r.totalIn.None? && r.totalOut.None? && r.currentCount.None? && r.frameCount.None?
  {
    Record(Some(workerId), Some(taskId), None, None, None, None, None, None,
           Some("error"), None, None, Some(message), None)
  }
}
