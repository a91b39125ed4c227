/** `gender_analysis/core/utils/batch_processor.py`: two buffers that
    collect work and hand it over in batches. `BatchProcessor` keeps a queue
    of items and processes it when it is full or a timeout has passed;
    `FrameBatchProcessor` keeps frames with their metadata and processes
    them when `batch_size` frames are buffered. The clock readings and the
    processing functions are parameters. */
module BatchProcessor {
  import opened Wrappers
  import opened Json

  /** What `get_statistics` reports. */
  datatype Statistics = Statistics(
    queueSize: nat,
    totalBatches: nat,
    totalItems: nat,
    lastBatchTime: Option<real>,
    avgItemsPerBatch: real)

  /** The average batch size, `0` when nothing was processed yet. */
  function Average(items: nat, batches: nat): (avg: real)
    ensures batches > 0 ==> avg * batches as real == items as real
    ensures batches == 0 ==> avg == 0.0
  {
    if batches > 0 then items as real / batches as real else 0.0
  }

  lemma AverageAtLeastOne(items: nat, batches: nat)
    requires 0 < batches <= items
    ensures Average(items, batches) >= 1.0
  {
    var avg := Average(items, batches);
    if avg < 1.0 {
      assert avg * batches as real < 1.0 * batches as real;
    }
  }

  class BatchProcessor<Item, Out> {
    var batchSize: int
    var timeout: real
    var batchQueue: seq<Item>
    var lastProcessTime: real
    var totalBatches: nat
    var totalItems: nat
    var lastBatchTime: Option<real>
    /** Every item added so far, and those already handed to a batch. */
    ghost var added: seq<Item>
    ghost var processed: seq<Item>

    /** The queue holds the items not yet processed, in the order added;
        every batch held at least one item; and the queue is never left
        holding `batch_size` items or more. */
    ghost predicate Valid()
      reads this
    {
      && processed + batchQueue == added
      && totalItems == |added|
      && totalBatches <= |processed|
      && (totalBatches == 0 ==> |processed| == 0)
      && (|batchQueue| == 0 || |batchQueue| < batchSize)
    }

    constructor(batchSize: int, timeout: real, now: real)
      ensures Valid()
      ensures this.batchSize == batchSize && this.timeout == timeout
      ensures batchQueue == [] && lastProcessTime == now
      ensures totalBatches == 0 && totalItems == 0 && lastBatchTime == None
    {
      this.batchSize := batchSize;
      this.timeout := timeout;
      batchQueue := [];
      lastProcessTime := now;
      totalBatches := 0;
      totalItems := 0;
      lastBatchTime := None;
      added := [];
      processed := [];
    }

    /** `add_item` at clock reading `now`; `start`, `done` and `stamped` are
        the clock readings a batch takes if one is processed. */
    method AddItem(item: Item, now: real, processFn: seq<Item> -> seq<Out>, start: real, done: real, stamped: real)
      returns (r: Option<seq<Out>>)
      requires Valid()
      modifies this
      ensures Valid()
      ensures added == old(added) + [item] && totalItems == old(totalItems) + 1
      ensures batchSize == old(batchSize) && timeout == old(timeout)
      ensures var queue := old(batchQueue) + [item];
              if |queue| >= batchSize || now - old(lastProcessTime) >= timeout then
                && r == Some(processFn(queue))
                && batchQueue == [] && totalBatches == old(totalBatches) + 1
                && lastProcessTime == stamped && lastBatchTime == Some(done - start)
              else
                && r == None && batchQueue == queue && totalBatches == old(totalBatches)
                && lastProcessTime == old(lastProcessTime) && lastBatchTime == old(lastBatchTime)
    {
      batchQueue := batchQueue + [item];
      added := added + [item];
      totalItems := totalItems + 1;
      var shouldProcess := |batchQueue| >= batchSize || now - lastProcessTime >= timeout;
      if shouldProcess {
        var results := ProcessBatch(processFn, start, done, stamped);
        return Some(results);
      }
      return None;
    }

    /** `[self.batch_queue.popleft() for _ in range(len(self.batch_queue))]`. */
    method DrainQueue() returns (batch: seq<Item>)
      modifies this`batchQueue
      ensures batch == old(batchQueue) && batchQueue == []
    {
      batch := [];
      while |batchQueue| > 0
        invariant batch + batchQueue == old(batchQueue)
        decreases |batchQueue|
      {
        batch := batch + [batchQueue[0]];
        batchQueue := batchQueue[1..];
      }
    }

    /** `_process_batch`: drains the whole queue into one batch. */
    method ProcessBatch(processFn: seq<Item> -> seq<Out>, start: real, done: real, stamped: real)
      returns (results: seq<Out>)
      requires processed + batchQueue == added && totalItems == |added|
      requires totalBatches <= |processed| && (totalBatches == 0 ==> |processed| == 0)
      modifies this
      ensures Valid()
      ensures added == old(added) && totalItems == old(totalItems)
      ensures batchSize == old(batchSize) && timeout == old(timeout)
      ensures batchQueue == []
      ensures old(batchQueue) == [] ==>
                && results == [] && totalBatches == old(totalBatches)
                && lastProcessTime == old(lastProcessTime) && lastBatchTime == old(lastBatchTime)
      ensures old(batchQueue) != [] ==>
                && results == processFn(old(batchQueue)) && totalBatches == old(totalBatches) + 1
                && lastProcessTime == stamped && lastBatchTime == Some(done - start)
    {
      if |batchQueue| == 0 {
        return [];
      }
      var batch := DrainQueue();
      results := processFn(batch);
      processed := processed + batch;
      totalBatches := totalBatches + 1;
      lastProcessTime := stamped;
      lastBatchTime := Some(done - start);
    }

    /** `flush`: processes whatever is queued; nothing queued gives `[]`
        and changes nothing. */
    method Flush(processFn: seq<Item> -> seq<Out>, start: real, done: real, stamped: real)
      returns (results: seq<Out>)
      requires Valid()
      modifies this
      ensures Valid()
      ensures added == old(added) && totalItems == old(totalItems) && batchQueue == []
      ensures batchSize == old(batchSize) && timeout == old(timeout)
      ensures old(batchQueue) == [] ==>
                && results == [] && totalBatches == old(totalBatches)
                && lastProcessTime == old(lastProcessTime) && lastBatchTime == old(lastBatchTime)
      ensures old(batchQueue) != [] ==>
                && results == processFn(old(batchQueue)) && totalBatches == old(totalBatches) + 1
                && lastProcessTime == stamped && lastBatchTime == Some(done - start)
    {
      if |batchQueue| == 0 {
        return [];
      }
      results := ProcessBatch(processFn, start, done, stamped);
    }

    /** `get_statistics`. */
    function GetStatistics(): (s: Statistics)
      reads this
      ensures s.queueSize == |batchQueue| && s.totalBatches == totalBatches && s.totalItems == totalItems
      ensures s.lastBatchTime == lastBatchTime
      ensures totalBatches > 0 ==> s.avgItemsPerBatch * totalBatches as real == totalItems as real
      ensures totalBatches == 0 ==> s.avgItemsPerBatch == 0.0
    {
      Statistics(|batchQueue|, totalBatches, totalItems, lastBatchTime, Average(totalItems, totalBatches))
    }
  }

  /** Every batch held at least one item, so the average is at least one. */
  lemma AverageBatchSize<Item, Out>(p: BatchProcessor<Item, Out>)
    requires p.Valid() && p.totalBatches > 0
    ensures p.GetStatistics().avgItemsPerBatch >= 1.0
  {
    AverageAtLeastOne(p.totalItems, p.totalBatches);
  }

  // ---------------------------------------------------------------------
  // FrameBatchProcessor
  // ---------------------------------------------------------------------

  const DefaultFrameBatchSize := 10

  /** The entry for a frame whose analysis raised `message`. */
  function FailedEntry(message: string): (r: map<string, Json>)
    ensures r.Keys == {"status", "error"}
    ensures r["status"] == JStr("failed") && r["error"] == JStr(message)
  {
    map["status" := JStr("failed"), "error" := JStr(message)]
  }

  /** The entry for one frame: the analysis result, or a failed entry. */
  function Entry(outcome: Result<map<string, Json>, string>): map<string, Json> {
    match outcome
    case Ok(r) => r
    case Err(e) => FailedEntry(e)
  }

  class FrameBatchProcessor<Frame> {
    var batchSize: int
    var frameBuffer: seq<Frame>
    var metadataBuffer: seq<map<string, Json>>

    /** The two buffers stay in step, and a full buffer never stays. */
    ghost predicate Valid()
      reads this
    {
      |frameBuffer| == |metadataBuffer| && (|frameBuffer| == 0 || |frameBuffer| < batchSize)
    }

    constructor(batchSize: int)
      ensures Valid() && this.batchSize == batchSize && frameBuffer == [] && metadataBuffer == []
    {
      this.batchSize := batchSize;
      frameBuffer := [];
      metadataBuffer := [];
    }

    /** `add_frame`: buffers the frame and processes the buffer once it
        holds `batch_size` frames. */
    method AddFrame(frame: Frame, metadata: map<string, Json>,
                    analyze: (Frame, map<string, Json>) -> Result<map<string, Json>, string>)
      returns (r: Option<seq<map<string, Json>>>)
      requires Valid()
      modifies this
      ensures Valid() && batchSize == old(batchSize)
      ensures var frames := old(frameBuffer) + [frame];
              var metas := old(metadataBuffer) + [metadata];
              if |frames| >= batchSize then
                && r.Some? && |r.value| == |frames|
                && (forall i :: 0 <= i < |frames| ==> r.value[i] == Entry(analyze(frames[i], metas[i])))
                && frameBuffer == [] && metadataBuffer == []
              else
                r == None && frameBuffer == frames && metadataBuffer == metas
    {
      frameBuffer := frameBuffer + [frame];
      metadataBuffer := metadataBuffer + [metadata];
      if |frameBuffer| >= batchSize {
        var results := ProcessBatch(analyze);
        return Some(results);
      }
      return None;
    }

    /** `_process_batch`: one entry per buffered frame, in order, then both
        buffers are emptied. */
    method ProcessBatch(analyze: (Frame, map<string, Json>) -> Result<map<string, Json>, string>)
      returns (results: seq<map<string, Json>>)
      requires |frameBuffer| == |metadataBuffer|
      modifies this
      ensures Valid() && batchSize == old(batchSize)
      ensures frameBuffer == [] && metadataBuffer == []
      ensures |results| == |old(frameBuffer)|
      ensures forall i :: 0 <= i < |results| ==>
                results[i] == Entry(analyze(old(frameBuffer)[i], old(metadataBuffer)[i]))
    {
      results := [];
      for i := 0 to |frameBuffer|
        invariant |results| == i
        invariant forall k :: 0 <= k < i ==> results[k] == Entry(analyze(frameBuffer[k], metadataBuffer[k]))
      {
        var outcome := analyze(frameBuffer[i], metadataBuffer[i]);
        match outcome
        case Ok(result) =>
          results := results + [result];
        case Err(e) =>
          results := results + [FailedEntry(e)];
      }
      frameBuffer := [];
      metadataBuffer := [];
    }

    /** `flush`: an empty buffer gives `[]` and changes nothing. */
    method Flush(analyze: (Frame, map<string, Json>) -> Result<map<string, Json>, string>)
      returns (results: seq<map<string, Json>>)
      requires Valid()
      modifies this
      ensures Valid() && batchSize == old(batchSize)
      ensures frameBuffer == [] && metadataBuffer == []
      ensures old(frameBuffer) == [] ==> results == []
      ensures |results| == |old(frameBuffer)|
      ensures forall i :: 0 <= i < |results| ==>
                results[i] == Entry(analyze(old(frameBuffer)[i], old(metadataBuffer)[i]))
    {
      if |frameBuffer| == 0 {
        return [];
      }
      results := ProcessBatch(analyze);
    }
  }
}
