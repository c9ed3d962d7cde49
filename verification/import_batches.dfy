/** The import-batch log behind every idempotent import
    (backend/apps/integration/import_batches.py). A batch is started in state STARTED and
    finished exactly once as COMPLETED or FAILED; only completed batches are ever replayed.
    The log is the sequence of batches in creation order, a batch is named by its position,
    and the clock reading of each call is a parameter. */
module ImportBatches {

  import opened Wrappers
  import opened Json
  import opened Host

  datatype Status = Started | Completed | Failed

  datatype Batch = Batch(
    source: string,
    importType: string,
    key: Option<string>,
    status: Status,
    payload: Json,
    result: Json,
    startedAt: int,
    finishedAt: Option<int>,
    updatedAt: int)

  type Log = seq<Batch>

  /** A completed batch recorded for this source, import type and key. */
  predicate IsReplayable(b: Batch, source: string, importType: string, key: string) {
    b.source == source && b.importType == importType && b.key == Some(key) && b.status == Completed
  }

  /** The newest replayable batch among the first `n`, by start time; of several started at
      the same instant the one created last. */
  function NewestAmong(log: Log, n: nat, source: string, importType: string, key: string): (r: Option<nat>)
    requires n <= |log|
    ensures r.None? <==> forall j :: 0 <= j < n ==> !IsReplayable(log[j], source, importType, key)
    ensures r.Some? ==> r.value < n && IsReplayable(log[r.value], source, importType, key)
    ensures r.Some? ==> forall j :: 0 <= j < n && IsReplayable(log[j], source, importType, key) ==>
                          log[j].startedAt <= log[r.value].startedAt
    ensures r.Some? ==> forall j :: r.value < j < n && IsReplayable(log[j], source, importType, key) ==>
                          log[j].startedAt < log[r.value].startedAt
    decreases n
  {
    if n == 0 then None
    else
      var best := NewestAmong(log, n - 1, source, importType, key);
      if IsReplayable(log[n - 1], source, importType, key)
         && (best.None? || log[best.value].startedAt <= log[n - 1].startedAt)
      then Some(n - 1)
      else best
  }

  /** `find_completed_batch`: nothing for an empty key, otherwise the newest completed batch
      with the same source, import type and key. A started or failed batch is never found. */
  function FindCompleted(log: Log, source: string, importType: string, key: string): (r: Option<nat>)
    ensures key == "" ==> r.None?
    ensures r.Some? ==> r.value < |log| && log[r.value].status == Completed
                        && IsReplayable(log[r.value], source, importType, key)
    ensures key != "" && r.None? ==> forall j :: 0 <= j < |log| ==> !IsReplayable(log[j], source, importType, key)
    ensures r.Some? ==> forall j :: 0 <= j < |log| && IsReplayable(log[j], source, importType, key) ==>
                          log[j].startedAt <= log[r.value].startedAt
  {
    if key == "" then None else NewestAmong(log, |log|, source, importType, key)
  }

  /** `start_batch`: appends a STARTED batch holding the normalized request payload; an empty
      key is stored as none. Gives the new log and the new batch's position. */
  function StartBatch(host: Host, log: Log, source: string, importType: string, key: string,
                      payload: Json, now: int): (r: (Log, nat))
    ensures |r.0| == |log| + 1 && r.0[..|log|] == log && r.1 == |log|
    ensures r.0[r.1].status == Started && r.0[r.1].finishedAt.None?
    ensures r.0[r.1].source == source && r.0[r.1].importType == importType
    ensures r.0[r.1].key == (if key == "" then None else Some(key))
    ensures r.0[r.1].payload == host.normalizePayload(payload) && r.0[r.1].startedAt == now
  {
    var b := Batch(source, importType, if key == "" then None else Some(key), Started,
                   host.normalizePayload(payload), EmptyObject, now, None, now);
    (log + [b], |log|)
  }

  /** The fields `complete_batch` and `fail_batch` leave alone. */
  predicate SameRecord(a: Batch, b: Batch) {
    a.source == b.source && a.importType == b.importType && a.key == b.key
    && a.payload == b.payload && a.startedAt == b.startedAt
  }

  /** The stored result `{"status_code": code, <field>: value}`. */
  function ResultRecord(code: int, field: string, value: Json): Json {
    JObj(map["status_code" := JInt(code), field := value])
  }

  /** Sets the status, the finish time and the result of batch `i`, and nothing else. */
  function Finish(log: Log, i: nat, status: Status, result: Json, now: int): (r: Log)
    requires i < |log|
    ensures |r| == |log|
    ensures forall j :: 0 <= j < |log| && j != i ==> r[j] == log[j]
    ensures SameRecord(r[i], log[i])
    ensures r[i].status == status && r[i].finishedAt == Some(now) && r[i].result == result && r[i].updatedAt == now
  {
    log[i := log[i].(status := status, finishedAt := Some(now), result := result, updatedAt := now)]
  }

  /** `complete_batch`: COMPLETED, finished now, result `{status_code, data}` with the data
      normalized. */
  function CompleteBatch(host: Host, log: Log, i: nat, code: int, data: Json, now: int): (r: Log)
    requires i < |log|
    ensures |r| == |log| && forall j :: 0 <= j < |log| && j != i ==> r[j] == log[j]
    ensures SameRecord(r[i], log[i]) && r[i].status == Completed && r[i].finishedAt == Some(now)
    ensures Get(r[i].result, "status_code") == JInt(code) && Get(r[i].result, "data") == host.normalizePayload(data)
  {
    Finish(log, i, Completed, ResultRecord(code, "data", host.normalizePayload(data)), now)
  }

  /** `fail_batch`: FAILED, finished now, result `{status_code, errors}` with the errors
      normalized. */
  function FailBatch(host: Host, log: Log, i: nat, code: int, errors: Json, now: int): (r: Log)
    requires i < |log|
    ensures |r| == |log| && forall j :: 0 <= j < |log| && j != i ==> r[j] == log[j]
    ensures SameRecord(r[i], log[i]) && r[i].status == Failed && r[i].finishedAt == Some(now)
    ensures Get(r[i].result, "status_code") == JInt(code) && Get(r[i].result, "errors") == host.normalizePayload(errors)
  {
    Finish(log, i, Failed, ResultRecord(code, "errors", host.normalizePayload(errors)), now)
  }

  /** The response a replayed batch gives: `result.get("data", {})` with status
      `result.get("status_code", 200)`. */
  function ReplayOf(b: Batch): (r: (int, Json))
    ensures b.result.JObj? && "data" in b.result.fields ==> r.1 == b.result.fields["data"]
    ensures !(b.result.JObj? && "data" in b.result.fields) ==> r.1 == EmptyObject
    ensures Get(b.result, "status_code").JInt? ==> r.0 == Get(b.result, "status_code").i
    ensures !(b.result.JObj? && "status_code" in b.result.fields) ==> r.0 == 200
  {
    var data := if b.result.JObj? && "data" in b.result.fields then b.result.fields["data"] else EmptyObject;
    var code := if Get(b.result, "status_code").JInt? then Get(b.result, "status_code").i else 200;
    (code, data)
  }

  /** A batch completed with a status and data replays exactly that status and the normalized
      data. */
  lemma CompletedBatchReplays(host: Host, log: Log, i: nat, code: int, data: Json, now: int)
    requires i < |log|
    ensures ReplayOf(CompleteBatch(host, log, i, code, data, now)[i]) == (code, host.normalizePayload(data))
  {
  }

  /** Every start time in the log is at most `now`: the clock does not run backwards. */
  predicate StartedBy(log: Log, now: int) {
    forall j :: 0 <= j < |log| ==> log[j].startedAt <= now
  }

  /** A batch started and then completed under a non-empty key is the one the next lookup
      finds, provided the clock did not run backwards. */
  lemma {:induction false} StartThenCompleteIsFound(host: Host, log: Log, source: string, importType: string,
                                                    key: string, payload: Json, code: int, data: Json,
                                                    t0: int, t1: int)
    requires key != "" && StartedBy(log, t0)
    ensures var (started, i) := StartBatch(host, log, source, importType, key, payload, t0);
            FindCompleted(CompleteBatch(host, started, i, code, data, t1), source, importType, key) == Some(i)
  {
    var (started, i) := StartBatch(host, log, source, importType, key, payload, t0);
    var done := CompleteBatch(host, started, i, code, data, t1);
    assert IsReplayable(done[i], source, importType, key);
    var r := FindCompleted(done, source, importType, key);
    assert r.Some?;
    if r.value != i {
      assert r.value < i;
      assert done[r.value] == log[r.value];
      assert done[i].startedAt == t0;
    }
  }

  /** Failing a batch never makes a lookup find it: the lookup after a failure gives what it
      gave before the batch was started. */
  lemma StartThenFailIsNotFound(host: Host, log: Log, source: string, importType: string, key: string,
                                payload: Json, code: int, errors: Json, t0: int, t1: int)
    ensures var (started, i) := StartBatch(host, log, source, importType, key, payload, t0);
            FindCompleted(FailBatch(host, started, i, code, errors, t1), source, importType, key)
              == FindCompleted(log, source, importType, key)
  {
    var (started, i) := StartBatch(host, log, source, importType, key, payload, t0);
    var failed := FailBatch(host, started, i, code, errors, t1);
    FindIgnoresUnreplayableLast(failed, log, source, importType, key);
  }

  /** Appending a batch that cannot be replayed changes no lookup. */
  lemma FindIgnoresUnreplayableLast(log: Log, prefix: Log, source: string, importType: string, key: string)
    requires |log| == |prefix| + 1 && log[..|prefix|] == prefix
    requires !IsReplayable(log[|prefix|], source, importType, key)
    ensures FindCompleted(log, source, importType, key) == FindCompleted(prefix, source, importType, key)
  {
    if key != "" {
      NewestAmongPrefix(log, prefix, |prefix|, source, importType, key);
    }
  }

  /** The newest among the first `n` depends only on those `n` batches. */
  lemma {:induction false} NewestAmongPrefix(log: Log, prefix: Log, n: nat, source: string, importType: string,
                                             key: string)
    requires n <= |prefix| <= |log| && log[..|prefix|] == prefix
    ensures NewestAmong(log, n, source, importType, key) == NewestAmong(prefix, n, source, importType, key)
  {
    if n > 0 {
      NewestAmongPrefix(log, prefix, n - 1, source, importType, key);
      assert log[n - 1] == prefix[n - 1];
    }
  }
}
