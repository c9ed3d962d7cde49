/** The request handlers that drive the import-batch log: goods receipts
    (backend/apps/purchasing/api/v1/views.py), daily POS sales
    (backend/apps/pos/api/v1/views.py), and document ingestion and the two fiches imports
    (backend/apps/integration/api/v1/views.py). Each is one transition over the log. The
    outcome of the validate-and-save step each one delegates to a serializer or an import
    function is a parameter. */
module BatchHandlers {

  import opened Wrappers
  import opened Text
  import opened Numbers
  import opened Json
  import opened Host
  import opened ImportBatches

  /** What validating and saving the request gave: the validator's errors (a DRF
      `ValidationError`), the saved object's serialized data, or any other exception. */
  datatype Outcome = Invalid(errors: Json) | Saved(data: Json) | Crashed(detail: string)

  /** What a handler gives back: a response, or an exception it raises (a validation error,
      which the error handler turns into a 400, or anything else). */
  datatype Reply = Respond(status: int, body: Json) | RaiseValidation(detail: Json) | RaiseError(message: string)

  /** How the started batch is finished. */
  datatype Finishing = FinishOk(code: int, data: Json) | FinishFail(code: int, errors: Json)

  /** Start a batch and finish it at once: the batch a non-replayed request leaves behind. */
  function Attempt(host: Host, log: Log, source: string, importType: string, key: string, payload: Json,
                   fin: Finishing, now: int): (r: Log)
    ensures |r| == |log| + 1 && r[..|log|] == log
    ensures r[|log|].source == source && r[|log|].importType == importType
    ensures r[|log|].key == (if key == "" then None else Some(key))
    ensures r[|log|].payload == host.normalizePayload(payload) && r[|log|].finishedAt == Some(now)
    ensures r[|log|].status == (if fin.FinishOk? then Completed else Failed)
    ensures fin.FinishOk? ==> ReplayOf(r[|log|]) == (fin.code, host.normalizePayload(fin.data))
    ensures fin.FinishFail? ==> Get(r[|log|].result, "status_code") == JInt(fin.code)
                                && Get(r[|log|].result, "errors") == host.normalizePayload(fin.errors)
  {
    var (started, i) := StartBatch(host, log, source, importType, key, payload, now);
    match fin
    case FinishOk(code, data) => CompleteBatch(host, started, i, code, data, now)
    case FinishFail(code, errors) => FailBatch(host, started, i, code, errors, now)
  }

  /** After a successful attempt under a non-empty key, the next lookup finds that attempt's
      batch and replays its status and data. */
  lemma SuccessIsReplayed(host: Host, log: Log, source: string, importType: string, key: string, payload: Json,
                          code: int, data: Json, now: int)
    requires key != "" && StartedBy(log, now)
    ensures var after := Attempt(host, log, source, importType, key, payload, FinishOk(code, data), now);
            FindCompleted(after, source, importType, key) == Some(|log|)
            && ReplayOf(after[|log|]) == (code, host.normalizePayload(data))
  {
    StartThenCompleteIsFound(host, log, source, importType, key, payload, code, data, now, now);
  }

  /** After a failed attempt, the lookup gives what it gave before the attempt: a failure is
      never replayed, so the request may be retried. */
  lemma FailureIsNotReplayed(host: Host, log: Log, source: string, importType: string, key: string, payload: Json,
                             code: int, errors: Json, now: int)
    ensures FindCompleted(Attempt(host, log, source, importType, key, payload, FinishFail(code, errors), now),
                          source, importType, key)
            == FindCompleted(log, source, importType, key)
  {
    StartThenFailIsNotFound(host, log, source, importType, key, payload, code, errors, now, now);
  }

  /** The response to a replayed batch. */
  function Replayed(b: Batch): (r: Reply)
    ensures r.Respond? && (r.status, r.body) == ReplayOf(b)
  {
    Respond(ReplayOf(b).0, ReplayOf(b).1)
  }

  const KeyRequired: string := "Idempotency-Key header is required."

  /** A request header's text; a missing header reads as empty. */
  function HeaderText(h: Option<string>): string {
    h.GetOr("")
  }

  // ---------------------------------------------------------------------------------------
  // Goods receipts

  function GoodsReceiptFinishing(outcome: Outcome): Finishing {
    match outcome
    case Invalid(errors) => FinishFail(400, errors)
    case Saved(data) => FinishOk(201, data)
    case Crashed(detail) => FinishFail(500, JObj(map["detail" := JStr(detail)]))
  }

  function GoodsReceiptReply(outcome: Outcome): Reply {
    match outcome
    case Invalid(errors) => Respond(400, errors)
    case Saved(data) => Respond(201, data)
    case Crashed(detail) => RaiseError(detail)
  }

  /** `GoodsReceiptViewSet.create`: without an Idempotency-Key a 400 and no batch; a completed
      `(api, goods_receipt, key)` batch is replayed without starting another; otherwise one
      batch is started and finished by the outcome (invalid: 400 with the errors; saved: 201
      with the data; an exception: 500, re-raised). */
  function GoodsReceiptCreate(host: Host, log: Log, header: Option<string>, request: Json, outcome: Outcome,
                              now: int): (r: (Log, Reply))
    ensures HeaderText(header) == "" ==> r == (log, Respond(400, JObj(map["detail" := JStr(KeyRequired)])))
    ensures HeaderText(header) != "" && FindCompleted(log, "api", "goods_receipt", HeaderText(header)).Some? ==>
              var i := FindCompleted(log, "api", "goods_receipt", HeaderText(header)).value;
              r.0 == log && r.1 == Replayed(log[i])
    ensures HeaderText(header) != "" && FindCompleted(log, "api", "goods_receipt", HeaderText(header)).None? ==>
              |r.0| == |log| + 1 && r.0[..|log|] == log && r.0[|log|].payload == host.normalizePayload(request)
              && (r.0[|log|].status == Completed <==> outcome.Saved?)
              && (outcome.Invalid? ==> r.1 == Respond(400, outcome.errors))
              && (outcome.Saved? ==> r.1 == Respond(201, outcome.data))
              && (outcome.Crashed? ==> r.1 == RaiseError(outcome.detail))
  {
    var key := HeaderText(header);
    if key == "" then (log, Respond(400, JObj(map["detail" := JStr(KeyRequired)])))
    else
      match FindCompleted(log, "api", "goods_receipt", key)
      case Some(i) => (log, Replayed(log[i]))
      case None =>
        (Attempt(host, log, "api", "goods_receipt", key, request, GoodsReceiptFinishing(outcome), now),
         GoodsReceiptReply(outcome))
  }

  /** Posting the same goods receipt twice under a new key saves once: the second post,
      whatever its body and outcome, replays the first one's status and data and adds no
      batch. */
  lemma GoodsReceiptRepeatReplays(host: Host, log: Log, key: string, request: Json, data: Json, t1: int,
                                  request2: Json, outcome2: Outcome, t2: int)
    requires key != "" && StartedBy(log, t1)
    requires FindCompleted(log, "api", "goods_receipt", key).None?
    ensures var first := GoodsReceiptCreate(host, log, Some(key), request, Saved(data), t1);
            var second := GoodsReceiptCreate(host, first.0, Some(key), request2, outcome2, t2);
            first.1 == Respond(201, data)
            && second.0 == first.0 && second.1 == Respond(201, host.normalizePayload(data))
  {
    SuccessIsReplayed(host, log, "api", "goods_receipt", key, request, 201, data, t1);
  }

  /** A goods receipt whose first post failed (invalid or an exception) is not replayed: the
      retry starts a new batch. */
  lemma GoodsReceiptRetryAfterFailure(host: Host, log: Log, key: string, request: Json, outcome: Outcome, t1: int,
                                      request2: Json, outcome2: Outcome, t2: int)
    requires key != "" && !outcome.Saved?
    requires FindCompleted(log, "api", "goods_receipt", key).None?
    ensures var first := GoodsReceiptCreate(host, log, Some(key), request, outcome, t1);
            var second := GoodsReceiptCreate(host, first.0, Some(key), request2, outcome2, t2);
            |second.0| == |first.0| + 1 && first.0[|log|].status == Failed
  {
    var f := GoodsReceiptFinishing(outcome);
    FailureIsNotReplayed(host, log, "api", "goods_receipt", key, request, f.code, f.errors, t1);
  }

  // ---------------------------------------------------------------------------------------
  // Daily POS sales

  function PosFinishing(outcome: Outcome): Finishing {
    match outcome
    case Invalid(errors) => FinishFail(400, errors)
    case Saved(data) => FinishOk(201, data)
    case Crashed(detail) => FinishFail(500, JObj(map["detail" := JStr(detail)]))
  }

  function PosReply(outcome: Outcome): Reply {
    match outcome
    case Invalid(errors) => RaiseValidation(errors)
    case Saved(data) => Respond(201, data)
    case Crashed(detail) => RaiseError(detail)
  }

  /** `SalesEventDailyImportViewSet.create`: without an Idempotency-Key a validation error on
      `idempotency_key` and no batch; a completed `(api, pos_sales_daily, key)` batch is
      replayed; otherwise one batch, finished by the outcome (a validation error: 400 with its
      detail, re-raised; saved: 201 with the data; any other exception: 500, re-raised). */
  function PosSalesCreate(host: Host, log: Log, header: Option<string>, request: Json, outcome: Outcome,
                          now: int): (r: (Log, Reply))
    ensures HeaderText(header) == "" ==>
              r == (log, RaiseValidation(JObj(map["idempotency_key" := JStr(KeyRequired)])))
    ensures HeaderText(header) != "" && FindCompleted(log, "api", "pos_sales_daily", HeaderText(header)).Some? ==>
              var i := FindCompleted(log, "api", "pos_sales_daily", HeaderText(header)).value;
              r.0 == log && r.1 == Replayed(log[i])
    ensures HeaderText(header) != "" && FindCompleted(log, "api", "pos_sales_daily", HeaderText(header)).None? ==>
              |r.0| == |log| + 1 && r.0[..|log|] == log && r.0[|log|].payload == host.normalizePayload(request)
              && (r.0[|log|].status == Completed <==> outcome.Saved?)
              && (outcome.Invalid? ==> r.1 == RaiseValidation(outcome.errors)
                                       && Get(r.0[|log|].result, "status_code") == JInt(400))
              && (outcome.Saved? ==> r.1 == Respond(201, outcome.data))
              && (outcome.Crashed? ==> r.1 == RaiseError(outcome.detail)
                                       && Get(r.0[|log|].result, "status_code") == JInt(500))
  {
    var key := HeaderText(header);
    if key == "" then (log, RaiseValidation(JObj(map["idempotency_key" := JStr(KeyRequired)])))
    else
      match FindCompleted(log, "api", "pos_sales_daily", key)
      case Some(i) => (log, Replayed(log[i]))
      case None =>
        (Attempt(host, log, "api", "pos_sales_daily", key, request, PosFinishing(outcome), now), PosReply(outcome))
  }

  /** A repeated POS post under the same key creates no second record. */
  lemma PosSalesRepeatReplays(host: Host, log: Log, key: string, request: Json, data: Json, t1: int,
                              request2: Json, outcome2: Outcome, t2: int)
    requires key != "" && StartedBy(log, t1)
    requires FindCompleted(log, "api", "pos_sales_daily", key).None?
    ensures var first := PosSalesCreate(host, log, Some(key), request, Saved(data), t1);
            var second := PosSalesCreate(host, first.0, Some(key), request2, outcome2, t2);
            second.0 == first.0 && second.1 == Respond(201, host.normalizePayload(data))
  {
    SuccessIsReplayed(host, log, "api", "pos_sales_daily", key, request, 201, data, t1);
  }

  // ---------------------------------------------------------------------------------------
  // Document ingestion

  /** The importer `DocumentIngestViewSet.create` hands the payload to. */
  datatype ImportSerializer = GoodsReceiptImport | InvoiceImport

  function ImporterFor(target: string): (s: ImportSerializer)
    ensures s == GoodsReceiptImport <==> target == "goods_receipt"
  {
    if target == "goods_receipt" then GoodsReceiptImport else InvoiceImport
  }

  /** The payload an ingest batch records. */
  function IngestPayload(documentId: string, extractionId: string, payload: Json): Json {
    JObj(map["document_id" := JStr(documentId), "extraction_id" := JStr(extractionId), "payload" := payload])
  }

  /** `DocumentIngestViewSet.create` after the request has validated: a completed
      `(ocr, target, key)` batch is replayed; otherwise one batch recording the document,
      extraction and payload, finished by what the target's importer gives (a validation
      error: 400, re-raised; saved: 201; any other exception: 500, re-raised). */
  function IngestCreate(host: Host, log: Log, documentId: string, extractionId: string, key: string, target: string,
                        payload: Json, importer: ImportSerializer -> Outcome, now: int): (r: (Log, Reply))
    ensures FindCompleted(log, "ocr", target, key).Some? ==>
              r.0 == log && r.1 == Replayed(log[FindCompleted(log, "ocr", target, key).value])
    ensures FindCompleted(log, "ocr", target, key).None? ==>
              var outcome := importer(ImporterFor(target));
              |r.0| == |log| + 1 && r.0[..|log|] == log
              && r.0[|log|].source == "ocr" && r.0[|log|].importType == target
              && r.0[|log|].payload == host.normalizePayload(IngestPayload(documentId, extractionId, payload))
              && (r.0[|log|].status == Completed <==> outcome.Saved?)
              && r.1 == PosReply(outcome)
  {
    match FindCompleted(log, "ocr", target, key)
    case Some(i) => (log, Replayed(log[i]))
    case None =>
      var outcome := importer(ImporterFor(target));
      (Attempt(host, log, "ocr", target, key, IngestPayload(documentId, extractionId, payload), PosFinishing(outcome), now),
       PosReply(outcome))
  }

  // ---------------------------------------------------------------------------------------
  // Fiches imports

  /** What an import function gave: its result dictionary, or an exception. */
  datatype ImportRun = Finished(result: Json) | RunCrashed(detail: string)

  /** `result.get("detail", "Import failed")`. */
  function FailureDetail(result: Json): (d: Json)
    ensures result.JObj? && "detail" in result.fields ==> d == result.fields["detail"]
    ensures !(result.JObj? && "detail" in result.fields) ==> d == JStr("Import failed")
  {
    if result.JObj? && "detail" in result.fields then result.fields["detail"] else JStr("Import failed")
  }

  /** The shared tail of both fiches imports, once the key is chosen: replay, or one batch
      finished by the import (not ok: 400 with its detail; ok: 201 with the result; an
      exception: 500, re-raised). */
  function FichesImport(host: Host, log: Log, importType: string, key: string, payload: Json, run: ImportRun,
                        now: int): (r: (Log, Reply))
    ensures FindCompleted(log, "fiches", importType, key).Some? ==>
              r.0 == log && r.1 == Replayed(log[FindCompleted(log, "fiches", importType, key).value])
    ensures FindCompleted(log, "fiches", importType, key).None? ==>
              |r.0| == |log| + 1 && r.0[..|log|] == log && r.0[|log|].payload == host.normalizePayload(payload)
              && r.0[|log|].source == "fiches" && r.0[|log|].importType == importType
              && r.0[|log|].key == (if key == "" then None else Some(key))
              && (r.0[|log|].status == Completed <==> run.Finished? && Truthy(Get(run.result, "ok")))
              && (run.Finished? && !Truthy(Get(run.result, "ok")) ==>
                    r.1 == Respond(400, JObj(map["detail" := FailureDetail(run.result)])))
              && (run.Finished? && Truthy(Get(run.result, "ok")) ==> r.1 == Respond(201, run.result))
              && (run.RunCrashed? ==> r.1 == RaiseError(run.detail))
  {
    match FindCompleted(log, "fiches", importType, key)
    case Some(i) => (log, Replayed(log[i]))
    case None =>
      match run
      case RunCrashed(detail) =>
        (Attempt(host, log, "fiches", importType, key, payload, FinishFail(500, JObj(map["detail" := JStr(detail)])), now),
         RaiseError(detail))
      case Finished(result) =>
        if !Truthy(Get(result, "ok")) then
          var body := JObj(map["detail" := FailureDetail(result)]);
          (Attempt(host, log, "fiches", importType, key, payload, FinishFail(400, body), now), Respond(400, body))
        else
          (Attempt(host, log, "fiches", importType, key, payload, FinishOk(201, result), now), Respond(201, result))
  }

  /** The snapshot-import key: the body's, else the header's, else one derived from the query
      and the limit. */
  function SnapshotImportKey(bodyKey: string, header: Option<string>, query: string, limit: int): (k: string)
    ensures k != ""
    ensures bodyKey != "" ==> k == bodyKey
    ensures bodyKey == "" && HeaderText(header) != "" ==> k == HeaderText(header)
    ensures bodyKey == "" && HeaderText(header) == "" ==> k == "fiches-snapshots:" + query + ":" + IntToString(limit)
  {
    if bodyKey != "" then bodyKey
    else if HeaderText(header) != "" then HeaderText(header)
    else "fiches-snapshots:" + query + ":" + IntToString(limit)
  }

  /** `FicheSnapshotImportView.post` with the validated query, limit and key. */
  function SnapshotImportPost(host: Host, log: Log, query: string, limit: int, bodyKey: string,
                              header: Option<string>, run: ImportRun, now: int): (r: (Log, Reply))
    ensures var key := SnapshotImportKey(bodyKey, header, query, limit);
            (FindCompleted(log, "fiches", "recipe_snapshot", key).Some? ==> r.0 == log && r.1.Respond?)
            && (FindCompleted(log, "fiches", "recipe_snapshot", key).None? ==>
                  |r.0| == |log| + 1 && r.0[|log|].importType == "recipe_snapshot" && r.0[|log|].key == Some(key)
                  && r.0[|log|].payload == host.normalizePayload(JObj(map["query" := JStr(query), "limit" := JInt(limit)])))
  {
    FichesImport(host, log, "recipe_snapshot", SnapshotImportKey(bodyKey, header, query, limit),
                 JObj(map["query" := JStr(query), "limit" := JInt(limit)]), run, now)
  }

  /** The catalog-import key: the body's, else the header's, else `fiches-catalog`. */
  function CatalogImportKey(bodyKey: string, header: Option<string>): (k: string)
    ensures k != ""
    ensures bodyKey != "" ==> k == bodyKey
    ensures bodyKey == "" && HeaderText(header) != "" ==> k == HeaderText(header)
    ensures bodyKey == "" && HeaderText(header) == "" ==> k == "fiches-catalog"
  {
    if bodyKey != "" then bodyKey else if HeaderText(header) != "" then HeaderText(header) else "fiches-catalog"
  }

  /** `FicheCatalogImportView.post` with the validated key. */
  function CatalogImportPost(host: Host, log: Log, bodyKey: string, header: Option<string>, run: ImportRun,
                             now: int): (r: (Log, Reply))
    ensures var key := CatalogImportKey(bodyKey, header);
            (FindCompleted(log, "fiches", "supplier_catalog", key).Some? ==> r.0 == log && r.1.Respond?)
            && (FindCompleted(log, "fiches", "supplier_catalog", key).None? ==>
                  |r.0| == |log| + 1 && r.0[|log|].importType == "supplier_catalog" && r.0[|log|].key == Some(key)
                  && r.0[|log|].payload == host.normalizePayload(EmptyObject))
  {
    FichesImport(host, log, "supplier_catalog", CatalogImportKey(bodyKey, header), EmptyObject, run, now)
  }

  /** Two snapshot imports with the same query and limit and no explicit key share the derived
      key, so after a successful first import the second is a replay that runs nothing. */
  lemma SnapshotImportRepeatReplays(host: Host, log: Log, query: string, limit: int, result: Json, t1: int,
                                    run2: ImportRun, t2: int)
    requires Truthy(Get(result, "ok")) && StartedBy(log, t1)
    requires FindCompleted(log, "fiches", "recipe_snapshot", SnapshotImportKey("", None, query, limit)).None?
    ensures var first := SnapshotImportPost(host, log, query, limit, "", None, Finished(result), t1);
            var second := SnapshotImportPost(host, first.0, query, limit, "", None, run2, t2);
            second.0 == first.0 && second.1 == Respond(201, host.normalizePayload(result))
  {
    var key := SnapshotImportKey("", None, query, limit);
    SuccessIsReplayed(host, log, "fiches", "recipe_snapshot", key,
                      JObj(map["query" := JStr(query), "limit" := JInt(limit)]), 201, result, t1);
  }

  /** `FicheRecipeTitleListView.get`'s limit: `int()` of the parameter, 30 when it is missing
      or not an integer. */
  function TitleListLimit(raw: Option<string>): (n: int)
    ensures raw.None? ==> n == 30
    ensures raw.Some? && ParseInt(raw.value).Some? ==> n == ParseInt(raw.value).value
    ensures raw.Some? && ParseInt(raw.value).None? ==> n == 30
  {
    match raw
    case None => 30
    case Some(s) => ParseInt(s).GetOr(30)
  }

  /** The title-list limit reads back any integer written in decimal. */
  lemma TitleListLimitOfInt(i: int)
    ensures TitleListLimit(Some(IntToString(i))) == i
  {
    ParseIntRoundTrip(i);
  }

  /** `FicheRecipeTitleListView.get`'s query: the parameter stripped, empty when missing. */
  function TitleListQuery(raw: Option<string>): (q: string)
    ensures IsStripped(q)
    ensures raw.None? ==> q == ""
  {
    Strip(raw.GetOr(""))
  }
}
