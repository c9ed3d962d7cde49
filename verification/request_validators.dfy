/** Request validators of the REST API: the site code rule
    (backend/apps/core/api/v1/serializers.py), document upload and extraction ingestion and
    the fiches import parameters (backend/apps/integration/api/v1/serializers.py), and the
    daily POS import (backend/apps/pos/api/v1/serializers.py). A rejection carries the
    field-keyed errors DRF reports. */
module RequestValidators {

  import opened Wrappers
  import opened Text
  import opened Json
  import opened Host
  import Numbers

  /** The errors `{field: message}` of a `ValidationError`. */
  function FieldError(field: string, message: string): Json {
    JObj(map[field := JStr(message)])
  }

  /** A required `CharField`: surrounding whitespace is trimmed, a blank value is rejected and
      so is one longer than `maxLength` after trimming. */
  function RequiredText(raw: string, maxLength: nat): (r: Option<string>)
    ensures r.Some? <==> Strip(raw) != [] && |Strip(raw)| <= maxLength
    ensures r.Some? ==> r.value == Strip(raw)
  {
    var t := Strip(raw);
    if t == [] || |t| > maxLength then None else Some(t)
  }

  /** The message DRF gives a required `CharField` that `RequiredText` rejects. */
  function RequiredTextMessage(raw: string, maxLength: nat): string {
    if Strip(raw) == [] then "This field may not be blank."
    else "Ensure this field has no more than " + Numbers.IntToString(maxLength) + " characters."
  }

  // ---------------------------------------------------------------------------------------
  // Site codes

  const CodeRequired: string := "Il codice punto vendita e' obbligatorio."

  /** Upper-casing a character and turning a space into an underscore never yields whitespace
      from a non-space character. */
  lemma CodeCharNotSpace(c: char)
    requires !IsSpace(c)
    ensures !IsSpace(ReplaceChar(Upper([c]), ' ', '_')[0])
  {
    assert Upper([c])[0] == UpperChar(c);
  }

  /** The normalization keeps a stripped string stripped. */
  lemma NormalizedCodeStripped(t: string)
    requires IsStripped(t)
    ensures IsStripped(ReplaceChar(Upper(t), ' ', '_'))
  {
    var r := ReplaceChar(Upper(t), ' ', '_');
    if t != [] {
      CodeCharNotSpace(t[0]);
      CodeCharNotSpace(t[|t| - 1]);
      assert r[0] == ReplaceChar(Upper([t[0]]), ' ', '_')[0];
      assert r[|r| - 1] == ReplaceChar(Upper([t[|t| - 1]]), ' ', '_')[0];
    }
  }

  /** Upper-casing then turning every space into an underscore, character by character. */
  function NormalizeCode(t: string): (r: string)
    ensures |r| == |t| && ' ' !in r
    ensures forall i :: 0 <= i < |t| ==> r[i] == (if t[i] == ' ' then '_' else UpperChar(t[i]))
    ensures forall i :: 0 <= i < |r| ==> !('a' <= r[i] <= 'z')
    ensures IsStripped(t) ==> IsStripped(r)
  {
    var r := ReplaceChar(Upper(t), ' ', '_');
    if IsStripped(t) then NormalizedCodeStripped(t); r else r
  }

  /** A code already upper-case and without spaces normalizes to itself. */
  lemma NormalizeCodeFixed(code: string)
    requires ' ' !in code && forall i :: 0 <= i < |code| ==> !('a' <= code[i] <= 'z')
    ensures NormalizeCode(code) == code
  {
    var r := NormalizeCode(code);
    forall i | 0 <= i < |code| ensures r[i] == code[i] {
      assert code[i] != ' ';
    }
  }

  /** `SiteWriteSerializer.validate_code`: stripped, upper-cased, every space replaced by an
      underscore; rejected when nothing is left. */
  function ValidateCode(value: string): (r: Result<string, string>)
    ensures r.Err? <==> Strip(value) == ""
    ensures r.Err? ==> r.error == CodeRequired
    ensures r.Ok? ==> |r.value| == |Strip(value)| && IsStripped(r.value) && ' ' !in r.value
    ensures r.Ok? ==> forall i :: 0 <= i < |r.value| ==>
                        !('a' <= r.value[i] <= 'z')
                        && r.value[i] == (if Strip(value)[i] == ' ' then '_' else UpperChar(Strip(value)[i]))
  {
    var normalized := NormalizeCode(Strip(value));
    if normalized == "" then Err(CodeRequired) else Ok(normalized)
  }

  /** A whitespace-only code is rejected. */
  lemma BlankCodeRejected(value: string)
    requires forall i :: 0 <= i < |value| ==> IsSpace(value[i])
    ensures ValidateCode(value).Err?
  {
  }

  /** A normalized code normalizes to itself. */
  lemma ValidateCodeIdempotent(value: string)
    requires ValidateCode(value).Ok?
    ensures ValidateCode(ValidateCode(value).value) == ValidateCode(value)
  {
    var code := ValidateCode(value).value;
    StripStripped(code);
    NormalizeCodeFixed(code);
  }

  // ---------------------------------------------------------------------------------------
  // Documents

  /** An uploaded file: its name, and the content type and size the upload reports. */
  datatype Upload = Upload(name: string, contentType: Option<string>, size: Option<int>)

  /** A file is falsy when it has no name. */
  predicate HasFile(f: Option<Upload>) {
    f.Some? && f.value.name != ""
  }

  datatype DocumentInput = DocumentInput(documentType: string, source: Option<string>, file: Option<Upload>,
                                         metadata: Json)

  datatype Document = Document(documentType: string, source: string, filename: string,
                               contentType: Option<string>, fileSize: Option<int>, file: Option<Upload>,
                               storagePath: Option<string>, metadata: Json)

  /** `IntegrationDocumentSerializer.validate`: the source defaults to `upload`, and an upload
      needs a file. */
  function ValidateDocument(input: DocumentInput): (r: Result<DocumentInput, Json>)
    ensures r.Err? <==> input.source.GetOr("upload") == "upload" && !HasFile(input.file)
    ensures r.Err? ==> r.error == FieldError("file", "file is required when source is upload.")
    ensures r.Ok? ==> r.value == input
  {
    if input.source.GetOr("upload") == "upload" && !HasFile(input.file) then
      Err(FieldError("file", "file is required when source is upload."))
    else Ok(input)
  }

  /** `IntegrationDocumentSerializer.create`: name, content type and size come from the file;
      a document with a named file records the name storage gave it as its storage path. */
  function CreateDocument(host: Host, input: DocumentInput): (d: Document)
    ensures d.source == input.source.GetOr("upload") && d.documentType == input.documentType
    ensures input.file.Some? ==> d.filename == input.file.value.name && d.contentType == input.file.value.contentType
                                  && d.fileSize == input.file.value.size
    ensures input.file.None? ==> d.filename == "" && d.contentType.None? && d.fileSize.None?
    ensures d.storagePath.Some? <==> HasFile(input.file)
    ensures HasFile(input.file) ==> d.storagePath == Some(host.storedFileName(input.file.value.name))
  {
    var source := input.source.GetOr("upload");
    var d := match input.file
      case None => Document(input.documentType, source, "", None, None, None, None, input.metadata)
      case Some(f) => Document(input.documentType, source, f.name, f.contentType, f.size, input.file, None, input.metadata);
    if HasFile(d.file) then d.(storagePath := Some(host.storedFileName(d.file.value.name))) else d
  }

  /** An upload that passes validation is stored with a storage path. */
  lemma ValidUploadIsStored(host: Host, input: DocumentInput)
    requires input.source.GetOr("upload") == "upload" && ValidateDocument(input).Ok?
    ensures CreateDocument(host, input).storagePath.Some?
  {
  }

  // ---------------------------------------------------------------------------------------
  // Extraction ingestion

  datatype Extraction = Extraction(id: Uuid, status: string, normalizedPayload: Json)

  /** A document with its type and its extractions. */
  datatype IngestDocument = IngestDocument(id: Uuid, documentType: string, extractions: seq<Extraction>)

  /** The validated ingest request. */
  datatype IngestRequest = IngestRequest(key: string, target: string, extraction: Extraction)

  /** The document's extraction with the given id. */
  function FindExtraction(xs: seq<Extraction>, id: Uuid): (r: Option<Extraction>)
    ensures r.None? <==> forall i :: 0 <= i < |xs| ==> xs[i].id != id
    ensures r.Some? ==> r.value in xs && r.value.id == id
    decreases |xs|
  {
    if xs == [] then None else if xs[0].id == id then Some(xs[0]) else FindExtraction(xs[1..], id)
  }

  /** A non-empty JSON object. */
  predicate IsNonEmptyObject(v: Json) {
    v.JObj? && v.fields != map[]
  }

  /** The choices of the ingest `target` field. */
  predicate IsIngestTarget(t: string) {
    t == "goods_receipt" || t == "invoice"
  }

  const KeyField: string := "idempotency_key"
  const TargetField: string := "target"

  function InvalidChoice(t: string): string {
    "\"" + t + "\" is not a valid choice."
  }

  /** The request passes the field checks `validate` runs after: a key that is not blank and at
      most 255 characters once trimmed, and no target or one of the choices. */
  predicate IngestFieldsValid(key: string, target: Option<string>) {
    RequiredText(key, 255).Some? && (target.None? || IsIngestTarget(target.value))
  }

  /** The field-level errors of an ingest request, all reported together: the key's message
      when it fails, and `invalid_choice` for a target outside the choices (the empty text
      included). */
  function IngestFieldErrors(key: string, target: Option<string>): (m: map<string, Json>)
    ensures KeyField in m <==> RequiredText(key, 255).None?
    ensures TargetField in m <==> target.Some? && !IsIngestTarget(target.value)
    ensures m.Keys <= {KeyField, TargetField}
    ensures m == map[] <==> IngestFieldsValid(key, target)
    ensures KeyField in m ==> m[KeyField] == JStr(RequiredTextMessage(key, 255))
    ensures TargetField in m ==> m[TargetField] == JStr(InvalidChoice(target.value))
  {
    var badKey := RequiredText(key, 255).None?;
    var badTarget := target.Some? && !IsIngestTarget(target.value);
    var keyErrors: map<string, Json> := if badKey then map[KeyField := JStr(RequiredTextMessage(key, 255))] else map[];
    var m := if badTarget then keyErrors[TargetField := JStr(InvalidChoice(target.value))] else keyErrors;
    assert KeyField != TargetField;
    assert badKey || badTarget ==> m != map[] by {
      assert badKey ==> KeyField in m;
      assert badTarget ==> TargetField in m;
    }
    m
  }

  /** The extraction with the id belongs to the document, has succeeded and holds a non-empty
      normalized object. */
  predicate Ingestible(document: IngestDocument, extractionId: Uuid) {
    var x := FindExtraction(document.extractions, extractionId);
    x.Some? && x.value.status == "succeeded" && IsNonEmptyObject(x.value.normalizedPayload)
  }

  /** `ExtractionIngestSerializer.validate` on field-checked values: the target defaults to the
      document's type and must equal it; the extraction must belong to the document, have
      succeeded and hold a non-empty normalized object. The checks run in that order. */
  function ValidateIngestAttrs(document: IngestDocument, extractionId: Uuid, key: string, target: Option<string>)
    : (r: Result<IngestRequest, Json>)
    ensures target.Some? && target.value != "" && target.value != document.documentType ==>
              r == Err(FieldError("target", "target must match document.document_type."))
    ensures r.Ok? <==> (target.None? || target.value == "" || target.value == document.documentType)
                       && Ingestible(document, extractionId)
    ensures r.Ok? ==> r.value.target == document.documentType && r.value.key == key
                      && r.value.extraction in document.extractions && r.value.extraction.id == extractionId
    ensures r.Err? && !(target.Some? && target.value != "" && target.value != document.documentType) ==>
              r.error.JObj? && r.error.fields.Keys == {"extraction_id"}
  {
    var t := if target.Some? && target.value != "" then target.value else document.documentType;
    if t != document.documentType then Err(FieldError("target", "target must match document.document_type."))
    else
      match FindExtraction(document.extractions, extractionId)
      case None => Err(FieldError("extraction_id", "extraction_id does not belong to this document."))
      case Some(x) =>
        if x.status != "succeeded" then Err(FieldError("extraction_id", "Only succeeded extractions can be ingested."))
        else if !IsNonEmptyObject(x.normalizedPayload) then
          Err(FieldError("extraction_id", "normalized_payload must be a non-empty object."))
        else Ok(IngestRequest(key, t, x))
  }

  /** `ExtractionIngestSerializer`: the field checks first, then `validate` on the trimmed key.
      It succeeds exactly for a valid key, no target or the document's own type as target, and
      an ingestible extraction of the document. */
  function ValidateIngest(document: IngestDocument, extractionId: Uuid, key: string, target: Option<string>)
    : (r: Result<IngestRequest, Json>)
    ensures !IngestFieldsValid(key, target) ==> r == Err(JObj(IngestFieldErrors(key, target)))
    ensures IngestFieldsValid(key, target) && target.Some? && target.value != document.documentType ==>
              r == Err(FieldError("target", "target must match document.document_type."))
    ensures r.Ok? <==> IngestFieldsValid(key, target) && (target.None? || target.value == document.documentType)
                       && Ingestible(document, extractionId)
    ensures r.Ok? ==> r.value.target == document.documentType && r.value.key == Strip(key)
                      && r.value.extraction in document.extractions && r.value.extraction.id == extractionId
  {
    if !IngestFieldsValid(key, target) then Err(JObj(IngestFieldErrors(key, target)))
    else ValidateIngestAttrs(document, extractionId, Strip(key), target)
  }

  /** An extraction of another document is never ingested. */
  lemma ForeignExtractionRejected(document: IngestDocument, extractionId: Uuid, key: string, target: Option<string>)
    requires forall i :: 0 <= i < |document.extractions| ==> document.extractions[i].id != extractionId
    ensures ValidateIngest(document, extractionId, key, target).Err?
  {
  }

  // ---------------------------------------------------------------------------------------
  // Fiches import parameters

  const MinImportLimit: int := 1
  const MaxImportLimit: int := 5000
  const DefaultImportLimit: int := 500

  datatype SnapshotImportParams = SnapshotImportParams(query: string, limit: int, key: string)

  /** `FicheSnapshotImportSerializer`: query and key default to empty and are stripped (DRF
      trims character fields); the limit defaults to 500 and must lie in 1..5000. */
  function ValidateSnapshotImport(query: Option<string>, limit: Option<int>, key: Option<string>)
    : (r: Result<SnapshotImportParams, Json>)
    ensures r.Ok? <==> limit.None? || MinImportLimit <= limit.value <= MaxImportLimit
    ensures r.Ok? ==> MinImportLimit <= r.value.limit <= MaxImportLimit
    ensures r.Ok? ==> r.value.limit == limit.GetOr(DefaultImportLimit)
    ensures r.Ok? ==> r.value.query == Strip(query.GetOr("")) && r.value.key == Strip(key.GetOr(""))
  {
    var n := limit.GetOr(DefaultImportLimit);
    if n < MinImportLimit then Err(FieldError("limit", "Ensure this value is greater than or equal to 1."))
    else if n > MaxImportLimit then Err(FieldError("limit", "Ensure this value is less than or equal to 5000."))
    else Ok(SnapshotImportParams(Strip(query.GetOr("")), n, Strip(key.GetOr(""))))
  }

  // ---------------------------------------------------------------------------------------
  // Daily POS import

  datatype Site = Site(id: Uuid)
  datatype PosSource = PosSource(id: Uuid, siteId: Uuid)

  datatype PosInput = PosInput(siteId: Uuid, posSourceId: Uuid, salesDate: int, lines: Option<seq<Json>>,
                               payload: Option<Json>)

  /** The validated request: the ids are replaced by the records they name. */
  datatype PosRequest = PosRequest(site: Site, posSource: PosSource, salesDate: int, lines: seq<Json>,
                                   payload: Option<Json>)

  /** The record with the given id. */
  function FindById<T>(xs: seq<T>, id: T -> Uuid, want: Uuid): (r: Option<T>)
    ensures r.None? <==> forall i :: 0 <= i < |xs| ==> id(xs[i]) != want
    ensures r.Some? ==> r.value in xs && id(r.value) == want
    decreases |xs|
  {
    if xs == [] then None else if id(xs[0]) == want then Some(xs[0]) else FindById(xs[1..], id, want)
  }

  function SiteId(s: Site): Uuid { s.id }
  function SourceId(s: PosSource): Uuid { s.id }

  /** The field-level errors of a POS import, all reported together before `validate` runs:
      `lines` is required, and `payload` (a JSON field of a model column without `null=True`)
      may be omitted but not null. */
  function PosFieldErrors(input: PosInput): (m: map<string, Json>)
    ensures "lines" in m <==> input.lines.None?
    ensures "payload" in m <==> input.payload == Some(JNull)
    ensures m.Keys <= {"lines", "payload"}
    ensures m == map[] <==> input.lines.Some? && input.payload != Some(JNull)
    ensures "lines" in m ==> m["lines"] == JList([JStr("This field is required.")])
    ensures "payload" in m ==> m["payload"] == JList([JStr("This field may not be null.")])
  {
    var lineErrors: map<string, Json> :=
      if input.lines.None? then map["lines" := JList([JStr("This field is required.")])] else map[];
    var m := if input.payload == Some(JNull) then lineErrors["payload" := JList([JStr("This field may not be null.")])]
             else lineErrors;
    assert input.lines.None? ==> "lines" in m;
    m
  }

  /** `SalesEventDailyImportSerializer`: the field checks (`lines` given, an empty list is
      fine; `payload` not null), then `validate`: the site and then the POS source must exist,
      and the source must belong to the site. */
  function ValidatePosImport(sites: seq<Site>, sources: seq<PosSource>, input: PosInput): (r: Result<PosRequest, Json>)
    ensures PosFieldErrors(input) != map[] ==> r == Err(JObj(PosFieldErrors(input)))
    ensures r.Ok? <==> input.lines.Some? && input.payload != Some(JNull)
                       && FindById(sites, SiteId, input.siteId).Some?
                       && FindById(sources, SourceId, input.posSourceId).Some?
                       && FindById(sources, SourceId, input.posSourceId).value.siteId == input.siteId
    ensures r.Ok? ==> r.value.site in sites && r.value.site.id == input.siteId
                      && r.value.posSource in sources && r.value.posSource.id == input.posSourceId
                      && r.value.posSource.siteId == r.value.site.id
                      && r.value.lines == input.lines.value && r.value.salesDate == input.salesDate
                      && r.value.payload == input.payload && r.value.payload != Some(JNull)
    ensures input.lines.Some? && input.payload != Some(JNull) && FindById(sites, SiteId, input.siteId).None? ==>
              r == Err(FieldError("site_id", "Invalid site_id."))
  {
    var fieldErrors := PosFieldErrors(input);
    if fieldErrors != map[] then Err(JObj(fieldErrors))
    else
      match FindById(sites, SiteId, input.siteId)
      case None => Err(FieldError("site_id", "Invalid site_id."))
      case Some(site) =>
        match FindById(sources, SourceId, input.posSourceId)
        case None => Err(FieldError("pos_source_id", "Invalid pos_source_id."))
        case Some(src) =>
          if src.siteId != site.id then
            Err(FieldError("pos_source_id", "pos_source_id does not belong to the provided site_id."))
          else Ok(PosRequest(site, src, input.salesDate, input.lines.value, input.payload))
  }

  /** A POS import whose `payload` is an explicit null is rejected on that field, and never
      reaches the record creation. */
  lemma NullPosPayloadRejected(sites: seq<Site>, sources: seq<PosSource>, input: PosInput)
    requires input.payload == Some(JNull)
    ensures var r := ValidatePosImport(sites, sources, input);
            r.Err? && r.error.JObj? && r.error.fields["payload"] == JList([JStr("This field may not be null.")])
  {
  }

  datatype SalesRecord = SalesRecord(site: Site, posSource: PosSource, salesDate: int, payload: Json)

  /** `SalesEventDailyImportSerializer.create`: the lines are stored under `payload["lines"]`
      (the payload defaults to `{}`); a payload that is not an object cannot take them. */
  function CreateSalesRecord(req: PosRequest): (r: Option<SalesRecord>)
    ensures r.Some? <==> req.payload.None? || req.payload.value.JObj?
    ensures r.Some? ==> Get(r.value.payload, "lines") == JList(req.lines)
    ensures r.Some? && req.payload.Some? ==>
              forall k :: k in req.payload.value.fields && k != "lines" ==>
                k in r.value.payload.fields && r.value.payload.fields[k] == req.payload.value.fields[k]
    ensures r.Some? ==> r.value.site == req.site && r.value.posSource == req.posSource
  {
    var payload := req.payload.GetOr(EmptyObject);
    if !payload.JObj? then None
    else Some(SalesRecord(req.site, req.posSource, req.salesDate, JObj(payload.fields["lines" := JList(req.lines)])))
  }
}
