# cookOps backend core in Dafny

This project models the core of the cookOps kitchen-operations backend. That backend is a Django REST service. It plans what a restaurant site serves and computes what the kitchen must buy for it. It also imports recipes and supplier catalogs from the external "fiches" recipe database. The model covers these parts:

- **Import batches and idempotent writes** (`ImportBatches`, `BatchHandlers`).
  - An `IntegrationImportBatch` log records every write under a `(source, import_type, Idempotency-Key)` triple.
  - A completed batch is replayed with its stored status and data, and the operation is not run again.
  - A failed batch is never replayed.
  - The goods-receipt, POS daily-sales, OCR-ingest, fiches-snapshot and fiches-catalog endpoints are modelled on top of this log.
- **Request validation** (`RequestValidators`, `MenuSync`): the serializers' checks, defaults and error fields.
- **Service menu** (`Schedule`, `MenuSync`).
  - The three schedule modes (`permanent`, `date_specific`, `recurring_weekly`).
  - Weekday normalization and the validity window.
  - The entries in effect for a site and date (permanent, legacy `carta*` and dated pools).
  - The menu sync that replaces a site's permanent and dated entries.
- **Service ingredients** (`Snapshots`, `Ingredients`, `Expansion`, `Tally`, `Aggregation`).
  - Resolving an entry's recipe snapshot by product id, exact title or contained title.
  - Extracting ingredients from a payload.
  - Expanding nested recipes with a depth bound and cycle detection.
  - Summing quantities per `(supplier, ingredient, unit, source type, recipe title)` key into the supplier view.
  - The recipe view.
- **Fiches imports** (`FichesCommon`, `FichesSnapshots`, `FichesCatalog`, `FichesTitles`).
  - The SQL-identifier guard and the unit normalization.
  - The v1.1 envelope import and the database snapshot import, keyed by `(fiche id, payload hash)`.
  - The supplier/product catalog upsert.
  - The recipe-title search, including its mojibake repair.
- **Cross-cutting pieces** (`Exceptions`, `Cors`, `Settings`).
  - The API error envelope.
  - The CORS middleware.
  - `.env` loading, `DEBUG` and the comma-separated settings.

Supporting modules model the Python behaviour the code relies on:

- `Text`: `strip`, `lower`, `split`.
- `Numbers`: `int()`, `Decimal()`, `str()` of integers.
- `Utf8`: Latin-1 and UTF-8 encode/decode.
- `Json`: truthiness, `or`, `dict.get`.
- `Sorting`: stable `sorted` with tuple keys.
- `Seqs`: filter, map, first and distinct.
- `Dates`: proleptic ordinals and weekdays.

Database tables are sequences of records, with the newest record first wherever the code orders by recency. A Django `.filter(...).first()` is a first-match search. Everything the code obtains from outside is a parameter, bundled in `Host.Host`:

- the clock;
- `date.fromisoformat`;
- UUID parsing;
- the SHA-256 payload hash;
- `normalize_payload`'s JSON round trip;
- `normalize_qty_unit`;
- the storage file name;
- `str()` of lists and dicts;
- Django's `parse_datetime`, which gives a time, nothing, or the `ValueError` it raises for well-formed text that is not a valid date and time;
- `json.loads` of a text data column.

So are the fiches database reads.

The model keeps these behaviours of the code as written:

- No supplier-code matching runs between expansion and aggregation, so aggregated rows carry no procurement code.
- A nested recipe reached with a non-positive quantity becomes a plain leaf ingredient, with no warning (`Expansion.NonPositiveQuantityIsLeaf`).
- A menu sync deletes the entries of its (site, date) key and also all of the site's sentinel-date (permanent) entries (backend/apps/core/api/v1/views.py:260-261; `MenuSync.Sync`).
- The legacy `carta*` fallback date is the latest one overall, and it is not bounded by the target date.

## Model

| member | source | states |
|---|---|---|
| ImportBatches.NewestAmong | backend/apps/integration/import_batches.py:15-24 | The batch `order_by("-started_at").first()` picks among the first n: none exactly when no completed batch matches the triple; otherwise a matching one that no other matching batch started after, and the last created among those started at the same instant |
| ImportBatches.FindCompleted | backend/apps/integration/import_batches.py:12-24 | An empty key finds nothing; a found batch is COMPLETED and matches; nothing found means no batch in the log is replayable for the triple; the found batch is the newest such |
| ImportBatches.StartBatch | backend/apps/integration/import_batches.py:27-34 | Appends exactly one STARTED, unfinished batch with the given source and type, the key or none for an empty key, and the normalized payload; the earlier log is untouched |
| ImportBatches.Finish | backend/apps/integration/import_batches.py:37-54 | Only batch i changes, and of it only status, finish time, result and update time |
| ImportBatches.CompleteBatch | backend/apps/integration/import_batches.py:37-44 | Batch i becomes COMPLETED, finished now, with result status_code and normalized data; every other batch is unchanged |
| ImportBatches.FailBatch | backend/apps/integration/import_batches.py:47-54 | Batch i becomes FAILED, finished now, with result status_code and normalized errors; every other batch is unchanged |
| ImportBatches.ReplayOf | backend/apps/purchasing/api/v1/views.py:24-26 | A replay answers the stored data (an empty object when missing) with the stored status (200 when missing) |
| ImportBatches.CompletedBatchReplays | backend/apps/integration/import_batches.py:37-44 | Completing with a status and data and then replaying gives back exactly that status and the normalized data |
| ImportBatches.StartThenCompleteIsFound | backend/apps/integration/import_batches.py:12-44 | With a non-empty key and a clock that did not run backwards, the batch just started and completed is the one the next lookup finds |
| ImportBatches.StartThenFailIsNotFound | backend/apps/integration/import_batches.py:12-54 | Starting and then failing a batch leaves every lookup as it was before |
| ImportBatches.FindIgnoresUnreplayableLast | backend/apps/integration/import_batches.py:15-24 | Appending a batch that is not a completed match changes no lookup |
| ImportBatches.NewestAmongPrefix | backend/apps/integration/import_batches.py:15-24 | The newest among the first n batches depends only on those n |
| BatchHandlers.Attempt | backend/apps/purchasing/api/v1/views.py:28-43 | A non-replayed request leaves exactly one new batch, COMPLETED with a replayable status and data on success, FAILED with its status otherwise |
| BatchHandlers.SuccessIsReplayed | backend/apps/purchasing/api/v1/views.py:23-40 | After a successful attempt under a non-empty key the next lookup finds that batch and replays its status and normalized data |
| BatchHandlers.FailureIsNotReplayed | backend/apps/purchasing/api/v1/views.py:30-43 | After a failed attempt every lookup gives what it gave before, so a retry is not answered from the failure |
| BatchHandlers.Replayed | backend/apps/purchasing/api/v1/views.py:24-26 | A replay responds with the batch's stored status and data |
| BatchHandlers.GoodsReceiptCreate | backend/apps/purchasing/api/v1/views.py:13-43 | Without the header: 400 with the required-key detail and an unchanged log; with a completed batch for the key: its replay and an unchanged log; otherwise one new batch, completed with 201 on save, failed with 400 and the errors when invalid, failed with 500 on an exception |
| BatchHandlers.GoodsReceiptRepeatReplays | backend/apps/purchasing/api/v1/views.py:23-40 | A second post under the key of a saved first one replays the first status and data and adds no batch, whatever its body |
| BatchHandlers.GoodsReceiptRetryAfterFailure | backend/apps/purchasing/api/v1/views.py:28-43 | A retry after an invalid or failed first post is not a replay: it starts a new batch |
| BatchHandlers.PosSalesCreate | backend/apps/pos/api/v1/views.py:14-41 | Without the header: a validation error on `idempotency_key` and no batch; a completed batch is replayed; otherwise one batch, completed with 201 or failed with 400 or 500 |
| BatchHandlers.PosSalesRepeatReplays | backend/apps/pos/api/v1/views.py:21-35 | A repeated POS post under the key of a saved one is a replay that adds no batch |
| BatchHandlers.ImporterFor | backend/apps/integration/api/v1/views.py:81 | The goods-receipt importer is chosen exactly for the `goods_receipt` target, the invoice importer otherwise |
| BatchHandlers.IngestCreate | backend/apps/integration/api/v1/views.py:52-94 | A completed `(ocr, target, key)` batch is replayed with the log unchanged; otherwise one batch whose payload records the document id, extraction id and payload, finished by the importer's outcome |
| BatchHandlers.FailureDetail | backend/apps/integration/api/v1/views.py:136-137 | The result's `detail`, or "Import failed" when it has none |
| BatchHandlers.FichesImport | backend/apps/integration/api/v1/views.py:122-142 | Replay when a completed batch exists; otherwise one batch, failed with 400 and the detail when the import is not ok, completed with 201 and the result when ok, failed with 500 on an exception |
| BatchHandlers.SnapshotImportKey | backend/apps/integration/api/v1/views.py:116-120 | Never empty: the body key, else the header key, else `fiches-snapshots:<query>:<limit>` |
| BatchHandlers.SnapshotImportPost | backend/apps/integration/api/v1/views.py:110-142 | The shared import tail under `(fiches, recipe_snapshot, key)` with the chosen key |
| BatchHandlers.CatalogImportKey | backend/apps/integration/api/v1/views.py:150-154 | Never empty: the body key, else the header key, else `fiches-catalog` |
| BatchHandlers.CatalogImportPost | backend/apps/integration/api/v1/views.py:146-175 | The shared import tail under `(fiches, supplier_catalog, key)` with the chosen key |
| BatchHandlers.SnapshotImportRepeatReplays | backend/apps/integration/api/v1/views.py:116-139 | Two keyless snapshot imports with the same query and limit share the derived key, so the second one after a successful first is a replay that adds no batch |
| BatchHandlers.TitleListLimit | backend/apps/integration/api/v1/views.py:100-103 | `int()` of the parameter when it parses, 30 when it is missing or not an integer |
| BatchHandlers.TitleListLimitOfInt | backend/apps/integration/api/v1/views.py:100-103 | Any integer written in decimal reads back as itself |
| BatchHandlers.TitleListQuery | backend/apps/integration/api/v1/views.py:99 | The query is stripped, and empty when missing |
| RequestValidators.NormalizedCodeStripped | backend/apps/core/api/v1/serializers.py:18-22 | Upper-casing and replacing spaces keeps a stripped code stripped |
| RequestValidators.ValidateCode | backend/apps/core/api/v1/serializers.py:18-22 | Rejected exactly when the code is blank; otherwise the result has the stripped length, is stripped, holds no space, and is the upper-cased stripped code with spaces as underscores |
| RequestValidators.BlankCodeRejected | backend/apps/core/api/v1/serializers.py:19-21 | A whitespace-only code is rejected |
| RequestValidators.ValidateCodeIdempotent | backend/apps/core/api/v1/serializers.py:18-22 | A normalized code normalizes to itself |
| RequestValidators.ValidateDocument | backend/apps/integration/api/v1/serializers.py:34-38 | Rejected on `file` exactly when the source (default upload) is upload and no file is given; otherwise the input passes unchanged |
| RequestValidators.CreateDocument | backend/apps/integration/api/v1/serializers.py:40-50 | Name, content type and size come from the file; a storage path is recorded exactly when a named file is given, and it is the name storage assigned |
| RequestValidators.ValidUploadIsStored | backend/apps/integration/api/v1/serializers.py:34-50 | A validated upload always gets a storage path |
| RequestValidators.FindExtraction | backend/apps/integration/api/v1/serializers.py:90-95 | None exactly when no extraction of the document has the id; otherwise one with that id |
| RequestValidators.IngestFieldErrors | backend/apps/integration/api/v1/serializers.py:72-77 | An error on `idempotency_key` exactly when it is blank or over 255 characters once trimmed, with DRF's blank or max-length message; an `invalid_choice` error on `target` exactly when it is given and is not `goods_receipt` or `invoice` (the empty text included); no errors exactly when the fields are valid |
| RequestValidators.ValidateIngestAttrs | backend/apps/integration/api/v1/serializers.py:80-108 | A mismatching target is rejected on `target`; accepted exactly when the target matches or defaults and the extraction is the document's, succeeded, and holds a non-empty object; any other rejection names `extraction_id` |
| RequestValidators.ValidateIngest | backend/apps/integration/api/v1/serializers.py:72-108 | Invalid fields give their field errors before `validate` runs; a valid choice other than the document's type is rejected on `target`; accepted exactly when the fields are valid, the target is absent or the document's type, and the extraction is ingestible; the accepted key is trimmed |
| RequestValidators.ForeignExtractionRejected | backend/apps/integration/api/v1/serializers.py:90-95 | An extraction that is not the document's is never accepted |
| RequestValidators.ValidateSnapshotImport | backend/apps/integration/api/v1/serializers.py:111-114 | Accepted exactly when the limit is absent or in 1..5000; the limit defaults to 500; query and key are stripped and default to empty |
| RequestValidators.FindById | backend/apps/pos/api/v1/serializers.py:30-38 | None exactly when no record has the id; otherwise one with that id |
| RequestValidators.PosFieldErrors | backend/apps/pos/api/v1/serializers.py:10-20 | `lines` is reported exactly when missing and `payload` exactly when null, with DRF's messages, and nothing else |
| RequestValidators.ValidatePosImport | backend/apps/pos/api/v1/serializers.py:8-47 | The field errors come first, all together; accepted exactly when `lines` is given, `payload` is not null, site and source exist and the source belongs to the site; an unknown site is rejected on `site_id`; the result carries those records, the lines and the payload |
| RequestValidators.NullPosPayloadRejected | backend/apps/pos/models.py:29 | A `payload` of JSON null is rejected on the `payload` field with "This field may not be null." |
| RequestValidators.CreateSalesRecord | backend/apps/pos/api/v1/serializers.py:49-54 | The lines end up under `payload["lines"]`, and every other payload key is kept |
| RequestValidators.RequiredText | backend/apps/core/api/v1/serializers.py:44-46 | Accepted exactly when the trimmed text is non-blank and within the maximum length; the value is the trimmed text |
| MenuSync.ItemErrors | backend/apps/core/api/v1/serializers.py:43-51 | No error exactly when no field failed; each of space key, section, title and metadata is listed exactly when it failed |
| MenuSync.ValidateSyncItem | backend/apps/core/api/v1/serializers.py:43-51 | Valid exactly when space key and title pass and the metadata is not null; values are trimmed; the quantity defaults to 1; the section is kept when given; a valid item's metadata is never null; each failing field is reported exactly when it fails |
| MenuSync.NullMetadataRejected | backend/apps/core/api/v1/serializers.py:51 | An item whose `metadata` is JSON null is rejected, with the metadata field among the errors |
| MenuSync.ValidateSyncItems | backend/apps/core/api/v1/serializers.py:57 | Valid exactly when every item is, with one validated item per input in order |
| MenuSync.RequestErrors | backend/apps/core/api/v1/serializers.py:54-57 | No error exactly when no field failed; each field is listed exactly when it failed |
| MenuSync.ValidateSyncRequest | backend/apps/core/api/v1/serializers.py:54-57 | Valid exactly when all three fields are present and parse; each failing field is reported exactly when it fails |
| MenuSync.InferredMode | backend/apps/core/api/v1/views.py:250-251 | Permanent exactly for a `carta*` space key, and never recurring weekly |
| MenuSync.PrepareItem | backend/apps/core/api/v1/views.py:248-253 | The metadata always carries a `schedule_mode`; an item with a supported mode is unchanged; otherwise the inferred mode is written |
| MenuSync.PrepareItemIdempotent | backend/apps/core/api/v1/views.py:248-253 | Preparing twice is preparing once, and the written mode reads back as the item's mode |
| MenuSync.ToEntry | backend/apps/core/api/v1/views.py:263-292 | The stored entry has the site and the date; the item's space key, title, fiche id, quantity, sort order and active flag; its section when non-blank, none otherwise; its metadata when truthy, `{}` otherwise |
| MenuSync.NewEntries | backend/apps/core/api/v1/views.py:255-297 | Every new entry belongs to the site at the sentinel date or the request date |
| MenuSync.Sync | backend/apps/core/api/v1/views.py:260-297 | The entries of other sites and dates keep their multiplicity, and the entries of the site at the sentinel date and the request date are exactly the new ones |
| MenuSync.SyncKeepsOthers | backend/apps/core/api/v1/views.py:260-261 | No entry of another site or date is lost or duplicated |
| MenuSync.SyncReplaces | backend/apps/core/api/v1/views.py:260-297 | The replaced site and dates afterwards hold exactly the new entries |
| MenuSync.SyncIdempotent | backend/apps/core/api/v1/views.py:260-297 | Repeating a sync with the same items changes nothing |
| MenuSync.PreparedEntryMode | backend/apps/core/api/v1/views.py:248-253 | The stored entry's explicit mode is read back by the resolver as the item's mode |
| MenuSync.NewEntryOrigin | backend/apps/core/api/v1/views.py:255-292 | Every new entry is the stored form of some submitted item, at the sentinel date or the request date |
| MenuSync.StoredItemMode | backend/apps/core/api/v1/views.py:255-258 | A stored item resolves to its mode, and goes to the sentinel date exactly when that mode is not date-specific |
| MenuSync.SyncedEntriesCarryTheirMode | backend/apps/core/api/v1/views.py:248-292 | Every new entry carries a supported explicit mode; permanent and weekly ones sit at the sentinel date, date-specific ones at the request date |
| MenuSync.SyncStoresEveryItem | backend/apps/core/api/v1/views.py:263-292 | One new entry per submitted item |
| MenuSync.PostSync | backend/apps/core/api/v1/views.py:236-308 | An unknown site gives 404 and leaves the store alone; a known site with an item whose `sort_order` is negative or above 2147483647 gives 500 with the deletes rolled back; otherwise exactly 201, the synced store, and exactly the entries in effect on the date in that synced store |
| MenuSync.NegativeSortOrderFails | backend/apps/core/models.py:31 | A negative `sort_order`, which the item serializer accepts, makes the whole sync fail with 500 |
| MenuSync.SyncedDatedItemReported | backend/apps/core/api/v1/views.py:260-308 | In a sync whose sort orders fit the column, an active dated item that applies on the request date appears in the response |
| MenuSync.GetMenu | backend/apps/core/api/v1/views.py:223-234 | 400 exactly when site or date is missing or empty or the date does not parse; then a 500 exactly when the site text is not a UUID (the site filter raises); otherwise 200, the store unchanged, and the entries in effect for the parsed site and date |
| Schedule.ModeOfName | backend/apps/core/api/v1/views.py:21-30 | Recognizes exactly the three mode names |
| Schedule.ParseMode | backend/apps/core/api/v1/views.py:156-158 | A mode is read exactly from a string whose stripped lower-case form is a mode name |
| Schedule.ModeNameParses | backend/apps/core/api/v1/views.py:156-158 | A mode name stored as a string reads back as that mode |
| Schedule.ModeNameInjective | backend/apps/core/api/v1/views.py:21-30 | The three mode names are distinct |
| Schedule.ResolveScheduleMode | backend/apps/core/api/v1/views.py:154-163 | An explicit supported mode wins; otherwise permanent or date-specific, never recurring weekly |
| Schedule.ParseIsoDate | backend/apps/core/api/v1/views.py:76-84 | A falsy value is no date |
| Schedule.AliasDay | backend/apps/core/api/v1/views.py:87-151 | The first day from `from` whose alias list holds the text; none exactly when no day has it |
| Schedule.DayNumber | backend/apps/core/api/v1/views.py:87-151 | A number is a weekday exactly when it is 0..7, and 7 reads as Sunday |
| Schedule.WeekdayOf | backend/apps/core/api/v1/views.py:87-151 | Any value read is a day 0..6 |
| Schedule.DaysNamed | backend/apps/core/api/v1/views.py:87-151 | Strictly increasing days, exactly those named |
| Schedule.NormalizeWeekdays | backend/apps/core/api/v1/views.py:87-151 | Sorted, duplicate-free days 0..6, exactly those some item names |
| Schedule.IsApplicable | backend/apps/core/api/v1/views.py:166-184 | An applicable entry is inside its window; a permanent entry applies exactly within the window; a date-specific one exactly within the window on its own date; a recurring one exactly within the window when its weekday list is empty or names the target's weekday |
| Schedule.ApplicableWithinWindow | backend/apps/core/api/v1/views.py:166-184 | An applicable entry is inside its validity window |
| Schedule.DateSpecificAppliesOnlyOnItsDate | backend/apps/core/api/v1/views.py:166-184 | A date-specific entry applies exactly on its own date within the window |
| Schedule.PermanentAppliesThroughoutWindow | backend/apps/core/api/v1/views.py:166-184 | A permanent entry applies exactly within its window |
| Schedule.RecurringWeeklyRule | backend/apps/core/api/v1/views.py:166-184 | A weekly entry applies exactly within its window on one of its weekdays, or on any day when it lists none; without a window it recurs every seven days |
| Schedule.LatestLegacyDate | backend/apps/core/api/v1/views.py:200-206 | None exactly without legacy candidates; otherwise the date of one, not before any other |
| Schedule.DatedPool | backend/apps/core/api/v1/views.py:188-192 | Sorted, holding exactly the site's active entries of the target date with their multiplicity |
| Schedule.PermanentPool | backend/apps/core/api/v1/views.py:193-197 | Sorted, holding exactly the site's active sentinel-date entries with their multiplicity |
| Schedule.LegacyPool | backend/apps/core/api/v1/views.py:198-215 | Empty when there is a permanent pool; sorted; exactly the legacy candidates on the latest legacy date |
| Schedule.PoolsFromStore | backend/apps/core/api/v1/views.py:187-221 | Every pooled entry is from the store |
| Schedule.ApplicableIn | backend/apps/core/api/v1/views.py:216-220 | The applicable entries of a pool, each as often as the pool holds it; an ordered pool stays ordered |
| Schedule.EffectiveEntries | backend/apps/core/api/v1/views.py:187-221 | Only active entries of the site that apply on the target, all from the store, each counted as often as its pools hold it |
| Schedule.EffectiveEntriesInPoolOrder | backend/apps/core/api/v1/views.py:216-221 | The result is the applicable permanent entries, then the applicable legacy entries, then the applicable dated entries, each run ordered by (space_key, sort_order, title) |
| Schedule.PermanentEntryMultiplicity | backend/apps/core/api/v1/views.py:187-221 | An applicable permanent entry is reported once per stored copy, twice when the target is the sentinel date |
| Schedule.DatedEntryReported | backend/apps/core/api/v1/views.py:187-221 | An active dated entry of the site that applies on the target is reported |
| Snapshots.LatestForProduct | backend/apps/core/api/v1/views.py:314-319 | The newest snapshot of the product, none exactly when it has none |
| Snapshots.ResolveForIngredientTitle | backend/apps/core/api/v1/views.py:332-336 | None for a blank name; otherwise the newest snapshot whose title equals the stripped name up to case, none exactly when no title does |
| Snapshots.ResolveForEntry | backend/apps/core/api/v1/views.py:313-329 | The product's newest snapshot when there is one; otherwise the exact-title pass, then the substring pass; the result is from the store |
| Snapshots.ExactTitleIsContained | backend/apps/core/api/v1/views.py:326-329 | An equal title is also a containing title |
| Snapshots.ResolvedByTitle | backend/apps/core/api/v1/views.py:323-329 | Without a product match the resolved snapshot's title contains the entry's stripped title |
| Snapshots.ExactTitleWins | backend/apps/core/api/v1/views.py:326-328 | An entry with a snapshot of its exact title resolves to an exact-title snapshot, whatever other titles contain it |
| Ingredients.ToDecimal | backend/apps/core/services/service_ingredients.py:7-15 | None and non-decimal text read as 0; integers and decimal texts as their value |
| Ingredients.UnitSuffixReadsAsZero | backend/apps/core/services/service_ingredients.py:7-15 | "130 g" reads as 0 |
| Ingredients.FirstTruthy | backend/apps/core/services/service_ingredients.py:31-48 | The default when nothing is truthy; otherwise the first truthy value |
| Ingredients.Lookups | backend/apps/core/services/service_ingredients.py:31-48 | One value per key, in order |
| Ingredients.Candidates | backend/apps/core/services/service_ingredients.py:19-25 | The top-level list when `ingredients` is a list, else the nested ones in order, else empty |
| Ingredients.FirstTruthyIsAliasChain | backend/apps/core/services/service_ingredients.py:31-48 | The first truthy value over the keys is what Python's `get(k0) or get(k1) or ... or default` chain gives |
| Ingredients.IngredientName | backend/apps/core/services/service_ingredients.py:31-37 | Per key, in the order `name`, `title`, `ingredient`, `product_name`: the first truthy one, stripped; "" when none is truthy |
| Ingredients.IngredientQty | backend/apps/core/services/service_ingredients.py:40-46 | Per key, in the order `quantity`, `qty`, `amount`, `value`: the first truthy one read as a decimal; 0 when none is truthy |
| Ingredients.IngredientUnit | backend/apps/core/services/service_ingredients.py:47 | Per key, in the order `unit`, `uom`, `qty_unit`: the first truthy one, stripped; "pc" when none is truthy |
| Ingredients.IngredientSupplier | backend/apps/core/services/service_ingredients.py:48 | Per key, in the order `supplier`, `supplier_name`, `vendor`: the first truthy one, stripped; "" when none is truthy |
| Ingredients.ToIngredient | backend/apps/core/services/service_ingredients.py:31-55 | Each field as the four per-field readers give it; every text field is stripped |
| Ingredients.ExtractIngredients | backend/apps/core/services/service_ingredients.py:18-57 | One ingredient per named object item, in order |
| Ingredients.ExtractAllNamed | backend/apps/core/services/service_ingredients.py:28-57 | With every item named, one ingredient per item, in order |
| Ingredients.ExtractNoneNamed | backend/apps/core/services/service_ingredients.py:28-39 | No named item gives no ingredient |
| Ingredients.WhitespaceNameKept | backend/apps/core/services/service_ingredients.py:31-51 | A whitespace-only name is truthy, so the item is kept with an empty name |
| Expansion.Multiplier | backend/apps/core/api/v1/views.py:450-451 | Divides by positive portions and keeps the quantity otherwise |
| Expansion.Leaf | backend/apps/core/api/v1/views.py:403-413 | The leaf keeps name, supplier and derived title, with quantity and unit through the unit normaliser |
| Expansion.Expand | backend/apps/core/api/v1/views.py:353-414 | No ingredients give nothing; past depth 6 one depth warning; otherwise at least one line per ingredient; every line has a supplier and the derived title given or a nested snapshot's; every warning is a depth or cycle warning. The quantities are stated per ingredient by `ExpandOne`, and for recipes without nested ones by `ExpandFlat` |
| Expansion.ExpandItems | backend/apps/core/api/v1/views.py:371-414 | At least one line per ingredient, with the same supplier, title and warning guarantees |
| Expansion.ExpandOne | backend/apps/core/api/v1/views.py:372-413 | At least one line, with the same supplier, title and warning guarantees. A nested recipe found by name, closing no cycle and reached with a positive `qty * multiplier`, is expanded one level deeper at `qty * multiplier / portions` (or `qty * multiplier` without positive portions), with its product added to the branch's visited set and the outer derived title or else its own; its lines replace the ingredient, and when it yields none the ingredient's leaf is kept together with the nested warnings |
| Expansion.NestedVisited | backend/apps/core/api/v1/views.py:388-390 | The nested branch's visited set contains the outer one, plus the nested product when it has a key |
| Expansion.NestedDerived | backend/apps/core/api/v1/views.py:397 | The outer derived title when there is one, else the nested recipe's title |
| Expansion.ExpandNested | backend/apps/core/api/v1/views.py:385-401 | Nested lines carry the outer derived title, or at the top level the nested recipe's |
| Expansion.ExpandFlat | backend/apps/core/api/v1/views.py:362-414 | A recipe none of whose ingredients names a snapshot, within the depth bound, gives one leaf per ingredient in order, each the ingredient's quantity times the multiplier through the unit normaliser, and no warning |
| Expansion.ExpandItemsFlat | backend/apps/core/api/v1/views.py:371-414 | When no ingredient names a snapshot, the result is one leaf per ingredient in order, without warnings |
| Expansion.CycleBecomesLeaf | backend/apps/core/api/v1/views.py:377-383 | A recipe already on the branch becomes a leaf with one cycle warning |
| Expansion.SelfReferenceStops | backend/apps/core/api/v1/views.py:377-383 | A recipe that names itself stops after one leaf and a cycle warning |
| Expansion.NonPositiveQuantityIsLeaf | backend/apps/core/api/v1/views.py:385-413 | A nested recipe is entered only with a positive quantity; otherwise a leaf and no warning |
| Expansion.DerivedTitlePropagates | backend/apps/core/api/v1/views.py:391-411 | Below a titled recipe every line keeps that title and is `derived_recipe` |
| Tally.AddTo | backend/apps/core/api/v1/views.py:465 | Adding q to k adds q to k's total and leaves every other total alone; keys stay unique; a new key is appended |
| Tally.Aggregate | backend/apps/core/api/v1/views.py:465 | Unique keys, each total the sum of that key's quantities |
| Tally.AggregateKeys | backend/apps/core/api/v1/views.py:465 | The tally's keys are exactly the pairs' keys |
| Aggregation.RecipeIngredientOf | backend/apps/core/api/v1/views.py:466-475 | Same quantity, ingredient, unit, source type and supplier as the line's key; no recipe title exactly for a direct line |
| Aggregation.PairKeysAreLineKeys | backend/apps/core/api/v1/views.py:465 | The pairs' keys are the lines' keys |
| Aggregation.SortedAggregate | backend/apps/core/api/v1/views.py:500-503 | A sorted permutation of the insertion-ordered tally |
| Aggregation.SortedAggregateFacts | backend/apps/core/api/v1/views.py:434-503 | Unique keys, each entry the sum of a line key, and every line's key present |
| Aggregation.SupplierRows | backend/apps/core/api/v1/views.py:491-504 | One row per sorted tally entry, carrying its key and sum |
| Aggregation.SupplierRowsSum | backend/apps/core/api/v1/views.py:465-504 | Each row's quantity is the sum of its key over the lines, and its key is some line's |
| Aggregation.SupplierRowsCover | backend/apps/core/api/v1/views.py:465-504 | Every line's key has a row |
| Aggregation.SupplierRowsOrdered | backend/apps/core/api/v1/views.py:500-503 | No two rows share a key, and rows are in supplier, ingredient, source type, title order |
| Aggregation.SupplierRowsStable | backend/apps/core/api/v1/views.py:500-503 | Rows whose keys differ only in unit keep first-insertion order |
| Aggregation.SupplierRowsCoverLines | backend/apps/core/api/v1/views.py:491-504 | Any line gives a row |
| Aggregation.ProcessEntry | backend/apps/core/api/v1/views.py:437-486 | An entry that does not apply contributes nothing, not even a warning; an applicable entry yields a recipe row or a warning; at most one row, present exactly with lines; the missing snapshot and missing portions warnings; lines only for applicable entries with portions and a snapshot; an applicable entry with a snapshot is exactly that snapshot's processing |
| Aggregation.RootVisited | backend/apps/core/api/v1/views.py:452-453 | The root recipe's visited set holds its product key when it has one, and nothing else |
| Aggregation.ProcessSnapshot | backend/apps/core/api/v1/views.py:445-486 | A recipe row or a warning; non-positive planned portions give only their warning; otherwise the lines and warnings are those of expanding the snapshot at `planned / portions` (or `planned` without positive portions) from its own product at depth 0, plus the no-ingredients warning when there is no line; the row carries space, section, title, planned and recipe portions (none unless positive) |
| Aggregation.FlatRecipeScaled | backend/apps/core/api/v1/views.py:445-456 | A planned recipe none of whose ingredients names a snapshot gives one leaf per ingredient in order, each scaled by `planned / portions` (or `planned`), and warns only when it has no ingredient |
| Aggregation.ProcessAll | backend/apps/core/api/v1/views.py:437-486 | At most one recipe row per entry, and rows exactly when there are lines |
| Aggregation.ProcessAllAccounts | backend/apps/core/api/v1/views.py:437-486 | When every entry is in effect, warnings plus recipe rows are at least the number of entries |
| Aggregation.ServiceIngredients | backend/apps/core/api/v1/views.py:416-505 | 400 with the required-params message when site or date is missing; a 400 exactly when they are missing or the date does not parse; then a 500 exactly when the site text is not a UUID (the site filter raises); otherwise the report for the parsed site and date |
| Aggregation.IngredientsFor | backend/apps/core/api/v1/views.py:428-505 | The no-entries warning exactly without entries in effect; `view=recipe` gives the recipe rows, any other view the supplier rows; warnings are the entries' in order |
| Aggregation.ParseIsoDateOfText | backend/apps/core/api/v1/views.py:339-348 | A non-empty query value parses as the date it spells |
| Aggregation.EveryEffectiveEntryAccounted | backend/apps/core/api/v1/views.py:416-505 | Each entry the menu endpoint reports for the date gets a recipe row or a warning, so an empty supplier view has a warning per entry |
| FichesCommon.SafeIdentifierIsInert | backend/apps/integration/fiches_catalog.py:11 | A safe identifier contains no whitespace, quote, semicolon, parenthesis or dash |
| FichesCommon.SafeIdentifier | backend/apps/integration/fiches_catalog.py:14-18 | The stripped name exactly when it is safe, else the fallback |
| FichesCommon.SafeIdentifierStable | backend/apps/integration/fiches_snapshots.py:18-22 | With a safe fallback the result is safe, and guarding it again keeps it |
| FichesCommon.SafeOptionalIdentifier | backend/apps/integration/fiches_snapshots.py:25-31 | Empty, or the stripped name when it is safe; non-empty exactly when safe |
| FichesCommon.DecimalOfJson | backend/apps/integration/fiches_snapshots.py:34-40 | Integers are their value, texts their decimal reading; other kinds are none |
| FichesCommon.FicheDecimal | backend/apps/integration/fiches_catalog.py:21-27 | None and "" give none; a value only for numbers and decimal texts |
| FichesCommon.FicheDecimalAgreesWithIngredients | backend/apps/core/services/service_ingredients.py:7-15 | The ingredient conversion is the fiches conversion with 0 for none |
| FichesCommon.Clamp | backend/apps/integration/fiches_snapshots.py:142 | The result is within bounds, equal to n inside them and to the nearer bound outside |
| FichesSnapshots.NormalizeV11 | backend/apps/integration/fiches_snapshots.py:48-61 | Exactly the eleven keys; a falsy title becomes "" |
| FichesSnapshots.NormalizeV11ListFields | backend/apps/integration/fiches_snapshots.py:48-61 | A falsy list field becomes `[]`, a truthy one is copied |
| FichesSnapshots.NormalizeV11PlainFields | backend/apps/integration/fiches_snapshots.py:48-61 | The other fields are copied, None when missing |
| FichesSnapshots.NormalizeV11Idempotent | backend/apps/integration/fiches_snapshots.py:48-61 | Normalizing twice is normalizing once |
| FichesSnapshots.Step | backend/apps/integration/fiches_snapshots.py:83-117 | Each fiche is counted once, and the store only grows |
| FichesSnapshots.Run | backend/apps/integration/fiches_snapshots.py:83-117 | Every fiche is counted once; the store grows by exactly the created ones; the examples are the labels of the first five fiches created, in order |
| FichesSnapshots.RunStepLabels | backend/apps/integration/fiches_snapshots.py:112-115 | One fiche moves the first-five-labels window forward: its label joins only when it is created |
| FichesSnapshots.CreatedStepLabels | backend/apps/integration/fiches_snapshots.py:114-115 | A label is appended only while fewer than five are kept, which leaves the first five labels unchanged |
| FichesSnapshots.KeysAppend | backend/apps/integration/fiches_snapshots.py:101-111 | Storing a snapshot adds exactly its (fiche id, hash) key |
| FichesSnapshots.RunStoresEveryFiche | backend/apps/integration/fiches_snapshots.py:83-117 | After the run every well-formed fiche's key is stored |
| FichesSnapshots.KeysGrow | backend/apps/integration/fiches_snapshots.py:101-111 | Extending a store keeps every key |
| FichesSnapshots.RunKeepsKeysUnique | backend/apps/integration/fiches_snapshots.py:101-117 | The (fiche id, hash) keys stay unique |
| FichesSnapshots.RunStoredCreatesNothing | backend/apps/integration/fiches_snapshots.py:101-117 | When every key is stored, nothing is created and the store is unchanged |
| FichesSnapshots.ResultJson | backend/apps/integration/fiches_snapshots.py:119-127 | `ok` is truthy exactly for a successful import; a failure carries its detail, and a raised import the exception's text |
| FichesSnapshots.Finish | backend/apps/integration/fiches_snapshots.py:83-127 | Counters add up to the total read; the examples are the labels of the first five fiches created, in order; the store grows by the created ones |
| FichesSnapshots.FirstRaise | backend/apps/integration/fiches_snapshots.py:83-117 | The first fiche whose read raises: every earlier read succeeded, and it is the count exactly when none raises |
| FichesSnapshots.FinishReads | backend/apps/integration/fiches_snapshots.py:83-127 | With no read raising, the counters of the whole run; otherwise the first exception, with the store grown by exactly the snapshots created before it and holding every earlier fiche; the earlier store is kept either way |
| FichesSnapshots.StoredBeforeRaise | backend/apps/integration/fiches_snapshots.py:83-117 | The fiches before the first raise leave the store grown by the ones created, with every one of them stored |
| FichesSnapshots.ParseV11 | backend/apps/integration/fiches_snapshots.py:83-99 | Non-objects are invalid payloads, bad UUIDs invalid ids; otherwise the `ValueError` exactly when `updated_at` is truthy and `parse_datetime` raises on it, else the normalized payload with its hash, the parsed time (none for a falsy or unparsable `updated_at`) and the title or id as label |
| FichesSnapshots.CheckEnvelope | backend/apps/integration/fiches_snapshots.py:65-75 | A version other than "1.1" is rejected first; accepted exactly for valid envelopes, giving their fiches |
| FichesSnapshots.ImportEnvelope | backend/apps/integration/fiches_snapshots.py:64-127 | Rejects a wrong version first; fails exactly for envelopes not accepted, leaving the store unchanged; raises when an accepted envelope has a fiche whose `updated_at` raises, and is ok otherwise (exactly so, leaving aside the column-limit write errors listed under Left out); the earlier store is always kept |
| FichesSnapshots.ImportEnvelopeCounts | backend/apps/integration/fiches_snapshots.py:83-127 | An accepted envelope raises or reads every fiche once, counting each once, with at most five examples |
| FichesSnapshots.ImportEnvelopeTwice | backend/apps/integration/fiches_snapshots.py:101-117 | A second import of the same envelope creates nothing |
| FichesSnapshots.FinishTwice | backend/apps/integration/fiches_snapshots.py:101-117 | Rerunning the fiches against the resulting store creates nothing |
| FichesSnapshots.ParseRow | backend/apps/integration/fiches_snapshots.py:167-206 | A bad id is an invalid id; a payload that is not an object (after `json.loads` of text) an invalid payload; otherwise the `ValueError` exactly when a non-empty text `updated_at` fails `parse_datetime`, else the object payload with its hash and the parsed time |
| FichesSnapshots.ImportFromDatabase | backend/apps/integration/fiches_snapshots.py:130-216 | Not configured and read failures import nothing, with their details; for rows read with the stripped query and the limit clamped to 1..5000, the import raises when a row's `updated_at` raises and is ok otherwise (exactly so, leaving aside the column-limit write errors listed under Left out), counting every row once; the earlier store is kept |
| FichesCatalog.AliasOfIsCanonical | backend/apps/integration/fiches_catalog.py:30-44 | The alias table maps a known unit to itself and anything else to `pc` |
| FichesCatalog.NormalizeUom | backend/apps/integration/fiches_catalog.py:30-44 | Always a known unit: the stripped lower-case unit when known, else `pc` |
| FichesCatalog.UomIsCanonical | backend/apps/integration/fiches_catalog.py:30-44 | A known unit reads back as itself |
| FichesCatalog.NormalizeUomIdempotent | backend/apps/integration/fiches_catalog.py:30-44 | Normalizing a normalized unit changes nothing |
| FichesCatalog.WithKeys | backend/apps/integration/fiches_catalog.py:96-99 | For stored metadata that is an object, its keys plus the new ones, with new values winning and old ones kept; falsy metadata counts as `{}` (a truthy non-object is listed under Left out) |
| FichesCatalog.CreateSupplier | backend/apps/integration/fiches_catalog.py:88-94 | The write when the requested id is free: one supplier appended, created +1, names kept, the id mapped to it |
| FichesCatalog.UpdateSupplier | backend/apps/integration/fiches_catalog.py:95-103 | Updated +1, same size and names, the id mapped to the found supplier |
| FichesCatalog.SupplierStep | backend/apps/integration/fiches_catalog.py:78-103 | Blank names are skipped; a found name updates and creates nothing; names never change |
| FichesCatalog.SupplierRun | backend/apps/integration/fiches_catalog.py:78-103 | Created plus updated grows by the named rows; names are kept |
| FichesCatalog.SupplierRerun | backend/apps/integration/fiches_catalog.py:78-103 | Rerunning against the produced names creates nothing, cannot collide, and maps ids to the same suppliers |
| FichesCatalog.SupplierRerunStep | backend/apps/integration/fiches_catalog.py:78-103 | One row of the rerun finds the same supplier and creates nothing |
| FichesCatalog.IncomingOf | backend/apps/integration/fiches_catalog.py:105-119 | A known unit, the stripped name and the supplier's key |
| FichesCatalog.Upsert | backend/apps/integration/fiches_catalog.py:121-150 | Supplier, name and unit are set and the product is active; code and pack quantity are replaced only when given; a new product takes the row's id with no traceability or allergens; an existing one keeps them |
| FichesCatalog.Existing | backend/apps/integration/fiches_catalog.py:121 | The first matching product, none exactly when none matches |
| FichesCatalog.CreateProduct | backend/apps/integration/fiches_catalog.py:128-143 | The write when the requested id is free: the product appended, created +1, the others unchanged |
| FichesCatalog.UpdateProduct | backend/apps/integration/fiches_catalog.py:144-151 | The matched product replaced, updated +1, the others unchanged |
| FichesCatalog.ProductStep | backend/apps/integration/fiches_catalog.py:105-151 | Rows without a name or an imported supplier are skipped; a found product creates nothing; keys never change |
| FichesCatalog.ProductStepKeepsOthers | backend/apps/integration/fiches_catalog.py:121-151 | Only the matched product changes |
| FichesCatalog.ProductRun | backend/apps/integration/fiches_catalog.py:105-151 | Created plus updated grows by the applicable rows; keys are kept |
| FichesCatalog.ProductRunRefers | backend/apps/integration/fiches_catalog.py:105-151 | Products refer only to stored suppliers |
| FichesCatalog.ProductRunCovers | backend/apps/integration/fiches_catalog.py:105-151 | Every applicable row has its product afterwards |
| FichesCatalog.ProductRunCreatesNothing | backend/apps/integration/fiches_catalog.py:121-151 | When all products exist, the run only updates and so cannot collide on an id |
| FichesCatalog.SupplierStepKeepsIds | backend/apps/integration/fiches_catalog.py:88-103 | A supplier row that does not collide keeps stored ids distinct |
| FichesCatalog.SupplierRunKeepsIds | backend/apps/integration/fiches_catalog.py:78-103 | A supplier phase without a collision keeps stored ids distinct |
| FichesCatalog.ProductStepKeepsIds | backend/apps/integration/fiches_catalog.py:121-151 | A product row that does not collide keeps stored ids distinct: updates keep the id, creations take a free one |
| FichesCatalog.ProductRunKeepsIds | backend/apps/integration/fiches_catalog.py:105-151 | A product phase without a collision keeps stored ids distinct |
| FichesCatalog.ImportCatalog | backend/apps/integration/fiches_catalog.py:49-163 | Not configured or read failures change nothing and report their messages; aborted when a creation asks for a stored id, and then nothing changes (the only abort modelled: the write errors listed under Left out are not); otherwise suppliers, then products, and the counts |
| FichesCatalog.ImportKeepsWellFormed | backend/apps/integration/fiches_catalog.py:49-163 | Every product keeps pointing at a stored supplier |
| FichesCatalog.ImportKeepsIdsDistinct | backend/apps/integration/fiches_catalog.py:77-151 | An import keeps supplier ids and product ids distinct |
| FichesCatalog.ImportCatalogTwice | backend/apps/integration/fiches_catalog.py:49-163 | After a successful import, a second one of the same tables succeeds and creates nothing; after an aborted one, the second aborts the same way |
| FichesTitles.Repair | backend/apps/integration/fiches_titles.py:35-42 | A text without "Ã" is kept; a changed text held "Ã" and is the UTF-8 reading of its Latin-1 bytes |
| FichesTitles.NormalizeTitleAsWritten | backend/apps/integration/fiches_titles.py:28-42 | None and blank give ""; a stripped text without "Ã" is returned stripped |
| FichesTitles.NormalizeTextAsWritten | backend/apps/integration/fiches_titles.py:31-42 | Blank gives ""; a stripped text without "Ã" is returned stripped |
| FichesTitles.AsWrittenKeepsMojibake | backend/apps/integration/fiches_titles.py:31-41 | The mojibake of "Città" comes out as "CittÃ" |
| FichesTitles.LoneLeadByteRejected | backend/apps/integration/fiches_titles.py:37 | Bytes ending in a lone lead byte are not UTF-8 |
| FichesTitles.NormalizeTitle | backend/apps/integration/fiches_titles.py:28-42 | Corrected: blank gives "", the result is always stripped, and a text without "Ã" is just stripped |
| FichesTitles.NormalizeText | backend/apps/integration/fiches_titles.py:31-42 | Corrected, on the text: blank gives "", always stripped, and without "Ã" just stripped |
| FichesTitles.CorrectedRepairsMojibake | backend/apps/integration/fiches_titles.py:34-39 | Any non-blank title stored as its Latin-1 mojibake normalizes back to the title stripped |
| FichesTitles.NormalizeTitleOfString | backend/apps/integration/fiches_titles.py:28-42 | A string value normalizes as its text |
| FichesTitles.CorrectedTextRepairsMojibake | backend/apps/integration/fiches_titles.py:34-39 | The text-level repair of any mojibake gives back the title stripped |
| FichesTitles.RepairUndoesMojibake | backend/apps/integration/fiches_titles.py:35-39 | The repair inverts the Latin-1 misreading |
| FichesTitles.CorrectedRepairsCitta | backend/apps/integration/fiches_titles.py:34-39 | The corrected normalization turns the mojibake of "Città" into "Città" |
| FichesTitles.NormalizeTitleAgreesWithoutMojibake | backend/apps/integration/fiches_titles.py:28-42 | Both normalizations agree on titles without "Ã" |
| FichesTitles.Candidates | backend/apps/integration/fiches_titles.py:78-80 | The candidate pairs are exactly the (fiche id, title) pairs of the stored snapshots whose title holds the query up to case (all snapshots for an empty query) |
| FichesTitles.SortedPairs | backend/apps/integration/fiches_titles.py:81 | Every matching pair exactly once, sorted by title |
| FichesTitles.SnapshotTitles | backend/apps/integration/fiches_titles.py:78-81 | At most the limit, no repeats, sorted by title, only matching pairs |
| FichesTitles.SnapshotTitlesAreFirstMatches | backend/apps/integration/fiches_titles.py:78-81 | The fallback lists min(limit, number of distinct matching pairs) pairs, and every matching pair it leaves out sorts no earlier than any pair it lists: the first `limit` matches by title |
| FichesTitles.SortedPairsCount | backend/apps/integration/fiches_titles.py:81 | As many sorted pairs as distinct matching pairs |
| FichesTitles.DistinctKeepsOrder | backend/apps/integration/fiches_titles.py:81 | Removing repeats keeps a sorted list sorted |
| FichesTitles.TitleSources | backend/apps/integration/fiches_titles.py:45-86 | The query is stripped and the limit clamped to 1..100 before the read; every listed title value is truthy; at most one per database row, or at most the limit from the fallback |
| FichesTitles.FallbackSources | backend/apps/integration/fiches_titles.py:82-86 | Only pairs with a non-empty title, each with a truthy title |
| FichesTitles.FetchTitles | backend/apps/integration/fiches_titles.py:45-86 | As written: at most one entry per database row, or at most the clamped limit from the fallback |
| FichesTitles.DatabaseTitlesAreRows | backend/apps/integration/fiches_titles.py:66-73 | The i-th entry is the i-th titled row: its id, and its title through `_normalize_title` as written |
| FichesTitles.FallbackTitlesAreSnapshotPairs | backend/apps/integration/fiches_titles.py:78-86 | Without a database answer, the i-th entry is the i-th titled fallback pair: its id as text, and its title through `_normalize_title` as written |
| FichesTitles.FetchTitlesCorrected | backend/apps/integration/fiches_titles.py:45-86 | The listing with the corrected normalization: every title is stripped |
| FichesTitles.FetchTitlesCorrectedAgrees | backend/apps/integration/fiches_titles.py:45-86 | Both listings name the same fiches in the same order, and are equal when no title read holds "Ã" |
| Exceptions.ErrorCode | backend/apps/core/api/exceptions.py:20-29 | 5xx gives `internal_error`, 401 `authentication_failed`, 403 `permission_denied`, 404 `not_found`; any other status the exception's `default_code`, or `api_error` without one |
| Exceptions.CodeRevealsStatus | backend/apps/core/api/exceptions.py:20-29 | A status-fixed code that differs from the exception's default identifies its status class exactly; any other code is the default |
| Exceptions.HandleException | backend/apps/core/api/exceptions.py:6-36 | None exactly when DRF gives none; the same status; the keys are exactly code, detail and field_errors; validation keeps DRF's data as field errors |
| Exceptions.ErrorDetail | backend/apps/core/api/exceptions.py:19-35 | The detail is the object's `detail` as text, or the whole data |
| Exceptions.StatusDecidesCode | backend/apps/core/api/exceptions.py:22-29 | For 5xx, 401, 403 and 404 the code depends only on the status |
| Exceptions.EnvelopeCodes | backend/apps/core/api/exceptions.py:11-35 | Every code is a known one or the exception's default |
| Cors.ResolveOrigin | backend/apps/core/api/cors.py:29-37 | No origin for a missing or empty header; in DEBUG any origin; otherwise exactly the allow-listed ones |
| Cors.Handle | backend/apps/core/api/cors.py:12-27 | A preflight gets 200; other requests get the downstream status; grant headers are added exactly when the origin resolves, and nothing else changes |
| Cors.PreflightIgnoresDownstream | backend/apps/core/api/cors.py:16-19 | A preflight does not depend on the downstream handler |
| Cors.SharedOnlyWithAllowed | backend/apps/core/api/cors.py:21-37 | Outside DEBUG a response is shared only with the allow-listed origin that asked |
| Settings.Lines | backend/config/settings.py:11 | At least one piece, none holding a line break |
| Settings.ParseStripped | backend/config/settings.py:12-17 | Nothing exactly for empty, comment or `=`-less lines; the key is stripped and split at the first `=` |
| Settings.ParseLine | backend/config/settings.py:12-14 | Blank lines give nothing |
| Settings.Defined | backend/config/settings.py:11-18 | Exactly the keys some line defines |
| Settings.SetDefault | backend/config/settings.py:18 | A set variable is kept; an unset one is added, or the call raises when its name is empty or holds NUL, or its value holds NUL |
| Settings.SetDefaults | backend/config/settings.py:11-18 | When no line raises: the environment's keys plus the defined ones, existing values kept, and every newly set name legal; with every parsed line legal, no line raises |
| Settings.LoadDotenv | backend/config/settings.py:8-18 | A missing file changes nothing; a line whose key strips to "" makes loading raise when the empty name is unset; otherwise the defined keys are added and existing values kept |
| Settings.FirstDefinitionWins | backend/config/settings.py:11-18 | When loading does not raise, the first line defining a new key decides its value |
| Settings.Debug | backend/config/settings.py:24 | Unset means true; true needs a four-letter value |
| Settings.DebugIgnoresCase | backend/config/settings.py:24 | DEBUG is on exactly for some capitalisation of "true" |
| Settings.CommaList | backend/config/settings.py:120-130 | Non-empty, stripped, comma-free items |
| Settings.CommaListRoundTrip | backend/config/settings.py:120-130 | Joining good items with commas reads back as the same items |
| Settings.ApiKeys | backend/config/settings.py:120-124 | Non-empty, stripped keys |
| Settings.ApiKeysDefault | backend/config/settings.py:120-124 | Unset gives the single development key |
| Settings.CorsAllowedOrigins | backend/config/settings.py:126-130 | Non-empty, stripped origins |
| Settings.CorsAllowedOriginsDefault | backend/config/settings.py:126-130 | Unset gives the two local origins |

## Left out

- Django ORM, concurrent transactions, `bulk_create` and the HTTP layer are not modelled. Tables are sequences and each request is one pure step. Concurrent requests racing on a unique constraint are not modelled.
- FichesCatalog.CreateSupplier: an id the database generates (for a row whose fiches id is not a UUID) is taken to be fresh. A random UUID that happens to match a stored one is not modelled. The same holds for FichesCatalog.CreateProduct.
- Raw SQL on the fiches database is a parameter: its rows are taken as read. This covers the title search's `SELECT DISTINCT`, `ILIKE`, `ORDER BY` and `LIMIT` (backend/apps/integration/fiches_titles.py:53-63), the snapshot query's ordering and limit, and the catalog's `ORDER BY name`.
- Sorting.SortBy: Django `order_by` on the local tables (menu entries by `space_key`, `sort_order`, `title`; snapshot titles by `title`) is modelled as a stable sort. Strings compare by Unicode code point and equal keys keep store order. PostgreSQL compares text under the database collation and returns equal keys in no fixed order. So the model fixes one order, and it matches the database's only where the collation agrees with code-point order.
- Recency: the snapshot store is assumed to be in newest-first order already. The `-source_updated_at`, `-created_at` ordering is not re-derived, including PostgreSQL placing a missing `source_updated_at` first under a descending order.
- Several things come in as parameters:
  - hashing (SHA-256 of the canonical JSON);
  - UUID parsing;
  - `date.fromisoformat`;
  - `timezone.now()`;
  - the storage backend's file name;
  - `normalize_payload`'s `json.dumps(default=str)` round trip;
  - Django's `parse_datetime`, with its `ValueError` as a third outcome;
  - `json.loads` of a text data column.
- The body of `normalize_qty_unit` (imported by backend/apps/core/api/v1/views.py:18) is not part of this model. It is a host parameter, so no unit-conversion table (such as grams to kilograms) is modelled, and lines carry whatever it returns.
- Python `str()` of lists and dicts is a `show` parameter. Numbers render as in Python for integers, and floats carry their Python text.
- DRF field coercions beyond those listed are not modelled:
  - strings to UUID and dates;
  - numbers to `Decimal` with their precision limits;
  - booleans.
  Validated requests are typed records.
- Exceptions.HandleException: a non-integer `status_code` is not modelled.
- Cors.Handle: response headers are a map with exact-case names. Django's case-insensitive header lookup and the default headers `HttpResponse` adds (such as `Content-Type`) are not modelled (backend/apps/core/api/cors.py:17).
- Settings.Lines: does not state full `str.splitlines` equivalence. It only states that no piece holds a line break.
- Case-insensitive comparisons (`iexact`, `icontains`, `.lower()`, `.upper()`) act on ASCII letters only. Unicode case folding is not modelled.
- Numbers.ParseInt: reads ASCII digits only. Python's `int()` also accepts other Unicode decimal digits (such as Arabic-Indic ones) and `_` separators between digits. Such text reads as no integer here.
- BatchHandlers.TitleListLimit: a `limit` written with `_` separators or non-ASCII decimal digits reads as 30 here, through `Numbers.ParseInt`. Python reads its value.
- Schedule.WeekdayOf: only ASCII digit strings count as digits. Python's `str.isdigit()` is also true for other Unicode digits and for characters such as "²". For "²", `int()` then raises and the request fails with 500; the model drops the item. Other Unicode decimal digits are read as their value by Python; the model passes them to the alias lookup, which drops them.
- Numbers.ParseDecimal: reads finite literals only. `NaN`, `Infinity` and literals with `_` digit separators, which Python's `Decimal` also accepts, read as no decimal (so as 0 in `Ingredients.ToDecimal`).
- Python `Decimal` arithmetic is modelled with exact reals. Rounding and the `str()` of a `Decimal` in the response bodies are not modelled.
- RequestValidators.CreateSalesRecord: the crash on a non-object payload (such as a list, a string, a number or a boolean) is modelled as a missing result, not as an exception.
- Schedule.ParseIsoDate: only the falsy case is stated. Parsing is the host's `date.fromisoformat`.
- FichesSnapshots.FinishReads: a fiche whose `updated_at` raises ends the import with the exception (500 through the batch handler's crash path). The snapshots created before it stay stored, because the import runs outside a transaction. Their counters are lost with the exception and are not modelled.
- Expansion.ExpandOne: the nested quantities are stated one level at a time. A closed form for a whole chain of nested recipes is not stated.
- MenuSync.SyncedDatedItemReported: stated only for syncs whose sort orders all fit the `sort_order` column, because any other sync fails with 500 (`MenuSync.PostSync`) and reports nothing. Other column limits of the entry table are already enforced by the item serializer.
- FichesSnapshots.ImportEnvelope: the write of a new snapshot can fail in the database when its title is longer than 255 characters, its category longer than 128, or its portions do not fit `numeric(10,2)` (backend/apps/integration/models.py:46-48). That error leaves the import with an exception, like a raising `updated_at`. The model has no column limits, so it stores such a snapshot and reports the import as ok. Its "raises exactly when" therefore holds only for fiches within those limits.
- FichesSnapshots.ImportFromDatabase: the same column limits on title, category and portions apply to rows read from the fiches database, and are not modelled either.
- FichesCatalog.ImportCatalog: a write that breaks a column limit raises inside the import's transaction and rolls the whole import back. Such writes are a supplier or product name longer than 255 characters, a `source_code` longer than 128, and a `source_price` that does not fit `numeric(12,3)` (backend/apps/catalog/models.py:8, 37-41). So is a stored supplier or product whose metadata is a truthy non-object (see `FichesCatalog.WithKeys`). The model's abort covers only id collisions, so "aborted exactly when" holds only for imports free of these.
- FichesCatalog.WithKeys: stored metadata that is truthy but not an object (a list, a string, a number) makes Python raise `TypeError` at the first key assignment (backend/apps/integration/fiches_catalog.py:96-97 and 121-123). The model treats it like falsy metadata, as `{}`, and the import goes on.
- ImportBatches.NewestAmong: when two matching batches share a `started_at`, the model picks the one created last. PostgreSQL gives no order for such ties, so this tie-break is the model's choice. Equal timestamps need concurrent imports, which are not modelled.
- Aggregation.ProcessAll: the accounting of warnings and rows against entries is stated separately, in `ProcessAllAccounts`, for the case where every entry is in effect. This is what the ingredients view always passes.
- Site, document-extraction and OCR listing endpoints, admin pages, migrations, authentication and permissions are outside the modelled core.

## Findings

| source | as written | input that shows it | evidently intended | confidence | as-written member | corrected member |
|---|---|---|---|---|---|---|
| backend/apps/integration/fiches_titles.py:31-41 | The title is stripped before the Latin-1 to UTF-8 repair. In the mojibake of a title ending in "à", the last character is U+00A0, which Python's strip removes. The lone byte C3 that remains is not UTF-8, so the damaged text is returned | The title "CittÃ " (the Latin-1 reading of the UTF-8 bytes of "Città") normalizes to "CittÃ" | Repair the whole text, then strip, so the title comes back as "Città" | not executed | FichesTitles.AsWrittenKeepsMojibake | FichesTitles.CorrectedRepairsMojibake |
