/** The menu sync (`ServiceMenuEntrySyncView.post` in backend/apps/core/api/v1/views.py) and
    the request it accepts (`ServiceMenuEntrySyncSerializer` and its item serializer in
    backend/apps/core/api/v1/serializers.py). A sync replaces, for one site, every sentinel-dated
    entry and every entry on the request date by the submitted items. */
module MenuSync {

  import opened Wrappers
  import opened Text
  import opened Json
  import opened Dates
  import opened Host
  import opened Seqs
  import opened Schedule
  import RequestValidators

  /** One submitted item as the client sent it: a field is `None` when it is absent. Field
      values arrive already of the field's type; the framework's coercions are not modelled. */
  datatype RawSyncItem = RawSyncItem(
    spaceKey: string,
    section: Option<string>,
    title: string,
    ficheProductId: Option<Option<Uuid>>,
    expectedQty: Option<real>,
    sortOrder: Option<int>,
    isActive: Option<bool>,
    metadata: Option<Json>)

  /** A validated item. `section` is `None` when absent; `ficheProductId` is `None` when absent
      or null. */
  datatype SyncItem = SyncItem(
    spaceKey: string,
    section: Option<string>,
    title: string,
    ficheProductId: Option<Uuid>,
    expectedQty: real,
    sortOrder: int,
    isActive: bool,
    metadata: Json)

  /** A validated sync request. */
  datatype SyncRequest = SyncRequest(siteId: Uuid, serviceDate: Date, entries: seq<SyncItem>)

  /** The fields of an item that can be rejected, in declaration order. */
  datatype ItemField = SpaceKeyField | SectionField | TitleField | MetadataField

  /** The key each item field has in the error response. */
  function ItemFieldName(f: ItemField): string {
    match f
    case SpaceKeyField => "space_key"
    case SectionField => "section"
    case TitleField => "title"
    case MetadataField => "metadata"
  }

  /** The failing item fields, in declaration order. */
  function ItemErrors(badSpaceKey: bool, badSection: bool, badTitle: bool, badMetadata: bool): (r: seq<ItemField>)
    ensures r == [] <==> !badSpaceKey && !badSection && !badTitle && !badMetadata
    ensures (SpaceKeyField in r <==> badSpaceKey) && (SectionField in r <==> badSection)
            && (TitleField in r <==> badTitle) && (MetadataField in r <==> badMetadata)
  {
    (if badSpaceKey then [SpaceKeyField] else [])
    + (if badSection then [SectionField] else [])
    + (if badTitle then [TitleField] else [])
    + (if badMetadata then [MetadataField] else [])
  }

  /** The item serializer: `space_key` (at most 64), `title` (at most 255) are required and
      non-blank; `section` (at most 128) is optional and may be blank; `expected_qty` defaults
      to 1, `sort_order` to 0, `is_active` to true and `metadata` to an empty object. `metadata`
      does not allow null, so an explicit `null` is rejected ("This field may not be null.").
      The error lists the failing fields in declaration order. */
  function ValidateSyncItem(raw: RawSyncItem): (r: Result<SyncItem, seq<ItemField>>)
    ensures r.Ok? <==> RequestValidators.RequiredText(raw.spaceKey, 64).Some? && RequestValidators.RequiredText(raw.title, 255).Some?
                       && (raw.section.None? || |Strip(raw.section.value)| <= 128)
                       && raw.metadata != Some(JNull)
    ensures r.Ok? ==> r.value.spaceKey == Strip(raw.spaceKey) && r.value.title == Strip(raw.title)
    ensures r.Ok? ==> r.value.expectedQty == raw.expectedQty.GetOr(1.0)
                      && r.value.sortOrder == raw.sortOrder.GetOr(0)
                      && r.value.isActive == raw.isActive.GetOr(true)
                      && r.value.metadata == raw.metadata.GetOr(EmptyObject)
    ensures r.Ok? ==> (r.value.section.Some? <==> raw.section.Some?)
    ensures r.Ok? ==> r.value.metadata != JNull
    ensures r.Err? ==> && (SpaceKeyField in r.error <==> RequestValidators.RequiredText(raw.spaceKey, 64).None?)
                       && (SectionField in r.error <==> raw.section.Some? && |Strip(raw.section.value)| > 128)
                       && (TitleField in r.error <==> RequestValidators.RequiredText(raw.title, 255).None?)
                       && (MetadataField in r.error <==> raw.metadata == Some(JNull))
  {
    var spaceKey := RequestValidators.RequiredText(raw.spaceKey, 64);
    var title := RequestValidators.RequiredText(raw.title, 255);
    var sectionOk := raw.section.None? || |Strip(raw.section.value)| <= 128;
    var errors := ItemErrors(spaceKey.None?, !sectionOk, title.None?, raw.metadata == Some(JNull));
    if errors != [] then Err(errors)
    else
      Ok(SyncItem(
        spaceKey.value,
        if raw.section.Some? then Some(Strip(raw.section.value)) else None,
        title.value,
        if raw.ficheProductId.Some? then raw.ficheProductId.value else None,
        raw.expectedQty.GetOr(1.0),
        raw.sortOrder.GetOr(0),
        raw.isActive.GetOr(true),
        raw.metadata.GetOr(EmptyObject)))
  }

  /** An item whose `metadata` is an explicit null is rejected, and the error names `metadata`. */
  lemma NullMetadataRejected(raw: RawSyncItem)
    requires raw.metadata == Some(JNull)
    ensures ValidateSyncItem(raw).Err? && MetadataField in ValidateSyncItem(raw).error
  {
  }

  /** The items of a request, validated one by one; the first invalid one (by position) is
      reported with its errors. */
  function ValidateSyncItems(raws: seq<RawSyncItem>): (r: Result<seq<SyncItem>, (nat, seq<ItemField>)>)
    ensures r.Ok? <==> forall i :: 0 <= i < |raws| ==> ValidateSyncItem(raws[i]).Ok?
    ensures r.Ok? ==> |r.value| == |raws| && forall i :: 0 <= i < |raws| ==> r.value[i] == ValidateSyncItem(raws[i]).value
  {
    ValidateAll(raws, ValidateSyncItem)
  }

  /** The fields of a sync request that can be rejected, in declaration order. */
  datatype RequestField = SiteIdField | ServiceDateField | EntriesField

  /** The key each request field has in the error response. */
  function RequestFieldName(f: RequestField): string {
    match f
    case SiteIdField => "site_id"
    case ServiceDateField => "service_date"
    case EntriesField => "entries"
  }

  /** The failing request fields, in declaration order. */
  function RequestErrors(badSiteId: bool, badServiceDate: bool, badEntries: bool): (r: seq<RequestField>)
    ensures r == [] <==> !badSiteId && !badServiceDate && !badEntries
    ensures (SiteIdField in r <==> badSiteId) && (ServiceDateField in r <==> badServiceDate)
            && (EntriesField in r <==> badEntries)
  {
    (if badSiteId then [SiteIdField] else [])
    + (if badServiceDate then [ServiceDateField] else [])
    + (if badEntries then [EntriesField] else [])
  }

  /** The request serializer: `site_id` must be a UUID, `service_date` a date and `entries` a
      list of valid items; every one of the three is required. The error names the fields
      that failed, in declaration order. */
  function ValidateSyncRequest(host: Host, siteId: Option<string>, serviceDate: Option<string>,
                               entries: Option<seq<RawSyncItem>>): (r: Result<SyncRequest, seq<RequestField>>)
    ensures r.Ok? <==> siteId.Some? && host.parseUuid(siteId.value).Some?
                       && serviceDate.Some? && host.fromIsoFormat(serviceDate.value).Some?
                       && entries.Some? && ValidateSyncItems(entries.value).Ok?
    ensures r.Ok? ==> r.value.siteId == host.parseUuid(siteId.value).value
                      && r.value.serviceDate == host.fromIsoFormat(serviceDate.value).value
                      && r.value.entries == ValidateSyncItems(entries.value).value
    ensures r.Err? ==> && (SiteIdField in r.error <==> siteId.None? || host.parseUuid(siteId.value).None?)
                       && (ServiceDateField in r.error <==> serviceDate.None? || host.fromIsoFormat(serviceDate.value).None?)
                       && (EntriesField in r.error <==> entries.None? || ValidateSyncItems(entries.value).Err?)
  {
    var site := if siteId.Some? then host.parseUuid(siteId.value) else None;
    var date := if serviceDate.Some? then host.fromIsoFormat(serviceDate.value) else None;
    var items := if entries.Some? then ValidateSyncItems(entries.value) else Err((0, []));
    var errors := RequestErrors(site.None?, date.None?, items.Err?);
    if errors != [] then Err(errors)
    else Ok(SyncRequest(site.value, date.value, items.value))
  }

  /** The mode a sync gives an item whose metadata names no supported mode: permanent for a
      `carta*` space key, date-specific otherwise. Unlike `ResolveScheduleMode`, the date plays
      no part. */
  function InferredMode(item: SyncItem): (m: ScheduleMode)
    ensures m == Permanent <==> IsCartaKey(item.spaceKey)
    ensures m != RecurringWeekly
  {
    if IsCartaKey(item.spaceKey) then Permanent else DateSpecific
  }

  /** An item with a supported explicit mode is kept as is; any other item has the inferred
      mode written into its metadata (a non-object metadata is replaced by an object). */
  function PrepareItem(item: SyncItem): (r: SyncItem)
    ensures r.metadata.JObj? && "schedule_mode" in r.metadata.fields
    ensures ParseMode(Get(item.metadata, "schedule_mode")).Some? ==> r == item
    ensures ParseMode(Get(item.metadata, "schedule_mode")).None? ==>
              r == item.(metadata := JObj((if item.metadata.JObj? then item.metadata.fields else map[])
                                         ["schedule_mode" := JStr(ModeName(InferredMode(item)))]))
  {
    match ParseMode(Get(item.metadata, "schedule_mode"))
    case Some(_) => item
    case None =>
      var fields := if item.metadata.JObj? then item.metadata.fields else map[];
      item.(metadata := JObj(fields["schedule_mode" := JStr(ModeName(InferredMode(item)))]))
  }

  /** The schedule mode a prepared item carries. */
  function ItemMode(item: SyncItem): ScheduleMode {
    ParseMode(Get(item.metadata, "schedule_mode")).GetOr(InferredMode(item))
  }

  /** Writing the mode is idempotent and keeps the mode the item is filed under. */
  lemma PrepareItemIdempotent(item: SyncItem)
    ensures PrepareItem(PrepareItem(item)) == PrepareItem(item)
    ensures ParseMode(Get(PrepareItem(item).metadata, "schedule_mode")) == Some(ItemMode(item))
  {
    if ParseMode(Get(item.metadata, "schedule_mode")).None? {
      var m := InferredMode(item);
      assert Get(PrepareItem(item).metadata, "schedule_mode") == JStr(ModeName(m));
      ModeNameParses(m);
    }
  }

  /** Items filed under the sentinel date: permanent and recurring ones. */
  predicate GoesToSentinel(item: SyncItem) {
    ItemMode(item) == Permanent || ItemMode(item) == RecurringWeekly
  }

  /** Items filed under the request date. */
  predicate GoesToDate(item: SyncItem) {
    !GoesToSentinel(item)
  }

  /** The stored entry for a prepared item: a blank section is stored as none, a falsy
      quantity as zero and a falsy metadata as an empty object. */
  function ToEntry(site: SiteId, date: Date, item: SyncItem): (e: Entry)
    ensures e.site == site && e.serviceDate == date
    ensures e.spaceKey == item.spaceKey && e.title == item.title && e.ficheProductId == item.ficheProductId
    ensures e.section.Some? <==> item.section.Some? && item.section.value != ""
    ensures e.section.Some? ==> e.section == item.section
    ensures Truthy(item.metadata) ==> e.metadata == item.metadata
    ensures !Truthy(item.metadata) ==> e.metadata == EmptyObject
    ensures e.expectedQty == item.expectedQty
    ensures e.sortOrder == item.sortOrder && e.isActive == item.isActive
  {
    Entry(
      site,
      date,
      item.spaceKey,
      if item.section.Some? && item.section.value != "" then item.section else None,
      item.title,
      item.ficheProductId,
      if item.expectedQty == 0.0 then 0.0 else item.expectedQty,
      item.sortOrder,
      item.isActive,
      Or(item.metadata, EmptyObject))
  }

  /** The entries a sync deletes: all of the site's entries at the sentinel or the request date. */
  predicate Replaced(site: SiteId, date: Date, e: Entry) {
    e.site == site && (e.serviceDate == PermanentServiceDate || e.serviceDate == date)
  }

  /** `Replaced` and its complement as values to filter with. */
  function ReplacedBy(site: SiteId, date: Date): Entry -> bool {
    e => Replaced(site, date, e)
  }

  function KeptBy(site: SiteId, date: Date): Entry -> bool {
    e => !Replaced(site, date, e)
  }

  /** Storing prepared items at one date. */
  function StoreAt(site: SiteId, date: Date): SyncItem -> Entry {
    it => ToEntry(site, date, it)
  }

  /** The new entries, permanent ones first, each group in submission order. */
  function NewEntries(site: SiteId, date: Date, items: seq<SyncItem>): (r: seq<Entry>)
    ensures forall i :: 0 <= i < |r| ==> Replaced(site, date, r[i])
  {
    var prepared := Map(items, PrepareItem);
    Map(Filter(prepared, GoesToSentinel), StoreAt(site, PermanentServiceDate))
    + Map(Filter(prepared, GoesToDate), StoreAt(site, date))
  }

  /** The store after a sync of `items` for `site` on `date`. */
  function Sync(store: seq<Entry>, site: SiteId, date: Date, items: seq<SyncItem>): (r: seq<Entry>)
    ensures forall e :: !Replaced(site, date, e) ==> multiset(r)[e] == multiset(store)[e]
    ensures Filter(r, ReplacedBy(site, date)) == NewEntries(site, date, items)
  {
    SyncKeepsOthers(store, site, date, items);
    SyncReplaces(store, site, date, items);
    Filter(store, KeptBy(site, date)) + NewEntries(site, date, items)
  }

  /** The entries a sync keeps are those of other sites and dates, with their multiplicity. */
  lemma SyncKeepsOthers(store: seq<Entry>, site: SiteId, date: Date, items: seq<SyncItem>)
    ensures forall e :: !Replaced(site, date, e) ==>
              multiset(Filter(store, KeptBy(site, date)) + NewEntries(site, date, items))[e] == multiset(store)[e]
  {
    var kept := Filter(store, KeptBy(site, date));
    var added := NewEntries(site, date, items);
    forall e | !Replaced(site, date, e) ensures multiset(kept + added)[e] == multiset(store)[e] {
      FilterCount(store, KeptBy(site, date), e);
      assert e !in added;
    }
  }

  /** The entries of the site and date after a sync are exactly the new ones. */
  lemma SyncReplaces(store: seq<Entry>, site: SiteId, date: Date, items: seq<SyncItem>)
    ensures Filter(Filter(store, KeptBy(site, date)) + NewEntries(site, date, items), ReplacedBy(site, date))
            == NewEntries(site, date, items)
  {
    var kept := Filter(store, KeptBy(site, date));
    var added := NewEntries(site, date, items);
    FilterConcat(kept, added, ReplacedBy(site, date));
    FilterNone(kept, ReplacedBy(site, date));
    FilterAll(added, ReplacedBy(site, date));
  }

  /** Repeating a sync changes nothing. */
  lemma SyncIdempotent(store: seq<Entry>, site: SiteId, date: Date, items: seq<SyncItem>)
    ensures Sync(Sync(store, site, date, items), site, date, items) == Sync(store, site, date, items)
  {
    var kept := Filter(store, KeptBy(site, date));
    var added := NewEntries(site, date, items);
    var once := Sync(store, site, date, items);
    assert once == kept + added;
    FilterConcat(kept, added, KeptBy(site, date));
    FilterIdempotent(store, KeptBy(site, date));
    FilterNone(added, KeptBy(site, date));
    assert Filter(once, KeptBy(site, date)) == kept;
    assert Sync(once, site, date, items) == Filter(once, KeptBy(site, date)) + added;
  }

  /** The entry stored for an item carries the item's mode explicitly, so the resolver reads
      that mode back. */
  lemma PreparedEntryMode(site: SiteId, date: Date, item: SyncItem)
    ensures ParseMode(Get(ToEntry(site, date, PrepareItem(item)).metadata, "schedule_mode")) == Some(ItemMode(item))
    ensures ResolveScheduleMode(ToEntry(site, date, PrepareItem(item))) == ItemMode(item)
    ensures ItemMode(PrepareItem(item)) == ItemMode(item)
  {
    PrepareItemIdempotent(item);
    var p := PrepareItem(item);
    assert "schedule_mode" in p.metadata.fields;
    assert Truthy(p.metadata);
  }

  /** Where a new entry comes from: a submitted item, stored at the sentinel date when it goes
      there and at the request date otherwise. */
  lemma NewEntryOrigin(site: SiteId, date: Date, items: seq<SyncItem>, e: Entry)
    requires e in NewEntries(site, date, items)
    ensures exists j :: 0 <= j < |items| &&
              if GoesToSentinel(PrepareItem(items[j])) then e == ToEntry(site, PermanentServiceDate, PrepareItem(items[j]))
              else e == ToEntry(site, date, PrepareItem(items[j]))
  {
    var prepared := Map(items, PrepareItem);
    var a := Map(Filter(prepared, GoesToSentinel), StoreAt(site, PermanentServiceDate));
    if e in a {
      MapFilterMapOrigin(items, PrepareItem, GoesToSentinel, StoreAt(site, PermanentServiceDate), e);
    } else {
      MapFilterMapOrigin(items, PrepareItem, GoesToDate, StoreAt(site, date), e);
    }
  }

  /** The entry stored for an item, at either date, resolves to the item's mode, and the item
      goes to the sentinel date exactly when that mode is not date-specific. */
  lemma StoredItemMode(site: SiteId, d: Date, item: SyncItem)
    ensures var e := ToEntry(site, d, PrepareItem(item));
            && ParseMode(Get(e.metadata, "schedule_mode")).Some?
            && ResolveScheduleMode(e) == ItemMode(item)
            && (GoesToSentinel(PrepareItem(item)) <==> ItemMode(item) != DateSpecific)
  {
    PreparedEntryMode(site, d, item);
  }

  /** Every stored item keeps a supported explicit mode, and it lands at the sentinel date
      exactly when that mode is permanent or recurring weekly. */
  lemma SyncedEntriesCarryTheirMode(site: SiteId, date: Date, items: seq<SyncItem>, e: Entry)
    requires e in NewEntries(site, date, items)
    ensures ParseMode(Get(e.metadata, "schedule_mode")).Some?
    ensures ResolveScheduleMode(e) == Permanent || ResolveScheduleMode(e) == RecurringWeekly ==>
              e.serviceDate == PermanentServiceDate
    ensures ResolveScheduleMode(e) == DateSpecific ==> e.serviceDate == date
  {
    NewEntryOrigin(site, date, items, e);
    var j :| 0 <= j < |items| &&
              if GoesToSentinel(PrepareItem(items[j])) then e == ToEntry(site, PermanentServiceDate, PrepareItem(items[j]))
              else e == ToEntry(site, date, PrepareItem(items[j]));
    var item := items[j];
    if GoesToSentinel(PrepareItem(item)) {
      StoredItemMode(site, PermanentServiceDate, item);
    } else {
      StoredItemMode(site, date, item);
    }
  }

  /** Every submitted item is stored exactly once. */
  lemma SyncStoresEveryItem(site: SiteId, date: Date, items: seq<SyncItem>)
    ensures |NewEntries(site, date, items)| == |items|
  {
    var prepared := Map(items, PrepareItem);
    FilterSplitCount(prepared, GoesToSentinel, GoesToDate);
  }

  /** The outcome of a menu request: the entries in effect, a client error with its detail, or
      a server error. */
  datatype MenuResponse =
    | MenuOk(status: int, store: seq<Entry>, entries: seq<Entry>)
    | MenuError(status: int, detail: string)
    | MenuServerError  // an exception no handler catches: the server answers 500

  /** The largest value of the `sort_order` column: a `PositiveIntegerField` is a 32-bit
      integer column that must not be negative. */
  const MaxSortOrder: int := 0x7FFF_FFFF

  /** Every item's `sort_order` fits the column. The item serializer's `IntegerField` has no
      bounds, so validation lets the others through to the insert. */
  predicate SortOrdersFit(items: seq<SyncItem>) {
    forall i :: 0 <= i < |items| ==> 0 <= items[i].sortOrder <= MaxSortOrder
  }

  /** The sync endpoint on a validated request: an unknown site is a 404 and leaves the store
      alone; an item whose `sort_order` the column rejects makes the insert raise inside the
      transaction, so the deletes are rolled back and the server answers 500; otherwise the
      store is synced and the entries in effect on the request date are returned with 201. */
  function PostSync(host: Host, sites: seq<SiteId>, store: seq<Entry>, req: SyncRequest): (r: MenuResponse)
    ensures req.siteId !in sites <==> r == MenuError(404, "Not found.")
    ensures r.MenuServerError? <==> req.siteId in sites && !SortOrdersFit(req.entries)
    ensures r.MenuOk? <==> req.siteId in sites && SortOrdersFit(req.entries)
    ensures r.MenuOk? ==> r.status == 201 && r.store == Sync(store, req.siteId, req.serviceDate, req.entries)
    ensures r.MenuOk? ==> forall i :: 0 <= i < |r.entries| ==>
              r.entries[i].site == req.siteId && IsApplicable(host, r.entries[i], req.serviceDate)
    ensures r.MenuOk? ==> r.entries == EffectiveEntries(host, r.store, req.siteId, req.serviceDate)
  {
    if req.siteId !in sites then MenuError(404, "Not found.")
    else if !SortOrdersFit(req.entries) then MenuServerError
    else
      var synced := Sync(store, req.siteId, req.serviceDate, req.entries);
      MenuOk(201, synced, EffectiveEntries(host, synced, req.siteId, req.serviceDate))
  }

  /** A negative `sort_order`, which the item serializer accepts, fails the whole sync. */
  lemma NegativeSortOrderFails(host: Host, sites: seq<SiteId>, store: seq<Entry>, req: SyncRequest, item: SyncItem)
    requires req.siteId in sites && item in req.entries && item.sortOrder < 0
    ensures PostSync(host, sites, store, req) == MenuServerError
  {
  }

  /** An active item submitted for the request date that applies on it is in the response. */
  lemma SyncedDatedItemReported(host: Host, sites: seq<SiteId>, store: seq<Entry>, req: SyncRequest, item: SyncItem)
    requires req.siteId in sites && item in req.entries && SortOrdersFit(req.entries)
    requires GoesToDate(PrepareItem(item)) && item.isActive
    requires IsApplicable(host, ToEntry(req.siteId, req.serviceDate, PrepareItem(item)), req.serviceDate)
    ensures ToEntry(req.siteId, req.serviceDate, PrepareItem(item)) in PostSync(host, sites, store, req).entries
  {
    var e := ToEntry(req.siteId, req.serviceDate, PrepareItem(item));
    var prepared := Map(req.entries, PrepareItem);
    assert PrepareItem(item) in prepared;
    assert PrepareItem(item) in Filter(prepared, GoesToDate);
    var dated := Map(Filter(prepared, GoesToDate), StoreAt(req.siteId, req.serviceDate));
    assert e in dated;
    assert e in NewEntries(req.siteId, req.serviceDate, req.entries);
    var synced := Sync(store, req.siteId, req.serviceDate, req.entries);
    assert e in Filter(synced, ReplacedBy(req.siteId, req.serviceDate));
    DatedEntryReported(host, synced, req.siteId, req.serviceDate, e);
  }

  /** The menu endpoint: `site` and `date` are both required and non-empty, and `date` must
      parse; then the site text is read as a UUID by the site filter, which raises for text that
      is not one (a 500), and the entries in effect are returned with 200. */
  function GetMenu(host: Host, store: seq<Entry>, site: Option<string>, date: Option<string>): (r: MenuResponse)
    ensures (site.None? || site.value == "" || date.None? || date.value == "") ==>
              r == MenuError(400, "Query params 'site' and 'date' are required.")
    ensures r.MenuError? <==> site.None? || site.value == "" || date.None? || date.value == ""
                              || host.fromIsoFormat(date.value).None?
    ensures r.MenuError? ==> r.status == 400
    ensures r.MenuServerError? <==> !r.MenuError? && host.parseUuid(site.value).None?
    ensures r.MenuOk? <==> site.Some? && site.value != "" && date.Some? && date.value != ""
                           && host.fromIsoFormat(date.value).Some? && host.parseUuid(site.value).Some?
    ensures r.MenuOk? ==> r.status == 200 && r.store == store
                          && r.entries == EffectiveEntries(host, store, host.parseUuid(site.value).value,
                                                           host.fromIsoFormat(date.value).value)
  {
    if site.None? || site.value == "" || date.None? || date.value == "" then
      MenuError(400, "Query params 'site' and 'date' are required.")
    else
      assert Str(JStr(date.value), host.show) == date.value;
      match ParseIsoDate(host, JStr(date.value))
      case None => MenuError(400, "Query param 'date' must be YYYY-MM-DD.")
      case Some(d) =>
        match host.parseUuid(site.value)
        case None => MenuServerError
        case Some(id) => MenuOk(200, store, EffectiveEntries(host, store, id, d))
  }
}
