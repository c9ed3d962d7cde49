/** Menu schedule resolution (`ServiceMenuEntrySyncView` in
    backend/apps/core/api/v1/views.py): which menu entries of a site are in
    effect on a date. An entry's schedule lives in its JSON `metadata`:
    `schedule_mode`, `valid_from`, `valid_to` and `weekdays`. */
module Schedule {

  import opened Wrappers
  import opened Text
  import opened Numbers
  import opened Json
  import opened Dates
  import opened Host
  import opened Seqs
  import opened Sorting

  type SiteId = Uuid

  datatype ScheduleMode = Permanent | DateSpecific | RecurringWeekly

  /** The spelling stored in metadata for each mode. */
  function ModeName(m: ScheduleMode): string {
    match m
    case Permanent => "permanent"
    case DateSpecific => "date_specific"
    case RecurringWeekly => "recurring_weekly"
  }

  /** A stored `ServiceMenuEntry`. */
  datatype Entry = Entry(
    site: SiteId,
    serviceDate: Date,
    spaceKey: string,
    section: Option<string>,
    title: string,
    ficheProductId: Option<Uuid>,
    expectedQty: real,
    sortOrder: int,
    isActive: bool,
    metadata: Json)

  /** The mode a normalized text names, if any. */
  function ModeOfName(t: string): (r: Option<ScheduleMode>)
    ensures r.Some? ==> ModeName(r.value) == t
    ensures (exists m :: t == ModeName(m)) ==> r.Some?
  {
    if t == "permanent" then Some(Permanent)
    else if t == "date_specific" then Some(DateSpecific)
    else if t == "recurring_weekly" then Some(RecurringWeekly)
    else None
  }

  /** `str(raw or "").strip().lower()` when it names a supported mode. Only a string can:
      `str()` of a number, a boolean, None, a list or a dict is never a mode name. */
  function ParseMode(raw: Json): (r: Option<ScheduleMode>)
    ensures r.Some? ==> raw.JStr? && Lower(Strip(raw.s)) == ModeName(r.value)
    ensures raw.JStr? && (exists m :: Lower(Strip(raw.s)) == ModeName(m)) ==> r.Some?
  {
    if !raw.JStr? then None else ModeOfName(Lower(Strip(raw.s)))
  }

  /** A mode name stored as a string reads back as that mode. */
  lemma ModeNameParses(m: ScheduleMode)
    ensures ParseMode(JStr(ModeName(m))) == Some(m)
  {
    var t := ModeName(m);
    assert forall i :: 0 <= i < |t| ==> 'a' <= t[i] <= 'z' || t[i] == '_';
    SnakeWordIsCanonical(t);
    ModeNameInjective(ParseMode(JStr(t)).value, m);
  }

  /** The three mode names differ (they have different lengths). */
  lemma ModeNameInjective(a: ScheduleMode, b: ScheduleMode)
    requires ModeName(a) == ModeName(b)
    ensures a == b
  {
    assert |ModeName(Permanent)| == 9 && |ModeName(DateSpecific)| == 13 && |ModeName(RecurringWeekly)| == 16;
  }

  /** A word of lower-case ASCII letters and underscores has nothing to strip or lower. */
  lemma SnakeWordIsCanonical(t: string)
    requires forall i :: 0 <= i < |t| ==> 'a' <= t[i] <= 'z' || t[i] == '_'
    ensures Lower(Strip(t)) == t
  {
    StripStripped(t);
    assert Lower(t) == t;
  }

  /** True for a legacy à-la-carte space key. */
  predicate IsCartaKey(spaceKey: string) {
    "carta" <= spaceKey
  }

  /** `_resolve_schedule_mode`: an explicit supported mode wins; otherwise the sentinel date or a
      `carta*` space key mean permanent and anything else date-specific. */
  function ResolveScheduleMode(e: Entry): (m: ScheduleMode)
    ensures ParseMode(Get(e.metadata, "schedule_mode")).Some? ==> m == ParseMode(Get(e.metadata, "schedule_mode")).value
    ensures ParseMode(Get(e.metadata, "schedule_mode")).None? ==>
              (m == Permanent <==> (e.serviceDate == PermanentServiceDate || IsCartaKey(e.spaceKey)))
    ensures ParseMode(Get(e.metadata, "schedule_mode")).None? ==> m != RecurringWeekly
  {
    match ParseMode(Get(e.metadata, "schedule_mode"))
    case Some(m) => m
    case None =>
      if e.serviceDate == PermanentServiceDate then Permanent
      else if IsCartaKey(e.spaceKey) then Permanent
      else DateSpecific
  }

  /** `_parse_iso_date` on a metadata value: a falsy value is no date, anything else goes
      through `date.fromisoformat(str(value))`, whose failure is no date. */
  function ParseIsoDate(host: Host, raw: Json): (r: Option<Date>)
    ensures !Truthy(raw) ==> r.None?
  {
    if !Truthy(raw) then None else host.fromIsoFormat(Str(raw, host.show))
  }

  /** Weekday names and abbreviations (English and Italian) accepted in `weekdays`, one list
      per day starting from Monday (0). Saturday has no full Italian name. */
  const DayNames: seq<seq<string>> := [
    ["mon", "monday", "lun", "lunedì", "lunedi"],
    ["tue", "tuesday", "mar", "martedì", "martedi"],
    ["wed", "wednesday", "mer", "mercoledì", "mercoledi"],
    ["thu", "thursday", "gio", "giovedì", "giovedi"],
    ["fri", "friday", "ven", "venerdì", "venerdi"],
    ["sat", "saturday", "sab"],
    ["sun", "sunday", "dom", "domenica"]]

  /** The day, from `from` on, whose name list holds `t`. */
  function AliasDay(t: string, from: nat): (r: Option<int>)
    requires from <= 7
    ensures r.Some? ==> from <= r.value <= 6 && t in DayNames[r.value]
    ensures r.None? <==> forall d :: from <= d < 7 ==> t !in DayNames[d]
    decreases 7 - from
  {
    if from == 7 then None
    else if t in DayNames[from] then Some(from)
    else AliasDay(t, from + 1)
  }

  /** A weekday number: 0..6 as is, 7 as Sunday (6), anything else rejected. */
  function DayNumber(v: int): (r: Option<int>)
    ensures r.Some? ==> 0 <= r.value <= 6
    ensures r.Some? <==> 0 <= v <= 7
  {
    if 0 <= v <= 6 then Some(v) else if 1 <= v <= 7 then Some(v - 1) else None
  }

  /** How one element of `weekdays` is read. Python's `bool` is an `int`, so `true` is 1.
      Values of other types are dropped: their `str()` is never a digit string or an alias. */
  function WeekdayOf(item: Json): (r: Option<int>)
    ensures r.Some? ==> 0 <= r.value <= 6
  {
    match item
    case JBool(b) => DayNumber(if b then 1 else 0)
    case JInt(i) => DayNumber(i)
    case JStr(s) =>
      var t := Lower(Strip(s));
      if IsDigitString(t) then DayNumber(DigitsValue(t))
      else AliasDay(t, 0)
    case _ => None
  }

  /** The elements `_normalize_weekdays` iterates over: a scalar is a one-element list,
      a list is itself, None and any other type give nothing. */
  function WeekdayItems(raw: Json): seq<Json> {
    match raw
    case JBool(_) => [raw]
    case JInt(_) => [raw]
    case JStr(_) => [raw]
    case JList(xs) => xs
    case _ => []
  }

  /** Some item reads as day `d`. */
  predicate Names(items: seq<Json>, d: int) {
    exists k :: 0 <= k < |items| && WeekdayOf(items[k]) == Some(d)
  }

  /** The days from `from` to 6 satisfying `named`, in increasing order. */
  function DaysNamed(named: int -> bool, from: int): (r: seq<int>)
    requires 0 <= from <= 7
    ensures forall i :: 0 <= i < |r| ==> from <= r[i] <= 6
    ensures forall i, j :: 0 <= i < j < |r| ==> r[i] < r[j]
    ensures forall d :: from <= d <= 6 ==> (d in r <==> named(d))
    decreases 7 - from
  {
    if from == 7 then []
    else
      var rest := DaysNamed(named, from + 1);
      if named(from) then [from] + rest else rest
  }

  /** `_normalize_weekdays`: the sorted, duplicate-free list of days 0..6 named by the items. */
  function NormalizeWeekdays(raw: Json): (r: seq<int>)
    ensures forall i :: 0 <= i < |r| ==> 0 <= r[i] <= 6
    ensures forall i, j :: 0 <= i < j < |r| ==> r[i] < r[j]
    ensures forall d :: d in r <==> Names(WeekdayItems(raw), d)
  {
    var items := WeekdayItems(raw);
    var r := DaysNamed(d => Names(items, d), 0);
    forall d | d in r ensures 0 <= d <= 6 { }
    forall d | Names(items, d) ensures d in r {
      var k :| 0 <= k < |items| && WeekdayOf(items[k]) == Some(d);
      assert 0 <= d <= 6;
    }
    r
  }

  /** The inclusive validity window check of `_is_entry_applicable_for_date`; a bound that is
      missing or does not parse imposes nothing. */
  predicate WithinWindow(host: Host, e: Entry, target: Date) {
    var vf := ParseIsoDate(host, Get(e.metadata, "valid_from"));
    var vt := ParseIsoDate(host, Get(e.metadata, "valid_to"));
    (vf.None? || vf.value <= target) && (vt.None? || target <= vt.value)
  }

  /** `_is_entry_applicable_for_date`: inside the window, a recurring entry applies on its
      weekdays (every day when none are listed), a permanent entry always applies and a
      date-specific entry only on its own service date. */
  predicate IsApplicable(host: Host, e: Entry, target: Date): (r: bool)
    ensures r ==> WithinWindow(host, e, target)
    ensures ResolveScheduleMode(e) == Permanent ==> (r <==> WithinWindow(host, e, target))
    ensures ResolveScheduleMode(e) == DateSpecific ==> (r <==> WithinWindow(host, e, target) && e.serviceDate == target)
    ensures ResolveScheduleMode(e) == RecurringWeekly ==>
              (r <==> WithinWindow(host, e, target)
                      && (NormalizeWeekdays(Get(e.metadata, "weekdays")) == []
                          || Weekday(target) in NormalizeWeekdays(Get(e.metadata, "weekdays"))))
  {
    var vf := ParseIsoDate(host, Get(e.metadata, "valid_from"));
    var vt := ParseIsoDate(host, Get(e.metadata, "valid_to"));
    if vf.Some? && target < vf.value then false
    else if vt.Some? && target > vt.value then false
    else
      match ResolveScheduleMode(e)
      case RecurringWeekly =>
        var days := NormalizeWeekdays(Get(e.metadata, "weekdays"));
        days == [] || Weekday(target) in days
      case Permanent => true
      case DateSpecific => e.serviceDate == target
  }

  /** An applicable entry is inside its validity window. */
  lemma ApplicableWithinWindow(host: Host, e: Entry, target: Date)
    requires IsApplicable(host, e, target)
    ensures WithinWindow(host, e, target)
  {
  }

  /** A date-specific entry applies on its own service date and on no other day. */
  lemma DateSpecificAppliesOnlyOnItsDate(host: Host, e: Entry, target: Date)
    requires ResolveScheduleMode(e) == DateSpecific
    ensures IsApplicable(host, e, target) <==> WithinWindow(host, e, target) && target == e.serviceDate
  {
  }

  /** A permanent entry applies on every day of its validity window. */
  lemma PermanentAppliesThroughoutWindow(host: Host, e: Entry, target: Date)
    requires ResolveScheduleMode(e) == Permanent
    ensures IsApplicable(host, e, target) <==> WithinWindow(host, e, target)
  {
  }

  /** A recurring entry applies on a day exactly when it is in its window and the day is one of
      its weekdays (or it lists none); so without a window it recurs every seven days. */
  lemma RecurringWeeklyRule(host: Host, e: Entry, target: Date)
    requires ResolveScheduleMode(e) == RecurringWeekly
    ensures IsApplicable(host, e, target) <==>
              WithinWindow(host, e, target)
              && (NormalizeWeekdays(Get(e.metadata, "weekdays")) == []
                  || Weekday(target) in NormalizeWeekdays(Get(e.metadata, "weekdays")))
    ensures !Truthy(Get(e.metadata, "valid_from")) && !Truthy(Get(e.metadata, "valid_to")) ==>
              (IsApplicable(host, e, target) <==> IsApplicable(host, e, target + 7))
  {
    WeekdayPeriodic(target);
  }

  /** The key of `order_by("space_key", "sort_order", "title")`, with texts compared by code
      point and equal keys left in store order (PostgreSQL uses its collation and leaves
      ties unordered). */
  function EntryKey(e: Entry): seq<int> {
    StrKey(e.spaceKey) + [e.sortOrder] + StrKey(e.title)
  }

  predicate IsDatedCandidate(site: SiteId, target: Date, e: Entry) {
    e.site == site && e.serviceDate == target && e.isActive
  }

  predicate IsPermanentCandidate(site: SiteId, e: Entry) {
    e.site == site && e.serviceDate == PermanentServiceDate && e.isActive
  }

  predicate IsLegacyCandidate(site: SiteId, e: Entry) {
    e.site == site && e.isActive && IsCartaKey(e.spaceKey) && e.serviceDate != PermanentServiceDate
  }

  /** The latest service date among the site's active, non-sentinel `carta*` entries. */
  function LatestLegacyDate(store: seq<Entry>, site: SiteId): (r: Option<Date>)
    ensures r.None? <==> forall i :: 0 <= i < |store| ==> !IsLegacyCandidate(site, store[i])
    ensures r.Some? ==> exists i :: 0 <= i < |store| && IsLegacyCandidate(site, store[i]) && store[i].serviceDate == r.value
    ensures r.Some? ==> forall i :: 0 <= i < |store| && IsLegacyCandidate(site, store[i]) ==> store[i].serviceDate <= r.value
    decreases |store|
  {
    if store == [] then None
    else
      var rest := LatestLegacyDate(store[1..], site);
      assert forall i :: 1 <= i < |store| ==> store[i] == store[1..][i - 1];
      if !IsLegacyCandidate(site, store[0]) then
        (if rest.Some? then
           var i :| 0 <= i < |store[1..]| && IsLegacyCandidate(site, store[1..][i]) && store[1..][i].serviceDate == rest.value;
           assert store[i + 1] == store[1..][i];
           rest
         else rest)
      else if rest.None? || rest.value < store[0].serviceDate then Some(store[0].serviceDate)
      else
        var i :| 0 <= i < |store[1..]| && IsLegacyCandidate(site, store[1..][i]) && store[1..][i].serviceDate == rest.value;
        assert store[i + 1] == store[1..][i];
        rest
  }

  /** Active entries of the site on the target date, ordered. */
  function DatedPool(store: seq<Entry>, site: SiteId, target: Date): (r: seq<Entry>)
    ensures Sorted(r, EntryKey)
    ensures forall e :: multiset(r)[e] == if IsDatedCandidate(site, target, e) then multiset(store)[e] else 0
  {
    var r := SortBy(Filter(store, e => IsDatedCandidate(site, target, e)), EntryKey);
    forall e ensures multiset(r)[e] == if IsDatedCandidate(site, target, e) then multiset(store)[e] else 0 {
      FilterCount(store, e => IsDatedCandidate(site, target, e), e);
    }
    r
  }

  /** Active permanent (sentinel-dated) entries of the site, ordered. */
  function PermanentPool(store: seq<Entry>, site: SiteId): (r: seq<Entry>)
    ensures Sorted(r, EntryKey)
    ensures forall e :: multiset(r)[e] == if IsPermanentCandidate(site, e) then multiset(store)[e] else 0
  {
    var r := SortBy(Filter(store, e => IsPermanentCandidate(site, e)), EntryKey);
    forall e ensures multiset(r)[e] == if IsPermanentCandidate(site, e) then multiset(store)[e] else 0 {
      FilterCount(store, e => IsPermanentCandidate(site, e), e);
    }
    r
  }

  /** The legacy fallback: only when the permanent pool is empty, the active `carta*` entries on
      the latest such date. That date is not bounded by the target date. */
  function LegacyPool(store: seq<Entry>, site: SiteId): (r: seq<Entry>)
    ensures Sorted(r, EntryKey)
    ensures PermanentPool(store, site) != [] ==> r == []
    ensures forall e :: multiset(r)[e] ==
              if PermanentPool(store, site) == [] && IsLegacyCandidate(site, e)
                 && Some(e.serviceDate) == LatestLegacyDate(store, site)
              then multiset(store)[e] else 0
  {
    if PermanentPool(store, site) != [] then []
    else
      match LatestLegacyDate(store, site)
      case None =>
        assert forall e :: e in store ==> !IsLegacyCandidate(site, e);
        []
      case Some(d) =>
        var p := (e: Entry) => e.site == site && e.serviceDate == d && e.isActive && IsCartaKey(e.spaceKey);
        var r := SortBy(Filter(store, p), EntryKey);
        forall e ensures multiset(r)[e] ==
                  if IsLegacyCandidate(site, e) && Some(e.serviceDate) == Some(d) then multiset(store)[e] else 0 {
          FilterCount(store, p, e);
        }
        r
  }

  /** Every pooled entry is an active entry of the site taken from the store. */
  lemma PoolsFromStore(store: seq<Entry>, site: SiteId, target: Date)
    ensures forall e :: e in PermanentPool(store, site) + LegacyPool(store, site) + DatedPool(store, site, target) ==>
              e in store && e.site == site && e.isActive
  {
    var permanent := PermanentPool(store, site);
    var legacy := LegacyPool(store, site);
    var dated := DatedPool(store, site, target);
    forall e | e in permanent + legacy + dated ensures e in store && e.site == site && e.isActive {
      if e in permanent {
        PooledEntry(permanent, store, e, IsPermanentCandidate(site, e));
      } else if e in legacy {
        PooledEntry(legacy, store, e, IsLegacyCandidate(site, e));
      } else {
        PooledEntry(dated, store, e, IsDatedCandidate(site, target, e));
      }
    }
  }

  /** An element of a pool that holds each candidate as often as the store does, and nothing
      else, is a candidate of the store. */
  lemma PooledEntry(pool: seq<Entry>, store: seq<Entry>, e: Entry, candidate: bool)
    requires e in pool
    requires multiset(pool)[e] == if candidate then multiset(store)[e] else 0
    ensures candidate && e in store
  {
    assert multiset(pool)[e] > 0;
  }

  /** The test `_is_entry_applicable_for_date(entry, target)`. */
  function ApplicableOn(host: Host, target: Date): Entry -> bool {
    (e: Entry) => IsApplicable(host, e, target)
  }

  /** The applicable entries of one pool, in the pool's order: each applicable entry as often as
      the pool holds it, and an ordered pool stays ordered. */
  function ApplicableIn(host: Host, pool: seq<Entry>, target: Date): (r: seq<Entry>)
    ensures forall e :: multiset(r)[e] == if IsApplicable(host, e, target) then multiset(pool)[e] else 0
    ensures Sorted(pool, EntryKey) ==> Sorted(r, EntryKey)
  {
    var r := Filter(pool, ApplicableOn(host, target));
    forall e ensures multiset(r)[e] == if IsApplicable(host, e, target) then multiset(pool)[e] else 0 {
      FilterCount(pool, ApplicableOn(host, target), e);
    }
    if Sorted(pool, EntryKey) then
      FilterKeepsSorted(pool, EntryKey, ApplicableOn(host, target));
      r
    else r
  }

  /** `_get_effective_entries`: permanent, then legacy, then dated entries, each pool in its own
      order and kept only where applicable on the target date. Pools are not de-duplicated. */
  function EffectiveEntries(host: Host, store: seq<Entry>, site: SiteId, target: Date): (r: seq<Entry>)
    ensures forall i :: 0 <= i < |r| ==> r[i].site == site && r[i].isActive && IsApplicable(host, r[i], target)
    ensures forall i :: 0 <= i < |r| ==> r[i] in store
    ensures forall e :: multiset(r)[e] ==
              if IsApplicable(host, e, target) then
                multiset(PermanentPool(store, site))[e] + multiset(LegacyPool(store, site))[e]
                + multiset(DatedPool(store, site, target))[e]
              else 0
  {
    EffectiveMembers(host, store, site, target);
    EffectiveCounts(host, store, site, target);
    Filter(PermanentPool(store, site) + LegacyPool(store, site) + DatedPool(store, site, target),
           ApplicableOn(host, target))
  }

  /** Every entry the filtered pools keep is an active, applicable entry of the store for the site. */
  lemma EffectiveMembers(host: Host, store: seq<Entry>, site: SiteId, target: Date)
    ensures var r := Filter(PermanentPool(store, site) + LegacyPool(store, site) + DatedPool(store, site, target),
                            ApplicableOn(host, target));
            forall i :: 0 <= i < |r| ==> r[i] in store && r[i].site == site && r[i].isActive
                                         && IsApplicable(host, r[i], target)
  {
    PoolsFromStore(store, site, target);
  }

  /** The filtered pools hold each applicable entry as often as the three pools together. */
  lemma EffectiveCounts(host: Host, store: seq<Entry>, site: SiteId, target: Date)
    ensures var r := Filter(PermanentPool(store, site) + LegacyPool(store, site) + DatedPool(store, site, target),
                            ApplicableOn(host, target));
            forall e :: multiset(r)[e] ==
              if IsApplicable(host, e, target) then
                multiset(PermanentPool(store, site))[e] + multiset(LegacyPool(store, site))[e]
                + multiset(DatedPool(store, site, target))[e]
              else 0
  {
    var pool := PermanentPool(store, site) + LegacyPool(store, site) + DatedPool(store, site, target);
    var p := ApplicableOn(host, target);
    assert multiset(pool) == multiset(PermanentPool(store, site)) + multiset(LegacyPool(store, site))
                             + multiset(DatedPool(store, site, target));
    forall e ensures multiset(Filter(pool, p))[e] == if p(e) then multiset(pool)[e] else 0 {
      FilterCount(pool, p, e);
    }
  }

  /** The entries come in three consecutive runs: the applicable permanent entries, then the
      applicable legacy entries, then the applicable dated entries, each run ordered by
      (space_key, sort_order, title). */
  lemma {:induction false} EffectiveEntriesInPoolOrder(host: Host, store: seq<Entry>, site: SiteId, target: Date)
    ensures var permanent := ApplicableIn(host, PermanentPool(store, site), target);
            var legacy := ApplicableIn(host, LegacyPool(store, site), target);
            var dated := ApplicableIn(host, DatedPool(store, site, target), target);
            && EffectiveEntries(host, store, site, target) == permanent + legacy + dated
            && Sorted(permanent, EntryKey) && Sorted(legacy, EntryKey) && Sorted(dated, EntryKey)
  {
    var p := ApplicableOn(host, target);
    var a := PermanentPool(store, site);
    var b := LegacyPool(store, site);
    var c := DatedPool(store, site, target);
    FilterConcat(a + b, c, p);
    FilterConcat(a, b, p);
  }

  /** A permanent entry of the site that applies is reported once per copy in the store, and
      twice per copy when the target is the sentinel date itself: it is then both a permanent
      and a dated candidate. */
  lemma PermanentEntryMultiplicity(host: Host, store: seq<Entry>, site: SiteId, target: Date, e: Entry)
    requires IsPermanentCandidate(site, e) && IsApplicable(host, e, target)
    ensures multiset(EffectiveEntries(host, store, site, target))[e] ==
              if target == PermanentServiceDate then 2 * multiset(store)[e] else multiset(store)[e]
  {
    if e in store {
      assert multiset(PermanentPool(store, site))[e] > 0;
      assert LegacyPool(store, site) == [];
    }
  }

  /** An active dated entry of the site that applies on the target date is reported. */
  lemma DatedEntryReported(host: Host, store: seq<Entry>, site: SiteId, target: Date, e: Entry)
    requires e in store && IsDatedCandidate(site, target, e) && IsApplicable(host, e, target)
    ensures e in EffectiveEntries(host, store, site, target)
  {
    assert multiset(DatedPool(store, site, target))[e] > 0;
    assert multiset(EffectiveEntries(host, store, site, target))[e] > 0;
  }
}
