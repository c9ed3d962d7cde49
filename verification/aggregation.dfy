/** The service ingredient report (`ServiceIngredientsView.get` in
    backend/apps/core/api/v1/views.py): every menu entry in effect is matched to a recipe
    snapshot, scaled to its planned portions and expanded; the lines are then either summed
    per supplier and ingredient or listed per recipe. */
module Aggregation {

  import opened Wrappers
  import opened Text
  import opened Json
  import opened Dates
  import opened Host
  import opened Seqs
  import opened Sorting
  import opened Schedule
  import opened Snapshots
  import opened Expansion
  import opened Tally

  /** The supplier view sums per (supplier, ingredient, unit, source type, recipe title). */
  datatype AggKey = AggKey(supplier: string, ingredient: string, unit: string, sourceType: string, recipeTitle: string)

  datatype SupplierRow = SupplierRow(supplier: string, ingredient: string, qty: real, unit: string,
                                     sourceType: string, recipeTitle: Option<string>)

  datatype RecipeIngredientRow = RecipeIngredientRow(ingredient: string, supplier: string, qty: real, unit: string,
                                                     sourceType: string, recipeTitle: Option<string>)

  datatype RecipeRow = RecipeRow(space: string, section: Option<string>, title: string, expectedQty: real,
                                 recipePortions: Option<real>, ingredients: seq<RecipeIngredientRow>)

  datatype IngredientsResponse =
    | IngredientsError(status: int, detail: string)
    | IngredientsServerError  // an exception no handler catches: the server answers 500
    | NoEntries(warnings: seq<string>)
    | RecipeView(recipes: seq<RecipeRow>, warnings: seq<string>)
    | SupplierView(rows: seq<SupplierRow>, warnings: seq<string>)

  const NoEntriesWarning: string := "Nessuna voce menu attiva per data/sede selezionata."

  function NoSnapshotWarning(title: string): string {
    "'" + title + "': nessuna fiche importata trovata (uuid/titolo)."
  }

  function NoPortionsWarning(title: string): string {
    "'" + title + "': porzioni target non valorizzate (> 0)."
  }

  function NoIngredientsWarning(title: string): string {
    "'" + title + "': nessun ingrediente nel payload fiche."
  }

  /** The nested-recipe lookup the view expands with. */
  function IngredientLookup(store: seq<Snapshot>): string -> Option<Snapshot> {
    t => ResolveForIngredientTitle(store, t)
  }

  /** The text of an optional title: empty for none. */
  function TitleOrNone(t: string): Option<string> {
    if t == "" then None else Some(t)
  }

  /** The aggregation key of a line. */
  function KeyOf(l: Line): AggKey {
    AggKey(if l.supplier != "" then l.supplier else NoSupplier, l.ingredient, l.unit, SourceType(l), l.derived)
  }

  /** The row a line contributes to its recipe. */
  function RecipeIngredientOf(l: Line): (r: RecipeIngredientRow)
    ensures r.qty == l.qty && r.ingredient == l.ingredient && r.unit == l.unit
    ensures r.sourceType == KeyOf(l).sourceType && r.supplier == KeyOf(l).supplier
    ensures r.recipeTitle.None? <==> l.derived == ""
  {
    RecipeIngredientRow(l.ingredient, KeyOf(l).supplier, l.qty, l.unit, SourceType(l), TitleOrNone(l.derived))
  }

  /** The amount a line adds to its key: `supplier_agg[key] += qty`. */
  function PairOf(l: Line): (AggKey, real) {
    (KeyOf(l), l.qty)
  }

  function Pairs(lines: seq<Line>): seq<(AggKey, real)> {
    Map(lines, PairOf)
  }

  /** Some line has key `k`. */
  ghost predicate SomeLineHasKey(lines: seq<Line>, k: AggKey) {
    exists j :: 0 <= j < |lines| && KeyOf(lines[j]) == k
  }

  lemma PairKeysAreLineKeys(lines: seq<Line>, k: AggKey)
    ensures SomePairHasKey(Pairs(lines), k) <==> SomeLineHasKey(lines, k)
  {
    var ps := Pairs(lines);
    if SomePairHasKey(ps, k) {
      var j :| 0 <= j < |ps| && ps[j].0 == k;
      assert KeyOf(lines[j]) == k;
    }
    if SomeLineHasKey(lines, k) {
      var j :| 0 <= j < |lines| && KeyOf(lines[j]) == k;
      assert ps[j].0 == k;
    }
  }

  /** The supplier view sorts by (supplier, ingredient, source type, recipe title); the unit
      is not part of the order, so rows differing only in unit keep insertion order. */
  function SupplierSortKey(entry: (AggKey, real)): seq<int> {
    StrKey(entry.0.supplier) + StrKey(entry.0.ingredient) + StrKey(entry.0.sourceType) + StrKey(entry.0.recipeTitle)
  }

  function ToSupplierRow(entry: (AggKey, real)): SupplierRow {
    SupplierRow(entry.0.supplier, entry.0.ingredient, entry.1, entry.0.unit, entry.0.sourceType, TitleOrNone(entry.0.recipeTitle))
  }

  /** The aggregation key a supplier row reports. */
  function RowKey(row: SupplierRow): AggKey {
    AggKey(row.supplier, row.ingredient, row.unit, row.sourceType, row.recipeTitle.GetOr(""))
  }

  /** The running sums of all lines, in supplier-view order. */
  function SortedAggregate(lines: seq<Line>): (r: Tally<AggKey>)
    ensures multiset(r) == multiset(Aggregate(Pairs(lines))) && |r| == |Aggregate(Pairs(lines))|
    ensures Sorted(r, SupplierSortKey)
  {
    SortBy(Aggregate(Pairs(lines)), SupplierSortKey)
  }

  /** Each sorted entry carries the sum of its key over the lines and that key is some line's;
      every line's key has an entry, and no key has two. */
  lemma SortedAggregateFacts(lines: seq<Line>)
    ensures KeysUnique(SortedAggregate(lines))
    ensures forall i :: 0 <= i < |SortedAggregate(lines)| ==>
              SortedAggregate(lines)[i].1 == SumFor(Pairs(lines), SortedAggregate(lines)[i].0)
              && SomeLineHasKey(lines, SortedAggregate(lines)[i].0)
    ensures forall j :: 0 <= j < |lines| ==> HasKey(SortedAggregate(lines), KeyOf(lines[j]))
  {
    var ps := Pairs(lines);
    var agg := Aggregate(ps);
    var sorted := SortedAggregate(lines);
    Reordered(agg, sorted);
    AggregateKeys(ps);
    forall i | 0 <= i < |sorted| ensures SomeLineHasKey(lines, sorted[i].0) {
      PairKeysAreLineKeys(lines, sorted[i].0);
    }
    forall j | 0 <= j < |lines| ensures HasKey(sorted, KeyOf(lines[j])) {
      assert ps[j].0 == KeyOf(lines[j]);
      assert SomePairHasKey(ps, KeyOf(lines[j]));
    }
  }

  /** The key and sum a supplier row reports. */
  function RowEntry(row: SupplierRow): (AggKey, real) {
    (RowKey(row), row.qty)
  }

  /** The supplier view of a list of lines: one row per aggregation key, carrying the sum of
      that key's quantities, sorted by the key without its unit (rows differing only in unit
      keep first-insertion order, see `SupplierRowsStable`). */
  function SupplierRows(lines: seq<Line>): (rows: seq<SupplierRow>)
    ensures |rows| == |SortedAggregate(lines)|
    ensures forall i :: 0 <= i < |rows| ==> RowEntry(rows[i]) == SortedAggregate(lines)[i]
  {
    var sorted := SortedAggregate(lines);
    var rows := Map(sorted, ToSupplierRow);
    forall i | 0 <= i < |sorted| ensures RowEntry(rows[i]) == sorted[i] {
      assert rows[i] == ToSupplierRow(sorted[i]);
    }
    rows
  }

  /** Each supplier row carries the sum of its key over the lines, and its key is some line's. */
  lemma SupplierRowsSum(lines: seq<Line>)
    ensures var rows := SupplierRows(lines);
            forall i :: 0 <= i < |rows| ==>
              (rows[i].qty == SumFor(Pairs(lines), RowKey(rows[i])) && SomeLineHasKey(lines, RowKey(rows[i])))
  {
    var rows := SupplierRows(lines);
    SortedAggregateFacts(lines);
    forall i | 0 <= i < |rows|
      ensures rows[i].qty == SumFor(Pairs(lines), RowKey(rows[i])) && SomeLineHasKey(lines, RowKey(rows[i]))
    {
      assert RowEntry(rows[i]) == SortedAggregate(lines)[i];
    }
  }

  /** Every line's key has a supplier row. */
  lemma SupplierRowsCover(lines: seq<Line>)
    ensures var rows := SupplierRows(lines);
            forall j :: 0 <= j < |lines| ==> exists i :: 0 <= i < |rows| && RowKey(rows[i]) == KeyOf(lines[j])
  {
    var rows := SupplierRows(lines);
    var sorted := SortedAggregate(lines);
    SortedAggregateFacts(lines);
    forall j | 0 <= j < |lines| ensures exists i :: 0 <= i < |rows| && RowKey(rows[i]) == KeyOf(lines[j]) {
      var i :| 0 <= i < |sorted| && sorted[i].0 == KeyOf(lines[j]);
      assert RowEntry(rows[i]) == sorted[i];
    }
  }

  /** No two supplier rows share a key, and the rows are in supplier-view order. */
  lemma SupplierRowsOrdered(lines: seq<Line>)
    ensures var rows := SupplierRows(lines);
            forall i, j :: 0 <= i < j < |rows| ==>
              (RowKey(rows[i]) != RowKey(rows[j])
               && SeqLe(SupplierSortKey(RowEntry(rows[i])), SupplierSortKey(RowEntry(rows[j]))))
  {
    var rows := SupplierRows(lines);
    var sorted := SortedAggregate(lines);
    SortedAggregateFacts(lines);
    forall i, j | 0 <= i < j < |rows|
      ensures RowKey(rows[i]) != RowKey(rows[j]) && SeqLe(SupplierSortKey(RowEntry(rows[i])), SupplierSortKey(RowEntry(rows[j])))
    {
      assert RowEntry(rows[i]) == sorted[i] && RowEntry(rows[j]) == sorted[j];
    }
  }

  /** Entries whose keys differ only in unit keep their first-insertion order. */
  lemma SupplierRowsStable(lines: seq<Line>, k: seq<int>)
    ensures Ties(SortedAggregate(lines), SupplierSortKey, k) == Ties(Aggregate(Pairs(lines)), SupplierSortKey, k)
  {
  }

  /** What one entry, or a list of entries, contributes: warnings, expanded lines and recipe
      rows. */
  datatype Report = Report(warnings: seq<string>, lines: seq<Line>, recipes: seq<RecipeRow>)

  /** One entry of the report. The applicability re-check never skips an entry in effect. */
  function ProcessEntry(host: Host, store: seq<Snapshot>, target: Date, e: Entry): (r: Report)
    ensures !IsApplicable(host, e, target) ==> r == Report([], [], [])
    ensures IsApplicable(host, e, target) ==> |r.recipes| == 1 || |r.warnings| >= 1
    ensures |r.recipes| <= 1 && (r.recipes != [] <==> r.lines != [])
    ensures r.recipes != [] ==> r.recipes[0].title == e.title && r.recipes[0].expectedQty == e.expectedQty
                                && r.recipes[0].ingredients == Map(r.lines, RecipeIngredientOf)
    ensures r.lines != [] ==> IsApplicable(host, e, target) && e.expectedQty > 0.0
                              && ResolveForEntry(store, e.ficheProductId, e.title).Some?
    ensures ResolveForEntry(store, e.ficheProductId, e.title).None? && IsApplicable(host, e, target) ==>
              r == Report([NoSnapshotWarning(e.title)], [], [])
    ensures (ResolveForEntry(store, e.ficheProductId, e.title).Some? && IsApplicable(host, e, target)
             && e.expectedQty <= 0.0) ==> r == Report([NoPortionsWarning(e.title)], [], [])
    ensures ResolveForEntry(store, e.ficheProductId, e.title).Some? && IsApplicable(host, e, target) ==>
              r == ProcessSnapshot(host, store, e, ResolveForEntry(store, e.ficheProductId, e.title).value)
  {
    if !IsApplicable(host, e, target) then Report([], [], [])
    else
      match ResolveForEntry(store, e.ficheProductId, e.title)
      case None => Report([NoSnapshotWarning(e.title)], [], [])
      case Some(snap) => ProcessSnapshot(host, store, e, snap)
  }

  /** The visited set the root recipe is expanded with: its own product, when it has one. */
  function RootVisited(snap: Snapshot): (v: set<string>)
    ensures v <= {CycleKey(snap)}
    ensures CycleKey(snap) in v <==> CycleKey(snap) != ""
  {
    var rootKey := if snap.ficheProductId != "" then CycleKey(snap) else "";
    if rootKey != "" then {rootKey} else {}
  }

  /** An entry in effect whose snapshot was found: a warning when nothing is planned, otherwise
      the snapshot expanded at `planned / portions` (or `planned` without positive portions)
      from its own product, with a warning when that gives no line. */
  function ProcessSnapshot(host: Host, store: seq<Snapshot>, e: Entry, snap: Snapshot): (r: Report)
    ensures |r.recipes| == 1 || |r.warnings| >= 1
    ensures |r.recipes| <= 1 && (r.recipes != [] <==> r.lines != [])
    ensures r.recipes != [] ==> r.recipes[0].title == e.title && r.recipes[0].expectedQty == e.expectedQty
                                && r.recipes[0].ingredients == Map(r.lines, RecipeIngredientOf)
    ensures r.recipes != [] ==> r.recipes[0].space == e.spaceKey && r.recipes[0].section == e.section
                                && r.recipes[0].recipePortions ==
                                     (if snap.portions.Some? && snap.portions.value > 0.0 then snap.portions else None)
    ensures r.lines != [] ==> e.expectedQty > 0.0
    ensures e.expectedQty <= 0.0 ==> r == Report([NoPortionsWarning(e.title)], [], [])
    ensures e.expectedQty > 0.0 ==>
              var x := Expand(host, IngredientLookup(store), snap, Multiplier(e.expectedQty, snap.portions),
                              RootVisited(snap), 0, "");
              r.lines == x.0 && r.warnings == (if x.0 == [] then x.1 + [NoIngredientsWarning(e.title)] else x.1)
  {
    var planned := e.expectedQty;
    if planned <= 0.0 then Report([NoPortionsWarning(e.title)], [], [])
    else
      var recipePortions := if snap.portions.Some? && snap.portions.value > 0.0 then snap.portions else None;
      var expanded := Expand(host, IngredientLookup(store), snap, Multiplier(planned, snap.portions), RootVisited(snap), 0, "");
      if expanded.0 == [] then Report(expanded.1 + [NoIngredientsWarning(e.title)], [], [])
      else
        Report(expanded.1, expanded.0,
               [RecipeRow(e.spaceKey, e.section, e.title, planned, recipePortions, Map(expanded.0, RecipeIngredientOf))])
  }

  /** A planned recipe none of whose ingredients names another recipe gives one leaf per
      ingredient, in order, each scaled by `planned / portions` (or `planned` without positive
      portions), and warns only when it has no ingredient. */
  lemma FlatRecipeScaled(host: Host, store: seq<Snapshot>, e: Entry, snap: Snapshot)
    requires e.expectedQty > 0.0
    requires NamesNoRecipe(host, IngredientLookup(store), snap)
    ensures var r := ProcessSnapshot(host, store, e, snap);
            var ings := PayloadIngredients(host, snap);
            ScaledLeaves(host, r.lines, ings, Multiplier(e.expectedQty, snap.portions), "")
            && r.warnings == (if ings == [] then [NoIngredientsWarning(e.title)] else [])
  {
    ExpandFlat(host, IngredientLookup(store), snap, Multiplier(e.expectedQty, snap.portions), RootVisited(snap), 0, "");
  }

  /** All entries in order, their contributions concatenated. Every entry in effect is
      accounted for by a recipe row or a warning. */
  function ProcessAll(host: Host, store: seq<Snapshot>, target: Date, entries: seq<Entry>): (r: Report)
    ensures |r.recipes| <= |entries|
    ensures r.recipes == [] <==> r.lines == []
  {
    if entries == [] then Report([], [], [])
    else
      var first := ProcessEntry(host, store, target, entries[0]);
      var rest := ProcessAll(host, store, target, entries[1..]);
      Report(first.warnings + rest.warnings, first.lines + rest.lines, first.recipes + rest.recipes)
  }

  /** When every entry is in effect, each one is accounted for by a recipe row or a warning. */
  lemma {:induction false} ProcessAllAccounts(host: Host, store: seq<Snapshot>, target: Date, entries: seq<Entry>)
    requires forall i :: 0 <= i < |entries| ==> IsApplicable(host, entries[i], target)
    ensures var r := ProcessAll(host, store, target, entries);
            |r.warnings| + |r.recipes| >= |entries|
  {
    if entries != [] {
      assert IsApplicable(host, entries[0], target);
      assert forall i :: 0 <= i < |entries[1..]| ==> entries[1..][i] == entries[i + 1];
      ProcessAllAccounts(host, store, target, entries[1..]);
    }
  }

  /** `GET /service-ingredients/?site=&date=&view=`: the query checks of the menu endpoint, then
      the site text is read as a UUID by the site filter (text that is not one raises, a 500),
      and the entries in effect for the site and date are processed; with none the report says so,
      otherwise `view=recipe` lists the recipe rows and any other view (the default is
      `supplier`) the supplier rows. The warnings are those of the entries in order. */
  function ServiceIngredients(host: Host, menu: seq<Entry>, store: seq<Snapshot>, site: Option<string>,
                              date: Option<string>, view: Option<string>): (r: IngredientsResponse)
    ensures (site.None? || site.value == "" || date.None? || date.value == "") ==>
              r == IngredientsError(400, "Query params 'site' and 'date' are required.")
    ensures r.IngredientsError? <==> site.None? || site.value == "" || date.None? || date.value == ""
                                     || host.fromIsoFormat(date.value).None?
    ensures r.IngredientsError? ==> r.status == 400
    ensures r.IngredientsServerError? <==> !r.IngredientsError? && host.parseUuid(site.value).None?
    ensures !r.IngredientsError? && !r.IngredientsServerError? ==>
              r == IngredientsFor(host, menu, store, host.parseUuid(site.value).value,
                                  host.fromIsoFormat(date.value).value, view)
  {
    if site.None? || site.value == "" || date.None? || date.value == "" then
      IngredientsError(400, "Query params 'site' and 'date' are required.")
    else
      ParseIsoDateOfText(host, date.value);
      match ParseIsoDate(host, JStr(date.value))
      case None => IngredientsError(400, "Query param 'date' must be YYYY-MM-DD.")
      case Some(d) =>
        match host.parseUuid(site.value)
        case None => IngredientsServerError
        case Some(id) => IngredientsFor(host, menu, store, id, d, view)
  }

  /** The report for a valid site and date: with no entry in effect it says so, otherwise
      `view=recipe` lists the recipe rows and any other view the supplier rows. The warnings are
      those of the entries in order. */
  function IngredientsFor(host: Host, menu: seq<Entry>, store: seq<Snapshot>, site: string, d: Date,
                          view: Option<string>): (r: IngredientsResponse)
    ensures !r.IngredientsError? && !r.IngredientsServerError?
    ensures r.NoEntries? <==> EffectiveEntries(host, menu, site, d) == []
    ensures r.NoEntries? ==> r.warnings == [NoEntriesWarning]
    ensures r.RecipeView? ==> view == Some("recipe")
    ensures r.SupplierView? ==> view != Some("recipe")
    ensures (r.RecipeView? || r.SupplierView?) ==>
              var entries := EffectiveEntries(host, menu, site, d);
              var report := ProcessAll(host, store, d, entries);
              r.warnings == report.warnings
              && (r.RecipeView? ==> r.recipes == report.recipes && |r.recipes| <= |entries|)
              && (r.SupplierView? ==> r.rows == SupplierRows(report.lines))
  {
    var entries := EffectiveEntries(host, menu, site, d);
    if entries == [] then NoEntries([NoEntriesWarning])
    else
      var report := ProcessAll(host, store, d, entries);
      if view == Some("recipe") then RecipeView(report.recipes, report.warnings)
      else SupplierView(SupplierRows(report.lines), report.warnings)
  }

  /** A non-empty query value is parsed as the date it spells, if any. */
  lemma ParseIsoDateOfText(host: Host, text: string)
    requires text != ""
    ensures ParseIsoDate(host, JStr(text)) == host.fromIsoFormat(text)
  {
    assert Truthy(JStr(text));
    assert Str(JStr(text), host.show) == text;
  }

  /** Every entry the menu endpoint reports for a date is accounted for in the ingredient
      report of that date: each yields a recipe row or at least one warning, so an empty
      supplier view carries at least one warning per entry. */
  lemma EveryEffectiveEntryAccounted(host: Host, menu: seq<Entry>, store: seq<Snapshot>, site: string, date: string,
                                     view: Option<string>)
    requires site != "" && date != "" && host.fromIsoFormat(date).Some? && host.parseUuid(site).Some?
    ensures var r := ServiceIngredients(host, menu, store, Some(site), Some(date), view);
            var n := |EffectiveEntries(host, menu, host.parseUuid(site).value, host.fromIsoFormat(date).value)|;
            (r.NoEntries? <==> n == 0)
            && (r.RecipeView? ==> |r.warnings| + |r.recipes| >= n)
            && (r.SupplierView? && r.rows == [] ==> |r.warnings| >= n)
  {
    var d := host.fromIsoFormat(date).value;
    var id := host.parseUuid(site).value;
    var entries := EffectiveEntries(host, menu, id, d);
    var report := ProcessAll(host, store, d, entries);
    var r := ServiceIngredients(host, menu, store, Some(site), Some(date), view);
    assert !r.IngredientsError? && !r.IngredientsServerError?;
    assert r == IngredientsFor(host, menu, store, id, d, view);
    ProcessAllAccounts(host, store, d, entries);
    if r.SupplierView? && r.rows == [] {
      SupplierRowsCoverLines(report.lines);
    }
  }

  /** Supplier rows exist as soon as one line does. */
  lemma SupplierRowsCoverLines(lines: seq<Line>)
    ensures SupplierRows(lines) == [] ==> lines == []
  {
    if lines != [] {
      SupplierRowsCover(lines);
    }
  }
}
