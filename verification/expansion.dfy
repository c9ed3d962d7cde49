/** Recursive expansion of a recipe snapshot into ingredient lines
    (`ServiceIngredientsView._expand_snapshot_ingredients` in backend/apps/core/api/v1/views.py).
    An ingredient whose name is the title of another snapshot is replaced by that recipe's own
    lines, scaled, down to a depth of 6; a per-branch set of visited product ids stops cycles.
    Warnings are returned in the order the view appends them. The nested-recipe lookup by
    ingredient name is a parameter; the view uses `ResolveForIngredientTitle`. */
module Expansion {

  import opened Wrappers
  import opened Text
  import opened Json
  import opened Host
  import opened Snapshots
  import opened Ingredients

  /** One expanded line. `derived` is the title of the outermost nested recipe the line came
      from, or empty for a line of the recipe itself. */
  datatype Line = Line(ingredient: string, supplier: string, qty: real, unit: string, derived: string)

  /** `source_type` of a line. */
  function SourceType(l: Line): string {
    if l.derived != "" then "derived_recipe" else "direct"
  }

  const MaxDepth: nat := 6

  /** Stands in for a blank supplier. */
  const NoSupplier: string := "Senza fornitore"

  function DepthWarning(title: string): string {
    "Espansione ingredienti interrotta: profondita massima superata per '" + title + "'."
  }

  function CycleWarning(name: string): string {
    "Ciclo rilevato su preparazione interna '" + name + "'. Espansione saltata."
  }

  ghost predicate IsExpansionWarning(w: string) {
    (exists t :: w == DepthWarning(t)) || (exists n :: w == CycleWarning(n))
  }

  /** `str(fiche_product_id).lower()`, the key of the visited set. */
  function CycleKey(s: Snapshot): string {
    Lower(s.ficheProductId)
  }

  /** Scaling by portions: divide by a positive portion count, otherwise keep the quantity. */
  function Multiplier(qty: real, portions: Option<real>): (m: real)
    ensures portions.Some? && portions.value > 0.0 ==> m * portions.value == qty
    ensures !(portions.Some? && portions.value > 0.0) ==> m == qty
  {
    if portions.Some? && portions.value > 0.0 then qty / portions.value else qty
  }

  /** The ingredients of a snapshot's payload (`snapshot.payload or {}`). */
  function PayloadIngredients(host: Host, snap: Snapshot): seq<Ingredient> {
    ExtractIngredients(host, Or(snap.payload, EmptyObject))
  }

  /** A line that is not expanded further: the quantity and unit go through the unit
      normaliser. */
  function Leaf(host: Host, name: string, supplier: string, qty: real, unit: string, derived: string): (l: Line)
    ensures l.ingredient == name && l.supplier == supplier && l.derived == derived
    ensures (l.qty, l.unit) == host.normalizeQtyUnit(qty, unit)
  {
    var normalized := host.normalizeQtyUnit(qty, unit);
    Line(name, supplier, normalized.0, normalized.1, derived)
  }

  /** The leaf an ingredient gives under a multiplier. */
  function LeafOf(host: Host, ing: Ingredient, multiplier: real, derived: string): (l: Line)
    ensures l.supplier != "" && l.derived == derived
  {
    Leaf(host, Strip(ing.name), if ing.supplier != "" then ing.supplier else NoSupplier,
         ing.qty * multiplier, ing.unit, derived)
  }

  /** The visited set a nested recipe is expanded with: the branch's set plus its product. */
  function NestedVisited(visited: set<string>, nested: Snapshot): (v: set<string>)
    ensures visited <= v && (CycleKey(nested) != "" ==> CycleKey(nested) in v)
  {
    var key := CycleKey(nested);
    if key != "" then visited + {key} else visited
  }

  /** The recipe title nested lines are reported under: the outermost nested title. */
  function NestedDerived(derived: string, nested: Snapshot): (d: string)
    ensures derived != "" ==> d == derived
    ensures derived == "" ==> d == nested.title
  {
    if derived != "" then derived else nested.title
  }

  /** Does the nested recipe found for an ingredient close a cycle on this branch? */
  predicate ClosesCycle(found: Option<Snapshot>, visited: set<string>) {
    found.Some? && CycleKey(found.value) != "" && CycleKey(found.value) in visited
  }

  /** Is `title` the title of a snapshot the lookup can find? */
  ghost predicate IsSomeTitle(lookup: string -> Option<Snapshot>, title: string) {
    exists t :: lookup(t).Some? && title == lookup(t).value.title
  }

  /** The recipe a line is reported under: the one given to the expansion, or, at the top level
      (where none is given), the title of a nested snapshot. */
  ghost predicate DerivedFrom(lookup: string -> Option<Snapshot>, derived: string, lineDerived: string) {
    lineDerived == derived || (derived == "" && IsSomeTitle(lookup, lineDerived))
  }

  /** One snapshot: nothing for an empty ingredient list (before the depth check), one warning
      past the maximum depth, otherwise the expansion of every ingredient. */
  function Expand(host: Host, lookup: string -> Option<Snapshot>, snap: Snapshot, multiplier: real, visited: set<string>,
                  depth: nat, derived: string): (r: (seq<Line>, seq<string>))
    requires depth <= MaxDepth + 1
    ensures PayloadIngredients(host, snap) == [] ==> r == ([], [])
    ensures PayloadIngredients(host, snap) != [] && depth > MaxDepth ==> r == ([], [DepthWarning(snap.title)])
    ensures PayloadIngredients(host, snap) != [] && depth <= MaxDepth ==> |r.0| >= |PayloadIngredients(host, snap)|
    ensures forall i :: 0 <= i < |r.0| ==> r.0[i].supplier != ""
    ensures forall i :: 0 <= i < |r.0| ==>
              DerivedFrom(lookup, derived, r.0[i].derived)
    ensures forall i :: 0 <= i < |r.1| ==> IsExpansionWarning(r.1[i])
    decreases MaxDepth + 1 - depth, 1, 0
  {
    var ings := PayloadIngredients(host, snap);
    if ings == [] then ([], [])
    else if depth > MaxDepth then ([], [DepthWarning(snap.title)])
    else ExpandItems(host, lookup, ings, multiplier, visited, depth, derived)
  }

  /** The ingredients of one snapshot in order, each with its own copy of `visited`. */
  function ExpandItems(host: Host, lookup: string -> Option<Snapshot>, ings: seq<Ingredient>, multiplier: real,
                       visited: set<string>, depth: nat, derived: string): (r: (seq<Line>, seq<string>))
    requires depth <= MaxDepth
    ensures |r.0| >= |ings|
    ensures forall i :: 0 <= i < |r.0| ==> r.0[i].supplier != ""
    ensures forall i :: 0 <= i < |r.0| ==>
              DerivedFrom(lookup, derived, r.0[i].derived)
    ensures forall i :: 0 <= i < |r.1| ==> IsExpansionWarning(r.1[i])
    decreases MaxDepth + 1 - depth, 0, |ings| + 1
  {
    if ings == [] then ([], [])
    else
      var first := ExpandOne(host, lookup, ings[0], multiplier, visited, depth, derived);
      var rest := ExpandItems(host, lookup, ings[1..], multiplier, visited, depth, derived);
      (first.0 + rest.0, first.1 + rest.1)
  }

  /** One ingredient: a nested recipe found by its name is expanded with the scaled quantity
      when it closes no cycle and the quantity is positive, and replaces the ingredient when
      it yields lines; otherwise the ingredient is a leaf. */
  function ExpandOne(host: Host, lookup: string -> Option<Snapshot>, ing: Ingredient, multiplier: real,
                     visited: set<string>, depth: nat, derived: string): (r: (seq<Line>, seq<string>))
    requires depth <= MaxDepth
    ensures |r.0| >= 1
    ensures forall i :: 0 <= i < |r.0| ==> r.0[i].supplier != ""
    ensures forall i :: 0 <= i < |r.0| ==>
              DerivedFrom(lookup, derived, r.0[i].derived)
    ensures forall i :: 0 <= i < |r.1| ==> IsExpansionWarning(r.1[i])
    ensures var found := lookup(Strip(ing.name));
            found.Some? && !ClosesCycle(found, visited) && ing.qty * multiplier > 0.0 ==>
              var sub := Expand(host, lookup, found.value, Multiplier(ing.qty * multiplier, found.value.portions),
                                NestedVisited(visited, found.value), depth + 1, NestedDerived(derived, found.value));
              r == (if sub.0 != [] then sub else ([LeafOf(host, ing, multiplier, derived)], sub.1))
    decreases MaxDepth + 1 - depth, 0, 1
  {
    var name := Strip(ing.name);
    var found := lookup(name);
    var leaf := LeafOf(host, ing, multiplier, derived);
    if ClosesCycle(found, visited) then
      ([leaf], [CycleWarning(name)])
    else if found.Some? && ing.qty * multiplier > 0.0 then
      var sub := ExpandNested(host, lookup, found.value, ing.qty * multiplier, visited, depth, derived);
      assert IsSomeTitle(lookup, found.value.title) by { assert lookup(name) == found; }
      if sub.0 != [] then sub else ([leaf], sub.1)
    else
      ([leaf], [])
  }

  /** The lines of a nested recipe reached with a positive quantity: its own multiplier, the
      branch's visited set plus its product, one level deeper, and the outermost nested title. */
  function ExpandNested(host: Host, lookup: string -> Option<Snapshot>, nested: Snapshot, qtyTotal: real,
                        visited: set<string>, depth: nat, derived: string): (r: (seq<Line>, seq<string>))
    requires depth <= MaxDepth
    ensures forall i :: 0 <= i < |r.0| ==> r.0[i].supplier != ""
    ensures forall i :: 0 <= i < |r.0| ==>
              r.0[i].derived == (if derived != "" then derived else nested.title)
              || (derived == "" && nested.title == "" && IsSomeTitle(lookup, r.0[i].derived))
    ensures forall i :: 0 <= i < |r.1| ==> IsExpansionWarning(r.1[i])
    decreases MaxDepth + 1 - depth, 0, 0
  {
    Expand(host, lookup, nested, Multiplier(qtyTotal, nested.portions),
           NestedVisited(visited, nested), depth + 1, NestedDerived(derived, nested))
  }

  /** When no ingredient name is the title of a snapshot, expansion is one leaf per ingredient,
      in order, with no warning. */
  lemma {:induction false} ExpandItemsFlat(host: Host, lookup: string -> Option<Snapshot>, ings: seq<Ingredient>, multiplier: real,
                                          visited: set<string>, depth: nat, derived: string)
    requires depth <= MaxDepth
    requires forall i :: 0 <= i < |ings| ==> lookup(Strip(ings[i].name)).None?
    ensures ExpandItems(host, lookup, ings, multiplier, visited, depth, derived).1 == []
    ensures |ExpandItems(host, lookup, ings, multiplier, visited, depth, derived).0| == |ings|
    ensures forall i :: 0 <= i < |ings| ==>
              ExpandItems(host, lookup, ings, multiplier, visited, depth, derived).0[i] == LeafOf(host, ings[i], multiplier, derived)
  {
    if ings != [] {
      ExpandItemsFlat(host, lookup, ings[1..], multiplier, visited, depth, derived);
      var first := ExpandOne(host, lookup, ings[0], multiplier, visited, depth, derived);
      var rest := ExpandItems(host, lookup, ings[1..], multiplier, visited, depth, derived);
      var r := ExpandItems(host, lookup, ings, multiplier, visited, depth, derived);
      assert first == ([LeafOf(host, ings[0], multiplier, derived)], []);
      assert r == (first.0 + rest.0, first.1 + rest.1);
      forall i | 1 <= i < |ings| ensures r.0[i] == LeafOf(host, ings[i], multiplier, derived) {
        assert r.0[i] == rest.0[i - 1];
        assert ings[1..][i - 1] == ings[i];
      }
    }
  }

  /** No ingredient of the snapshot names a recipe the lookup finds. */
  predicate NamesNoRecipe(host: Host, lookup: string -> Option<Snapshot>, snap: Snapshot) {
    forall i :: 0 <= i < |PayloadIngredients(host, snap)| ==> lookup(Strip(PayloadIngredients(host, snap)[i].name)).None?
  }

  /** The lines are the ingredients' leaves under the multiplier, one per ingredient, in order. */
  predicate ScaledLeaves(host: Host, lines: seq<Line>, ings: seq<Ingredient>, multiplier: real, derived: string) {
    |lines| == |ings| && forall i :: 0 <= i < |ings| ==> lines[i] == LeafOf(host, ings[i], multiplier, derived)
  }

  /** A recipe whose ingredients name no snapshot, within the depth bound: one leaf per
      ingredient scaled by the multiplier it is expanded with, in order, and no warning. */
  lemma {:induction false} ExpandFlat(host: Host, lookup: string -> Option<Snapshot>, snap: Snapshot, multiplier: real,
                                     visited: set<string>, depth: nat, derived: string)
    requires depth <= MaxDepth && NamesNoRecipe(host, lookup, snap)
    ensures var r := Expand(host, lookup, snap, multiplier, visited, depth, derived);
            r.1 == [] && |r.0| == |PayloadIngredients(host, snap)|
            && ScaledLeaves(host, r.0, PayloadIngredients(host, snap), multiplier, derived)
  {
    var ings := PayloadIngredients(host, snap);
    if ings != [] {
      ExpandItemsFlat(host, lookup, ings, multiplier, visited, depth, derived);
    }
  }

  /** A nested recipe whose product is already on the branch is not expanded: the ingredient
      becomes a leaf and a cycle warning is emitted. */
  lemma CycleBecomesLeaf(host: Host, lookup: string -> Option<Snapshot>, ing: Ingredient, multiplier: real,
                         visited: set<string>, depth: nat, derived: string)
    requires depth <= MaxDepth
    requires ClosesCycle(lookup(Strip(ing.name)), visited)
    ensures ExpandOne(host, lookup, ing, multiplier, visited, depth, derived)
            == ([LeafOf(host, ing, multiplier, derived)], [CycleWarning(Strip(ing.name))])
  {
  }

  /** A snapshot whose own ingredient names it, entered with its product id on the branch (as
      the root is), yields that ingredient as a leaf with a cycle warning instead of looping. */
  lemma SelfReferenceStops(host: Host, lookup: string -> Option<Snapshot>, snap: Snapshot, ing: Ingredient, multiplier: real,
                           depth: nat, derived: string)
    requires depth <= MaxDepth && CycleKey(snap) != ""
    requires lookup(Strip(ing.name)) == Some(snap)
    ensures ExpandOne(host, lookup, ing, multiplier, {CycleKey(snap)}, depth, derived)
            == ([LeafOf(host, ing, multiplier, derived)], [CycleWarning(Strip(ing.name))])
  {
    CycleBecomesLeaf(host, lookup, ing, multiplier, {CycleKey(snap)}, depth, derived);
  }

  /** A nested recipe is only entered with a positive quantity: otherwise the ingredient is a
      plain leaf and nothing is warned. */
  lemma NonPositiveQuantityIsLeaf(host: Host, lookup: string -> Option<Snapshot>, ing: Ingredient, multiplier: real,
                                  visited: set<string>, depth: nat, derived: string)
    requires depth <= MaxDepth
    requires !ClosesCycle(lookup(Strip(ing.name)), visited)
    requires ing.qty * multiplier <= 0.0
    ensures ExpandOne(host, lookup, ing, multiplier, visited, depth, derived) == ([LeafOf(host, ing, multiplier, derived)], [])
  {
    var leaf := LeafOf(host, ing, multiplier, derived);
    assert !(ing.qty * multiplier > 0.0);
    assert ExpandOne(host, lookup, ing, multiplier, visited, depth, derived) == ([leaf], []);
  }

  /** Lines below a nested recipe that already carries a title keep that title. */
  lemma DerivedTitlePropagates(host: Host, lookup: string -> Option<Snapshot>, snap: Snapshot, multiplier: real,
                               visited: set<string>, depth: nat, derived: string)
    requires depth <= MaxDepth + 1 && derived != ""
    ensures forall l :: l in Expand(host, lookup, snap, multiplier, visited, depth, derived).0 ==>
              l.derived == derived && SourceType(l) == "derived_recipe"
  {
  }
}
