/** Imported recipe snapshots (`RecipeSnapshot`) and the layered lookups of
    `ServiceIngredientsView` (backend/apps/core/api/v1/views.py). A store of snapshots is a
    sequence already in recency order: newest `source_updated_at` first, then newest
    `created_at`. Case-insensitive title comparison folds ASCII letters. */
module Snapshots {

  import opened Wrappers
  import opened Text
  import opened Json
  import opened Host
  import opened Seqs

  datatype Snapshot = Snapshot(
    ficheProductId: Uuid,
    title: string,
    category: Option<string>,
    portions: Option<real>,
    hash: string,
    sourceUpdatedAt: Option<int>,
    payload: Json)

  /** Two titles equal up to ASCII case (`title__iexact`). */
  predicate SameTitle(a: string, b: string) {
    Lower(a) == Lower(b)
  }

  /** `a` holds `b` up to ASCII case (`title__icontains`). */
  predicate TitleContains(a: string, b: string) {
    Contains(Lower(a), Lower(b))
  }

  function WithProduct(id: Uuid): Snapshot -> bool {
    (s: Snapshot) => s.ficheProductId == id
  }

  function WithTitle(t: string): Snapshot -> bool {
    (s: Snapshot) => SameTitle(s.title, t)
  }

  function WithTitlePart(t: string): Snapshot -> bool {
    (s: Snapshot) => TitleContains(s.title, t)
  }

  /** The newest snapshot of a product. */
  function LatestForProduct(store: seq<Snapshot>, id: Uuid): (r: Option<Snapshot>)
    ensures r.Some? ==> r.value in store && r.value.ficheProductId == id
    ensures r.None? <==> forall i :: 0 <= i < |store| ==> store[i].ficheProductId != id
  {
    First(store, WithProduct(id))
  }

  /** `_resolve_snapshot_for_ingredient_title`: the newest snapshot whose title equals the
      stripped name up to case; none for a blank name. */
  function ResolveForIngredientTitle(store: seq<Snapshot>, title: string): (r: Option<Snapshot>)
    ensures Strip(title) == [] ==> r.None?
    ensures r.Some? ==> r.value in store && SameTitle(r.value.title, Strip(title))
    ensures r.Some? ==> exists i :: 0 <= i < |store| && store[i] == r.value
                          && forall j :: 0 <= j < i ==> !SameTitle(store[j].title, Strip(title))
    ensures Strip(title) != [] && r.None? ==> forall i :: 0 <= i < |store| ==> !SameTitle(store[i].title, Strip(title))
  {
    var cleaned := Strip(title);
    if cleaned == [] then None else First(store, WithTitle(cleaned))
  }

  /** `_resolve_snapshot_for_entry`: the newest snapshot of the entry's product; failing that
      (or without a product) the newest whose title equals the stripped entry title, then the
      newest whose title contains it; none when the title is blank. */
  function ResolveForEntry(store: seq<Snapshot>, productId: Option<Uuid>, title: string): (r: Option<Snapshot>)
    ensures productId.Some? && LatestForProduct(store, productId.value).Some? ==>
              r == LatestForProduct(store, productId.value)
    ensures (productId.None? || LatestForProduct(store, productId.value).None?) ==>
              r == (if Strip(title) == [] then None
                    else if First(store, WithTitle(Strip(title))).Some? then First(store, WithTitle(Strip(title)))
                    else First(store, WithTitlePart(Strip(title))))
    ensures r.Some? ==> r.value in store
  {
    var byProduct := if productId.Some? then LatestForProduct(store, productId.value) else None;
    if byProduct.Some? then byProduct
    else
      var cleaned := Strip(title);
      if cleaned == [] then None
      else
        var exact := First(store, WithTitle(cleaned));
        if exact.Some? then exact else First(store, WithTitlePart(cleaned))
  }

  /** A title is a part of itself, so a title lookup that fails on substrings has failed on
      equal titles too: the exact pass can only find something earlier in the substring order. */
  lemma ExactTitleIsContained(a: string, b: string)
    requires SameTitle(a, b)
    ensures TitleContains(a, b)
  {
    assert Lower(b) <= Lower(a);
  }

  /** When an entry has no product match, the snapshot it resolves to carries its title: equal
      up to case, or at least containing it. */
  lemma ResolvedByTitle(store: seq<Snapshot>, productId: Option<Uuid>, title: string)
    requires productId.None? || LatestForProduct(store, productId.value).None?
    requires ResolveForEntry(store, productId, title).Some?
    ensures TitleContains(ResolveForEntry(store, productId, title).value.title, Strip(title))
  {
    var r := ResolveForEntry(store, productId, title).value;
    var cleaned := Strip(title);
    if First(store, WithTitle(cleaned)).Some? {
      ExactTitleIsContained(r.title, cleaned);
    }
  }

  /** An entry title with a snapshot of that exact title never falls through to the substring
      pass, whatever other snapshots contain it. */
  lemma ExactTitleWins(store: seq<Snapshot>, title: string, s: Snapshot)
    requires s in store && SameTitle(s.title, Strip(title)) && Strip(title) != []
    ensures ResolveForEntry(store, None, title).Some?
    ensures SameTitle(ResolveForEntry(store, None, title).value.title, Strip(title))
  {
    var i :| 0 <= i < |store| && store[i] == s;
    assert WithTitle(Strip(title))(store[i]);
  }
}
