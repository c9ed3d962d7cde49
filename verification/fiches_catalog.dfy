/** Importing the supplier catalog of the fiches database
    (backend/apps/integration/fiches_catalog.py). Suppliers are matched by name, products by
    (supplier, name); a matched record is updated in place and an unmatched one created, so a
    second import of the same rows creates nothing. A creation asking for an id a stored
    record already has raises, and the transaction rolls the whole import back. The two tables are the `suppliers` and
    `supplier_products` rows, already read; the stores are the local `Supplier` and
    `SupplierProduct` tables in their default order. */
module FichesCatalog {

  import opened Wrappers
  import opened Text
  import opened Json
  import opened Host
  import opened Seqs
  import opened FichesCommon

  // ---------------------------------------------------------------------------------------
  // Units

  /** The units the catalog knows. */
  const Uoms: set<string> := {"kg", "g", "l", "ml", "cl", "pc"}

  const UomAliases: map<string, string> :=
    map["kg" := "kg", "g" := "g", "l" := "l", "ml" := "ml", "cl" := "cl", "pc" := "pc",
        "pz" := "pc", "piece" := "pc", "pieces" := "pc", "unit" := "pc", "unite" := "pc", "unites" := "pc"]

  /** Python's `str(v or "")` for a text column (NULL is None). */
  function TextOr(v: Option<string>): string {
    if v.Some? then v.value else ""
  }

  /** Python's `str(v)` for a text column: NULL reads "None". */
  function PyStr(v: Option<string>): string {
    if v.Some? then v.value else "None"
  }

  /** The alias table lookup of `_normalize_uom`, unknown units reading as pieces. */
  function AliasOf(candidate: string): string {
    if candidate in UomAliases then UomAliases[candidate] else "pc"
  }

  /** The alias table maps every known unit to itself and everything else to pieces. */
  lemma AliasOfIsCanonical(candidate: string)
    ensures AliasOf(candidate) == if candidate in Uoms then candidate else "pc"
  {
    if candidate in Uoms {
      assert candidate == "kg" || candidate == "g" || candidate == "l" || candidate == "ml"
          || candidate == "cl" || candidate == "pc";
    } else if candidate in UomAliases {
      assert UomAliases.Keys - Uoms == {"pz", "piece", "pieces", "unit", "unite", "unites"};
    }
  }

  /** `_normalize_uom`: the stripped, lower-cased unit when it is a known unit or one of its
      aliases, otherwise pieces. */
  function NormalizeUom(unit: Option<string>): (r: string)
    ensures r in Uoms
    ensures Lower(Strip(TextOr(unit))) in Uoms ==> r == Lower(Strip(TextOr(unit)))
    ensures Lower(Strip(TextOr(unit))) !in Uoms ==> r == "pc"
  {
    var candidate := Lower(Strip(TextOr(unit)));
    AliasOfIsCanonical(candidate);
    AliasOf(candidate)
  }

  /** A word of lower-case ASCII letters has nothing to strip and nothing to lower. */
  lemma LowerWordIsCanonical(u: string)
    requires forall i :: 0 <= i < |u| ==> 'a' <= u[i] <= 'z'
    ensures Lower(Strip(u)) == u
  {
    StripStripped(u);
    assert Lower(u) == u;
  }

  /** A known unit reads back as itself. */
  lemma UomIsCanonical(u: string)
    requires u in Uoms
    ensures Lower(Strip(u)) == u
  {
    assert u == "kg" || u == "g" || u == "l" || u == "ml" || u == "cl" || u == "pc";
    LowerWordIsCanonical(u);
  }

  /** Normalizing a normalized unit changes nothing. */
  lemma NormalizeUomIdempotent(unit: Option<string>)
    ensures NormalizeUom(Some(NormalizeUom(unit))) == NormalizeUom(unit)
  {
    UomIsCanonical(NormalizeUom(unit));
  }

  // ---------------------------------------------------------------------------------------
  // Records

  /** A row of the fiches `suppliers` table: `id::text` and name. */
  datatype SupplierRow = SupplierRow(sourceId: Option<string>, name: Option<string>)

  /** A row of the fiches `supplier_products` table. */
  datatype ProductRow = ProductRow(sourceId: Option<string>, supplierId: Option<string>, name: Option<string>,
                                   code: Option<string>, sourceUnit: Option<string>, unit: Option<string>,
                                   sourcePrice: Json, unitPrice: Json)

  /** A local supplier; `id` is None when the database generates it. */
  datatype Supplier = Supplier(id: Option<Uuid>, name: string, metadata: Json)

  /** A local supplier product; `supplier` is a position in the supplier store. */
  datatype Product = Product(id: Option<Uuid>, supplier: nat, name: string, sku: Option<string>, uom: string,
                             packQty: Option<real>, active: bool, traceability: bool, allergens: seq<Json>,
                             metadata: Json)

  /** `(metadata or {})` with keys set; metadata is a JSON object or empty. */
  function WithKeys(metadata: Json, keys: map<string, Json>): (r: Json)
    ensures r.JObj? && r.fields.Keys == (if metadata.JObj? then metadata.fields.Keys else {}) + keys.Keys
    ensures forall k :: k in keys ==> r.fields[k] == keys[k]
    ensures metadata.JObj? ==> forall k :: k in metadata.fields && k !in keys ==> r.fields[k] == metadata.fields[k]
  {
    JObj((if metadata.JObj? then metadata.fields else map[]) + keys)
  }

  // ---------------------------------------------------------------------------------------
  // Suppliers

  function SupplierName(row: SupplierRow): string {
    Strip(TextOr(row.name))
  }

  /** What a supplier row says once its columns are read: the fiches id as text, the stripped
      name and the id it asks for (None when not a UUID). */
  datatype IncomingSupplier = IncomingSupplier(sourceId: string, name: string, id: Option<Uuid>)

  function SupplierIn(host: Host, row: SupplierRow): IncomingSupplier {
    IncomingSupplier(PyStr(row.sourceId), SupplierName(row), host.parseUuid(PyStr(row.sourceId)))
  }

  function SupplierWith(host: Host): SupplierRow -> IncomingSupplier {
    row => SupplierIn(host, row)
  }

  predicate Named(x: IncomingSupplier) {
    x.name != ""
  }

  function HasName(name: string): Supplier -> bool {
    (s: Supplier) => s.name == name
  }

  /** Supplier progress: the store, the map from fiches supplier id to local supplier, and the
      counters. */
  datatype SupplierState = SupplierState(suppliers: seq<Supplier>, bySource: map<string, nat>,
                                         created: nat, updated: nat, invalidIds: nat)

  predicate SameNamesUpTo(a: seq<Supplier>, b: seq<Supplier>) {
    |a| <= |b| && forall i :: 0 <= i < |a| ==> a[i].name == b[i].name
  }

  /** The fiches metadata a supplier carries. */
  function SupplierKeys(sid: string): map<string, Json> {
    map["source" := JStr("fiches"), "fiches_supplier_id" := JStr(sid)]
  }

  /** No supplier has the name yet: a new one is appended and the fiches id maps to it. This
      is the write when the id it asks for is free; a taken id aborts the whole import
      (`SupplierCollides`, `ImportCatalog`). */
  function CreateSupplier(st: SupplierState, x: IncomingSupplier): (r: SupplierState)
    requires FirstIndex(st.suppliers, HasName(x.name)).None?
    ensures r.created == st.created + 1 && r.updated == st.updated && r.invalidIds == st.invalidIds
    ensures |r.suppliers| == |st.suppliers| + 1 && SameNamesUpTo(st.suppliers, r.suppliers)
    ensures FirstIndex(r.suppliers, HasName(x.name)) == Some(|st.suppliers|)
    ensures r.bySource == st.bySource[x.sourceId := |st.suppliers|]
  {
    var r := st.(suppliers := st.suppliers + [Supplier(x.id, x.name, JObj(SupplierKeys(x.sourceId)))],
                 bySource := st.bySource[x.sourceId := |st.suppliers|], created := st.created + 1);
    assert HasName(x.name)(r.suppliers[|st.suppliers|]);
    assert forall j :: 0 <= j < |st.suppliers| ==> r.suppliers[j] == st.suppliers[j];
    r
  }

  /** The first supplier with the name gets the fiches metadata and the fiches id maps to it. */
  function UpdateSupplier(st: SupplierState, x: IncomingSupplier, i: nat): (r: SupplierState)
    requires FirstIndex(st.suppliers, HasName(x.name)) == Some(i)
    ensures r.created == st.created && r.updated == st.updated + 1 && r.invalidIds == st.invalidIds
    ensures |r.suppliers| == |st.suppliers| && SameNamesUpTo(st.suppliers, r.suppliers)
    ensures FirstIndex(r.suppliers, HasName(x.name)) == Some(i)
    ensures r.bySource == st.bySource[x.sourceId := i]
  {
    var s := st.suppliers[i];
    var r := st.(suppliers := st.suppliers[i := s.(metadata := WithKeys(s.metadata, SupplierKeys(x.sourceId)))],
                 bySource := st.bySource[x.sourceId := i], updated := st.updated + 1);
    FirstIndexAgrees(st.suppliers, r.suppliers, HasName(x.name));
    r
  }

  /** One supplier row: a blank name is skipped; an id that is not a UUID is counted but the
      row is still imported (without a fixed id); the first supplier with the name gets the
      fiches metadata, or a new supplier is created; the fiches id then maps to it. */
  function SupplierStep(st: SupplierState, x: IncomingSupplier): (r: SupplierState)
    ensures !Named(x) ==> r == st
    ensures Named(x) ==>
              && r.created + r.updated == st.created + st.updated + 1
              && FirstIndex(r.suppliers, HasName(x.name)).Some?
              && r.bySource == st.bySource[x.sourceId := FirstIndex(r.suppliers, HasName(x.name)).value]
              && r.invalidIds == st.invalidIds + (if x.id.None? then 1 else 0)
    ensures FirstIndex(st.suppliers, HasName(x.name)).Some? ==> |r.suppliers| == |st.suppliers| && r.created == st.created
    ensures SameNamesUpTo(st.suppliers, r.suppliers)
    ensures |r.suppliers| == |st.suppliers| + (r.created - st.created) && r.created >= st.created
  {
    if !Named(x) then st
    else
      var counted := st.(invalidIds := st.invalidIds + if x.id.None? then 1 else 0);
      match FirstIndex(counted.suppliers, HasName(x.name))
      case None => CreateSupplier(counted, x)
      case Some(i) => UpdateSupplier(counted, x, i)
  }

  /** Rows with a supplier name. */
  function NamedSuppliers(rows: seq<SupplierRow>): seq<SupplierRow> {
    Filter(rows, (row: SupplierRow) => SupplierName(row) != "")
  }

  function SupplierRun(st: SupplierState, xs: seq<IncomingSupplier>): (r: SupplierState)
    ensures r.created + r.updated == st.created + st.updated + |Filter(xs, Named)|
    ensures SameNamesUpTo(st.suppliers, r.suppliers)
    ensures |r.suppliers| == |st.suppliers| + (r.created - st.created) && r.created >= st.created
    decreases |xs|
  {
    if xs == [] then st
    else
      var q := SupplierStep(st, xs[0]);
      assert xs == [xs[0]] + xs[1..];
      SupplierRun(q, xs[1..])
  }

  /** A new record asks for an id some stored record already has: `objects.create(id=...)`
      violates the primary key and raises `IntegrityError`. */
  predicate SupplierIdTaken(suppliers: seq<Supplier>, id: Option<Uuid>) {
    id.Some? && exists i :: 0 <= i < |suppliers| && suppliers[i].id == id
  }

  /** The row would create a supplier whose id is taken. */
  predicate SupplierStepCollides(st: SupplierState, x: IncomingSupplier) {
    Named(x) && FirstIndex(st.suppliers, HasName(x.name)).None? && SupplierIdTaken(st.suppliers, x.id)
  }

  /** Some row of the run creates a supplier whose id is taken by then. */
  predicate SupplierCollides(st: SupplierState, xs: seq<IncomingSupplier>)
    decreases |xs|
  {
    xs != [] && (SupplierStepCollides(st, xs[0]) || SupplierCollides(SupplierStep(st, xs[0]), xs[1..]))
  }

  /** No two stored suppliers share a fixed id. */
  predicate DistinctSupplierIds(suppliers: seq<Supplier>) {
    forall i, j :: 0 <= i < j < |suppliers| && suppliers[i].id.Some? ==> suppliers[i].id != suppliers[j].id
  }

  /** A row that does not collide keeps the supplier ids distinct. */
  lemma SupplierStepKeepsIds(st: SupplierState, x: IncomingSupplier)
    requires DistinctSupplierIds(st.suppliers) && !SupplierStepCollides(st, x)
    ensures DistinctSupplierIds(SupplierStep(st, x).suppliers)
  {
    var q := SupplierStep(st, x);
    if Named(x) {
      if FirstIndex(st.suppliers, HasName(x.name)).None? {
        assert q.suppliers == st.suppliers + [Supplier(x.id, x.name, JObj(SupplierKeys(x.sourceId)))];
        assert !SupplierIdTaken(st.suppliers, x.id);
      } else {
        assert forall j :: 0 <= j < |q.suppliers| ==> q.suppliers[j].id == st.suppliers[j].id;
      }
    }
  }

  /** A run in which no row collides keeps the supplier ids distinct. */
  lemma {:induction false} SupplierRunKeepsIds(st: SupplierState, xs: seq<IncomingSupplier>)
    requires DistinctSupplierIds(st.suppliers) && !SupplierCollides(st, xs)
    ensures DistinctSupplierIds(SupplierRun(st, xs).suppliers)
    decreases |xs|
  {
    if xs != [] {
      SupplierStepKeepsIds(st, xs[0]);
      SupplierRunKeepsIds(SupplierStep(st, xs[0]), xs[1..]);
    }
  }

  /** Re-running the supplier rows against a store whose names are those the run produced
      finds every supplier by name: nothing is created, the names stay, and the fiches ids map
      to the same suppliers. */
  lemma {:induction false} SupplierRerun(st1: SupplierState, st2: SupplierState, xs: seq<IncomingSupplier>)
    requires st2.bySource == st1.bySource
    requires var f := SupplierRun(st1, xs).suppliers;
             |st2.suppliers| == |f| && SameNamesUpTo(f, st2.suppliers)
    ensures var r1 := SupplierRun(st1, xs);
            var r2 := SupplierRun(st2, xs);
            r2.bySource == r1.bySource && r2.created == st2.created
            && |r2.suppliers| == |st2.suppliers| && SameNamesUpTo(st2.suppliers, r2.suppliers)
            && !SupplierCollides(st2, xs)
    decreases |xs|
  {
    if xs != [] {
      var q1 := SupplierStep(st1, xs[0]);
      var q2 := SupplierStep(st2, xs[0]);
      var f := SupplierRun(q1, xs[1..]).suppliers;
      SupplierRerunStep(st1, st2, xs[0], f);
      SameNamesTransitive(f, st2.suppliers, q2.suppliers);
      SupplierRerun(q1, q2, xs[1..]);
      SameNamesTransitive(st2.suppliers, q2.suppliers, SupplierRun(q2, xs[1..]).suppliers);
    }
  }

  /** One row of the rerun: when the second store already has, position by position, the names
      the first run ends with, the row finds the same supplier in both and creates nothing. */
  lemma SupplierRerunStep(st1: SupplierState, st2: SupplierState, x: IncomingSupplier, f: seq<Supplier>)
    requires st2.bySource == st1.bySource
    requires SameNamesUpTo(SupplierStep(st1, x).suppliers, f)
    requires |st2.suppliers| == |f| && SameNamesUpTo(f, st2.suppliers)
    ensures var q2 := SupplierStep(st2, x);
            q2.bySource == SupplierStep(st1, x).bySource && q2.created == st2.created
            && |q2.suppliers| == |f| && SameNamesUpTo(st2.suppliers, q2.suppliers)
            && !SupplierStepCollides(st2, x)
  {
    if Named(x) {
      var p := HasName(x.name);
      var q1 := SupplierStep(st1, x);
      var q2 := SupplierStep(st2, x);
      FirstIndexAgrees(q1.suppliers, f, p);
      FirstIndexAgrees(f, st2.suppliers, p);
      FirstIndexAgrees(st2.suppliers, q2.suppliers, p);
    }
  }

  lemma SameNamesTransitive(a: seq<Supplier>, b: seq<Supplier>, c: seq<Supplier>)
    requires SameNamesUpTo(a, b) && SameNamesUpTo(b, c)
    ensures SameNamesUpTo(a, c)
  {
  }

  // ---------------------------------------------------------------------------------------
  // Products

  /** `unit or source_unit`. */
  function UnitOf(row: ProductRow): Option<string> {
    if row.unit.Some? && row.unit.value != "" then row.unit else row.sourceUnit
  }

  /** `str(source_code).strip() if source_code else None`. */
  function SkuOf(row: ProductRow): Option<string> {
    if row.code.Some? && row.code.value != "" then Some(Strip(row.code.value)) else None
  }

  /** The fiches metadata a product carries. */
  function ProductKeys(show: Json -> string, row: ProductRow): map<string, Json> {
    map["source" := JStr("fiches"), "fiches_product_id" := JStr(PyStr(row.sourceId)),
        "source_unit_price" := (if row.unitPrice.JNull? then JNull else JStr(Str(row.unitPrice, show))),
        "source_unit" := (if row.sourceUnit.Some? then JStr(row.sourceUnit.value) else JNull)]
  }

  /** What a product row says once its columns are read: the id it asks for (None when not a
      UUID), the fiches supplier it belongs to, its stripped name, code, unit, pack quantity and
      metadata. */
  datatype Incoming = Incoming(id: Option<Uuid>, supplierKey: string, name: string, sku: Option<string>,
                               uom: string, packQty: Option<real>, keys: map<string, Json>)

  function IncomingOf(host: Host, row: ProductRow): (x: Incoming)
    ensures x.uom in Uoms
    ensures x.name == Strip(TextOr(row.name)) && x.supplierKey == PyStr(row.supplierId)
  {
    Incoming(host.parseUuid(PyStr(row.sourceId)), PyStr(row.supplierId), Strip(TextOr(row.name)), SkuOf(row),
             NormalizeUom(UnitOf(row)), FicheDecimal(row.sourcePrice), ProductKeys(host.show, row))
  }

  function IncomingWith(host: Host): ProductRow -> Incoming {
    row => IncomingOf(host, row)
  }

  /** Rows with a product name whose supplier was imported. */
  predicate Applies(bySource: map<string, nat>, x: Incoming) {
    x.name != "" && x.supplierKey in bySource
  }

  function IsProduct(supplier: nat, name: string): Product -> bool {
    (p: Product) => p.supplier == supplier && p.name == name
  }

  /** The product a row would match: its supplier and name. */
  function MatchOf(bySource: map<string, nat>, x: Incoming): Product -> bool
    requires Applies(bySource, x)
  {
    IsProduct(bySource[x.supplierKey], x.name)
  }

  predicate SameKeysUpTo(a: seq<Product>, b: seq<Product>) {
    |a| <= |b| && forall i :: 0 <= i < |a| ==> a[i].supplier == b[i].supplier && a[i].name == b[i].name
  }

  predicate RefersWithin(products: seq<Product>, n: nat) {
    forall i :: 0 <= i < |products| ==> products[i].supplier < n
  }

  datatype ProductState = ProductState(products: seq<Product>, created: nat, updated: nat, invalidIds: nat)

  /** The product a row writes, given the product it matched: code and pack quantity replace
      the stored ones only when the row gives them; a new product is active, without
      traceability or allergens, and takes the row's id when it is a UUID. */
  function Upsert(x: Incoming, supplier: nat, existing: Option<Product>): (p: Product)
    requires existing.Some? ==> existing.value.supplier == supplier && existing.value.name == x.name
    ensures p.supplier == supplier && p.name == x.name
    ensures p.uom == x.uom && p.active
    ensures p.packQty == (if x.packQty.Some? || existing.None? then x.packQty else existing.value.packQty)
    ensures p.sku == (if x.sku.Some? || existing.None? then x.sku else existing.value.sku)
    ensures p.metadata.JObj? && forall k :: k in x.keys ==> k in p.metadata.fields && p.metadata.fields[k] == x.keys[k]
    ensures existing.Some? && existing.value.metadata.JObj? ==>
              forall k :: k in existing.value.metadata.fields && k !in x.keys ==> k in p.metadata.fields
    ensures existing.None? ==> p.id == x.id && !p.traceability && p.allergens == []
    ensures existing.Some? ==> p.id == existing.value.id && p.traceability == existing.value.traceability
                               && p.allergens == existing.value.allergens
  {
    match existing
    case None => Product(x.id, supplier, x.name, x.sku, x.uom, x.packQty, true, false, [], WithKeys(JObj(map[]), x.keys))
    case Some(e) =>
      e.(sku := if x.sku.Some? then x.sku else e.sku, uom := x.uom,
         packQty := if x.packQty.Some? then x.packQty else e.packQty, active := true,
         metadata := WithKeys(e.metadata, x.keys))
  }

  /** The product a row matches in a store, if any. */
  function Existing(products: seq<Product>, match_: Product -> bool): (r: Option<Product>)
    ensures r.Some? <==> FirstIndex(products, match_).Some?
    ensures r.Some? ==> match_(r.value)
  {
    match FirstIndex(products, match_)
    case None => None
    case Some(i) => Some(products[i])
  }

  /** What a row writes over the product it matches in `products`. */
  function Written(bySource: map<string, nat>, products: seq<Product>, x: Incoming): Product
    requires Applies(bySource, x)
  {
    Upsert(x, bySource[x.supplierKey], Existing(products, MatchOf(bySource, x)))
  }

  /** No product of the supplier has the name yet: the written product is appended. This is
      the write when the id it asks for is free; a taken id aborts the whole import
      (`ProductCollides`, `ImportCatalog`). */
  function CreateProduct(st: ProductState, m: Product -> bool, p: Product): (r: ProductState)
    requires FirstIndex(st.products, m).None? && m(p)
    ensures r.created == st.created + 1 && r.updated == st.updated && r.invalidIds == st.invalidIds
    ensures |r.products| == |st.products| + 1
    ensures FirstIndex(r.products, m) == Some(|st.products|) && r.products[|st.products|] == p
    ensures forall j :: 0 <= j < |st.products| ==> r.products[j] == st.products[j]
  {
    var r := st.(products := st.products + [p], created := st.created + 1);
    assert m(r.products[|st.products|]);
    assert forall j :: 0 <= j < |st.products| ==> r.products[j] == st.products[j];
    r
  }

  /** The first product of the supplier with the name is replaced by the written one. */
  function UpdateProduct(st: ProductState, m: Product -> bool, i: nat, p: Product): (r: ProductState)
    requires FirstIndex(st.products, m) == Some(i) && m(p)
    ensures r.created == st.created && r.updated == st.updated + 1 && r.invalidIds == st.invalidIds
    ensures |r.products| == |st.products|
    ensures FirstIndex(r.products, m) == Some(i) && r.products[i] == p
    ensures forall j :: 0 <= j < |st.products| && j != i ==> r.products[j] == st.products[j]
  {
    var r := st.(products := st.products[i := p], updated := st.updated + 1);
    FirstIndexAgrees(st.products, r.products, m);
    r
  }

  /** One product row: skipped without a name or an imported supplier; an id that is not a
      UUID is counted and the row still imported; the first product of the supplier with the
      name is rewritten by `Upsert`, or a new one appended. No product changes supplier or
      name. */
  function ProductStep(bySource: map<string, nat>, st: ProductState, x: Incoming): (r: ProductState)
    ensures !Applies(bySource, x) ==> r == st
    ensures Applies(bySource, x) ==>
              && r.created + r.updated == st.created + st.updated + 1
              && r.invalidIds == st.invalidIds + (if x.id.None? then 1 else 0)
              && FirstIndex(r.products, MatchOf(bySource, x)).Some?
              && r.products[FirstIndex(r.products, MatchOf(bySource, x)).value] == Written(bySource, st.products, x)
    ensures Applies(bySource, x) && FirstIndex(st.products, MatchOf(bySource, x)).Some? ==> r.created == st.created
    ensures SameKeysUpTo(st.products, r.products)
    ensures |r.products| == |st.products| + (r.created - st.created) && r.created >= st.created
  {
    if !Applies(bySource, x) then st
    else
      var m := MatchOf(bySource, x);
      var counted := st.(invalidIds := st.invalidIds + if x.id.None? then 1 else 0);
      var p := Written(bySource, st.products, x);
      assert m(p);
      match FirstIndex(st.products, m)
      case None => CreateProduct(counted, m, p)
      case Some(i) =>
        assert st.products[i] == Existing(st.products, m).value;
        UpdateProduct(counted, m, i, p)
  }

  /** A product row rewrites only the product it matches: every other stored product stays as
      it was. */
  lemma ProductStepKeepsOthers(bySource: map<string, nat>, st: ProductState, x: Incoming)
    requires Applies(bySource, x)
    ensures var r := ProductStep(bySource, st, x);
            forall j :: 0 <= j < |st.products| <= |r.products| && j != FirstIndex(r.products, MatchOf(bySource, x)).value ==>
              r.products[j] == st.products[j]
  {
  }

  function ProductRun(bySource: map<string, nat>, st: ProductState, xs: seq<Incoming>): (r: ProductState)
    ensures r.created + r.updated == st.created + st.updated + |Filter(xs, (x: Incoming) => Applies(bySource, x))|
    ensures SameKeysUpTo(st.products, r.products)
    ensures |r.products| == |st.products| + (r.created - st.created) && r.created >= st.created
    decreases |xs|
  {
    if xs == [] then st
    else
      var q := ProductStep(bySource, st, xs[0]);
      assert xs == [xs[0]] + xs[1..];
      ProductRun(bySource, q, xs[1..])
  }

  predicate ProductIdTaken(products: seq<Product>, id: Option<Uuid>) {
    id.Some? && exists i :: 0 <= i < |products| && products[i].id == id
  }

  /** The row would create a product whose id is taken. */
  predicate ProductStepCollides(bySource: map<string, nat>, st: ProductState, x: Incoming) {
    Applies(bySource, x) && FirstIndex(st.products, MatchOf(bySource, x)).None? && ProductIdTaken(st.products, x.id)
  }

  /** Some row of the run creates a product whose id is taken by then. */
  predicate ProductCollides(bySource: map<string, nat>, st: ProductState, xs: seq<Incoming>)
    decreases |xs|
  {
    xs != [] && (ProductStepCollides(bySource, st, xs[0]) || ProductCollides(bySource, ProductStep(bySource, st, xs[0]), xs[1..]))
  }

  /** No two stored products share a fixed id. */
  predicate DistinctProductIds(products: seq<Product>) {
    forall i, j :: 0 <= i < j < |products| && products[i].id.Some? ==> products[i].id != products[j].id
  }

  /** A row that does not collide keeps the product ids distinct: an update keeps the stored
      id, a creation takes a free one. */
  lemma ProductStepKeepsIds(bySource: map<string, nat>, st: ProductState, x: Incoming)
    requires DistinctProductIds(st.products) && !ProductStepCollides(bySource, st, x)
    ensures DistinctProductIds(ProductStep(bySource, st, x).products)
  {
    var q := ProductStep(bySource, st, x);
    if Applies(bySource, x) {
      var m := MatchOf(bySource, x);
      match FirstIndex(st.products, m)
      case None =>
        assert !ProductIdTaken(st.products, x.id);
        assert q.products[|st.products|].id == x.id;
      case Some(i) =>
        assert q.products[i].id == st.products[i].id;
        assert forall j :: 0 <= j < |q.products| ==> q.products[j].id == st.products[j].id;
    }
  }

  /** A run in which no row collides keeps the product ids distinct. */
  lemma {:induction false} ProductRunKeepsIds(bySource: map<string, nat>, st: ProductState, xs: seq<Incoming>)
    requires DistinctProductIds(st.products) && !ProductCollides(bySource, st, xs)
    ensures DistinctProductIds(ProductRun(bySource, st, xs).products)
    decreases |xs|
  {
    if xs != [] {
      ProductStepKeepsIds(bySource, st, xs[0]);
      ProductRunKeepsIds(bySource, ProductStep(bySource, st, xs[0]), xs[1..]);
    }
  }

  /** New products belong to suppliers the id map points at. */
  lemma {:induction false} ProductRunRefers(bySource: map<string, nat>, st: ProductState, xs: seq<Incoming>, n: nat)
    requires RefersWithin(st.products, n) && forall k :: k in bySource ==> bySource[k] < n
    ensures RefersWithin(ProductRun(bySource, st, xs).products, n)
    decreases |xs|
  {
    if xs != [] {
      var q := ProductStep(bySource, st, xs[0]);
      if Applies(bySource, xs[0]) {
        var j := FirstIndex(q.products, MatchOf(bySource, xs[0])).value;
        forall i | 0 <= i < |q.products| ensures q.products[i].supplier < n {
          if i >= |st.products| {
            assert i == j;
          }
        }
      }
      ProductRunRefers(bySource, q, xs[1..], n);
    }
  }

  /** Every applicable row has its product after the run, whether created or updated. */
  lemma {:induction false} ProductRunCovers(bySource: map<string, nat>, st: ProductState, xs: seq<Incoming>)
    ensures var r := ProductRun(bySource, st, xs);
            forall i :: 0 <= i < |xs| && Applies(bySource, xs[i]) ==> FirstIndex(r.products, MatchOf(bySource, xs[i])).Some?
    decreases |xs|
  {
    if xs != [] {
      var q := ProductStep(bySource, st, xs[0]);
      var r := ProductRun(bySource, q, xs[1..]);
      ProductRunCovers(bySource, q, xs[1..]);
      if Applies(bySource, xs[0]) {
        FirstIndexAgrees(q.products, r.products, MatchOf(bySource, xs[0]));
      }
      assert forall i :: 1 <= i < |xs| ==> xs[i] == xs[1..][i - 1];
    }
  }

  /** When every applicable row already has its product, the run only updates. */
  lemma {:induction false} ProductRunCreatesNothing(bySource: map<string, nat>, st: ProductState, xs: seq<Incoming>)
    requires forall i :: 0 <= i < |xs| && Applies(bySource, xs[i]) ==> FirstIndex(st.products, MatchOf(bySource, xs[i])).Some?
    ensures ProductRun(bySource, st, xs).created == st.created
    ensures !ProductCollides(bySource, st, xs)
    decreases |xs|
  {
    if xs != [] {
      var q := ProductStep(bySource, st, xs[0]);
      forall i | 1 <= i < |xs| && Applies(bySource, xs[i])
        ensures FirstIndex(q.products, MatchOf(bySource, xs[i])).Some?
      {
        FirstIndexAgrees(st.products, q.products, MatchOf(bySource, xs[i]));
      }
      assert forall i :: 1 <= i < |xs| ==> xs[i] == xs[1..][i - 1];
      ProductRunCreatesNothing(bySource, q, xs[1..]);
    }
  }

  // ---------------------------------------------------------------------------------------
  // The import

  /** What reading the two fiches tables gave. */
  datatype CatalogRead = CatalogNotConfigured | CatalogReadFailed(error: string)
                       | Tables(supplierRows: seq<SupplierRow>, productRows: seq<ProductRow>)

  datatype CatalogResult =
    | CatalogFailed(detail: string)
      /** A creation hit a stored id: the `IntegrityError` escapes the function and the
          transaction rolls back every write. */
    | CatalogAborted
    | CatalogOk(suppliersRead: nat, productsRead: nat, supplierCreated: nat, supplierUpdated: nat,
                productCreated: nat, productUpdated: nat, invalidSupplierIds: nat, invalidProductIds: nat)

  datatype Catalog = Catalog(suppliers: seq<Supplier>, products: seq<Product>)

  /** A catalog whose products refer to its suppliers. */
  predicate WellFormed(c: Catalog) {
    RefersWithin(c.products, |c.suppliers|)
  }

  /** Both phases, suppliers first, from an empty id map. */
  function Phases(host: Host, c: Catalog, suppliers: seq<SupplierRow>, products: seq<ProductRow>): (SupplierState, ProductState) {
    var s := SupplierRun(SupplierState(c.suppliers, map[], 0, 0, 0), Map(suppliers, SupplierWith(host)));
    (s, ProductRun(s.bySource, ProductState(c.products, 0, 0, 0), Map(products, IncomingWith(host))))
  }

  /** Some creation of the supplier phase, or of the product phase that follows it, asks for a
      stored id. */
  predicate Aborts(host: Host, c: Catalog, suppliers: seq<SupplierRow>, products: seq<ProductRow>) {
    var s := SupplierRun(SupplierState(c.suppliers, map[], 0, 0, 0), Map(suppliers, SupplierWith(host)));
    || SupplierCollides(SupplierState(c.suppliers, map[], 0, 0, 0), Map(suppliers, SupplierWith(host)))
    || ProductCollides(s.bySource, ProductState(c.products, 0, 0, 0), Map(products, IncomingWith(host)))
  }

  /** `import_supplier_catalog_from_fiches`: without the fiches database, or when reading it
      fails, nothing changes; when a creation asks for a stored id the import aborts and
      nothing changes; otherwise every named supplier row is created or updated, then every
      named product row of an imported supplier. Records are never removed. */
  function ImportCatalog(host: Host, c: Catalog, read: CatalogRead): (r: (CatalogResult, Catalog))
    ensures read.CatalogNotConfigured? ==> r == (CatalogFailed("FICHES DB non configurato."), c)
    ensures read.CatalogReadFailed? ==> r == (CatalogFailed("Impossibile leggere DB fiches: " + read.error), c)
    ensures r.0.CatalogAborted? <==> read.Tables? && Aborts(host, c, read.supplierRows, read.productRows)
    ensures r.0.CatalogAborted? ==> r.1 == c
    ensures read.Tables? && !Aborts(host, c, read.supplierRows, read.productRows) ==>
              && r.0.CatalogOk? && r.0.suppliersRead == |read.supplierRows| && r.0.productsRead == |read.productRows|
              && r.0.supplierCreated + r.0.supplierUpdated == |NamedSuppliers(read.supplierRows)|
              && r.0.productCreated + r.0.productUpdated <= |read.productRows|
              && |r.1.suppliers| == |c.suppliers| + r.0.supplierCreated
              && |r.1.products| == |c.products| + r.0.productCreated
              && SameNamesUpTo(c.suppliers, r.1.suppliers) && SameKeysUpTo(c.products, r.1.products)
  {
    match read
    case CatalogNotConfigured => (CatalogFailed("FICHES DB non configurato."), c)
    case CatalogReadFailed(e) => (CatalogFailed("Impossibile leggere DB fiches: " + e), c)
    case Tables(supplierRows, productRows) =>
      if Aborts(host, c, supplierRows, productRows) then (CatalogAborted, c)
      else
        var (s, p) := Phases(host, c, supplierRows, productRows);
        FilterMapCount(supplierRows, SupplierWith(host), Named, (row: SupplierRow) => SupplierName(row) != "");
        (CatalogOk(|supplierRows|, |productRows|, s.created, s.updated, p.created, p.updated, s.invalidIds, p.invalidIds),
         Catalog(s.suppliers, p.products))
  }

  /** The id map only points at stored suppliers. */
  predicate MapWithin(st: SupplierState) {
    forall k :: k in st.bySource ==> st.bySource[k] < |st.suppliers|
  }

  lemma SupplierStepMapWithin(st: SupplierState, x: IncomingSupplier)
    requires MapWithin(st)
    ensures MapWithin(SupplierStep(st, x))
  {
    var q := SupplierStep(st, x);
    if Named(x) {
      var j := FirstIndex(q.suppliers, HasName(x.name)).value;
      assert q.bySource == st.bySource[x.sourceId := j];
      forall k | k in q.bySource ensures q.bySource[k] < |q.suppliers| {
        if k != x.sourceId {
          assert q.bySource[k] == st.bySource[k];
        }
      }
    }
  }

  lemma {:induction false} SupplierMapWithin(st: SupplierState, xs: seq<IncomingSupplier>)
    requires MapWithin(st)
    ensures MapWithin(SupplierRun(st, xs))
    decreases |xs|
  {
    if xs != [] {
      SupplierStepMapWithin(st, xs[0]);
      SupplierMapWithin(SupplierStep(st, xs[0]), xs[1..]);
    }
  }

  /** The import keeps every product pointing at a stored supplier. */
  lemma ImportKeepsWellFormed(host: Host, c: Catalog, read: CatalogRead)
    requires WellFormed(c)
    ensures WellFormed(ImportCatalog(host, c, read).1)
  {
    if read.Tables? {
      var ys := Map(read.supplierRows, SupplierWith(host));
      var s := SupplierRun(SupplierState(c.suppliers, map[], 0, 0, 0), ys);
      SupplierMapWithin(SupplierState(c.suppliers, map[], 0, 0, 0), ys);
      ProductRunRefers(s.bySource, ProductState(c.products, 0, 0, 0), Map(read.productRows, IncomingWith(host)), |s.suppliers|);
    }
  }

  /** An import that is not aborted leaves no two suppliers, and no two products, with the
      same fixed id. */
  lemma ImportKeepsIdsDistinct(host: Host, c: Catalog, read: CatalogRead)
    requires DistinctSupplierIds(c.suppliers) && DistinctProductIds(c.products)
    ensures var r := ImportCatalog(host, c, read).1;
            DistinctSupplierIds(r.suppliers) && DistinctProductIds(r.products)
  {
    if read.Tables? && !Aborts(host, c, read.supplierRows, read.productRows) {
      var ys := Map(read.supplierRows, SupplierWith(host));
      var s := SupplierRun(SupplierState(c.suppliers, map[], 0, 0, 0), ys);
      SupplierRunKeepsIds(SupplierState(c.suppliers, map[], 0, 0, 0), ys);
      ProductRunKeepsIds(s.bySource, ProductState(c.products, 0, 0, 0), Map(read.productRows, IncomingWith(host)));
    }
  }

  /** Importing the same tables twice creates nothing the second time: every supplier is found
      by name and every product by supplier and name, so nothing can collide either. An
      aborted first import changed nothing, and the second aborts the same way. */
  lemma ImportCatalogTwice(host: Host, c: Catalog, read: CatalogRead)
    requires read.Tables?
    ensures var first := ImportCatalog(host, c, read);
            var second := ImportCatalog(host, first.1, read);
            && (first.0.CatalogAborted? ==> second == first)
            && (first.0.CatalogOk? ==>
                  second.0.CatalogOk? && second.0.supplierCreated == 0 && second.0.productCreated == 0)
  {
    if Aborts(host, c, read.supplierRows, read.productRows) {
      return;
    }
    var (s1, p1) := Phases(host, c, read.supplierRows, read.productRows);
    var c1 := Catalog(s1.suppliers, p1.products);
    var (s2, p2) := Phases(host, c1, read.supplierRows, read.productRows);
    SupplierRerun(SupplierState(c.suppliers, map[], 0, 0, 0), SupplierState(c1.suppliers, map[], 0, 0, 0),
                  Map(read.supplierRows, SupplierWith(host)));
    var xs := Map(read.productRows, IncomingWith(host));
    ProductRunCovers(s1.bySource, ProductState(c.products, 0, 0, 0), xs);
    ProductRunCreatesNothing(s2.bySource, ProductState(c1.products, 0, 0, 0), xs);
  }
}
