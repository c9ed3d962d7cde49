/** Reading the ingredient list out of a snapshot payload
    (backend/apps/core/services/service_ingredients.py). */
module Ingredients {

  import opened Wrappers
  import opened Text
  import opened Numbers
  import opened Json
  import opened Host
  import opened Seqs

  /** One extracted ingredient; `qty` is a `Decimal`. */
  datatype Ingredient = Ingredient(name: string, qty: real, unit: string, supplier: string)

  /** `_to_decimal`: `Decimal(str(value))`, with 0 for None and for any text that is not a
      decimal literal. The pass-through for a `Decimal` value has no counterpart in a JSON
      payload. */
  function ToDecimal(v: Json): (r: real)
    ensures v.JNull? || v.JBool? || v.JList? || v.JObj? ==> r == 0.0
    ensures v.JInt? ==> r == v.i as real
    ensures v.JStr? ==> r == ParseDecimal(v.s).GetOr(0.0)
    ensures v.JFloat? ==> r == ParseDecimal(v.text).GetOr(0.0)
  {
    match v
    case JNull => 0.0
    case JInt(i) =>
      ParseDecimalOfInt(i);
      ParseDecimal(IntToString(i)).value
    case JFloat(t) => ParseDecimal(t).GetOr(0.0)
    case JStr(s) => ParseDecimal(s).GetOr(0.0)
    case _ => 0.0
  }

  /** A quantity with a unit suffix is not a decimal, so it reads as zero. */
  lemma UnitSuffixReadsAsZero()
    ensures ToDecimal(JStr("130 g")) == 0.0
  {
    DecimalRejectsUnitSuffix();
  }

  /** Python's `a or b or ... or default`: the first truthy value, else the default. */
  function FirstTruthy(vals: seq<Json>, default: Json): (r: Json)
    ensures (forall i :: 0 <= i < |vals| ==> !Truthy(vals[i])) ==> r == default
    ensures (exists i :: 0 <= i < |vals| && Truthy(vals[i])) ==>
              exists i :: 0 <= i < |vals| && r == vals[i] && Truthy(vals[i])
                          && forall j :: 0 <= j < i ==> !Truthy(vals[j])
  {
    match First(vals, Truthy)
    case Some(v) => v
    case None => default
  }

  /** The values of `keys` in `item`, in order (missing keys read as None). */
  function Lookups(item: Json, keys: seq<string>): (r: seq<Json>)
    ensures |r| == |keys| && forall i :: 0 <= i < |keys| ==> r[i] == Get(item, keys[i])
  {
    seq(|keys|, i requires 0 <= i < |keys| => Get(item, keys[i]))
  }

  const NameKeys: seq<string> := ["name", "title", "ingredient", "product_name"]
  const QtyKeys: seq<string> := ["quantity", "qty", "amount", "value"]
  const UnitKeys: seq<string> := ["unit", "uom", "qty_unit"]
  const SupplierKeys: seq<string> := ["supplier", "supplier_name", "vendor"]

  /** The ingredient list of a payload: the first of `ingredients`, `data.ingredients` and
      `recipe.ingredients` that is a list (a nested one only inside an object), else empty. */
  function Candidates(payload: Json): (r: seq<Json>)
    ensures Get(payload, "ingredients").JList? ==> r == Get(payload, "ingredients").items
    ensures (!Get(payload, "ingredients").JList? && !Get(Get(payload, "data"), "ingredients").JList?
             && !Get(Get(payload, "recipe"), "ingredients").JList?) ==> r == []
  {
    var top := Get(payload, "ingredients");
    var data := Get(payload, "data");
    var recipe := Get(payload, "recipe");
    if top.JList? then top.items
    else if data.JObj? && Get(data, "ingredients").JList? then Get(data, "ingredients").items
    else if recipe.JObj? && Get(recipe, "ingredients").JList? then Get(recipe, "ingredients").items
    else []
  }

  /** An item yields an ingredient when it is an object with a truthy name under one of the
      name keys. */
  predicate HasName(item: Json) {
    item.JObj? && Truthy(FirstTruthy(Lookups(item, NameKeys), JStr("")))
  }

  /** Python's `item.get(k0) or item.get(k1) or ... or default` over `keys`. */
  function AliasChain(item: Json, keys: seq<string>, default: Json): Json
    decreases |keys|
  {
    if keys == [] then default else Or(Get(item, keys[0]), AliasChain(item, keys[1..], default))
  }

  /** The first truthy value of the keys, in order, is what the `or` chain over them gives. */
  lemma {:induction false} FirstTruthyIsAliasChain(item: Json, keys: seq<string>, default: Json)
    ensures FirstTruthy(Lookups(item, keys), default) == AliasChain(item, keys, default)
    decreases |keys|
  {
    if keys != [] {
      var vals := Lookups(item, keys);
      FirstTruthyIsAliasChain(item, keys[1..], default);
      assert vals[1..] == Lookups(item, keys[1..]);
      if !Truthy(vals[0]) {
        assert First(vals, Truthy) == First(vals[1..], Truthy);
      }
    }
  }

  /** The `or` chain over three keys, written out. */
  lemma AliasChainOfThree(item: Json, keys: seq<string>, default: Json)
    requires |keys| == 3
    ensures AliasChain(item, keys, default)
            == Or(Get(item, keys[0]), Or(Get(item, keys[1]), Or(Get(item, keys[2]), default)))
  {
    var k1 := keys[1..];
    var k2 := k1[1..];
    assert k1[0] == keys[1] && k2[0] == keys[2] && k2[1..] == [];
    assert AliasChain(item, k2, default) == Or(Get(item, keys[2]), default);
    assert AliasChain(item, k1, default) == Or(Get(item, keys[1]), AliasChain(item, k2, default));
  }

  /** The name: the first truthy of `name`, `title`, `ingredient`, `product_name`, as stripped
      text; "" when none is truthy. */
  function IngredientName(host: Host, item: Json): (n: string)
    ensures Truthy(Get(item, "name")) ==> n == Strip(Str(Get(item, "name"), host.show))
    ensures !Truthy(Get(item, "name")) && Truthy(Get(item, "title")) ==> n == Strip(Str(Get(item, "title"), host.show))
    ensures (!Truthy(Get(item, "name")) && !Truthy(Get(item, "title")) && Truthy(Get(item, "ingredient")))
            ==> n == Strip(Str(Get(item, "ingredient"), host.show))
    ensures (!Truthy(Get(item, "name")) && !Truthy(Get(item, "title")) && !Truthy(Get(item, "ingredient"))
             && Truthy(Get(item, "product_name")))
            ==> n == Strip(Str(Get(item, "product_name"), host.show))
    ensures (!Truthy(Get(item, "name")) && !Truthy(Get(item, "title")) && !Truthy(Get(item, "ingredient"))
             && !Truthy(Get(item, "product_name")))
            ==> n == ""
    ensures IsStripped(n)
  {
    FirstTruthyIsAliasChain(item, NameKeys, JStr(""));
    Strip(Str(FirstTruthy(Lookups(item, NameKeys), JStr("")), host.show))
  }

  /** The quantity: the first truthy of `quantity`, `qty`, `amount`, `value`, read as a
      decimal; 0 when none is truthy. */
  function IngredientQty(item: Json): (q: real)
    ensures Truthy(Get(item, "quantity")) ==> q == ToDecimal(Get(item, "quantity"))
    ensures !Truthy(Get(item, "quantity")) && Truthy(Get(item, "qty")) ==> q == ToDecimal(Get(item, "qty"))
    ensures (!Truthy(Get(item, "quantity")) && !Truthy(Get(item, "qty")) && Truthy(Get(item, "amount")))
            ==> q == ToDecimal(Get(item, "amount"))
    ensures (!Truthy(Get(item, "quantity")) && !Truthy(Get(item, "qty")) && !Truthy(Get(item, "amount"))
             && Truthy(Get(item, "value")))
            ==> q == ToDecimal(Get(item, "value"))
    ensures (!Truthy(Get(item, "quantity")) && !Truthy(Get(item, "qty")) && !Truthy(Get(item, "amount"))
             && !Truthy(Get(item, "value")))
            ==> q == 0.0
  {
    FirstTruthyIsAliasChain(item, QtyKeys, JInt(0));
    ToDecimal(FirstTruthy(Lookups(item, QtyKeys), JInt(0)))
  }

  /** The default unit "pc" reads back as itself. */
  lemma DefaultUnitStripped(host: Host)
    ensures Strip(Str(JStr("pc"), host.show)) == "pc"
  {
    StripStripped("pc");
  }

  /** The unit: the first truthy of `unit`, `uom`, `qty_unit`, as stripped text; "pc" when
      none is truthy. */
  function IngredientUnit(host: Host, item: Json): (u: string)
    ensures Truthy(Get(item, "unit")) ==> u == Strip(Str(Get(item, "unit"), host.show))
    ensures !Truthy(Get(item, "unit")) && Truthy(Get(item, "uom")) ==> u == Strip(Str(Get(item, "uom"), host.show))
    ensures (!Truthy(Get(item, "unit")) && !Truthy(Get(item, "uom")) && Truthy(Get(item, "qty_unit")))
            ==> u == Strip(Str(Get(item, "qty_unit"), host.show))
    ensures (!Truthy(Get(item, "unit")) && !Truthy(Get(item, "uom")) && !Truthy(Get(item, "qty_unit")))
            ==> u == "pc"
    ensures IsStripped(u)
  {
    FirstTruthyIsAliasChain(item, UnitKeys, JStr("pc"));
    AliasChainOfThree(item, UnitKeys, JStr("pc"));
    DefaultUnitStripped(host);
    Strip(Str(FirstTruthy(Lookups(item, UnitKeys), JStr("pc")), host.show))
  }

  /** The supplier: the first truthy of `supplier`, `supplier_name`, `vendor`, as stripped
      text; "" when none is truthy. */
  function IngredientSupplier(host: Host, item: Json): (s: string)
    ensures Truthy(Get(item, "supplier")) ==> s == Strip(Str(Get(item, "supplier"), host.show))
    ensures !Truthy(Get(item, "supplier")) && Truthy(Get(item, "supplier_name"))
            ==> s == Strip(Str(Get(item, "supplier_name"), host.show))
    ensures (!Truthy(Get(item, "supplier")) && !Truthy(Get(item, "supplier_name")) && Truthy(Get(item, "vendor")))
            ==> s == Strip(Str(Get(item, "vendor"), host.show))
    ensures (!Truthy(Get(item, "supplier")) && !Truthy(Get(item, "supplier_name")) && !Truthy(Get(item, "vendor")))
            ==> s == ""
    ensures IsStripped(s)
  {
    FirstTruthyIsAliasChain(item, SupplierKeys, JStr(""));
    AliasChainOfThree(item, SupplierKeys, JStr(""));
    Strip(Str(FirstTruthy(Lookups(item, SupplierKeys), JStr("")), host.show))
  }

  /** The ingredient read from an item: each field from its aliases as above. */
  function ToIngredient(host: Host, item: Json): (r: Ingredient)
    ensures r.name == IngredientName(host, item) && r.qty == IngredientQty(item)
    ensures r.unit == IngredientUnit(host, item) && r.supplier == IngredientSupplier(host, item)
    ensures IsStripped(r.name) && IsStripped(r.unit) && IsStripped(r.supplier)
  {
    Ingredient(IngredientName(host, item), IngredientQty(item), IngredientUnit(host, item), IngredientSupplier(host, item))
  }

  function ToIngredientWith(host: Host): Json -> Ingredient {
    item => ToIngredient(host, item)
  }

  /** `extract_ingredients`: the named object items of the payload's ingredient list, in order. */
  function ExtractIngredients(host: Host, payload: Json): (r: seq<Ingredient>)
    ensures |r| <= |Candidates(payload)|
    ensures |r| == |Filter(Candidates(payload), HasName)|
    ensures forall i :: 0 <= i < |r| ==> r[i] == ToIngredient(host, Filter(Candidates(payload), HasName)[i])
  {
    Map(Filter(Candidates(payload), HasName), ToIngredientWith(host))
  }

  /** Every object item with a truthy name yields an ingredient and nothing else does, so
      with all items named the output has one ingredient per item, in order. */
  lemma ExtractAllNamed(host: Host, payload: Json)
    requires forall i :: 0 <= i < |Candidates(payload)| ==> HasName(Candidates(payload)[i])
    ensures |ExtractIngredients(host, payload)| == |Candidates(payload)|
    ensures forall i :: 0 <= i < |Candidates(payload)| ==>
              ExtractIngredients(host, payload)[i] == ToIngredient(host, Candidates(payload)[i])
  {
    FilterAll(Candidates(payload), HasName);
  }

  /** A payload whose ingredient list holds no named object item yields nothing. */
  lemma ExtractNoneNamed(host: Host, payload: Json)
    requires forall i :: 0 <= i < |Candidates(payload)| ==> !HasName(Candidates(payload)[i])
    ensures ExtractIngredients(host, payload) == []
  {
    FilterNone(Candidates(payload), HasName);
  }

  /** The emptiness check looks at the name before stripping: a whitespace-only name is truthy,
      so the item yields an ingredient, and its name is empty. */
  lemma WhitespaceNameKept(host: Host, item: Json, s: string)
    requires item.JObj? && FirstTruthy(Lookups(item, NameKeys), JStr("")) == JStr(s)
    requires s != [] && forall k :: 0 <= k < |s| ==> IsSpace(s[k])
    ensures HasName(item)
    ensures ToIngredient(host, item).name == ""
  {
    assert Truthy(JStr(s));
    assert Str(JStr(s), host.show) == s;
    StripEmptyIffBlank(s);
  }
}
