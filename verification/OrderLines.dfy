/** `OdooClient._build_order_lines`: the lines of a whole order, simple and bundle items alike. */
module OrderLines {
  import opened Common
  import opened Rounding
  import opened BundleSplit

  datatype Item = Item(
    platformItemId: string,
    platformVariantId: Option<string>,
    sku: string,
    quantity: int,
    discountedPrice: real)

  datatype MappingId = MappingId(n: int)

  datatype Mapping = Mapping(id: MappingId, odooSku: string, isBundle: bool)

  /** What the lookups answer for one platform: active mappings by platform SKU, component lists, Odoo products. */
  datatype Catalog = Catalog(
    mappings: map<string, Mapping>,
    components: map<MappingId, seq<Component>>,
    products: set<string>)

  function Lookup(cat: Catalog, key: string): Option<Mapping> {
    if key in cat.mappings then Some(cat.mappings[key]) else None
  }

  /** The variant's own mapping if there is one, else the item's. */
  function MappingOf(cat: Catalog, item: Item): Option<Mapping> {
    var own := match item.platformVariantId
               case Some(v) => if v == "" then None else Lookup(cat, item.platformItemId + ":" + v)
               case None => None;
    if own.None? && item.platformItemId != "" then Lookup(cat, item.platformItemId) else own
  }

  /** A bundle without components falls back to the mapping's own SKU. */
  function ComponentsOf(cat: Catalog, mapping: Mapping): (comps: seq<Component>)
    ensures comps != []
  {
    var comps := if mapping.id in cat.components then cat.components[mapping.id] else [];
    if comps == [] then [Component(mapping.odooSku, 1)] else comps
  }

  predicate IsBundle(cat: Catalog, item: Item) {
    MappingOf(cat, item).Some? && MappingOf(cat, item).value.isBundle
  }

  function TargetSku(cat: Catalog, item: Item): string {
    if MappingOf(cat, item).Some? then MappingOf(cat, item).value.odooSku else item.sku
  }

  function ItemLines(cat: Catalog, item: Item): seq<Line> {
    if IsBundle(cat, item) then
      BundleLines(item.discountedPrice, item.quantity, ComponentsOf(cat, MappingOf(cat, item).value))
    else
      [Line(TargetSku(cat, item), item.quantity, item.discountedPrice)]
  }

  function ComponentSkus(comps: seq<Component>): seq<string> {
    if comps == [] then [] else [comps[0].sku] + ComponentSkus(comps[1..])
  }

  /** The products looked up for an item, in order. */
  function ItemSkus(cat: Catalog, item: Item): seq<string> {
    if IsBundle(cat, item) then ComponentSkus(ComponentsOf(cat, MappingOf(cat, item).value)) else [TargetSku(cat, item)]
  }

  function LinesOf(cat: Catalog, items: seq<Item>): seq<Line> {
    if items == [] then [] else ItemLines(cat, items[0]) + LinesOf(cat, items[1..])
  }

  function SkusOf(cat: Catalog, items: seq<Item>): seq<string> {
    if items == [] then [] else ItemSkus(cat, items[0]) + SkusOf(cat, items[1..])
  }

  /** The first SKU that Odoo does not know. */
  function FirstMissing(products: set<string>, skus: seq<string>): Option<string> {
    if skus == [] then None
    else if skus[0] !in products then Some(skus[0])
    else FirstMissing(products, skus[1..])
  }

  lemma {:induction false} FirstMissingAppend(products: set<string>, a: seq<string>, b: seq<string>)
    ensures FirstMissing(products, a + b) ==
            if FirstMissing(products, a).Some? then FirstMissing(products, a) else FirstMissing(products, b)
  {
    if a == [] {
      assert a + b == b;
    } else {
      assert (a + b)[1..] == a[1..] + b;
      FirstMissingAppend(products, a[1..], b);
    }
  }

  lemma EmitStep(lines: seq<Line>, sku: string, groups: seq<(int, real)>, k: nat, whole: seq<Line>)
    requires k < |groups| && lines + Emit(sku, groups[k..]) == whole
    ensures (if groups[k].0 <= 0 then lines else lines + [Line(sku, groups[k].0, groups[k].1)]) +
            Emit(sku, groups[k + 1..]) == whole
  {
    assert groups[k..][1..] == groups[k + 1..];
    var rest := Emit(sku, groups[k + 1..]);
    if groups[k].0 <= 0 {
      assert [] + rest == rest;
    } else {
      var line := [Line(sku, groups[k].0, groups[k].1)];
      assert lines + (line + rest) == (lines + line) + rest;
    }
  }

  /** The lines of the price groups of one component. */
  method AppendGroups(sku: string, groups: seq<(int, real)>) returns (lines: seq<Line>)
    ensures lines == Emit(sku, groups)
  {
    lines := [];
    ghost var whole := Emit(sku, groups);
    assert groups[0..] == groups && lines + whole == whole;
    for k := 0 to |groups|
      invariant lines + Emit(sku, groups[k..]) == whole
    {
      EmitStep(lines, sku, groups, k, whole);
      var (lineQty, linePrice) := groups[k];
      if lineQty <= 0 {
        continue;
      }
      lines := lines + [Line(sku, lineQty, linePrice)];
    }
    assert groups[|groups|..] == [] && lines + [] == lines;
  }

  /** The price groups of the last component, computed as the source does. */
  method PriceLast(remaining: real, qty: int) returns (groups: seq<(int, real)>)
    requires qty > 0
    ensures groups == LastGroups(remaining, qty)
  {
    var priceUnit := NearestPrice(remaining, qty) as real;
    var drift := Abs(Times(qty, priceUnit) - remaining);
    if drift > 1.0 && qty > 1 {
      var low := priceUnit;
      if Times(qty, low) > remaining {
        low := low - 1.0;
      }
      var high := low + 1.0;
      var highQty := RoundHalfUp(remaining - Times(qty, low));
      if highQty > qty {
        highQty := qty;
      }
      if highQty < 0 {
        highQty := 0;
      }
      groups := [(qty - highQty, low), (highQty, high)];
    } else {
      groups := [(qty, priceUnit)];
    }
  }

  /** What one component adds to the lines of a bundle. */
  lemma SplitStep(lines: seq<Line>, comps: seq<Component>, idx: nat, quantity: int, base: real, remaining: real, whole: seq<Line>)
    requires idx < |comps| && lines + SplitFrom(comps[idx..], quantity, base, remaining) == whole
    ensures var qty := comps[idx].quantity * quantity;
            if idx == |comps| - 1 && qty > 0 then
              lines + Emit(comps[idx].sku, LastGroups(remaining, qty)) + SplitFrom(comps[idx + 1..], quantity, base, remaining) == whole
            else
              lines + Emit(comps[idx].sku, [(qty, base)]) +
              SplitFrom(comps[idx + 1..], quantity, base, remaining - Times(qty, base)) == whole
  {
    assert comps[idx..][1..] == comps[idx + 1..];
  }

  /** The bundle branch: the running remainder is charged to the last component. */
  method BuildBundle(products: set<string>, price: real, quantity: int, comps: seq<Component>)
    returns (r: Result<seq<Line>, string>)
    ensures r == match FirstMissing(products, ComponentSkus(comps))
                 case None => Ok(BundleLines(price, quantity, comps))
                 case Some(sku) => Err(sku)
  {
    var base := BasePerUnit(price, comps);
    var remaining := Times(quantity, price);
    var lines := [];
    ghost var whole := BundleLines(price, quantity, comps);
    assert comps[0..] == comps && lines + whole == whole;
    for idx := 0 to |comps|
      invariant lines + SplitFrom(comps[idx..], quantity, base, remaining) == whole
      invariant FirstMissing(products, ComponentSkus(comps)) == FirstMissing(products, ComponentSkus(comps[idx..]))
    {
      SplitStep(lines, comps, idx, quantity, base, remaining, whole);
      var comp := comps[idx];
      var qty := comp.quantity * quantity;
      var groups;
      if idx == |comps| - 1 && qty > 0 {
        groups := PriceLast(remaining, qty);
      } else {
        groups := [(qty, base)];
        remaining := remaining - Times(qty, base);
      }
      assert comps[idx..][1..] == comps[idx + 1..];
      assert ComponentSkus(comps[idx..])[1..] == ComponentSkus(comps[idx + 1..]);
      if comp.sku !in products {
        return Err(comp.sku);
      }
      var emitted := AppendGroups(comp.sku, groups);
      lines := lines + emitted;
    }
    assert comps[|comps|..] == [] && lines + [] == lines;
    r := Ok(lines);
  }

  /** One round of the loop over the items. */
  method BuildItem(cat: Catalog, item: Item) returns (r: Result<seq<Line>, string>)
    ensures r == match FirstMissing(cat.products, ItemSkus(cat, item))
                 case None => Ok(ItemLines(cat, item))
                 case Some(sku) => Err(sku)
  {
    var mapping := None;
    if item.platformVariantId.Some? && item.platformVariantId.value != "" {
      mapping := Lookup(cat, item.platformItemId + ":" + item.platformVariantId.value);
    }
    if mapping.None? && item.platformItemId != "" {
      mapping := Lookup(cat, item.platformItemId);
    }
    assert mapping == MappingOf(cat, item);
    if mapping.Some? && mapping.value.isBundle {
      r := BuildBundle(cat.products, item.discountedPrice, item.quantity, ComponentsOf(cat, mapping.value));
      return;
    }
    var target := if mapping.Some? then mapping.value.odooSku else item.sku;
    assert [target][1..] == [];
    if target !in cat.products {
      return Err(target);
    }
    r := Ok([Line(target, item.quantity, item.discountedPrice)]);
  }

  /** What one item adds to the lines, and to the products looked up. */
  lemma ItemStep(cat: Catalog, items: seq<Item>, i: nat, lines: seq<Line>, whole: seq<Line>)
    requires i < |items| && lines + LinesOf(cat, items[i..]) == whole
    ensures lines + ItemLines(cat, items[i]) + LinesOf(cat, items[i + 1..]) == whole
    ensures var first := FirstMissing(cat.products, ItemSkus(cat, items[i]));
            FirstMissing(cat.products, SkusOf(cat, items[i..])) ==
            if first.Some? then first else FirstMissing(cat.products, SkusOf(cat, items[i + 1..]))
  {
    assert items[i..][1..] == items[i + 1..];
    FirstMissingAppend(cat.products, ItemSkus(cat, items[i]), SkusOf(cat, items[i + 1..]));
  }

  /** `_build_order_lines`. */
  method BuildOrderLines(cat: Catalog, items: seq<Item>) returns (r: Result<seq<Line>, string>)
    ensures r == match FirstMissing(cat.products, SkusOf(cat, items))
                 case None => Ok(LinesOf(cat, items))
                 case Some(sku) => Err(sku)
  {
    var lines := [];
    ghost var whole, missing := LinesOf(cat, items), FirstMissing(cat.products, SkusOf(cat, items));
    assert items[0..] == items && lines + whole == whole;
    for i := 0 to |items|
      invariant lines + LinesOf(cat, items[i..]) == whole
      invariant missing == FirstMissing(cat.products, SkusOf(cat, items[i..]))
    {
      ItemStep(cat, items, i, lines, whole);
      var itemLines := BuildItem(cat, items[i]);
      if itemLines.Err? {
        return itemLines;
      }
      lines := lines + itemLines.value;
    }
    assert items[|items|..] == [] && lines + [] == lines;
    r := Ok(lines);
  }

  // ------------------------------------------------------------------------------------------
  // Which products are sold
  // ------------------------------------------------------------------------------------------

  /** The active mapping of the variant, else that of the item, looked up in the table itself. */
  predicate HasMapping(cat: Catalog, item: Item, m: Option<Mapping>) {
    var variantKey := if item.platformVariantId.Some? then item.platformItemId + ":" + item.platformVariantId.value else "";
    if item.platformVariantId.Some? && item.platformVariantId.value != "" && variantKey in cat.mappings then
      m == Some(cat.mappings[variantKey])
    else if item.platformItemId != "" && item.platformItemId in cat.mappings then
      m == Some(cat.mappings[item.platformItemId])
    else m.None?
  }

  /**
   An item without a mapping is sold as the platform's SKU, one with a simple mapping as the mapped
   product, both with the item's quantity and price; a bundle is sold as its components, or, if it has
   none, as one piece of the mapped product.
   */
  lemma ProductsSold(cat: Catalog, item: Item, m: Option<Mapping>)
    requires HasMapping(cat, item, m)
    ensures m.None? ==> ItemLines(cat, item) == [Line(item.sku, item.quantity, item.discountedPrice)]
    ensures m.Some? && !m.value.isBundle ==>
              ItemLines(cat, item) == [Line(m.value.odooSku, item.quantity, item.discountedPrice)]
    ensures m.Some? && m.value.isBundle ==>
              var listed := m.value.id in cat.components && cat.components[m.value.id] != [];
              var comps := if listed then cat.components[m.value.id] else [Component(m.value.odooSku, 1)];
              ItemLines(cat, item) == BundleLines(item.discountedPrice, item.quantity, comps)
  {
  }

  lemma {:induction false} ComponentSkusAre(comps: seq<Component>)
    ensures |ComponentSkus(comps)| == |comps|
    ensures forall i :: 0 <= i < |comps| ==> ComponentSkus(comps)[i] == comps[i].sku
    decreases |comps|
  {
    if comps != [] {
      ComponentSkusAre(comps[1..]);
    }
  }

  /** What is looked up in Odoo: the SKUs of exactly these products, in this order. */
  lemma ProductsAsked(cat: Catalog, item: Item, m: Option<Mapping>)
    requires HasMapping(cat, item, m)
    ensures m.None? ==> ItemSkus(cat, item) == [item.sku]
    ensures m.Some? && !m.value.isBundle ==> ItemSkus(cat, item) == [m.value.odooSku]
    ensures m.Some? && m.value.isBundle ==>
              var listed := m.value.id in cat.components && cat.components[m.value.id] != [];
              var comps := if listed then cat.components[m.value.id] else [Component(m.value.odooSku, 1)];
              && |ItemSkus(cat, item)| == |comps|
              && forall i :: 0 <= i < |comps| ==> ItemSkus(cat, item)[i] == comps[i].sku
  {
    if m.Some? && m.value.isBundle {
      ComponentSkusAre(ComponentsOf(cat, m.value));
    }
  }

  lemma Regroup<T>(a: seq<T>, b: seq<T>, c: seq<T>)
    ensures a + (b + c) == (a + b) + c
  {
  }

  lemma {:induction false} LinesOfBoth(cat: Catalog, a: seq<Item>, b: seq<Item>)
    ensures LinesOf(cat, a + b) == LinesOf(cat, a) + LinesOf(cat, b)
    decreases |a|
  {
    if a == [] {
      assert a + b == b && LinesOf(cat, a) + LinesOf(cat, b) == LinesOf(cat, b);
    } else {
      assert (a + b)[0] == a[0] && (a + b)[1..] == a[1..] + b;
      LinesOfBoth(cat, a[1..], b);
      Regroup(ItemLines(cat, a[0]), LinesOf(cat, a[1..]), LinesOf(cat, b));
    }
  }

  lemma {:induction false} SkusOfBoth(cat: Catalog, a: seq<Item>, b: seq<Item>)
    ensures SkusOf(cat, a + b) == SkusOf(cat, a) + SkusOf(cat, b)
    decreases |a|
  {
    if a == [] {
      assert a + b == b && SkusOf(cat, a) + SkusOf(cat, b) == SkusOf(cat, b);
    } else {
      assert (a + b)[0] == a[0] && (a + b)[1..] == a[1..] + b;
      SkusOfBoth(cat, a[1..], b);
      Regroup(ItemSkus(cat, a[0]), SkusOf(cat, a[1..]), SkusOf(cat, b));
    }
  }

  lemma OneItem(cat: Catalog, item: Item)
    ensures LinesOf(cat, [item]) == ItemLines(cat, item) && SkusOf(cat, [item]) == ItemSkus(cat, item)
  {
    assert [item][1..] == [];
    assert ItemLines(cat, item) + [] == ItemLines(cat, item) && ItemSkus(cat, item) + [] == ItemSkus(cat, item);
  }

  /** An order is the concatenation of its items. */
  lemma ItemsInOrder(cat: Catalog, before: seq<Item>, item: Item, after: seq<Item>)
    ensures LinesOf(cat, before + [item] + after) == LinesOf(cat, before) + ItemLines(cat, item) + LinesOf(cat, after)
    ensures SkusOf(cat, before + [item] + after) == SkusOf(cat, before) + ItemSkus(cat, item) + SkusOf(cat, after)
  {
    LinesOfBoth(cat, before + [item], after);
    LinesOfBoth(cat, before, [item]);
    SkusOfBoth(cat, before + [item], after);
    SkusOfBoth(cat, before, [item]);
    OneItem(cat, item);
  }

  predicate IsFirstMissing(products: set<string>, skus: seq<string>, sku: string, i: int) {
    0 <= i < |skus| && skus[i] == sku && forall j :: 0 <= j < i ==> skus[j] in products
  }

  /** The product reported missing is the first one that Odoo does not know; if none is, all are known. */
  lemma {:induction false} FirstMissingIs(products: set<string>, skus: seq<string>)
    ensures match FirstMissing(products, skus)
            case None => forall s :: s in skus ==> s in products
            case Some(sku) => sku !in products && exists i :: IsFirstMissing(products, skus, sku, i)
    decreases |skus|
  {
    if skus != [] && skus[0] in products {
      FirstMissingIs(products, skus[1..]);
      if FirstMissing(products, skus[1..]).Some? {
        var sku := FirstMissing(products, skus[1..]).value;
        var i :| IsFirstMissing(products, skus[1..], sku, i);
        assert IsFirstMissing(products, skus, sku, i + 1);
      }
    } else if skus != [] {
      assert IsFirstMissing(products, skus, skus[0], 0);
    }
  }

  // ------------------------------------------------------------------------------------------
  // Order totals
  // ------------------------------------------------------------------------------------------

  /** What the platform charged for an item. */
  function Charged(item: Item): real { Times(item.quantity, item.discountedPrice) }

  /** The transformer's `subtotal`. */
  function Subtotal(items: seq<Item>): real {
    if items == [] then 0.0 else Charged(items[0]) + Subtotal(items[1..])
  }

  function BundleCount(cat: Catalog, items: seq<Item>): nat {
    if items == [] then 0 else (if IsBundle(cat, items[0]) then 1 else 0) + BundleCount(cat, items[1..])
  }

  /** Components are saved with quantities of at least one, and bundles are not ordered in negative numbers. */
  predicate Sane(cat: Catalog, items: seq<Item>) {
    && (forall id :: id in cat.components ==> Positive(cat.components[id]))
    && (forall item :: item in items && IsBundle(cat, item) ==> item.quantity >= 0)
  }

  lemma ItemTotal(cat: Catalog, item: Item)
    requires forall id :: id in cat.components ==> Positive(cat.components[id])
    requires IsBundle(cat, item) ==> item.quantity >= 0
    ensures Within(ItemLines(cat, item), Charged(item), if IsBundle(cat, item) then 1 else 0)
  {
    if IsBundle(cat, item) {
      var comps := ComponentsOf(cat, MappingOf(cat, item).value);
      BundleTotal(item.discountedPrice, item.quantity, comps);
    } else {
      TotalOne(Line(TargetSku(cat, item), item.quantity, item.discountedPrice));
    }
  }

  lemma SaneTail(cat: Catalog, items: seq<Item>)
    requires items != [] && Sane(cat, items)
    ensures Sane(cat, items[1..])
  {
  }

  /** The order lines differ from the subtotal by at most one currency unit per bundle item. */
  lemma {:induction false} OrderTotal(cat: Catalog, items: seq<Item>)
    requires Sane(cat, items)
    ensures Within(LinesOf(cat, items), Subtotal(items), BundleCount(cat, items))
  {
    if items != [] {
      SaneTail(cat, items);
      OrderTotal(cat, items[1..]);
      assert items[0] in items;
      ItemTotal(cat, items[0]);
      WithinAdds(ItemLines(cat, items[0]), Charged(items[0]), if IsBundle(cat, items[0]) then 1 else 0,
                 LinesOf(cat, items[1..]), Subtotal(items[1..]), BundleCount(cat, items[1..]));
    }
  }
}
