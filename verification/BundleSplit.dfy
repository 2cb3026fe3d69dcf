/**
 How the price of one bundle item is split over the order lines of its components: every component
 but the last gets the rounded price per unit, the last one what remains, in two price buckets if one
 rounded price would miss it by more than one currency unit.
 */
module BundleSplit {
  import opened Rounding

  datatype Component = Component(sku: string, quantity: int)

  datatype Line = Line(sku: string, quantity: int, price: real)

  function Units(comps: seq<Component>): int {
    if comps == [] then 0 else comps[0].quantity + Units(comps[1..])
  }

  /** `total_units`. */
  function TotalUnits(comps: seq<Component>): int {
    if Units(comps) == 0 then 1 else Units(comps)
  }

  function BasePerUnit(price: real, comps: seq<Component>): real {
    NearestPrice(price, TotalUnits(comps)) as real
  }

  /** The lower of the two prices; `amount` is what all pieces cost at the rounded price. */
  function LowUnit(priceUnit: real, amount: real, remaining: real): real {
    if amount > remaining then priceUnit - 1.0 else priceUnit
  }

  /** How many pieces pay one unit more, when `rest` is missing at the lower price. */
  function HighQty(rest: real, qty: int): int {
    var wanted := RoundHalfUp(rest);
    var capped := if wanted < qty then wanted else qty;
    if capped > 0 then capped else 0
  }

  function TwoBuckets(priceUnit: real, remaining: real, qty: int): seq<(int, real)> {
    var low := LowUnit(priceUnit, Times(qty, priceUnit), remaining);
    var high := HighQty(remaining - Times(qty, low), qty);
    [(qty - high, low), (high, low + 1.0)]
  }

  function GroupsAt(priceUnit: real, remaining: real, qty: int): seq<(int, real)> {
    if Abs(Times(qty, priceUnit) - remaining) > 1.0 && qty > 1 then TwoBuckets(priceUnit, remaining, qty)
    else [(qty, priceUnit)]
  }

  /** `price_groups` of the last component: the quantities and unit prices that cover `remaining`. */
  function LastGroups(remaining: real, qty: int): seq<(int, real)>
    requires qty > 0
  {
    GroupsAt(NearestPrice(remaining, qty) as real, remaining, qty)
  }

  /** The lines of one component; empty groups are skipped. */
  function Emit(sku: string, groups: seq<(int, real)>): seq<Line> {
    if groups == [] then []
    else (if groups[0].0 <= 0 then [] else [Line(sku, groups[0].0, groups[0].1)]) + Emit(sku, groups[1..])
  }

  /** The lines of the components from some point on, when `remaining` is still to be charged. */
  function SplitFrom(comps: seq<Component>, quantity: int, base: real, remaining: real): seq<Line> {
    if comps == [] then []
    else
      var qty := comps[0].quantity * quantity;
      if |comps| == 1 && qty > 0 then Emit(comps[0].sku, LastGroups(remaining, qty))
      else Emit(comps[0].sku, [(qty, base)]) + SplitFrom(comps[1..], quantity, base, remaining - Times(qty, base))
  }

  /** All lines of a bundle item. */
  function BundleLines(price: real, quantity: int, comps: seq<Component>): seq<Line> {
    SplitFrom(comps, quantity, BasePerUnit(price, comps), Times(quantity, price))
  }

  // ------------------------------------------------------------------------------------------
  // Totals
  // ------------------------------------------------------------------------------------------

  function Total(lines: seq<Line>): real {
    if lines == [] then 0.0 else Times(lines[0].quantity, lines[0].price) + Total(lines[1..])
  }

  lemma {:induction false} TotalAppend(a: seq<Line>, b: seq<Line>)
    ensures Total(a + b) == Total(a) + Total(b)
  {
    if a == [] {
      assert a + b == b;
    } else {
      assert (a + b)[1..] == a[1..] + b;
      TotalAppend(a[1..], b);
    }
  }

  /** The lines total what was charged, up to so many currency units. */
  predicate Within(lines: seq<Line>, charged: real, slack: nat) {
    Abs(Total(lines) - charged) <= slack as real
  }

  lemma WithinAdds(a: seq<Line>, chargedA: real, slackA: nat, b: seq<Line>, chargedB: real, slackB: nat)
    requires Within(a, chargedA, slackA) && Within(b, chargedB, slackB)
    ensures Within(a + b, chargedA + chargedB, slackA + slackB)
  {
    TotalAppend(a, b);
  }

  predicate Positive(comps: seq<Component>) {
    forall c :: c in comps ==> c.quantity >= 1
  }

  /** At the lower price between nothing and one unit per piece is missing. */
  lemma LowLeavesRest(priceUnit: real, qty: nat, remaining: real)
    requires Abs(Times(qty, priceUnit) - remaining) <= qty as real / 2.0
    ensures 0.0 <= remaining - Times(qty, LowUnit(priceUnit, Times(qty, priceUnit), remaining)) <= qty as real
  {
    TimesAddPrice(qty, priceUnit, -1.0);
    TimesUnit(qty);
  }

  /** The clamp never bites. */
  lemma HighIsRounded(rest: real, qty: int)
    requires 0.0 <= rest <= qty as real
    ensures HighQty(rest, qty) == RoundHalfUp(rest) && 0 <= HighQty(rest, qty) <= qty
    ensures Abs(HighQty(rest, qty) as real - rest) <= 0.5
  {
    RoundIsNearest(rest);
  }

  lemma EmitOne(sku: string, qty: int, price: real)
    ensures Emit(sku, [(qty, price)]) == if qty <= 0 then [] else [Line(sku, qty, price)]
  {
    assert [(qty, price)][1..] == [];
  }

  lemma EmitTwo(sku: string, a: (int, real), b: (int, real))
    ensures Emit(sku, [a, b]) == Emit(sku, [a]) + Emit(sku, [b])
  {
    assert [a, b][1..] == [b];
    EmitOne(sku, a.0, a.1);
  }

  lemma TotalOne(line: Line)
    ensures Total([line]) == Times(line.quantity, line.price)
  {
    assert [line][1..] == [];
  }

  /** Skipping an empty group costs nothing. */
  lemma EmitOneTotal(sku: string, qty: nat, price: real)
    ensures Total(Emit(sku, [(qty, price)])) == Times(qty, price)
  {
    EmitOne(sku, qty, price);
    if qty > 0 {
      TotalOne(Line(sku, qty, price));
    }
  }

  lemma EmitThen(sku: string, qty: nat, base: real, rest: seq<Line>)
    ensures Total(Emit(sku, [(qty, base)]) + rest) == Times(qty, base) + Total(rest)
  {
    TotalAppend(Emit(sku, [(qty, base)]), rest);
    EmitOneTotal(sku, qty, base);
  }

  /** One component that is not the last one. */
  lemma NextTotal(comps: seq<Component>, quantity: int, base: real, remaining: real)
    requires |comps| > 1 && comps[0].quantity * quantity >= 0
    ensures var charged := Times(comps[0].quantity * quantity, base);
            Total(SplitFrom(comps, quantity, base, remaining)) ==
            charged + Total(SplitFrom(comps[1..], quantity, base, remaining - charged))
  {
    var qty := comps[0].quantity * quantity;
    EmitThen(comps[0].sku, qty, base, SplitFrom(comps[1..], quantity, base, remaining - Times(qty, base)));
  }

  lemma BucketTotal(sku: string, low: real, high: nat, qty: nat)
    requires high <= qty
    ensures Total(Emit(sku, [(qty - high, low), (high, low + 1.0)])) == Times(qty, low) + high as real
  {
    var a, b := (qty - high, low), (high, low + 1.0);
    EmitTwo(sku, a, b);
    TotalAppend(Emit(sku, [a]), Emit(sku, [b]));
    EmitOneTotal(sku, qty - high, low);
    EmitOneTotal(sku, high, low + 1.0);
    TimesAddPrice(high, low, 1.0);
    TimesUnit(high);
    TimesSplit(qty - high, high, low);
  }

  /** Two buckets cover the amount within half a unit, and exactly if what is missing is whole. */
  lemma TwoBucketsCover(sku: string, priceUnit: real, remaining: real, qty: nat)
    requires Abs(Times(qty, priceUnit) - remaining) <= qty as real / 2.0
    ensures var total := Total(Emit(sku, TwoBuckets(priceUnit, remaining, qty)));
            var rest := remaining - Times(qty, LowUnit(priceUnit, Times(qty, priceUnit), remaining));
            Abs(total - remaining) <= 0.5 && (RoundHalfUp(rest) as real == rest ==> total == remaining)
  {
    var low := LowUnit(priceUnit, Times(qty, priceUnit), remaining);
    LowLeavesRest(priceUnit, qty, remaining);
    HighIsRounded(remaining - Times(qty, low), qty);
    BucketTotal(sku, low, HighQty(remaining - Times(qty, low), qty), qty);
  }

  /** The last component's lines cover what remains within one unit. */
  lemma LastComponentCovers(sku: string, remaining: real, qty: int)
    requires qty > 0
    ensures Within(Emit(sku, LastGroups(remaining, qty)), remaining, 1)
  {
    var priceUnit := NearestPrice(remaining, qty) as real;
    NearestPriceError(remaining, qty);
    if Abs(Times(qty, priceUnit) - remaining) > 1.0 && qty > 1 {
      TwoBucketsCover(sku, priceUnit, remaining, qty);
    } else {
      EmitOneTotal(sku, qty, priceUnit);
    }
  }

  /** Unit prices are whole, so a whole amount split into two buckets is covered exactly. */
  lemma LastComponentExact(sku: string, remaining: int, qty: int)
    requires qty > 0 && |LastGroups(remaining as real, qty)| == 2
    ensures Total(Emit(sku, LastGroups(remaining as real, qty))) == remaining as real
  {
    var price := NearestPrice(remaining as real, qty);
    NearestPriceError(remaining as real, qty);
    TwoBucketsCover(sku, price as real, remaining as real, qty);
    var low := if Times(qty, price as real) > remaining as real then price - 1 else price;
    var lowAmount := TimesWhole(qty, low);
    RoundOfWhole(remaining - lowAmount);
  }

  lemma PositiveProduct(a: int, b: int)
    requires a >= 1
    ensures b >= 1 ==> a * b >= 1
    ensures b <= 0 ==> a * b <= 0
    ensures b == 0 ==> a * b == 0
  {
  }

  /** Every component but the last is charged exactly, so the whole error is the last one's. */
  lemma {:induction false} SplitTotal(comps: seq<Component>, quantity: int, base: real, remaining: real)
    requires comps != [] && Positive(comps) && quantity >= 1
    ensures Within(SplitFrom(comps, quantity, base, remaining), remaining, 1)
    decreases |comps|
  {
    var qty := comps[0].quantity * quantity;
    PositiveProduct(comps[0].quantity, quantity);
    if |comps| == 1 {
      LastComponentCovers(comps[0].sku, remaining, qty);
      assert comps[1..] == [];
    } else {
      var charged := Times(qty, base);
      SplitTotal(comps[1..], quantity, base, remaining - charged);
      EmitOneTotal(comps[0].sku, qty, base);
      WithinAdds(Emit(comps[0].sku, [(qty, base)]), charged, 0,
                 SplitFrom(comps[1..], quantity, base, remaining - charged), remaining - charged, 1);
    }
  }

  lemma {:induction false} NothingOrdered(comps: seq<Component>, quantity: int, base: real, remaining: real)
    requires Positive(comps) && quantity <= 0
    ensures SplitFrom(comps, quantity, base, remaining) == []
    decreases |comps|
  {
    if comps != [] {
      var qty := comps[0].quantity * quantity;
      PositiveProduct(comps[0].quantity, quantity);
      EmitOne(comps[0].sku, qty, base);
      NothingOrdered(comps[1..], quantity, base, remaining - Times(qty, base));
    }
  }

  lemma BundleTotal(price: real, quantity: nat, comps: seq<Component>)
    requires comps != [] && Positive(comps)
    ensures Within(BundleLines(price, quantity, comps), Times(quantity, price), 1)
  {
    if quantity == 0 {
      NothingOrdered(comps, quantity, BasePerUnit(price, comps), Times(quantity, price));
    } else {
      SplitTotal(comps, quantity, BasePerUnit(price, comps), Times(quantity, price));
    }
  }

  /**
   The lines of a bundle item total what the platform charged for it, within one currency unit, for
   every price, quantity and list of components.
   */
  lemma BundlePriceBound(price: real, quantity: nat, comps: seq<Component>)
    requires comps != [] && Positive(comps)
    ensures Abs(Total(BundleLines(price, quantity, comps)) - quantity as real * price) <= 1.0
  {
    BundleTotal(price, quantity, comps);
    TimesIsProduct(quantity, price);
  }

  // ------------------------------------------------------------------------------------------
  // The last component
  // ------------------------------------------------------------------------------------------

  /** What remains to be charged when the last component is reached. */
  function LastRemaining(comps: seq<Component>, quantity: int, base: real, remaining: real): real
    requires comps != []
  {
    if |comps| == 1 then remaining
    else LastRemaining(comps[1..], quantity, base, remaining - Times(comps[0].quantity * quantity, base))
  }

  function Last(comps: seq<Component>): Component
    requires comps != []
  {
    comps[|comps| - 1]
  }

  /** The groups the last component of an order for `quantity` bundles is charged in. */
  function LastGroupsOf(price: real, quantity: int, comps: seq<Component>): seq<(int, real)>
    requires comps != [] && Last(comps).quantity * quantity > 0
  {
    LastGroups(LastRemaining(comps, quantity, BasePerUnit(price, comps), Times(quantity, price)),
               Last(comps).quantity * quantity)
  }

  lemma {:induction false} SplitExact(comps: seq<Component>, quantity: int, base: int, remaining: int)
    requires comps != [] && Positive(comps) && quantity >= 1 && Last(comps).quantity * quantity > 0
    requires |LastGroups(LastRemaining(comps, quantity, base as real, remaining as real), Last(comps).quantity * quantity)| == 2
    ensures Total(SplitFrom(comps, quantity, base as real, remaining as real)) == remaining as real
    decreases |comps|
  {
    var qty := comps[0].quantity * quantity;
    PositiveProduct(comps[0].quantity, quantity);
    if |comps| == 1 {
      LastComponentExact(comps[0].sku, remaining, qty);
    } else {
      var charged := TimesWhole(qty, base);
      assert remaining as real - charged as real == (remaining - charged) as real;
      SplitExact(comps[1..], quantity, base, remaining - charged);
      NextTotal(comps, quantity, base as real, remaining as real);
    }
  }

  /** With a whole price, an order whose last component is split into two buckets is charged exactly. */
  lemma WholePriceIsExact(price: int, quantity: nat, comps: seq<Component>)
    requires comps != [] && Positive(comps) && Last(comps).quantity * quantity > 0
    requires |LastGroupsOf(price as real, quantity, comps)| == 2
    ensures Total(BundleLines(price as real, quantity, comps)) == price as real * quantity as real
  {
    TimesIsProduct(quantity, price as real);
    var amount := TimesWhole(quantity, price);
    SplitExact(comps, quantity, NearestPrice(price as real, TotalUnits(comps)), amount);
  }

  // ------------------------------------------------------------------------------------------
  // Quantities
  // ------------------------------------------------------------------------------------------

  function QuantityOf(lines: seq<Line>, sku: string): int {
    if lines == [] then 0 else (if lines[0].sku == sku then lines[0].quantity else 0) + QuantityOf(lines[1..], sku)
  }

  /** How many pieces of `sku` one bundle holds. */
  function DemandOf(comps: seq<Component>, sku: string): int {
    if comps == [] then 0 else (if comps[0].sku == sku then comps[0].quantity else 0) + DemandOf(comps[1..], sku)
  }

  lemma {:induction false} QuantityAppend(a: seq<Line>, b: seq<Line>, sku: string)
    ensures QuantityOf(a + b, sku) == QuantityOf(a, sku) + QuantityOf(b, sku)
  {
    if a == [] {
      assert a + b == b;
    } else {
      assert (a + b)[1..] == a[1..] + b;
      QuantityAppend(a[1..], b, sku);
    }
  }

  lemma EmitOneQuantity(own: string, qty: nat, price: real, sku: string)
    ensures QuantityOf(Emit(own, [(qty, price)]), sku) == if own == sku then qty else 0
  {
    EmitOne(own, qty, price);
    assert [Line(own, qty, price)][1..] == [];
  }

  lemma BucketQuantity(own: string, a: (int, real), b: (int, real), sku: string)
    requires a.0 >= 0 && b.0 >= 0
    ensures QuantityOf(Emit(own, [a, b]), sku) == if own == sku then a.0 + b.0 else 0
  {
    EmitTwo(own, a, b);
    QuantityAppend(Emit(own, [a]), Emit(own, [b]), sku);
    EmitOneQuantity(own, a.0, a.1, sku);
    EmitOneQuantity(own, b.0, b.1, sku);
  }

  lemma TwoBucketsQuantity(own: string, priceUnit: real, remaining: real, qty: nat, sku: string)
    requires Abs(Times(qty, priceUnit) - remaining) <= qty as real / 2.0
    ensures QuantityOf(Emit(own, TwoBuckets(priceUnit, remaining, qty)), sku) == if own == sku then qty else 0
  {
    var low := LowUnit(priceUnit, Times(qty, priceUnit), remaining);
    var high := HighQty(remaining - Times(qty, low), qty);
    LowLeavesRest(priceUnit, qty, remaining);
    HighIsRounded(remaining - Times(qty, low), qty);
    BucketQuantity(own, (qty - high, low), (high, low + 1.0), sku);
  }

  lemma LastQuantity(own: string, remaining: real, qty: int, sku: string)
    requires qty > 0
    ensures QuantityOf(Emit(own, LastGroups(remaining, qty)), sku) == if own == sku then qty else 0
  {
    var priceUnit := NearestPrice(remaining, qty) as real;
    NearestPriceError(remaining, qty);
    if Abs(Times(qty, priceUnit) - remaining) > 1.0 && qty > 1 {
      TwoBucketsQuantity(own, priceUnit, remaining, qty, sku);
    } else {
      EmitOneQuantity(own, qty, priceUnit, sku);
    }
  }

  /** One component that is not the last one. */
  lemma NextQuantity(comps: seq<Component>, quantity: int, base: real, remaining: real, sku: string)
    requires |comps| > 1 && comps[0].quantity * quantity >= 0
    ensures var qty := comps[0].quantity * quantity;
            QuantityOf(SplitFrom(comps, quantity, base, remaining), sku) == (if comps[0].sku == sku then qty else 0) +
              QuantityOf(SplitFrom(comps[1..], quantity, base, remaining - Times(qty, base)), sku)
  {
    var qty := comps[0].quantity * quantity;
    QuantityAppend(Emit(comps[0].sku, [(qty, base)]), SplitFrom(comps[1..], quantity, base, remaining - Times(qty, base)), sku);
    EmitOneQuantity(comps[0].sku, qty, base, sku);
  }

  /** How many pieces of `sku` the order needs, component by component. */
  function Needed(comps: seq<Component>, quantity: int, sku: string): int {
    if comps == [] then 0
    else (if comps[0].sku == sku then comps[0].quantity * quantity else 0) + Needed(comps[1..], quantity, sku)
  }

  lemma Distribute(a: int, b: int, quantity: int)
    ensures (a + b) * quantity == a * quantity + b * quantity
  {
  }

  lemma {:induction false} NeededIs(comps: seq<Component>, quantity: int, sku: string)
    ensures Needed(comps, quantity, sku) == DemandOf(comps, sku) * quantity
  {
    if comps != [] {
      NeededIs(comps[1..], quantity, sku);
      Distribute(if comps[0].sku == sku then comps[0].quantity else 0, DemandOf(comps[1..], sku), quantity);
    }
  }

  lemma {:induction false} SplitQuantity(comps: seq<Component>, quantity: int, base: real, remaining: real, sku: string)
    requires Positive(comps) && quantity >= 1
    ensures QuantityOf(SplitFrom(comps, quantity, base, remaining), sku) == Needed(comps, quantity, sku)
    decreases |comps|
  {
    if comps != [] {
      var qty := comps[0].quantity * quantity;
      PositiveProduct(comps[0].quantity, quantity);
      if |comps| == 1 {
        LastQuantity(comps[0].sku, remaining, qty, sku);
      } else {
        SplitQuantity(comps[1..], quantity, base, remaining - Times(qty, base), sku);
        NextQuantity(comps, quantity, base, remaining, sku);
      }
    }
  }

  /** The lines deliver exactly the components of the bundles that were ordered. */
  lemma BundleQuantities(price: real, quantity: nat, comps: seq<Component>, sku: string)
    requires Positive(comps)
    ensures QuantityOf(BundleLines(price, quantity, comps), sku) == DemandOf(comps, sku) * quantity
  {
    if quantity == 0 {
      NothingOrdered(comps, quantity, BasePerUnit(price, comps), Times(quantity, price));
    } else {
      SplitQuantity(comps, quantity, BasePerUnit(price, comps), Times(quantity, price), sku);
      NeededIs(comps, quantity, sku);
    }
  }

  // ------------------------------------------------------------------------------------------
  // Signs
  // ------------------------------------------------------------------------------------------

  predicate NonNegative(lines: seq<Line>) {
    forall l :: l in lines ==> l.price >= 0.0 && l.quantity >= 0
  }

  lemma {:induction false} TotalSign(lines: seq<Line>)
    requires NonNegative(lines)
    ensures Total(lines) >= 0.0
  {
    if lines != [] {
      TotalSign(lines[1..]);
      TimesMonotone(lines[0].quantity, 0.0, lines[0].price);
      TimesIsProduct(lines[0].quantity, 0.0);
    }
  }

  lemma QuotientSign(x: real, qty: int)
    requires x >= 0.0 && qty > 0
    ensures NearestPrice(x, qty) >= 0
  {
    assert x / qty as real >= 0.0;
  }

  lemma {:induction false} EmitSigns(sku: string, groups: seq<(int, real)>)
    requires forall g :: g in groups ==> g.1 >= 0.0
    ensures NonNegative(Emit(sku, groups))
    decreases |groups|
  {
    if groups != [] {
      EmitSigns(sku, groups[1..]);
    }
  }

  /** The last component's prices are non-negative if something is left to charge, and negative prices
      appear at the latest when more than one unit too much was charged before. */
  lemma LastSigns(sku: string, remaining: real, qty: int)
    requires qty > 0
    ensures remaining >= 0.0 ==> NonNegative(Emit(sku, LastGroups(remaining, qty)))
    ensures remaining < -1.0 ==> !NonNegative(Emit(sku, LastGroups(remaining, qty)))
  {
    if remaining >= 0.0 {
      var price := NearestPrice(remaining, qty);
      NearestPriceError(remaining, qty);
      QuotientSign(remaining, qty);
      var groups := LastGroups(remaining, qty);
      TimesIsProduct(qty, 0.0);
      EmitSigns(sku, groups);
    } else if remaining < -1.0 {
      LastComponentCovers(sku, remaining, qty);
      if NonNegative(Emit(sku, LastGroups(remaining, qty))) {
        TotalSign(Emit(sku, LastGroups(remaining, qty)));
      }
    }
  }

  lemma SignsAppend(a: seq<Line>, b: seq<Line>)
    ensures NonNegative(a + b) <==> NonNegative(a) && NonNegative(b)
  {
    assert forall l :: l in a ==> l in a + b;
    assert forall l :: l in b ==> l in a + b;
  }

  lemma FirstSigns(comps: seq<Component>, quantity: int, base: real, remaining: real)
    requires |comps| > 1 && base >= 0.0
    ensures NonNegative(SplitFrom(comps, quantity, base, remaining)) <==>
            NonNegative(SplitFrom(comps[1..], quantity, base, remaining - Times(comps[0].quantity * quantity, base)))
  {
    var qty := comps[0].quantity * quantity;
    EmitOne(comps[0].sku, qty, base);
    SignsAppend(Emit(comps[0].sku, [(qty, base)]), SplitFrom(comps[1..], quantity, base, remaining - Times(qty, base)));
  }

  lemma OnlyComponent(comps: seq<Component>, quantity: int, base: real, remaining: real)
    requires |comps| == 1 && Last(comps).quantity * quantity > 0
    ensures SplitFrom(comps, quantity, base, remaining) ==
            Emit(Last(comps).sku, LastGroups(LastRemaining(comps, quantity, base, remaining), Last(comps).quantity * quantity))
  {
  }

  /** Only the last component can get a negative price. */
  lemma {:induction false} SplitSigns(comps: seq<Component>, quantity: int, base: real, remaining: real)
    requires comps != [] && Positive(comps) && quantity >= 1 && base >= 0.0 && Last(comps).quantity * quantity > 0
    ensures NonNegative(SplitFrom(comps, quantity, base, remaining)) <==>
            NonNegative(Emit(Last(comps).sku,
                             LastGroups(LastRemaining(comps, quantity, base, remaining), Last(comps).quantity * quantity)))
    decreases |comps|
  {
    if |comps| > 1 {
      assert Last(comps[1..]) == Last(comps);
      SplitSigns(comps[1..], quantity, base, remaining - Times(comps[0].quantity * quantity, base));
      FirstSigns(comps, quantity, base, remaining);
    } else {
      OnlyComponent(comps, quantity, base, remaining);
    }
  }

  lemma NonNegativeProduct(a: nat, b: nat)
    ensures a * b >= 0
  {
  }

  lemma {:induction false} LastRemainingIs(comps: seq<Component>, quantity: nat, base: real, remaining: real)
    requires comps != [] && Positive(comps)
    ensures Units(comps) >= Last(comps).quantity
    ensures LastRemaining(comps, quantity, base, remaining) ==
            remaining - Times((Units(comps) - Last(comps).quantity) * quantity, base)
    decreases |comps|
  {
    if |comps| == 1 {
      assert comps[1..] == [];
      assert Units(comps) == comps[0].quantity;
    } else {
      var first := comps[0].quantity;
      var others := Units(comps[1..]) - Last(comps).quantity;
      LastRemainingIs(comps[1..], quantity, base, remaining - Times(first * quantity, base));
      PositiveProduct(first, quantity);
      NonNegativeProduct(others, quantity);
      Distribute(first, others, quantity);
      TimesSplit(first * quantity, others * quantity, base);
    }
  }

  /** What one bundle leaves to its last component. */
  function Slack(price: real, comps: seq<Component>): real
    requires comps != []
  {
    price - Times(Units(comps) - Last(comps).quantity, BasePerUnit(price, comps))
  }

  lemma {:induction false} TimesRegroup(base: real, others: nat, quantity: nat)
    ensures Times(quantity, Times(others, base)) == Times(others * quantity, base)
  {
    if quantity > 0 {
      TimesRegroup(base, others, quantity - 1);
      assert others * quantity == others + others * (quantity - 1);
      NonNegativeProduct(others, quantity - 1);
      TimesSplit(others, others * (quantity - 1), base);
    }
  }

  lemma LastRemainingScales(price: real, quantity: nat, comps: seq<Component>)
    requires comps != [] && Positive(comps)
    ensures LastRemaining(comps, quantity, BasePerUnit(price, comps), Times(quantity, price)) ==
            Times(quantity, Slack(price, comps))
  {
    var base, others := BasePerUnit(price, comps), Units(comps) - Last(comps).quantity;
    LastRemainingIs(comps, quantity, base, Times(quantity, price));
    TimesAddPrice(quantity, Slack(price, comps), Times(others, base));
    TimesRegroup(base, others, quantity);
  }

  lemma OrderSigns(price: real, quantity: nat, comps: seq<Component>)
    requires comps != [] && Positive(comps) && BasePerUnit(price, comps) >= 0.0 && quantity >= 1
    ensures var left := LastRemaining(comps, quantity, BasePerUnit(price, comps), Times(quantity, price));
            (left >= 0.0 ==> NonNegative(BundleLines(price, quantity, comps))) &&
            (left < -1.0 ==> !NonNegative(BundleLines(price, quantity, comps)))
  {
    var base := BasePerUnit(price, comps);
    assert Last(comps) in comps;
    PositiveProduct(Last(comps).quantity, quantity);
    LastSigns(Last(comps).sku, LastRemaining(comps, quantity, base, Times(quantity, price)), Last(comps).quantity * quantity);
    SplitSigns(comps, quantity, base, Times(quantity, price));
  }

  lemma NonNegativeOrder(price: real, quantity: nat, comps: seq<Component>)
    requires comps != [] && Positive(comps) && price >= 0.0 && BasePerUnit(price, comps) >= 0.0
    requires Slack(price, comps) >= 0.0
    ensures NonNegative(BundleLines(price, quantity, comps))
  {
    if quantity == 0 {
      NothingOrdered(comps, quantity, BasePerUnit(price, comps), Times(quantity, price));
    } else {
      LastRemainingScales(price, quantity, comps);
      TimesMonotone(quantity, 0.0, Slack(price, comps));
      TimesIsProduct(quantity, 0.0);
      OrderSigns(price, quantity, comps);
    }
  }

  lemma QuotientTimes(x: real, q: real)
    requires q > 0.0
    ensures (x / q) * q == x && (x > 0.0 ==> x / q > 0.0)
  {
  }

  lemma ScaleLt(a: real, b: real, q: real)
    requires a < b && q > 0.0
    ensures a * q < b * q
  {
  }

  lemma Overdraw(slack: real) returns (n: nat)
    requires slack < 0.0
    ensures n >= 1 && Times(n, slack) < -1.0
  {
    var excess := -slack;
    var inverse := 1.0 / excess;
    QuotientTimes(1.0, excess);
    n := inverse.Floor + 1;
    ScaleLt(inverse, n as real, excess);
    TimesIsProduct(n, excess);
    TimesAddPrice(n, slack, excess);
    TimesIsProduct(n, 0.0);
  }

  /** A large enough order overdraws the last component by more than one unit. */
  lemma NegativeOrder(price: real, comps: seq<Component>) returns (quantity: nat)
    requires comps != [] && Positive(comps) && price >= 0.0 && BasePerUnit(price, comps) >= 0.0
    requires Slack(price, comps) < 0.0
    ensures !NonNegative(BundleLines(price, quantity, comps))
  {
    quantity := Overdraw(Slack(price, comps));
    LastRemainingScales(price, quantity, comps);
    OrderSigns(price, quantity, comps);
  }

  /**
   No order quantity produces a negative unit price exactly if the rounded price of the other components
   does not exceed the price of the bundle.
   */
  lemma NegativePricesExactly(price: real, comps: seq<Component>)
    requires comps != [] && Positive(comps) && price >= 0.0
    ensures (forall quantity: nat :: NonNegative(BundleLines(price, quantity, comps))) <==>
            Times(Units(comps) - Last(comps).quantity, BasePerUnit(price, comps)) <= price
  {
    var slack := Slack(price, comps);
    LastRemainingIs(comps, 1, 0.0, 0.0);
    assert Last(comps) in comps && Units(comps) >= 1;
    QuotientSign(price, TotalUnits(comps));
    if slack >= 0.0 {
      forall quantity: nat
        ensures NonNegative(BundleLines(price, quantity, comps))
      {
        NonNegativeOrder(price, quantity, comps);
      }
    } else {
      var quantity := NegativeOrder(price, comps);
      assert !NonNegative(BundleLines(price, quantity, comps));
    }
  }

  lemma {:induction false} UnitsOfSingles(comps: seq<Component>)
    requires forall c :: c in comps ==> c.quantity == 1
    ensures Units(comps) == |comps|
    decreases |comps|
  {
    if comps != [] {
      UnitsOfSingles(comps[1..]);
    }
  }

  lemma ChargedBelowZero(sku: string)
    ensures !NonNegative(Emit(sku, LastGroups(-1.0, 1)))
  {
    assert NearestPrice(-1.0, 1) == -1;
    EmitOne(sku, 1, -1.0);
    assert Line(sku, 1, -1.0) in Emit(sku, LastGroups(-1.0, 1));
  }

  /** One bundle of five single pieces at a price of 3: four pieces at 1, so the fifth costs -1. */
  lemma NegativePriceIsReached(skus: seq<string>)
    requires |skus| == 5
    ensures var comps := seq(5, i requires 0 <= i < 5 => Component(skus[i], 1));
            Positive(comps) && !NonNegative(BundleLines(3.0, 1, comps))
  {
    var comps := seq(5, i requires 0 <= i < 5 => Component(skus[i], 1));
    UnitsOfSingles(comps);
    assert BasePerUnit(3.0, comps) == 1.0 by {
      assert 3.0 / 5.0 == 0.6;
    }
    TimesUnit(4);
    TimesIsProduct(1, 3.0);
    LastRemainingIs(comps, 1, 1.0, 3.0);
    SplitSigns(comps, 1, 1.0, 3.0);
    ChargedBelowZero(Last(comps).sku);
  }

  lemma BaseNear(price: real, comps: seq<Component>)
    requires Units(comps) >= 1
    ensures BasePerUnit(price, comps) <= price / Units(comps) as real + 0.5
  {
    RoundIsNearest(price / Units(comps) as real);
  }

  lemma HalfUnitFits(price: real, units: real, last: real, exact: real)
    requires units > 0.0 && exact * units == price
    requires 2.0 * price * last >= units * (units - last)
    ensures (units - last) * (exact + 0.5) <= price
  {
    var spare := 2.0 * exact * last - (units - last);
    assert spare * units == 2.0 * price * last - units * (units - last);
    assert spare >= 0.0;
    assert (units - last) * (exact + 0.5) == price - 0.5 * spare;
  }

  lemma BaseFits(price: real, units: int, last: int, base: real)
    requires units > 0 && units >= last && base <= price / units as real + 0.5
    requires 2.0 * price * last as real >= units as real * (units as real - last as real)
    ensures Times(units - last, base) <= price
  {
    var exact := price / units as real;
    TimesMonotone(units - last, base, exact + 0.5);
    TimesIsProduct(units - last, exact + 0.5);
    assert (units - last) as real == units as real - last as real;
    HalfUnitFits(price, units as real, last as real, exact);
  }

  /** A condition without rounding that is enough. */
  lemma EnoughForNonNegativePrices(price: real, comps: seq<Component>, quantity: nat)
    requires comps != [] && Positive(comps) && price >= 0.0
    requires var units, last := Units(comps) as real, Last(comps).quantity as real;
             2.0 * price * last >= units * (units - last)
    ensures NonNegative(BundleLines(price, quantity, comps))
  {
    LastRemainingIs(comps, 1, 0.0, 0.0);
    assert Last(comps) in comps && Units(comps) >= 1;
    BaseNear(price, comps);
    BaseFits(price, Units(comps), Last(comps).quantity, BasePerUnit(price, comps));
    NegativePricesExactly(price, comps);
  }

  // ------------------------------------------------------------------------------------------
  // Line by line
  // ------------------------------------------------------------------------------------------

  /** Two whole prices, one apart, that enclose the amount; the pieces at the higher one make up what is missing. */
  predicate Encloses(groups: seq<(int, real)>, remaining: real, qty: nat) {
    && |groups| == 2 && groups[1].1 == groups[0].1 + 1.0 && groups[0].0 + groups[1].0 == qty && 0 <= groups[1].0 <= qty
    && Times(qty, groups[0].1) <= remaining <= Times(qty, groups[1].1)
    && groups[1].0 as real - 0.5 <= remaining - Times(qty, groups[0].1) < groups[1].0 as real + 0.5
  }

  lemma TwoBucketsEnclose(priceUnit: real, remaining: real, qty: nat)
    requires Abs(Times(qty, priceUnit) - remaining) <= qty as real / 2.0
    ensures Encloses(TwoBuckets(priceUnit, remaining, qty), remaining, qty)
  {
    var low := LowUnit(priceUnit, Times(qty, priceUnit), remaining);
    var rest := remaining - Times(qty, low);
    LowLeavesRest(priceUnit, qty, remaining);
    HighIsRounded(rest, qty);
    RoundExactly(rest, HighQty(rest, qty));
    TimesAddPrice(qty, low, 1.0);
    TimesUnit(qty);
  }

  /**
   The price groups of the last component: the whole price next to `remaining / qty`, unless it would miss
   `remaining` by more than one unit; then two whole prices, the lower one that price or the one below it.
   */
  lemma LastGroupsAre(remaining: real, qty: int)
    requires qty > 0
    ensures var groups, p := LastGroups(remaining, qty), RoundHalfUp(remaining / qty as real) as real;
            if qty == 1 || Abs(Times(qty, p) - remaining) <= 1.0 then groups == [(qty, p)]
            else
              && Encloses(groups, remaining, qty)
              && groups[0].1 == if Times(qty, p) > remaining then p - 1.0 else p
  {
    var p := NearestPrice(remaining, qty) as real;
    NearestPriceError(remaining, qty);
    TwoBucketsEnclose(p, remaining, qty);
  }

  lemma FirstLine(comps: seq<Component>, quantity: int, base: real, remaining: real)
    requires |comps| > 1 && Positive(comps) && quantity >= 1
    ensures var qty := comps[0].quantity * quantity;
            SplitFrom(comps, quantity, base, remaining) ==
            [Line(comps[0].sku, qty, base)] + SplitFrom(comps[1..], quantity, base, remaining - Times(qty, base))
  {
    assert comps[0] in comps;
    PositiveProduct(comps[0].quantity, quantity);
    EmitOne(comps[0].sku, comps[0].quantity * quantity, base);
  }

  /** Every component but the last is one line, in order, at the whole unit price next to price per piece. */
  lemma {:induction false} EarlierLines(comps: seq<Component>, quantity: int, base: real, remaining: real, i: nat)
    requires Positive(comps) && quantity >= 1 && i < |comps| - 1
    ensures var lines := SplitFrom(comps, quantity, base, remaining);
            i < |lines| && lines[i] == Line(comps[i].sku, comps[i].quantity * quantity, base)
    decreases |comps|
  {
    FirstLine(comps, quantity, base, remaining);
    if i > 0 {
      EarlierLines(comps[1..], quantity, base, remaining - Times(comps[0].quantity * quantity, base), i - 1);
    }
  }

  lemma DropFirst<T>(x: T, rest: seq<T>, n: nat)
    requires 1 <= n <= |rest| + 1
    ensures ([x] + rest)[n..] == rest[n - 1..]
  {
  }

  /** What they leave is charged to the last component. */
  lemma {:induction false} LaterLines(comps: seq<Component>, quantity: int, base: real, remaining: real)
    requires comps != [] && Positive(comps) && quantity >= 1 && Last(comps).quantity * quantity > 0
    ensures var lines := SplitFrom(comps, quantity, base, remaining);
            && |lines| >= |comps| - 1
            && lines[|comps| - 1..] == Emit(Last(comps).sku,
                 LastGroups(LastRemaining(comps, quantity, base, remaining), Last(comps).quantity * quantity))
    decreases |comps|
  {
    if |comps| > 1 {
      var qty := comps[0].quantity * quantity;
      assert Last(comps[1..]) == Last(comps);
      FirstLine(comps, quantity, base, remaining);
      LaterLines(comps[1..], quantity, base, remaining - Times(qty, base));
      var rest := SplitFrom(comps[1..], quantity, base, remaining - Times(qty, base));
      DropFirst(Line(comps[0].sku, qty, base), rest, |comps| - 1);
    }
  }

  /** The unit price of all components but the last: the whole price next to the bundle's price per piece. */
  lemma BasePriceIs(price: real, comps: seq<Component>)
    requires comps != [] && Positive(comps)
    ensures Units(comps) >= 1 && BasePerUnit(price, comps) == RoundHalfUp(price / Units(comps) as real) as real
  {
    LastRemainingIs(comps, 1, 0.0, 0.0);
    assert Last(comps) in comps;
  }

  /** The lines of the components of an ordered bundle but the last, one for each, in order. */
  lemma EarlierLinesAre(price: real, quantity: int, comps: seq<Component>, i: nat)
    requires Positive(comps) && quantity >= 1 && i < |comps| - 1
    ensures var lines := BundleLines(price, quantity, comps);
            i < |lines| && lines[i] == Line(comps[i].sku, comps[i].quantity * quantity, BasePerUnit(price, comps))
  {
    EarlierLines(comps, quantity, BasePerUnit(price, comps), Times(quantity, price), i);
  }

  /** The lines after them: the last component, for what the others leave of the price. */
  lemma LastLinesAre(price: real, quantity: int, comps: seq<Component>)
    requires comps != [] && Positive(comps) && quantity >= 1 && Last(comps).quantity * quantity > 0
    ensures var lines, left := BundleLines(price, quantity, comps), price - Times(Units(comps) - Last(comps).quantity, BasePerUnit(price, comps));
            && |lines| >= |comps| - 1
            && lines[|comps| - 1..] == Emit(Last(comps).sku, LastGroups(Times(quantity, left), Last(comps).quantity * quantity))
  {
    LaterLines(comps, quantity, BasePerUnit(price, comps), Times(quantity, price));
    LastRemainingScales(price, quantity, comps);
  }
}
