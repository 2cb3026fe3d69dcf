/**
 `StockService`: what a platform may sell of a product or a bundle. Percentages are integers in
 hundredths of a percent, as the configuration table stores them.
 */
module Stock {
  import opened Common
  import opened BundleSplit

  const FULL := 10000
  const DEFAULT_STOCK_BUFFER := 1000
  const DEFAULT_ALLOCATION := 10000

  /** A product in Odoo; `bufferPct` is `None` if the product does not override it. */
  datatype Controls = Controls(virtualAvailable: int, blocked: bool, bufferPct: Option<int>)

  datatype StockConfig = StockConfig(allocationPct: int, bufferPct: int)

  /** Products by SKU, and the active configurations of one platform. */
  datatype World = World(products: map<string, Controls>, configs: map<string, StockConfig>)

  /** Python's `int` of a quotient: towards zero. */
  function Trunc(amount: int, divisor: int): int
    requires divisor > 0
  {
    if amount >= 0 then amount / divisor else -(-amount / divisor)
  }

  function Allocated(stock: int, buffer: int, allocation: int): int {
    var buffered := Trunc(stock * (FULL - buffer), FULL);
    var share := Trunc(buffered * allocation, FULL);
    if share > 0 then share else 0
  }

  function BufferOf(w: World, sku: string): int
    requires sku in w.products
  {
    match w.products[sku].bufferPct
    case Some(own) => own
    case None => if sku in w.configs then w.configs[sku].bufferPct else DEFAULT_STOCK_BUFFER
  }

  function AllocationOf(w: World, sku: string): int {
    if sku in w.configs then w.configs[sku].allocationPct else DEFAULT_ALLOCATION
  }

  /** `calculate_platform_stock`. */
  function PlatformStock(w: World, sku: string): (qty: nat)
  {
    if sku !in w.products || w.products[sku].blocked then 0
    else Allocated(w.products[sku].virtualAvailable, BufferOf(w, sku), AllocationOf(w, sku))
  }

  /** What `stock_save` accepts, and the same for overrides on the product. */
  predicate PercentagesInRange(w: World) {
    && (forall sku :: sku in w.configs ==>
          0 <= w.configs[sku].allocationPct <= FULL && 0 <= w.configs[sku].bufferPct <= FULL)
    && (forall sku :: sku in w.products && w.products[sku].bufferPct.Some? ==>
          0 <= w.products[sku].bufferPct.value <= FULL)
  }

  function Available(w: World, sku: string): nat {
    if sku in w.products && w.products[sku].virtualAvailable > 0 then w.products[sku].virtualAvailable else 0
  }

  // ------------------------------------------------------------------------------------------
  // One product
  // ------------------------------------------------------------------------------------------

  lemma ShareBounds(amount: nat, pct: nat)
    requires pct <= FULL
    ensures var q := amount * pct / FULL;
            0 <= q <= amount && q * FULL <= amount * pct < q * FULL + FULL
  {
    assert amount * pct <= amount * FULL;
  }

  lemma NegativeShare(amount: int, pct: nat)
    requires amount <= 0
    ensures Trunc(amount * pct, FULL) <= 0
  {
    assert amount * pct <= 0;
  }

  lemma ScaleLe(a: int, b: int, q: nat)
    requires a <= b
    ensures a * q <= b * q
  {
  }

  lemma Swap(a: int, b: int)
    ensures a * FULL * b == a * b * FULL
  {
  }

  lemma NestedShares(stock: nat, kept: nat, allocation: nat, buffered: nat, qty: nat)
    requires kept <= FULL && allocation <= FULL && buffered <= stock
    requires buffered * FULL <= stock * kept < buffered * FULL + FULL
    requires qty * FULL <= buffered * allocation < qty * FULL + FULL
    ensures qty * FULL <= stock * allocation
    ensures qty * FULL * FULL <= stock * kept * allocation < (qty + 2) * FULL * FULL
  {
    ScaleLe(buffered, stock, allocation);
    ScaleLe(buffered * FULL, stock * kept, allocation);
    Swap(buffered, allocation);
    if allocation > 0 {
      ScaleLe(stock * kept + 1, buffered * FULL + FULL, allocation);
      assert (stock * kept + 1) * allocation == stock * kept * allocation + allocation;
      assert (buffered * FULL + FULL) * allocation == buffered * allocation * FULL + FULL * allocation;
    } else {
      assert stock * kept * allocation == 0;
    }
  }

  /** Never more than the platform's share, never more than there is, and less than two pieces below the exact share. */
  lemma AllocatedBounds(stock: int, buffer: nat, allocation: nat)
    requires buffer <= FULL && allocation <= FULL
    ensures var qty := Allocated(stock, buffer, allocation);
            && (stock <= 0 ==> qty == 0)
            && (stock >= 0 ==>
                  && qty <= stock
                  && qty * FULL <= stock * allocation
                  && qty * FULL * FULL <= stock * (FULL - buffer) * allocation < (qty + 2) * FULL * FULL)
  {
    if stock <= 0 {
      NegativeShare(stock, FULL - buffer);
      NegativeShare(Trunc(stock * (FULL - buffer), FULL), allocation);
    }
    if stock >= 0 {
      ShareBounds(stock, FULL - buffer);
      var buffered := stock * (FULL - buffer) / FULL;
      ShareBounds(buffered, allocation);
      NestedShares(stock, FULL - buffer, allocation, buffered, buffered * allocation / FULL);
    }
  }

  lemma DivideLe(a: nat, b: nat)
    requires a <= b
    ensures a / FULL <= b / FULL
  {
  }

  /** More stock or a larger share never publishes less, a larger buffer never more. */
  lemma AllocatedMonotone(stock: int, more: int, buffer: nat, smaller: nat, allocation: nat, larger: nat)
    requires stock <= more && smaller <= buffer <= FULL && allocation <= larger <= FULL
    ensures Allocated(stock, buffer, allocation) <= Allocated(more, smaller, larger)
  {
    if stock <= 0 {
      AllocatedBounds(stock, buffer, allocation);
    } else {
      ScaleLe(stock, more, FULL - buffer);
      ScaleLe(FULL - buffer, FULL - smaller, more);
      DivideLe(stock * (FULL - buffer), more * (FULL - smaller));
      ShareBounds(stock, FULL - buffer);
      var low, high := stock * (FULL - buffer) / FULL, more * (FULL - smaller) / FULL;
      ScaleLe(low, high, allocation);
      ScaleLe(allocation, larger, high);
      DivideLe(low * allocation, high * larger);
    }
  }

  /** The quotient of a non-negative amount, cut off. */
  predicate IsFloor(amount: int, divisor: int, q: int) {
    q * divisor <= amount < (q + 1) * divisor
  }

  /**
   What is published of a product: nothing if Odoo does not know it or blocks it, and of its stock, less the
   buffer, the platform's share, cut off after each step. The product's own buffer goes before the
   configured one, and that before 10 percent; without a configuration the share is the whole.
   */
  lemma PlatformStockIs(w: World, sku: string, buffer: int, allocation: int) returns (buffered: int)
    requires PercentagesInRange(w)
    requires sku in w.products ==>
               buffer == (if w.products[sku].bufferPct.Some? then w.products[sku].bufferPct.value
                          else if sku in w.configs then w.configs[sku].bufferPct else 1000)
    requires allocation == if sku in w.configs then w.configs[sku].allocationPct else 10000
    ensures sku !in w.products || w.products[sku].blocked || w.products[sku].virtualAvailable <= 0 ==> PlatformStock(w, sku) == 0
    ensures sku in w.products && !w.products[sku].blocked && w.products[sku].virtualAvailable > 0 ==>
              && IsFloor(w.products[sku].virtualAvailable * (10000 - buffer), 10000, buffered)
              && IsFloor(buffered * allocation, 10000, PlatformStock(w, sku))
  {
    buffered := 0;
    if sku in w.products && !w.products[sku].blocked {
      var stock := w.products[sku].virtualAvailable;
      AllocatedBounds(stock, buffer, allocation);
      if stock > 0 {
        buffered := Trunc(stock * (FULL - buffer), FULL);
        ShareBounds(stock, FULL - buffer);
        ShareBounds(buffered, allocation);
      }
    }
  }

  // ------------------------------------------------------------------------------------------
  // Several platforms
  // ------------------------------------------------------------------------------------------

  datatype Share = Share(bufferPct: nat, allocationPct: nat)

  function Allocations(shares: seq<Share>): nat {
    if shares == [] then 0 else shares[0].allocationPct + Allocations(shares[1..])
  }

  function PublishedTotal(stock: int, shares: seq<Share>): int {
    if shares == [] then 0
    else Allocated(stock, shares[0].bufferPct, shares[0].allocationPct) + PublishedTotal(stock, shares[1..])
  }

  lemma Spread(stock: int, a: int, b: int)
    ensures stock * (a + b) == stock * a + stock * b
  {
  }

  lemma {:induction false} PublishedWithinShares(stock: int, shares: seq<Share>)
    requires forall s :: s in shares ==> s.bufferPct <= FULL && s.allocationPct <= FULL
    ensures stock <= 0 ==> PublishedTotal(stock, shares) == 0
    ensures stock >= 0 ==> PublishedTotal(stock, shares) * FULL <= stock * Allocations(shares)
  {
    if shares != [] {
      assert shares[0] in shares;
      AllocatedBounds(stock, shares[0].bufferPct, shares[0].allocationPct);
      PublishedWithinShares(stock, shares[1..]);
      Spread(stock, shares[0].allocationPct, Allocations(shares[1..]));
    }
  }

  /**
   Any number of platforms, each with its own buffer, together never publish more than there is, if
   their allocations add up to at most 100 percent.
   */
  lemma NoOversell(stock: int, shares: seq<Share>)
    requires forall s :: s in shares ==> s.bufferPct <= FULL && s.allocationPct <= FULL
    requires Allocations(shares) <= FULL
    ensures PublishedTotal(stock, shares) <= if stock > 0 then stock else 0
  {
    PublishedWithinShares(stock, shares);
    if stock > 0 {
      ScaleLe(Allocations(shares), FULL, stock);
    }
  }

  /** What all platforms together may be allocated, buffers taken off, in hundredths of a percent squared. */
  function NetShares(shares: seq<Share>): int {
    if shares == [] then 0
    else (FULL - shares[0].bufferPct) * shares[0].allocationPct + NetShares(shares[1..])
  }

  predicate SharesInRange(shares: seq<Share>) {
    forall s :: s in shares ==> s.bufferPct <= FULL && s.allocationPct <= FULL
  }

  lemma Regroup(a: int, b: int, c: int)
    ensures a * b * c == a * (b * c)
  {
  }

  lemma {:induction false} PublishedWithinNet(stock: nat, shares: seq<Share>)
    requires SharesInRange(shares)
    ensures PublishedTotal(stock, shares) * FULL * FULL <= stock * NetShares(shares)
    decreases |shares|
  {
    if shares != [] {
      assert shares[0] in shares;
      var kept, allocation := FULL - shares[0].bufferPct, shares[0].allocationPct;
      AllocatedBounds(stock, shares[0].bufferPct, allocation);
      PublishedWithinNet(stock, shares[1..]);
      Spread(stock, kept * allocation, NetShares(shares[1..]));
      Regroup(stock, kept, allocation);
    }
  }

  /** With this stock no rounding happens. */
  const ROUND_STOCK := FULL * FULL

  lemma WholeShare(n: nat)
    ensures FULL * n / FULL == n
  {
  }

  lemma RoundStockAllocated(buffer: nat, allocation: nat)
    requires buffer <= FULL && allocation <= FULL
    ensures Allocated(ROUND_STOCK, buffer, allocation) == (FULL - buffer) * allocation
  {
    var kept := FULL - buffer;
    assert ROUND_STOCK * kept / FULL == FULL * kept;
    Swap(1, kept * allocation);
    assert FULL * kept * allocation == FULL * (kept * allocation);
    WholeShare(kept * allocation);
  }

  lemma {:induction false} RoundStockPublished(shares: seq<Share>)
    requires SharesInRange(shares)
    ensures PublishedTotal(ROUND_STOCK, shares) == NetShares(shares)
    decreases |shares|
  {
    if shares != [] {
      assert shares[0] in shares;
      RoundStockAllocated(shares[0].bufferPct, shares[0].allocationPct);
      RoundStockPublished(shares[1..]);
    }
  }

  ghost predicate NeverOversold(shares: seq<Share>) {
    forall stock: nat :: PublishedTotal(stock, shares) <= stock
  }

  lemma CancelFull(a: int, b: int)
    requires a * FULL * FULL <= b * (FULL * FULL)
    ensures a <= b
  {
  }

  /** Platforms never publish more than there is, whatever that is, exactly if their net shares make at most the whole. */
  lemma NoOversellExactly(shares: seq<Share>)
    requires SharesInRange(shares)
    ensures NeverOversold(shares) <==> NetShares(shares) <= FULL * FULL
  {
    RoundStockPublished(shares);
    if NetShares(shares) <= FULL * FULL {
      forall stock: nat
        ensures PublishedTotal(stock, shares) <= stock
      {
        PublishedWithinNet(stock, shares);
        ScaleLe(NetShares(shares), FULL * FULL, stock);
        CancelFull(PublishedTotal(stock, shares), stock);
      }
    } else {
      assert PublishedTotal(ROUND_STOCK, shares) > ROUND_STOCK;
    }
  }

  /** Two platforms that nobody configured: each publishes nine tenths of the stock. */
  lemma DefaultSharesOversell()
    ensures var default := Share(DEFAULT_STOCK_BUFFER, DEFAULT_ALLOCATION);
            SharesInRange([default, default]) && !NeverOversold([default, default])
  {
    var default := Share(DEFAULT_STOCK_BUFFER, DEFAULT_ALLOCATION);
    var shares := [default, default];
    assert shares[1..] == [default] && shares[1..][1..] == [];
    assert NetShares(shares[1..]) == 90000000;
    assert NetShares(shares) == 180000000;
    NoOversellExactly(shares);
  }

  // ------------------------------------------------------------------------------------------
  // Bundles
  // ------------------------------------------------------------------------------------------

  /** The mapping a platform SKU stands for. */
  datatype Mapping = Simple(odooSku: string) | Bundle(components: seq<Component>)

  function AtLeastOne(n: int): int { if n > 1 then n else 1 }

  function ComponentStock(w: World, c: Component): nat {
    PlatformStock(w, c.sku) / AtLeastOne(c.quantity)
  }

  /** `qty` is the stock of some component and of none more. */
  predicate IsLeastStock(w: World, comps: seq<Component>, qty: nat) {
    && (forall i :: 0 <= i < |comps| ==> qty <= ComponentStock(w, comps[i]))
    && (exists i :: 0 <= i < |comps| && qty == ComponentStock(w, comps[i]))
  }

  /** Python's `min` of a non-empty list. */
  method Least(xs: seq<nat>) returns (m: nat)
    requires xs != []
    ensures (exists i :: 0 <= i < |xs| && m == xs[i]) && forall x :: x in xs ==> m <= x
  {
    m := xs[0];
    for i := 1 to |xs|
      invariant (exists k :: 0 <= k < |xs| && m == xs[k]) && forall k :: 0 <= k < i ==> m <= xs[k]
    {
      if xs[i] < m {
        m := xs[i];
      }
    }
  }

  /** `calculate_bundle_stock`; `None` is a SKU without an active mapping. */
  method CalculateBundleStock(w: World, mapping: Option<Mapping>) returns (qty: nat)
    ensures mapping.None? || mapping == Some(Bundle([])) ==> qty == 0
    ensures mapping.Some? && mapping.value.Simple? ==> qty == PlatformStock(w, mapping.value.odooSku)
    ensures mapping.Some? && mapping.value.Bundle? && mapping.value.components != [] ==>
              IsLeastStock(w, mapping.value.components, qty)
  {
    if mapping.None? {
      return 0;
    }
    match mapping.value {
      case Simple(sku) =>
        qty := PlatformStock(w, sku);
      case Bundle(comps) =>
        if comps == [] {
          return 0;
        }
        var bundleQtys: seq<nat> := [];
        for i := 0 to |comps|
          invariant |bundleQtys| == i
          invariant forall j :: 0 <= j < i ==> bundleQtys[j] == ComponentStock(w, comps[j])
        {
          var share := PlatformStock(w, comps[i].sku);
          bundleQtys := bundleQtys + [share / AtLeastOne(comps[i].quantity)];
        }
        qty := Least(bundleQtys);
        assert forall j :: 0 <= j < |comps| ==> bundleQtys[j] in bundleQtys;
    }
  }

  /** `n` bundles need no more of any component than the platform was allocated. */
  predicate Affordable(w: World, comps: seq<Component>, n: nat) {
    forall i :: 0 <= i < |comps| ==> n * comps[i].quantity <= PlatformStock(w, comps[i].sku)
  }

  lemma QuotientIsGreatest(stock: nat, qty: int, n: nat)
    requires qty >= 1
    ensures n <= stock / qty <==> n * qty <= stock
  {
    var q := stock / qty;
    assert q * qty <= stock < q * qty + qty;
    if n <= q {
      ScaleLe(n, q, qty);
    } else {
      ScaleLe(q + 1, n, qty);
    }
  }

  /** The published bundle stock is the greatest number of bundles the allocations afford. */
  lemma BundleStockIsGreatest(w: World, comps: seq<Component>, qty: nat, n: nat)
    requires Positive(comps) && IsLeastStock(w, comps, qty)
    ensures Affordable(w, comps, n) <==> n <= qty
  {
    forall i | 0 <= i < |comps|
      ensures n <= ComponentStock(w, comps[i]) <==> n * comps[i].quantity <= PlatformStock(w, comps[i].sku)
    {
      assert comps[i] in comps;
      QuotientIsGreatest(PlatformStock(w, comps[i].sku), comps[i].quantity, n);
    }
  }

  predicate DistinctSkus(comps: seq<Component>) {
    forall i, j :: 0 <= i < j < |comps| ==> comps[i].sku != comps[j].sku
  }

  lemma {:induction false} DemandOfDistinct(comps: seq<Component>, sku: string)
    requires DistinctSkus(comps)
    ensures (forall i :: 0 <= i < |comps| ==> comps[i].sku != sku) ==> DemandOf(comps, sku) == 0
    ensures forall i :: 0 <= i < |comps| && comps[i].sku == sku ==> DemandOf(comps, sku) == comps[i].quantity
    decreases |comps|
  {
    if comps != [] {
      DemandOfDistinct(comps[1..], sku);
      forall i | 0 <= i < |comps| && comps[i].sku == sku
        ensures DemandOf(comps, sku) == comps[i].quantity
      {
        if i > 0 {
          assert comps[1..][i - 1] == comps[i];
        }
      }
    }
  }

  lemma PlatformStockFits(w: World, sku: string)
    requires PercentagesInRange(w)
    ensures PlatformStock(w, sku) <= Available(w, sku)
  {
    if sku in w.products && !w.products[sku].blocked {
      AllocatedBounds(w.products[sku].virtualAvailable, BufferOf(w, sku), AllocationOf(w, sku));
    }
  }

  /**
   An order for no more bundles than were published needs, line by line and over all components, no more
   of any product than Odoo has.
   */
  lemma OrdersFit(w: World, comps: seq<Component>, published: nat, ordered: nat, price: real, sku: string)
    requires PercentagesInRange(w) && Positive(comps) && DistinctSkus(comps)
    requires IsLeastStock(w, comps, published) && ordered <= published
    ensures QuantityOf(BundleLines(price, ordered, comps), sku) <= Available(w, sku)
  {
    BundleQuantities(price, ordered, comps, sku);
    BundleStockIsGreatest(w, comps, published, ordered);
    DemandOfDistinct(comps, sku);
    PlatformStockFits(w, sku);
    if i :| 0 <= i < |comps| && comps[i].sku == sku {
      assert ordered * comps[i].quantity <= PlatformStock(w, comps[i].sku);
      assert DemandOf(comps, sku) * ordered == ordered * comps[i].quantity;
    } else {
      assert DemandOf(comps, sku) == 0;
    }
  }

  /** The largest quantity in which a component with this SKU is listed. */
  function Largest(comps: seq<Component>, sku: string): int {
    if comps == [] then 0
    else
      var rest := Largest(comps[1..], sku);
      if comps[0].sku == sku && comps[0].quantity > rest then comps[0].quantity else rest
  }

  lemma {:induction false} LargestIs(comps: seq<Component>, sku: string)
    requires Positive(comps)
    ensures 0 <= Largest(comps, sku) <= DemandOf(comps, sku)
    ensures forall i :: 0 <= i < |comps| && comps[i].sku == sku ==> 1 <= comps[i].quantity <= Largest(comps, sku)
    ensures Largest(comps, sku) > 0 ==>
              exists i :: 0 <= i < |comps| && comps[i].sku == sku && comps[i].quantity == Largest(comps, sku)
    decreases |comps|
  {
    if comps != [] {
      LargestIs(comps[1..], sku);
      assert comps[0] in comps;
      forall i | 0 <= i < |comps| && comps[i].sku == sku
        ensures 1 <= comps[i].quantity <= Largest(comps, sku)
      {
        if i > 0 {
          assert comps[1..][i - 1] == comps[i];
        }
      }
      if Largest(comps, sku) > 0 && Largest(comps, sku) == Largest(comps[1..], sku) {
        var i :| 0 <= i < |comps[1..]| && comps[1..][i].sku == sku && comps[1..][i].quantity == Largest(comps[1..], sku);
        assert comps[i + 1].sku == sku;
      }
    }
  }

  lemma {:induction false} RepeatedSkuNeedsMore(comps: seq<Component>, i: nat, j: nat)
    requires Positive(comps) && i < j < |comps| && comps[i].sku == comps[j].sku
    ensures DemandOf(comps, comps[i].sku) > Largest(comps, comps[i].sku)
    decreases |comps|
  {
    var sku, rest := comps[i].sku, comps[1..];
    assert comps[0] in comps;
    LargestIs(rest, sku);
    if i > 0 {
      RepeatedSkuNeedsMore(rest, i - 1, j - 1);
    } else {
      assert rest[j - 1].sku == sku;
    }
  }

  /** Every component's product in stock in its largest quantity, all of it for this platform. */
  function ScarceWorld(comps: seq<Component>): World {
    World(map sku | sku in (set c | c in comps :: c.sku) :: Controls(Largest(comps, sku), false, Some(0)), map[])
  }

  lemma FullShare(stock: nat)
    ensures Allocated(stock, 0, FULL) == stock
  {
  }

  lemma WholeBundles(stock: nat, qty: int)
    requires 1 <= qty <= stock
    ensures stock / AtLeastOne(qty) >= 1 && (qty == stock ==> stock / AtLeastOne(qty) == 1)
  {
  }

  lemma ScarceStock(comps: seq<Component>, i: nat)
    requires Positive(comps) && i < |comps|
    ensures var w, sku := ScarceWorld(comps), comps[i].sku;
            && PlatformStock(w, sku) == Available(w, sku) == Largest(comps, sku)
            && ComponentStock(w, comps[i]) >= 1
            && (comps[i].quantity == Largest(comps, sku) ==> ComponentStock(w, comps[i]) == 1)
  {
    LargestIs(comps, comps[i].sku);
    assert comps[i] in comps && comps[i].sku in ScarceWorld(comps).products;
    FullShare(Largest(comps, comps[i].sku));
    WholeBundles(Largest(comps, comps[i].sku), comps[i].quantity);
  }

  /** With a SKU listed twice it can fail: each component is checked against the whole stock. */
  lemma RepeatedSkuOversells(comps: seq<Component>, i: nat, j: nat, price: real)
    requires Positive(comps) && i < j < |comps| && comps[i].sku == comps[j].sku
    ensures var w := ScarceWorld(comps);
            && PercentagesInRange(w) && IsLeastStock(w, comps, 1)
            && QuantityOf(BundleLines(price, 1, comps), comps[i].sku) > Available(w, comps[i].sku)
  {
    var w, sku := ScarceWorld(comps), comps[i].sku;
    forall k | 0 <= k < |comps|
      ensures 1 <= ComponentStock(w, comps[k])
    {
      ScarceStock(comps, k);
    }
    LargestIs(comps, sku);
    var k :| 0 <= k < |comps| && comps[k].sku == sku && comps[k].quantity == Largest(comps, sku);
    ScarceStock(comps, k);
    BundleQuantities(price, 1, comps, sku);
    RepeatedSkuNeedsMore(comps, i, j);
  }

  /** Whatever is in stock, no order within the published bundle stock needs more of a product than Odoo has. */
  ghost predicate NeverOversells(comps: seq<Component>) {
    forall w: World, published: nat, ordered: nat, price: real, sku: string ::
      PercentagesInRange(w) && IsLeastStock(w, comps, published) && ordered <= published ==>
        QuantityOf(BundleLines(price, ordered, comps), sku) <= Available(w, sku)
  }

  /** A bundle never oversells exactly if no component SKU is listed twice. */
  lemma OrdersFitExactly(comps: seq<Component>)
    requires Positive(comps)
    ensures NeverOversells(comps) <==> DistinctSkus(comps)
  {
    if DistinctSkus(comps) {
      forall w: World, published: nat, ordered: nat, price: real, sku: string |
        PercentagesInRange(w) && IsLeastStock(w, comps, published) && ordered <= published
        ensures QuantityOf(BundleLines(price, ordered, comps), sku) <= Available(w, sku)
      {
        OrdersFit(w, comps, published, ordered, price, sku);
      }
    } else {
      var i, j :| 0 <= i < j < |comps| && comps[i].sku == comps[j].sku;
      RepeatedSkuOversells(comps, i, j, 0.0);
    }
  }

  // ------------------------------------------------------------------------------------------
  // Several listings of one platform
  // ------------------------------------------------------------------------------------------

  /** A listing: the components of what is sold (a simple product is a single piece), how many are ordered, at what price. */
  datatype Listing = Listing(comps: seq<Component>, ordered: nat, price: real)

  /** The component lists of all listings, one after the other. */
  function AllComponents(listings: seq<Listing>): seq<Component> {
    if listings == [] then [] else listings[0].comps + AllComponents(listings[1..])
  }

  /** The order lines of all listings. */
  function AllLines(listings: seq<Listing>): seq<Line> {
    if listings == [] then []
    else BundleLines(listings[0].price, listings[0].ordered, listings[0].comps) + AllLines(listings[1..])
  }

  /** How many pieces of `sku` all the orders need. */
  function AllDemand(listings: seq<Listing>, sku: string): int {
    if listings == [] then 0
    else DemandOf(listings[0].comps, sku) * listings[0].ordered + AllDemand(listings[1..], sku)
  }

  predicate AllPositive(listings: seq<Listing>) {
    forall l :: l in listings ==> Positive(l.comps)
  }

  lemma {:induction false} AllQuantities(listings: seq<Listing>, sku: string)
    requires AllPositive(listings)
    ensures QuantityOf(AllLines(listings), sku) == AllDemand(listings, sku)
    decreases |listings|
  {
    if listings != [] {
      var l := listings[0];
      assert l in listings;
      AllQuantities(listings[1..], sku);
      BundleQuantities(l.price, l.ordered, l.comps, sku);
      QuantityAppend(BundleLines(l.price, l.ordered, l.comps), AllLines(listings[1..]), sku);
    }
  }

  /** The listing is ordered at most as often as its bundle stock says; without components that is zero. */
  ghost predicate IsOffered(w: World, l: Listing) {
    if l.comps == [] then l.ordered == 0
    else exists published: nat :: IsLeastStock(w, l.comps, published) && l.ordered <= published
  }

  ghost predicate WithinPublished(w: World, listings: seq<Listing>) {
    forall l :: l in listings ==> IsOffered(w, l)
  }

  lemma {:induction false} DemandAppend(a: seq<Component>, b: seq<Component>, sku: string)
    ensures DemandOf(a + b, sku) == DemandOf(a, sku) + DemandOf(b, sku)
  {
    if a == [] {
      assert a + b == b;
    } else {
      assert (a + b)[1..] == a[1..] + b;
      DemandAppend(a[1..], b, sku);
    }
  }

  lemma DemandWithin(w: World, l: Listing, sku: string)
    requires PercentagesInRange(w) && Positive(l.comps) && DistinctSkus(l.comps)
    requires IsOffered(w, l) && l.comps != []
    ensures DemandOf(l.comps, sku) * l.ordered <= Available(w, sku)
  {
    var published: nat :| IsLeastStock(w, l.comps, published) && l.ordered <= published;
    OrdersFit(w, l.comps, published, l.ordered, 0.0, sku);
    BundleQuantities(0.0, l.ordered, l.comps, sku);
  }

  lemma DistinctSplits(a: seq<Component>, b: seq<Component>)
    requires DistinctSkus(a + b)
    ensures DistinctSkus(a) && DistinctSkus(b)
    ensures forall x, y :: x in a && y in b ==> x.sku != y.sku
  {
    assert forall i :: 0 <= i < |a| ==> (a + b)[i] == a[i];
    assert forall i :: 0 <= i < |b| ==> (a + b)[|a| + i] == b[i];
  }

  lemma {:induction false} NoDemand(comps: seq<Component>, sku: string)
    requires forall c :: c in comps ==> c.sku != sku
    ensures DemandOf(comps, sku) == 0
    decreases |comps|
  {
    if comps != [] {
      NoDemand(comps[1..], sku);
    }
  }

  lemma {:induction false} NoDemandInAny(listings: seq<Listing>, sku: string)
    requires forall c :: c in AllComponents(listings) ==> c.sku != sku
    ensures AllDemand(listings, sku) == 0
    decreases |listings|
  {
    if listings != [] {
      var first, rest := listings[0].comps, AllComponents(listings[1..]);
      assert forall c :: c in first || c in rest ==> c in first + rest;
      NoDemand(first, sku);
      NoDemandInAny(listings[1..], sku);
    }
  }

  lemma {:induction false} ListingsFit(w: World, listings: seq<Listing>, sku: string)
    requires PercentagesInRange(w) && AllPositive(listings) && WithinPublished(w, listings)
    requires DistinctSkus(AllComponents(listings))
    ensures AllDemand(listings, sku) <= Available(w, sku)
    decreases |listings|
  {
    if listings != [] {
      var l, rest := listings[0], listings[1..];
      assert l in listings;
      DistinctSplits(l.comps, AllComponents(rest));
      if x :| x in l.comps && x.sku == sku {
        NoDemandInAny(rest, sku);
        DemandWithin(w, l, sku);
      } else {
        NoDemand(l.comps, sku);
        ListingsFit(w, rest, sku);
      }
    }
  }

  /** The same offers in other numbers or at other prices. */
  predicate SameOffers(orders: seq<Listing>, listings: seq<Listing>) {
    |orders| == |listings| && forall i :: 0 <= i < |orders| ==> orders[i].comps == listings[i].comps
  }

  lemma {:induction false} SameOffersSameComponents(orders: seq<Listing>, listings: seq<Listing>)
    requires SameOffers(orders, listings)
    ensures AllComponents(orders) == AllComponents(listings)
    ensures AllPositive(listings) ==> AllPositive(orders)
    decreases |orders|
  {
    if orders != [] {
      SameOffersSameComponents(orders[1..], listings[1..]);
      assert forall i :: 0 <= i < |listings| ==> listings[i] in listings;
    }
  }

  /** One piece of every listing that has components. */
  function OneOfEach(listings: seq<Listing>): (ones: seq<Listing>)
    ensures SameOffers(ones, listings)
    ensures forall l :: l in ones ==> l.ordered == if l.comps == [] then 0 else 1
  {
    if listings == [] then []
    else [listings[0].(ordered := if listings[0].comps == [] then 0 else 1)] + OneOfEach(listings[1..])
  }

  lemma {:induction false} OneOfEachNeeds(listings: seq<Listing>, sku: string)
    ensures AllDemand(OneOfEach(listings), sku) == DemandOf(AllComponents(listings), sku)
    decreases |listings|
  {
    if listings != [] {
      OneOfEachNeeds(listings[1..], sku);
      DemandAppend(listings[0].comps, AllComponents(listings[1..]), sku);
      assert OneOfEach(listings)[1..] == OneOfEach(listings[1..]);
    }
  }

  lemma {:induction false} ComponentsOfListings(listings: seq<Listing>)
    requires AllPositive(listings)
    ensures Positive(AllComponents(listings))
    ensures forall l, c :: l in listings && c in l.comps ==> c in AllComponents(listings)
    decreases |listings|
  {
    if listings != [] {
      ComponentsOfListings(listings[1..]);
      assert listings[0] in listings;
    }
  }

  lemma {:induction false} LeastStockExists(w: World, comps: seq<Component>) returns (qty: nat)
    requires comps != []
    ensures IsLeastStock(w, comps, qty)
    decreases |comps|
  {
    if |comps| == 1 {
      qty := ComponentStock(w, comps[0]);
    } else {
      qty := LeastStockExists(w, comps[1..]);
      assert forall i :: 1 <= i < |comps| ==> comps[i] == comps[1..][i - 1];
      var i :| 0 <= i < |comps[1..]| && qty == ComponentStock(w, comps[1..][i]);
      assert comps[i + 1] == comps[1..][i];
      if ComponentStock(w, comps[0]) < qty {
        qty := ComponentStock(w, comps[0]);
      }
    }
  }

  /** In the scarce world of all listings together one piece of each is published. */
  lemma OneOfEachIsOffered(listings: seq<Listing>)
    requires AllPositive(listings)
    ensures WithinPublished(ScarceWorld(AllComponents(listings)), OneOfEach(listings))
  {
    var all, ones := AllComponents(listings), OneOfEach(listings);
    var w := ScarceWorld(all);
    SameOffersSameComponents(ones, listings);
    ComponentsOfListings(ones);
    forall l | l in ones && l.comps != []
      ensures IsOffered(w, l)
    {
      var published := LeastStockExists(w, l.comps);
      var i :| 0 <= i < |l.comps| && published == ComponentStock(w, l.comps[i]);
      assert l.comps[i] in all;
      var k :| 0 <= k < |all| && all[k] == l.comps[i];
      ScarceStock(all, k);
    }
  }

  /** With a shared SKU the scarce world is sold out by one piece of each listing. */
  lemma SharedSkuOversells(listings: seq<Listing>, i: nat, j: nat)
    requires AllPositive(listings)
    requires var all := AllComponents(listings); i < j < |all| && all[i].sku == all[j].sku
    ensures var all, ones := AllComponents(listings), OneOfEach(listings);
            var w := ScarceWorld(all);
            && PercentagesInRange(w) && SameOffers(ones, listings) && WithinPublished(w, ones)
            && QuantityOf(AllLines(ones), all[i].sku) > Available(w, all[i].sku)
  {
    var all, ones := AllComponents(listings), OneOfEach(listings);
    ComponentsOfListings(listings);
    SameOffersSameComponents(ones, listings);
    OneOfEachIsOffered(listings);
    AllQuantities(ones, all[i].sku);
    OneOfEachNeeds(listings, all[i].sku);
    RepeatedSkuNeedsMore(all, i, j);
    ScarceStock(all, i);
  }

  /** Whatever is in stock, orders of all these listings within what is published need no more than Odoo has. */
  ghost predicate NeverOversellTogether(listings: seq<Listing>) {
    forall w: World, orders: seq<Listing>, sku: string ::
      PercentagesInRange(w) && SameOffers(orders, listings) && WithinPublished(w, orders) ==>
        QuantityOf(AllLines(orders), sku) <= Available(w, sku)
  }

  /**
   The listings of a platform together never oversell exactly if no component SKU occurs twice in all of
   them: each listing is published from the whole allocation of its components.
   */
  lemma ListingsFitExactly(listings: seq<Listing>)
    requires AllPositive(listings)
    ensures NeverOversellTogether(listings) <==> DistinctSkus(AllComponents(listings))
  {
    var all := AllComponents(listings);
    if DistinctSkus(all) {
      forall w: World, orders: seq<Listing>, sku: string |
        PercentagesInRange(w) && SameOffers(orders, listings) && WithinPublished(w, orders)
        ensures QuantityOf(AllLines(orders), sku) <= Available(w, sku)
      {
        SameOffersSameComponents(orders, listings);
        AllQuantities(orders, sku);
        ListingsFit(w, orders, sku);
      }
    } else {
      var i, j :| 0 <= i < j < |all| && all[i].sku == all[j].sku;
      SharedSkuOversells(listings, i, j);
    }
  }
}
