/** The order writer: configuration defaults and the money arithmetic of a new order. */
module Writer {
  import opened Orders
  import opened Catalog
  import opened Conservation
  import T = Tallies

  /** The settings an order depends on. */
  datatype Config = Config(customerPool: int, catalogSize: int, minLineItems: int, maxLineItems: int)

  /** What NewWriter makes of these settings, default by default. */
  method Normalise(config: Config) returns (cfg: Config)
    ensures cfg.customerPool == (if config.customerPool > 0 then config.customerPool else 5000)
    ensures cfg.catalogSize == (if config.catalogSize > 0 then config.catalogSize else 500)
    ensures cfg.minLineItems == (if config.minLineItems > 0 then config.minLineItems else 1)
    ensures cfg.maxLineItems == 5 || (cfg.maxLineItems == config.maxLineItems && cfg.minLineItems <= cfg.maxLineItems)
    ensures config.maxLineItems >= cfg.minLineItems ==> cfg.maxLineItems == config.maxLineItems
    // Orders can be drawn exactly when the requested minimum is at most 5 or at most the maximum.
    ensures cfg.minLineItems <= cfg.maxLineItems
            <==> config.minLineItems <= 5 || config.minLineItems <= config.maxLineItems
  {
    cfg := config;
    if cfg.customerPool <= 0 {
      cfg := cfg.(customerPool := 5000);
    }
    if cfg.catalogSize <= 0 {
      cfg := cfg.(catalogSize := 500);
    }
    if cfg.minLineItems <= 0 {
      cfg := cfg.(minLineItems := 1);
    }
    if cfg.maxLineItems <= 0 || cfg.maxLineItems < cfg.minLineItems {
      cfg := cfg.(maxLineItems := 5);
    }
  }

  // --- orders ---

  predicate PricedBy(li: LineItem, pool: Pool) {
    exists i | 0 <= i < |pool.products| ::
      i < |pool.prices| && li.product == pool.products[i] && li.unitPrice == pool.prices[i]
  }

  /** What every order of one writer satisfies. */
  ghost predicate WriterBuilt(o: Order, pool: Pool) {
    && (forall li | li in o.items ::
          && PricedBy(li, pool)
          && 1 <= li.quantity <= 3
          && li.subtotal == li.unitPrice * li.quantity)
    && o.subtotal == T.Sum(o.items, (li: LineItem) => li.subtotal)
    && o.tax == o.subtotal * 8 / 100
    && o.shipping == 499
    && o.total == o.subtotal + o.tax + o.shipping
  }

  datatype Drawn = Panic | Drawn(order: Order)

  /**
    newOrder, with its random draws as arguments: how many items beyond the minimum, and which
    product and which quantity for each.  Drawing a count from an empty range panics.
  */
  method NewOrder(cfg: Config, cat: Catalog, id: string, customer: Customer, shipTo: Address, now: int,
                  extra: nat, product: nat -> nat, quantity: nat -> nat)
    returns (r: Drawn)
    requires cfg.minLineItems >= 1 && cat.Contents().WellFormed()
    requires cfg.minLineItems <= cfg.maxLineItems ==> extra <= cfg.maxLineItems - cfg.minLineItems
    requires forall i :: product(i) < cat.products.Length && quantity(i) < 3
    ensures r.Panic? <==> cfg.maxLineItems < cfg.minLineItems
    ensures r.Drawn? ==>
              && WriterBuilt(r.order, cat.Contents())
              && cfg.minLineItems <= |r.order.items| <= cfg.maxLineItems
              && r.order.id == id && r.order.customer == customer && r.order.shipTo == shipTo
              && r.order.createdAt == now
    // The draws decide the items: how many, which product of the pool at its price, and how many of it.
    ensures r.Drawn? ==> |r.order.items| == cfg.minLineItems + extra
    ensures r.Drawn? ==> forall i | 0 <= i < |r.order.items| ::
              var p, price, li := product(i), cat.priceCents[product(i)], r.order.items[i];
              li.product == cat.products[p] && li.quantity == 1 + quantity(i) && li.unitPrice == price
  {
    if cfg.maxLineItems - cfg.minLineItems + 1 <= 0 {
      return Panic;
    }
    hide T.Sum, PricedBy, Pool.WellFormed, AreDrawn;
    ghost var pool := cat.Contents();
    var count := cfg.minLineItems + extra;
    NothingAddedUp();
    NothingDrawn(pool, product, quantity);
    var items: seq<LineItem>, subtotal := [], 0;
    for i := 0 to count
      invariant subtotal == T.Sum(items, (li: LineItem) => li.subtotal)
      invariant AreDrawn(items, i, pool, product, quantity)
    {
      var prod, unit := cat.Pick(product(i));
      var qty := 1 + quantity(i);
      var sub := unit * qty;
      T.Snoc(items, LineItem(prod, qty, unit, sub));
      OneMoreDrawn(items, i, pool, product, quantity, LineItem(prod, qty, unit, sub));
      items := items + [LineItem(prod, qty, unit, sub)];
      subtotal := subtotal + sub;
    }
    DrawnIsBuilt(items, count, pool, product, quantity);
    var tax := subtotal * 8 / 100;
    var shipping := 499;
    r := Drawn(Order(id, customer, shipTo, items, subtotal, tax, shipping, subtotal + tax + shipping, now));
  }

  lemma NothingAddedUp()
    ensures T.Sum([], (li: LineItem) => li.subtotal) == 0
  {}

  /** The items that some draws make. */
  ghost predicate AreDrawn(items: seq<LineItem>, n: nat, pool: Pool, product: nat -> nat, quantity: nat -> nat) {
    && |items| == n
    && forall i | 0 <= i < n ::
         var p, q := product(i), 1 + quantity(i);
         && p < |pool.products| && p < |pool.prices|
         && items[i] == LineItem(pool.products[p], q, pool.prices[p], pool.prices[p] * q)
  }

  lemma NothingDrawn(pool: Pool, product: nat -> nat, quantity: nat -> nat)
    ensures AreDrawn([], 0, pool, product, quantity)
  {}

  lemma OneMoreDrawn(items: seq<LineItem>, n: nat, pool: Pool, product: nat -> nat, quantity: nat -> nat, li: LineItem)
    requires AreDrawn(items, n, pool, product, quantity)
    requires product(n) < |pool.products| && product(n) < |pool.prices|
    requires li.product == pool.products[product(n)] && li.unitPrice == pool.prices[product(n)]
    requires li.quantity == 1 + quantity(n) && li.subtotal == li.unitPrice * li.quantity
    ensures AreDrawn(items + [li], n + 1, pool, product, quantity)
  {}

  lemma DrawnIsBuilt(items: seq<LineItem>, n: nat, pool: Pool, product: nat -> nat, quantity: nat -> nat)
    requires AreDrawn(items, n, pool, product, quantity) && forall i :: quantity(i) < 3
    ensures |items| == n
    ensures forall i | 0 <= i < n ::
              && product(i) < |pool.products| && product(i) < |pool.prices|
              && items[i].product == pool.products[product(i)] && items[i].quantity == 1 + quantity(i)
              && items[i].unitPrice == pool.prices[product(i)]
    ensures forall li | li in items ::
              PricedBy(li, pool) && 1 <= li.quantity <= 3 && li.subtotal == li.unitPrice * li.quantity
  {
    forall li | li in items
      ensures PricedBy(li, pool) && 1 <= li.quantity <= 3 && li.subtotal == li.unitPrice * li.quantity
    {
      var i :| 0 <= i < n && items[i] == li;
      var p := product(i);
      assert li.product == pool.products[p] && li.unitPrice == pool.prices[p];
    }
  }

  /** What quantity and which place in the pool stand behind each item. */
  lemma {:induction false} PlacesOf(items: seq<LineItem>, pool: Pool) returns (places: seq<nat>)
    requires forall li | li in items :: PricedBy(li, pool)
    ensures |places| == |items|
    ensures forall i | 0 <= i < |items| ::
              && places[i] < |pool.products| && places[i] < |pool.prices|
              && items[i].product == pool.products[places[i]] && items[i].unitPrice == pool.prices[places[i]]
  {
    places := [];
    for n := 0 to |items|
      invariant |places| == n
      invariant forall i | 0 <= i < n ::
                  && places[i] < |pool.products| && places[i] < |pool.prices|
                  && items[i].product == pool.products[places[i]] && items[i].unitPrice == pool.prices[places[i]]
    {
      var li := items[n];
      assert li in items && PricedBy(li, pool);
      var place :| && 0 <= place < |pool.products| && place < |pool.prices|
                   && li.product == pool.products[place] && li.unitPrice == pool.prices[place];
      places := places + [place];
    }
  }

  /**
    Nothing else is ruled out: every order of an allowed length whose items are priced by the pool, one
    to three of each, is what NewOrder makes of some draws.
  */
  lemma EveryOrderIsPossible(cfg: Config, pool: Pool, o: Order)
    returns (extra: nat, product: nat -> nat, quantity: nat -> nat)
    requires cfg.minLineItems >= 1 && pool.WellFormed() && WriterBuilt(o, pool)
    requires cfg.minLineItems <= |o.items| <= cfg.maxLineItems
    ensures extra <= cfg.maxLineItems - cfg.minLineItems && |o.items| == cfg.minLineItems + extra
    ensures forall i :: product(i) < |pool.products| && quantity(i) < 3
    ensures forall i | 0 <= i < |o.items| ::
              && o.items[i].product == pool.products[product(i)] && o.items[i].quantity == 1 + quantity(i)
              && o.items[i].unitPrice == pool.prices[product(i)]
  {
    var items := o.items;
    var places := PlacesOf(items, pool);
    extra := |items| - cfg.minLineItems;
    product := (i: nat) => if i < |places| then places[i] else 0;
    quantity := (i: nat) => if i < |items| && items[i].quantity in {2, 3} then items[i].quantity - 1 else 0;
    forall i | 0 <= i < |items|
      ensures items[i].quantity == 1 + quantity(i)
    {
      assert items[i] in o.items && 1 <= items[i].quantity <= 3;
    }
  }

  /** And the draws leave no choice: they decide the whole order. */
  lemma DrawsDecide(o: Order, p: Order, pool: Pool)
    requires WriterBuilt(o, pool) && WriterBuilt(p, pool)
    requires o.id == p.id && o.customer == p.customer && o.shipTo == p.shipTo && o.createdAt == p.createdAt
    requires |o.items| == |p.items| && forall i | 0 <= i < |o.items| ::
               && o.items[i].product == p.items[i].product && o.items[i].quantity == p.items[i].quantity
               && o.items[i].unitPrice == p.items[i].unitPrice
    ensures o == p
  {
    forall i | 0 <= i < |o.items|
      ensures o.items[i] == p.items[i]
    {
      assert o.items[i] in o.items && p.items[i] in p.items;
    }
    assert o.items == p.items;
  }

  lemma SubtotalIsNatural(items: seq<LineItem>, pool: Pool)
    requires pool.WellFormed()
    requires forall li | li in items ::
               PricedBy(li, pool) && 1 <= li.quantity <= 3 && li.subtotal == li.unitPrice * li.quantity
    ensures T.Sum(items, (li: LineItem) => li.subtotal) >= 0
  {
    hide T.Sum, Decimal, Zeros, SkuName;
    forall li | li in items
      ensures li.subtotal >= 0
    {
      assert PricedBy(li, pool) && li.unitPrice >= 199;
    }
    T.SumOfNonNegative(items, (li: LineItem) => li.subtotal);
  }

  /** The writer's orders add up, to the cent. */
  lemma WriterOrdersAddUp(o: Order, pool: Pool)
    requires pool.WellFormed() && WriterBuilt(o, pool)
    ensures AddsUp(o) && o.subtotal >= 0
  {
    SubtotalIsNatural(o.items, pool);
    forall li | li in o.items
      ensures li.product.sku != "" && li.product.category != ""
    {
      var i :| 0 <= i < |pool.products| && li.product == pool.products[i];
      SkuNames(i, i);
    }
  }

  /** Flooring 8% to a cent loses less than a cent an order, and never 97 to 99 hundredths. */
  lemma TaxOfOrder(subtotal: int)
    requires subtotal >= 0
    ensures 0 <= 8 * subtotal - 100 * (subtotal * 8 / 100) <= 96
  {
    var lost := 8 * subtotal - 100 * (subtotal * 8 / 100);
    assert lost == (subtotal * 8) % 100;
    assert lost == 4 * (2 * subtotal - 25 * (subtotal * 8 / 100));
  }

  /** Over any run the accumulated truncation stays within 96 hundredths of a cent an order. */
  lemma {:induction false} AccumulatedTax(h: seq<Order>, pool: Pool)
    requires pool.WellFormed() && forall o | o in h :: WriterBuilt(o, pool)
    ensures 0 <= 8 * T.Sum(h, Subtotal) - 100 * T.Sum(h, Tax) <= 96 * |h|
    ensures T.Sum(h, Shipping) == 499 * |h|
  {
    if h != [] {
      var n := |h| - 1;
      var o := h[n];
      assert o in h && forall p | p in h[..n] :: p in h;
      AccumulatedTax(h[..n], pool);
      WriterOrdersAddUp(o, pool);
      TaxOfOrder(o.subtotal);
    }
  }
}
