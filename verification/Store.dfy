/**
  The analytics store: every structure the order script maintains, as the fields of one object.

  `history` records the orders applied so far and `arrivals` the instants they were applied at.
  `Valid` says of every structure what it equals as a function of that history; `ApplyOrder` is
  written as the script is, command by command, and keeps `Valid`.
*/
module Store {
  import Lex
  import opened SortedSets
  import T = Tallies
  import opened Orders
  import opened Leaderboards
  import opened Hours
  import opened PairTable
  import opened Customers

  class Store {
    const encode: Snapshot -> string

    var ordersCount: int
    var revenue: int
    var tax: int
    var shipping: int
    var lineItems: int
    var stateCount: ZSet
    var stateRevenue: ZSet
    var productUnits: ZSet
    var productRevenue: ZSet
    var categoryUnits: ZSet
    var categoryRevenue: ZSet
    var productMeta: map<string, ProductMeta>
    var hours: map<int, HourBucket>
    var valueBuckets: ZSet
    var topByTotal: ZSet
    var topByLineItems: ZSet
    var topByMaxItem: ZSet
    var cartSizes: ZSet
    var hourOfDayCount: ZSet
    var hourOfDayRevenue: ZSet
    var dayOfWeekCount: ZSet
    var dayOfWeekRevenue: ZSet
    var customerSpend: ZSet
    var customerOrders: ZSet
    var customerMeta: map<string, CustomerMeta>
    var zipCount: ZSet
    var zipRevenue: ZSet
    var zipMeta: map<string, ZipMeta>
    var topPairs: ZSet
    var seen: set<string>
    var ordersNew: int
    var ordersReturning: int
    var revenueNew: int
    var revenueReturning: int
    var now: int

    ghost var history: seq<Order>
    ghost var arrivals: seq<int>

    // --- each structure as a function of a history ---

    ghost predicate Counters(h: seq<Order>)
      reads `ordersCount, `revenue, `tax, `shipping, `lineItems
    {
      && ordersCount == |h|
      && revenue == T.Sum(h, Total)
      && tax == T.Sum(h, Tax)
      && shipping == T.Sum(h, Shipping)
      && lineItems == T.Sum(h, Units)
    }

    ghost predicate Places(h: seq<Order>)
      reads `stateCount, `stateRevenue, `zipCount, `zipRevenue, `zipMeta
    {
      && stateCount == T.Tally(T.Collect(h, StateCount))
      && stateRevenue == T.Tally(T.Collect(h, StateRevenue))
      && zipCount == T.Tally(T.Collect(h, ZipCount))
      && zipRevenue == T.Tally(T.Collect(h, ZipRevenue))
      && zipMeta == T.FirstWins(T.Collect(h, ZipMetas))
    }

    ghost predicate Products(h: seq<Order>)
      reads `productUnits, `productRevenue, `categoryUnits, `categoryRevenue, `productMeta
    {
      && productUnits == T.Tally(T.Collect(h, ProductUnits))
      && productRevenue == T.Tally(T.Collect(h, ProductRevenue))
      && categoryUnits == T.Tally(T.Collect(h, CategoryUnits))
      && categoryRevenue == T.Tally(T.Collect(h, CategoryRevenue))
      && productMeta == T.FirstWins(T.Collect(h, ProductMetas))
    }

    ghost predicate Histograms(h: seq<Order>)
      reads `valueBuckets, `cartSizes, `hourOfDayCount, `hourOfDayRevenue, `dayOfWeekCount, `dayOfWeekRevenue
    {
      && valueBuckets == T.Tally(T.Collect(h, ValueBucket))
      && cartSizes == T.Tally(T.Collect(h, CartSizeBucket))
      && hourOfDayCount == T.Tally(T.Collect(h, HourOfDayCount))
      && hourOfDayRevenue == T.Tally(T.Collect(h, HourOfDayRevenue))
      && dayOfWeekCount == T.Tally(T.Collect(h, DayOfWeekCount))
      && dayOfWeekRevenue == T.Tally(T.Collect(h, DayOfWeekRevenue))
    }

    ghost predicate TopLists(h: seq<Order>)
      reads `topByTotal, `topByLineItems, `topByMaxItem
    {
      && topByTotal == Top(Board(h, encode, TotalScore), TOP_ORDERS_LIMIT)
      && topByLineItems == Top(Board(h, encode, UnitsScore), TOP_ORDERS_LIMIT)
      && topByMaxItem == Top(Board(h, encode, MaxItemScore), TOP_ORDERS_LIMIT)
    }

    ghost predicate CustomerTables(h: seq<Order>)
      reads `customerSpend, `customerOrders, `customerMeta
    {
      && customerSpend == T.Tally(T.Collect(h, CustomerSpend))
      && customerOrders == T.Tally(T.Collect(h, CustomerOrders))
      && customerMeta == T.FirstWins(T.Collect(h, CustomerMetas))
    }

    ghost predicate NewAndReturning(h: seq<Order>)
      reads `seen, `ordersNew, `ordersReturning, `revenueNew, `revenueReturning
    {
      && seen == Seen(h)
      && ordersNew == |Seen(h)|
      && ordersReturning == T.Sum(h, NamedOrder) - |Seen(h)|
      && revenueNew == FirstSpend(h)
      && revenueReturning == T.Sum(h, NamedSpend) - FirstSpend(h)
    }

    /** Every structure matches history `h`, applied at the instants `at`. */
    ghost predicate Matches(h: seq<Order>, at: seq<int>)
      reads this
    {
      && ScoreFaithful(encode)
      && Counters(h)
      && Places(h)
      && Products(h)
      && Histograms(h)
      && TopLists(h)
      && CustomerTables(h)
      && NewAndReturning(h)
      && topPairs == PairsAfter(h)
      && |at| == |h|
      && HoursMatch(hours, h, at, now)
    }

    ghost predicate Valid()
      reads this
    {
      Matches(history, arrivals)
    }

    constructor (encode: Snapshot -> string, start: int)
      requires ScoreFaithful(encode)
      ensures Valid() && history == [] && now == start && this.encode == encode
    {
      this.encode := encode;
      ordersCount, revenue, tax, shipping, lineItems := 0, 0, 0, 0, 0;
      stateCount, stateRevenue, zipCount, zipRevenue, zipMeta := map[], map[], map[], map[], map[];
      productUnits, productRevenue, categoryUnits, categoryRevenue, productMeta := map[], map[], map[], map[], map[];
      hours := map[];
      valueBuckets, cartSizes := map[], map[];
      topByTotal, topByLineItems, topByMaxItem := map[], map[], map[];
      hourOfDayCount, hourOfDayRevenue, dayOfWeekCount, dayOfWeekRevenue := map[], map[], map[], map[];
      customerSpend, customerOrders, customerMeta := map[], map[], map[];
      topPairs := map[];
      seen, ordersNew, ordersReturning, revenueNew, revenueReturning := {}, 0, 0, 0, 0;
      now := start;
      history, arrivals := [], [];
    }

    /** Time passes; Redis drops every bucket whose expiry lies in the past. */
    method Tick(elapsed: nat)
      requires Valid()
      modifies `now, `hours
      ensures Valid() && now == old(now) + elapsed
    {
      hide Counters, Places, Products, Histograms, TopLists, CustomerTables, NewAndReturning, HoursMatch, PairsAfter;
      HoursKeptByTick(hours, history, arrivals, now, now + elapsed);
      now := now + elapsed;
      hours := Expire(hours, now);
    }

    /** The Go side: totals, maximum and snapshot of the order, then the script. */
    method ApplyOrder(o: Order)
      requires Valid()
      modifies this
      ensures Valid() && now == old(now)
      ensures history == old(history) + [o] && arrivals == old(arrivals) + [now]
    {
      hide Counters, Places, Products, Histograms, TopLists, CustomerTables, NewAndReturning, HoursMatch, PairsAfter;
      hide T.Sum, MaxItem, MaxItemName;
      var units, maxItem, maxItemName := Summarise(o.items);
      var snapshot := Snapshot(o.id, o.customer.name, o.shipTo.state, o.total, units, maxItem, maxItemName,
                               o.createdAt / 1000);
      ghost var h, at := history, arrivals;
      history, arrivals := h + [o], at + [now];
      RunScript(o, h, at, encode(snapshot), units, maxItem);
    }

    method Summarise(items: seq<LineItem>) returns (units: int, maxItem: int, maxItemName: string)
      ensures units == T.Sum(items, (li: LineItem) => li.quantity)
      ensures maxItem == MaxItem(items) && maxItemName == MaxItemName(items)
    {
      units, maxItem, maxItemName := 0, 0, "";
      for i := 0 to |items|
        invariant units == T.Sum(items[..i], (li: LineItem) => li.quantity)
        invariant maxItem == MaxItem(items[..i]) && maxItemName == MaxItemName(items[..i])
      {
        assert items[..i + 1] == items[..i] + [items[i]];
        T.Snoc(items[..i], items[i]);
        units := units + items[i].quantity;
        if items[i].unitPrice > maxItem {
          maxItem := items[i].unitPrice;
          maxItemName := items[i].product.name;
        }
      }
      assert items[..|items|] == items;
    }

    /** The order script. */
    method RunScript(o: Order, ghost h: seq<Order>, ghost at: seq<int>, member: string, units: int, maxItem: int)
      requires Matches(h, at)
      requires member == encode(SnapshotOf(o)) && units == Units(o) && maxItem == MaxItem(o.items)
      modifies this
      ensures Matches(h + [o], at + [now])
      ensures now == old(now) && history == old(history) && arrivals == old(arrivals)
    {
      hide Counters, Places, Products, Histograms, TopLists, CustomerTables, NewAndReturning, HoursMatch, PairsAfter;
      hide ScoreFaithful, Units, MaxItem, SnapshotOf;
      CountAmounts(o, h, units);
      CountTimesAndRanks(o, h, at, member, units, maxItem);
      CountCustomersAndPairs(o, h);
    }

    // --- the script, in three parts ---

    method CountAmounts(o: Order, ghost h: seq<Order>, units: int)
      requires Counters(h) && Places(h) && Products(h) && units == Units(o)
      modifies `ordersCount, `revenue, `tax, `shipping, `lineItems
      modifies `stateCount, `stateRevenue, `zipCount, `zipRevenue, `zipMeta
      modifies `productUnits, `productRevenue, `categoryUnits, `categoryRevenue, `productMeta
      ensures Counters(h + [o]) && Places(h + [o]) && Products(h + [o])
    {
      hide Counters, Places, Products;
      CountOrder(o, h, units);
      CountPlace(o, h);
      CountItems(o, h);
    }

    method CountTimesAndRanks(o: Order, ghost h: seq<Order>, ghost at: seq<int>, member: string, units: int,
                              maxItem: int)
      requires |at| == |h| && HoursMatch(hours, h, at, now)
      requires Histograms(h) && ScoreFaithful(encode) && TopLists(h)
      requires member == encode(SnapshotOf(o)) && units == Units(o) && maxItem == MaxItem(o.items)
      modifies `hours, `topByTotal, `topByLineItems, `topByMaxItem
      modifies `valueBuckets, `cartSizes, `hourOfDayCount, `hourOfDayRevenue, `dayOfWeekCount, `dayOfWeekRevenue
      ensures HoursMatch(hours, h + [o], at + [now], now)
      ensures Histograms(h + [o]) && TopLists(h + [o])
    {
      hide Histograms, TopLists, HoursMatch, ScoreFaithful, Units, MaxItem, SnapshotOf;
      CountHour(o, h, at);
      CountHistograms(o, h, units);
      RankSnapshot(o, h, member, units, maxItem);
    }

    method CountCustomersAndPairs(o: Order, ghost h: seq<Order>)
      requires CustomerTables(h) && topPairs == PairsAfter(h) && NewAndReturning(h)
      modifies `customerSpend, `customerOrders, `customerMeta, `topPairs
      modifies `seen, `ordersNew, `ordersReturning, `revenueNew, `revenueReturning
      ensures CustomerTables(h + [o]) && topPairs == PairsAfter(h + [o]) && NewAndReturning(h + [o])
    {
      hide CustomerTables, PairsAfter, NewAndReturning;
      CountCustomer(o, h);
      CountPairs(o, h);
      SplitNewAndReturning(o, h);
    }

    method CountOrder(o: Order, ghost h: seq<Order>, units: int)
      requires Counters(h) && units == Units(o)
      modifies `ordersCount, `revenue, `tax, `shipping, `lineItems
      ensures Counters(h + [o])
    {
      ordersCount := ordersCount + 1;
      revenue := revenue + o.total;
      tax := tax + o.tax;
      shipping := shipping + o.shipping;
      lineItems := lineItems + units;
      T.Snoc(h, o);
    }

    method CountPlace(o: Order, ghost h: seq<Order>)
      requires Places(h)
      modifies `stateCount, `stateRevenue, `zipCount, `zipRevenue, `zipMeta
      ensures Places(h + [o])
    {
      hide T.Tally, T.Collect, T.FirstWins, T.SetNX, IncrBy;
      var state, zip, city := o.shipTo.state, o.shipTo.zip, o.shipTo.city;
      TallyGrowsByOne(h, o, StateCount, state, 1);
      TallyGrowsByOne(h, o, StateRevenue, state, o.total);
      TallyGrowsByOne(h, o, ZipCount, zip, 1);
      TallyGrowsByOne(h, o, ZipRevenue, zip, o.total);
      FirstWinsGrows(h, o, ZipMetas);
      if state != "" {
        stateCount := IncrBy(stateCount, state, 1);
        stateRevenue := IncrBy(stateRevenue, state, o.total);
      }
      if zip != "" {
        zipCount := IncrBy(zipCount, zip, 1);
        zipRevenue := IncrBy(zipRevenue, zip, o.total);
        if city != "" {
          zipMeta := T.SetNX(zipMeta, zip, ZipMeta(city, state));
        }
      }
    }

    method CountItems(o: Order, ghost h: seq<Order>)
      requires Products(h)
      modifies `productUnits, `productRevenue, `categoryUnits, `categoryRevenue, `productMeta
      ensures Products(h + [o])
    {
      hide T.Collect, T.Bump, T.Tally, T.FirstWins, T.SetNX, IncrBy;
      ghost var metas := T.Collect(h, ProductMetas);
      NoItems(o.items, metas);
      for i := 0 to |o.items|
        invariant productUnits == T.Bump(old(productUnits), T.Collect(o.items[..i], ItemSkuUnits))
        invariant productRevenue == T.Bump(old(productRevenue), T.Collect(o.items[..i], ItemSkuRevenue))
        invariant categoryUnits == T.Bump(old(categoryUnits), T.Collect(o.items[..i], ItemCategoryUnits))
        invariant categoryRevenue == T.Bump(old(categoryRevenue), T.Collect(o.items[..i], ItemCategoryRevenue))
        invariant productMeta == T.FirstWins(metas + T.Collect(o.items[..i], ItemMeta))
      {
        var li := o.items[i];
        var sku, cat := li.product.sku, li.product.category;
        CountOneItem(old(productUnits), o.items, i, ItemSkuUnits, sku, li.quantity);
        CountOneItem(old(productRevenue), o.items, i, ItemSkuRevenue, sku, li.subtotal);
        CountOneItem(old(categoryUnits), o.items, i, ItemCategoryUnits, cat, li.quantity);
        CountOneItem(old(categoryRevenue), o.items, i, ItemCategoryRevenue, cat, li.subtotal);
        NoteOneItem(metas, o.items, i);
        if sku != "" {
          productUnits := IncrBy(productUnits, sku, li.quantity);
          productRevenue := IncrBy(productRevenue, sku, li.subtotal);
          productMeta := T.SetNX(productMeta, sku, ProductMeta(li.product.name, cat));
        }
        if cat != "" {
          categoryUnits := IncrBy(categoryUnits, cat, li.quantity);
          categoryRevenue := IncrBy(categoryRevenue, cat, li.subtotal);
        }
      }
      assert o.items[..|o.items|] == o.items;
      T.TallyGrows(h, o, ProductUnits);
      T.TallyGrows(h, o, ProductRevenue);
      T.TallyGrows(h, o, CategoryUnits);
      T.TallyGrows(h, o, CategoryRevenue);
      T.CollectSnoc(h, o, ProductMetas);
    }

    method CountHour(o: Order, ghost h: seq<Order>, ghost at: seq<int>)
      requires |at| == |h| && HoursMatch(hours, h, at, now)
      modifies `hours
      ensures HoursMatch(hours, h + [o], at + [now], now)
    {
      HoursKeptByApply(hours, h, at, now, o);
      hours := BumpHour(hours, HourOf(o.createdAt), o.total, now);
    }

    method CountHistograms(o: Order, ghost h: seq<Order>, units: int)
      requires Histograms(h) && units == Units(o)
      modifies `valueBuckets, `cartSizes, `hourOfDayCount, `hourOfDayRevenue, `dayOfWeekCount, `dayOfWeekRevenue
      ensures Histograms(h + [o])
    {
      hide T.Tally, T.Collect, T.Sum, IncrBy;
      var hour, day := HourOfDayLabel(o.createdAt), DayOfWeekLabel(o.createdAt);
      TallyGrowsByOne(h, o, ValueBucket, ValueBucketLabel(o.total), 1);
      TallyGrowsByOne(h, o, CartSizeBucket, CartSizeBucketLabel(units), 1);
      TallyGrowsByOne(h, o, HourOfDayCount, hour, 1);
      TallyGrowsByOne(h, o, HourOfDayRevenue, hour, o.total);
      TallyGrowsByOne(h, o, DayOfWeekCount, day, 1);
      TallyGrowsByOne(h, o, DayOfWeekRevenue, day, o.total);
      valueBuckets := IncrBy(valueBuckets, ValueBucketLabel(o.total), 1);
      cartSizes := IncrBy(cartSizes, CartSizeBucketLabel(units), 1);
      hourOfDayCount := IncrBy(hourOfDayCount, hour, 1);
      hourOfDayRevenue := IncrBy(hourOfDayRevenue, hour, o.total);
      dayOfWeekCount := IncrBy(dayOfWeekCount, day, 1);
      dayOfWeekRevenue := IncrBy(dayOfWeekRevenue, day, o.total);
    }

    method RankSnapshot(o: Order, ghost h: seq<Order>, member: string, units: int, maxItem: int)
      requires ScoreFaithful(encode) && TopLists(h)
      requires member == encode(SnapshotOf(o)) && units == Units(o) && maxItem == MaxItem(o.items)
      modifies `topByTotal, `topByLineItems, `topByMaxItem
      ensures TopLists(h + [o])
    {
      LeaderboardStep(h, o, encode, TotalScore, TOP_ORDERS_LIMIT);
      LeaderboardStep(h, o, encode, UnitsScore, TOP_ORDERS_LIMIT);
      LeaderboardStep(h, o, encode, MaxItemScore, TOP_ORDERS_LIMIT);
      var trimLow := -(TOP_ORDERS_LIMIT + 1);
      topByTotal := topByTotal[member := o.total];
      topByTotal := RemRangeByRank(topByTotal, 0, trimLow);
      topByLineItems := topByLineItems[member := units];
      topByLineItems := RemRangeByRank(topByLineItems, 0, trimLow);
      topByMaxItem := topByMaxItem[member := maxItem];
      topByMaxItem := RemRangeByRank(topByMaxItem, 0, trimLow);
    }

    method CountCustomer(o: Order, ghost h: seq<Order>)
      requires CustomerTables(h)
      modifies `customerSpend, `customerOrders, `customerMeta
      ensures CustomerTables(h + [o])
    {
      hide T.Tally, T.Collect, T.FirstWins, T.SetNX, IncrBy;
      var id := o.customer.id;
      TallyGrowsByOne(h, o, CustomerSpend, id, o.total);
      TallyGrowsByOne(h, o, CustomerOrders, id, 1);
      FirstWinsGrows(h, o, CustomerMetas);
      if id != "" {
        customerSpend := IncrBy(customerSpend, id, o.total);
        customerOrders := IncrBy(customerOrders, id, 1);
        if o.customer.name != "" {
          customerMeta := T.SetNX(customerMeta, id, CustomerMeta(o.customer.name, o.customer.email));
        }
      }
    }

    method CountPairs(o: Order, ghost h: seq<Order>)
      requires topPairs == PairsAfter(h)
      modifies `topPairs
      ensures topPairs == PairsAfter(h + [o])
    {
      hide T.Bump, PairsBefore, RowPairs, IncrBy, PairsAfter, RemRangeByRank;
      var n := |o.items|;
      NoPairs(old(topPairs), o.items);
      for i := 0 to n
        invariant topPairs == T.Bump(old(topPairs), PairsBefore(o.items, i))
      {
        RowBounds(o.items, i);
        for j := i + 1 to n
          invariant topPairs == T.Bump(old(topPairs), PairsBefore(o.items, i) + RowPairs(o.items, i, j))
        {
          CountOnePair(old(topPairs), o.items, i, j);
          var a, b := o.items[i].product.sku, o.items[j].product.sku;
          if a != "" && b != "" && a != b {
            if Lex.Less(b, a) { a, b := b, a; }
            Lex.Irreflexive(a);
            assert a + "|" + b == PairKey(o.items[i].product.sku, o.items[j].product.sku);
            topPairs := IncrBy(topPairs, a + "|" + b, 1);
          }
        }
      }
      topPairs := RemRangeByRank(topPairs, 0, -(TOP_PAIRS_LIMIT + 1));
      PairsAfterOne(h, o);
    }

    method SplitNewAndReturning(o: Order, ghost h: seq<Order>)
      requires NewAndReturning(h)
      modifies `seen, `ordersNew, `ordersReturning, `revenueNew, `revenueReturning
      ensures NewAndReturning(h + [o])
    {
      hide Seen, FirstSpend, T.Sum;
      SeenSnoc(h, o);
      var id := o.customer.id;
      if id != "" {
        var isNew := id !in seen;
        seen := seen + {id};
        if isNew {
          ordersNew := ordersNew + 1;
          revenueNew := revenueNew + o.total;
        } else {
          ordersReturning := ordersReturning + 1;
          revenueReturning := revenueReturning + o.total;
        }
      }
    }
  }

  lemma NoItems(items: seq<LineItem>, metas: seq<(string, ProductMeta)>)
    ensures forall f: LineItem -> seq<T.Event>, z :: T.Bump(z, T.Collect(items[..0], f)) == z
    ensures metas + T.Collect(items[..0], ItemMeta) == metas
  {}

  lemma CountOneItem(z: ZSet, items: seq<LineItem>, i: nat, f: LineItem -> seq<T.Event>, key: string, amount: int)
    requires i < |items| && f(items[i]) == One(key, amount)
    ensures var counted := T.Bump(z, T.Collect(items[..i], f));
            T.Bump(z, T.Collect(items[..i + 1], f)) == if key == "" then counted else IncrBy(counted, key, amount)
  {
    assert items[..i + 1] == items[..i] + [items[i]];
    T.CollectSnoc(items[..i], items[i], f);
    T.BumpAppend(z, T.Collect(items[..i], f), f(items[i]));
    BumpOne(T.Bump(z, T.Collect(items[..i], f)), key, amount);
  }

  lemma NoteOneItem(metas: seq<(string, ProductMeta)>, items: seq<LineItem>, i: nat)
    requires i < |items|
    ensures var noted := T.FirstWins(metas + T.Collect(items[..i], ItemMeta));
            var p := items[i].product;
            T.FirstWins(metas + T.Collect(items[..i + 1], ItemMeta))
            == if p.sku == "" then noted else T.SetNX(noted, p.sku, ProductMeta(p.name, p.category))
  {
    assert items[..i + 1] == items[..i] + [items[i]];
    T.CollectSnoc(items[..i], items[i], ItemMeta);
    var es := metas + T.Collect(items[..i], ItemMeta);
    if ItemMeta(items[i]) == [] {
      assert metas + T.Collect(items[..i + 1], ItemMeta) == es;
    } else {
      assert metas + T.Collect(items[..i + 1], ItemMeta) == es + [ItemMeta(items[i])[0]];
      T.FirstWinsSnoc(es, ItemMeta(items[i])[0]);
    }
  }
}
