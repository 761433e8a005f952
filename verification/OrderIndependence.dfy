/**
  Concurrent workers may apply orders in any order, and the queue may deliver one twice.

  Two stores that applied the same multiset of orders agree on every aggregate except first-wins
  metadata, the revenue split between new and returning customers, the capped pair table once it
  overflows, and the expiry instants; examples show that each of the first three really can differ.
*/
module OrderIndependence {
  import opened Orders
  import opened Leaderboards
  import opened Customers
  import opened Hours
  import opened PairTable
  import opened Store
  import T = Tallies

  lemma SameElements<E>(g: seq<E>, h: seq<E>)
    requires multiset(g) == multiset(h)
    ensures |g| == |h|
    ensures forall o :: o in g <==> o in h
  {
    assert |multiset(g)| == |g| && |multiset(h)| == |h|;
    assert forall o :: o in g <==> o in multiset(g);
    assert forall o :: o in h <==> o in multiset(h);
  }

  /** Counters, histograms and every tallied table. */
  lemma SameTables(s: Store, t: Store)
    requires s.Valid() && t.Valid() && multiset(s.history) == multiset(t.history)
    ensures s.ordersCount == t.ordersCount && s.revenue == t.revenue && s.tax == t.tax
    ensures s.shipping == t.shipping && s.lineItems == t.lineItems
    ensures s.stateCount == t.stateCount && s.stateRevenue == t.stateRevenue
    ensures s.zipCount == t.zipCount && s.zipRevenue == t.zipRevenue
    ensures s.productUnits == t.productUnits && s.productRevenue == t.productRevenue
    ensures s.categoryUnits == t.categoryUnits && s.categoryRevenue == t.categoryRevenue
    ensures s.valueBuckets == t.valueBuckets && s.cartSizes == t.cartSizes
    ensures s.hourOfDayCount == t.hourOfDayCount && s.hourOfDayRevenue == t.hourOfDayRevenue
    ensures s.dayOfWeekCount == t.dayOfWeekCount && s.dayOfWeekRevenue == t.dayOfWeekRevenue
    ensures s.customerSpend == t.customerSpend && s.customerOrders == t.customerOrders
  {
    hide T.Sum, T.Tally, T.Collect;
    var g, h := s.history, t.history;
    SameElements(g, h);
    T.SumPermutes(g, h, Total);
    T.SumPermutes(g, h, Tax);
    T.SumPermutes(g, h, Shipping);
    T.SumPermutes(g, h, Units);
    T.TallyPermutes(g, h, StateCount);
    T.TallyPermutes(g, h, StateRevenue);
    T.TallyPermutes(g, h, ZipCount);
    T.TallyPermutes(g, h, ZipRevenue);
    T.TallyPermutes(g, h, ProductUnits);
    T.TallyPermutes(g, h, ProductRevenue);
    T.TallyPermutes(g, h, CategoryUnits);
    T.TallyPermutes(g, h, CategoryRevenue);
    T.TallyPermutes(g, h, ValueBucket);
    T.TallyPermutes(g, h, CartSizeBucket);
    T.TallyPermutes(g, h, HourOfDayCount);
    T.TallyPermutes(g, h, HourOfDayRevenue);
    T.TallyPermutes(g, h, DayOfWeekCount);
    T.TallyPermutes(g, h, DayOfWeekRevenue);
    T.TallyPermutes(g, h, CustomerSpend);
    T.TallyPermutes(g, h, CustomerOrders);
  }

  lemma SameSeen(g: seq<Order>, h: seq<Order>)
    requires forall o :: o in g <==> o in h
    ensures Seen(g) == Seen(h)
  {}

  /** The seen set and the counts of new and returning orders. */
  lemma SameCustomers(s: Store, t: Store)
    requires s.Valid() && t.Valid() && multiset(s.history) == multiset(t.history)
    ensures s.seen == t.seen && s.ordersNew == t.ordersNew && s.ordersReturning == t.ordersReturning
    ensures s.revenueNew + s.revenueReturning == t.revenueNew + t.revenueReturning
  {
    SameElements(s.history, t.history);
    SameSeen(s.history, t.history);
    T.SumPermutes(s.history, t.history, NamedOrder);
    T.SumPermutes(s.history, t.history, NamedSpend);
  }

  /**
    The leaderboards need even less: the same orders, in any order and any number of deliveries
    of each.
  */
  lemma SameLeaderboards(s: Store, t: Store)
    requires s.Valid() && t.Valid() && s.encode == t.encode
    requires forall o :: o in s.history <==> o in t.history
    ensures s.topByTotal == t.topByTotal
    ensures s.topByLineItems == t.topByLineItems
    ensures s.topByMaxItem == t.topByMaxItem
  {
    BoardOfSameOrders(s.history, t.history, s.encode, TotalScore);
    BoardOfSameOrders(s.history, t.history, s.encode, UnitsScore);
    BoardOfSameOrders(s.history, t.history, s.encode, MaxItemScore);
  }

  /** The pair table too, as long as at most 200 distinct pairs were ever seen. */
  lemma SamePairs(s: Store, t: Store)
    requires s.Valid() && t.Valid() && multiset(s.history) == multiset(t.history)
    requires |T.Keys(T.Collect(s.history, Pairs))| <= 200
    ensures s.topPairs == t.topPairs
  {
    hide T.Tally, T.Collect, PairsAfter;
    SamePairTables(s.history, t.history);
  }

  lemma SamePairTables(g: seq<Order>, h: seq<Order>)
    requires multiset(g) == multiset(h) && |T.Keys(T.Collect(g, Pairs))| <= 200
    ensures PairsAfter(g) == PairsAfter(h)
  {
    hide PairsAfter, Pairs, T.Collect, T.Amount;
    T.TallyPermutes(g, h, Pairs);
    var a, b := T.Tally(T.Collect(g, Pairs)), T.Tally(T.Collect(h, Pairs));
    assert a.Keys == T.Keys(T.Collect(g, Pairs)) && b.Keys == T.Keys(T.Collect(h, Pairs));
    ExactWhileFewPairs(g);
    ExactWhileFewPairs(h);
  }

  lemma SameHour(g: seq<Order>, h: seq<Order>, hour: int)
    requires multiset(g) == multiset(h)
    ensures OrdersIn(g, hour) == OrdersIn(h, hour) && RevenueIn(g, hour) == RevenueIn(h, hour)
  {
    T.SumPermutes(g, h, (o: Order) => if HourOf(o.createdAt) == hour then 1 else 0);
    T.SumPermutes(g, h, (o: Order) => if HourOf(o.createdAt) == hour then o.total else 0);
  }

  /** They also read the same for an hour that neither store ever lost, as with punctual orders. */
  lemma SameTimeseries(s: Store, t: Store, hour: int)
    requires s.Valid() && t.Valid() && multiset(s.history) == multiset(t.history)
    requires Unbroken(ArrivalsIn(s.history, s.arrivals, hour), s.now)
    requires Unbroken(ArrivalsIn(t.history, t.arrivals, hour), t.now)
    ensures ReadHour(s.hours, hour) == ReadHour(t.hours, hour)
  {
    SameHour(s.history, t.history, hour);
    forall u | u == s || u == t
      ensures ReadsExact(u.hours, u.history, hour)
    {
      ExactIffUnbroken(u.history, u.arrivals, hour, u.now);
    }
  }

  // --- what does depend on the order ---

  function OrderOf(customer: string, name: string, total: int): Order {
    Order("", Customer(customer, name, "", ""), Address("", "", "", "", ""), [], 0, 0, 0, total, 0)
  }

  /** Whichever of a customer's two orders comes first counts as the new one. */
  lemma RevenueSplitDependsOnOrder()
    ensures var small, large := OrderOf("c", "n", 1), OrderOf("c", "n", 2);
            FirstSpend([small, large]) != FirstSpend([large, small])
  {
    var small, large := OrderOf("c", "n", 1), OrderOf("c", "n", 2);
    FirstOfTwo(small, large);
    FirstOfTwo(large, small);
  }

  lemma FirstOfTwo(a: Order, b: Order)
    requires a.customer.id == b.customer.id != ""
    ensures FirstSpend([a, b]) == a.total
  {
    assert [] + [a] == [a] && [a] + [b] == [a, b];
    SeenSnoc([], a);
    SeenSnoc([a], b);
  }

  /** Whichever order names a customer first decides the stored name. */
  lemma MetadataDependsOnOrder()
    ensures var a, b := OrderOf("c", "x", 1), OrderOf("c", "y", 1);
            T.FirstWins(T.Collect([a, b], CustomerMetas)) != T.FirstWins(T.Collect([b, a], CustomerMetas))
  {
    var a, b := OrderOf("c", "x", 1), OrderOf("c", "y", 1);
    FirstNameOfTwo(a, b);
    FirstNameOfTwo(b, a);
  }

  lemma FirstNameOfTwo(a: Order, b: Order)
    requires a.customer.id == b.customer.id != "" && a.customer.name != "" && b.customer.name != ""
    ensures T.FirstWins(T.Collect([a, b], CustomerMetas))
            == map[a.customer.id := CustomerMeta(a.customer.name, a.customer.email)]
  {
    assert [] + [a] == [a] && [a] + [b] == [a, b];
    FirstWinsGrows([], a, CustomerMetas);
    FirstWinsGrows([a], b, CustomerMetas);
  }
}
