/**
  What is counted once in one place is counted once in every other: the same cents and the same
  orders, whichever structure they are read from.
*/
module Conservation {
  import opened SortedSets
  import opened Orders
  import opened Customers
  import opened Store
  import T = Tallies

  lemma GrandOfOne(key: string, amount: int)
    ensures T.Grand(One(key, amount)) == if key == "" then 0 else amount
  {
    T.SumSnoc([], T.Event(key, amount), (e: T.Event) => e.amount);
    if key != "" {
      assert One(key, amount) == [] + [T.Event(key, amount)];
    }
  }

  /** A histogram that files every order under a non-empty label adds up to the whole history. */
  lemma HistogramTotal(h: seq<Order>, f: Order -> seq<T.Event>, key: Order -> string, amount: Order -> int)
    requires forall o | o in h :: key(o) != "" && f(o) == One(key(o), amount(o))
    ensures T.Total(T.Tally(T.Collect(h, f))) == T.Sum(h, amount)
  {
    hide T.Sum, T.Grand;
    forall o | o in h
      ensures T.Grand(f(o)) == amount(o)
    {
      GrandOfOne(key(o), amount(o));
    }
    T.TotalOfHistory(h, f, amount);
  }

  lemma {:induction false} SumOfOnes(h: seq<Order>)
    ensures T.Sum(h, o => 1) == |h|
  {
    if h != [] {
      SumOfOnes(h[..|h| - 1]);
    }
  }

  /** Every order is counted once in each histogram, and its cents once in each heatmap. */
  lemma HistogramsConserve(s: Store)
    requires s.Valid()
    ensures s.ordersCount == T.Total(s.valueBuckets) == T.Total(s.cartSizes)
    ensures s.ordersCount == T.Total(s.hourOfDayCount) == T.Total(s.dayOfWeekCount)
    ensures s.revenue == T.Total(s.hourOfDayRevenue) == T.Total(s.dayOfWeekRevenue)
  {
    hide T.Sum, T.Tally, T.Collect, T.Total, ValueBucketLabel, CartSizeBucketLabel, Units;
    var h := s.history;
    LabelsAreNotEmpty(h);
    HistogramTotal(h, ValueBucket, (o: Order) => ValueBucketLabel(o.total), o => 1);
    HistogramTotal(h, CartSizeBucket, (o: Order) => CartSizeBucketLabel(Units(o)), o => 1);
    HistogramTotal(h, HourOfDayCount, (o: Order) => HourOfDayLabel(o.createdAt), o => 1);
    HistogramTotal(h, DayOfWeekCount, (o: Order) => DayOfWeekLabel(o.createdAt), o => 1);
    HistogramTotal(h, HourOfDayRevenue, (o: Order) => HourOfDayLabel(o.createdAt), Total);
    HistogramTotal(h, DayOfWeekRevenue, (o: Order) => DayOfWeekLabel(o.createdAt), Total);
    SumOfOnes(h);
  }

  lemma LabelsAreNotEmpty(h: seq<Order>)
    ensures forall o | o in h ::
              && ValueBucketLabel(o.total) != "" && CartSizeBucketLabel(Units(o)) != ""
              && HourOfDayLabel(o.createdAt) != "" && DayOfWeekLabel(o.createdAt) != ""
  {}

  /** The customers ever seen are exactly the members of both customer tables. */
  lemma CustomersAreSeen(h: seq<Order>, f: Order -> seq<T.Event>, amount: Order -> int)
    requires forall o | o in h :: f(o) == One(o.customer.id, amount(o))
    ensures T.Keys(T.Collect(h, f)) == Seen(h)
  {
    forall id
      ensures id in T.Keys(T.Collect(h, f)) <==> id in Seen(h)
    {
      if id in T.Keys(T.Collect(h, f)) {
        var e :| e in T.Collect(h, f) && e.key == id;
        T.InCollect(h, f, e);
      }
      if id in Seen(h) {
        var o :| o in h && o.customer.id == id && id != "";
        T.InCollect(h, f, T.Event(id, amount(o)));
        assert T.Event(id, amount(o)) in f(o);
        assert T.Event(id, amount(o)).key in T.Keys(T.Collect(h, f));
      }
    }
  }

  /** New orders are the distinct customers; new and returning together are all that customers did. */
  lemma CustomersConserve(s: Store)
    requires s.Valid()
    ensures s.ordersNew == |s.seen| == |s.customerOrders| == |s.customerSpend|
    ensures s.seen == s.customerOrders.Keys == s.customerSpend.Keys
    ensures s.ordersNew + s.ordersReturning == T.Total(s.customerOrders)
    ensures s.revenueNew + s.revenueReturning == T.Total(s.customerSpend)
  {
    hide T.Sum, T.Collect, T.Total, T.Keys, T.Amount, T.Grand, Seen;
    var h := s.history;
    CustomersAreSeen(h, CustomerOrders, o => 1);
    CustomersAreSeen(h, CustomerSpend, Total);
    assert s.customerOrders.Keys == s.seen && s.customerSpend.Keys == s.seen;
    forall o | o in h
      ensures T.Grand(CustomerOrders(o)) == NamedOrder(o) && T.Grand(CustomerSpend(o)) == NamedSpend(o)
    {
      GrandOfOne(o.customer.id, 1);
      GrandOfOne(o.customer.id, o.total);
    }
    T.TotalOfHistory(h, CustomerOrders, NamedOrder);
    T.TotalOfHistory(h, CustomerSpend, NamedSpend);
  }

  // --- orders whose arithmetic adds up ---

  /** What the writer's arithmetic promises of an order. */
  predicate AddsUp(o: Order) {
    && o.total == o.subtotal + o.tax + o.shipping
    && o.subtotal == T.Sum(o.items, (li: LineItem) => li.subtotal)
    && forall li | li in o.items :: li.product.sku != "" && li.product.category != ""
  }

  lemma ItemsTotal(items: seq<LineItem>, f: LineItem -> seq<T.Event>,
                   key: LineItem -> string, amount: LineItem -> int)
    requires forall li | li in items :: key(li) != "" && f(li) == One(key(li), amount(li))
    ensures T.Grand(T.Collect(items, f)) == T.Sum(items, amount)
  {
    forall li | li in items
      ensures T.Grand(f(li)) == amount(li)
    {
      GrandOfOne(key(li), amount(li));
    }
    T.GrandTotal(items, f, amount);
  }

  function Subtotal(o: Order): int { o.subtotal }

  lemma OrderAddsUp(o: Order)
    requires AddsUp(o)
    ensures T.Grand(ProductRevenue(o)) == o.subtotal == T.Grand(CategoryRevenue(o))
    ensures T.Grand(ProductUnits(o)) == Units(o) == T.Grand(CategoryUnits(o))
  {
    hide T.Sum, T.Collect, T.Grand;
    ItemsTotal(o.items, ItemSkuRevenue, (li: LineItem) => li.product.sku, (li: LineItem) => li.subtotal);
    ItemsTotal(o.items, ItemCategoryRevenue, (li: LineItem) => li.product.category, (li: LineItem) => li.subtotal);
    ItemsTotal(o.items, ItemSkuUnits, (li: LineItem) => li.product.sku, (li: LineItem) => li.quantity);
    ItemsTotal(o.items, ItemCategoryUnits, (li: LineItem) => li.product.category, (li: LineItem) => li.quantity);
  }

  lemma {:induction false} TotalsAddUp(h: seq<Order>)
    requires forall o | o in h :: AddsUp(o)
    ensures T.Sum(h, Total) == T.Sum(h, Subtotal) + T.Sum(h, Tax) + T.Sum(h, Shipping)
  {
    if h != [] {
      var n := |h| - 1;
      assert h[n] in h && forall o | o in h[..n] :: o in h;
      TotalsAddUp(h[..n]);
    }
  }

  /** Revenue is what the products brought in plus tax and shipping, and so for units and categories. */
  lemma ProductsConserve(s: Store)
    requires s.Valid() && forall o | o in s.history :: AddsUp(o)
    ensures s.revenue == T.Total(s.productRevenue) + s.tax + s.shipping
    ensures T.Total(s.categoryRevenue) == T.Total(s.productRevenue)
    ensures s.lineItems == T.Total(s.productUnits) == T.Total(s.categoryUnits)
  {
    hide T.Sum, T.Collect, T.Total, T.Tally, T.Grand, AddsUp, Units;
    var h := s.history;
    forall o | o in h
      ensures T.Grand(ProductRevenue(o)) == Subtotal(o) == T.Grand(CategoryRevenue(o))
      ensures T.Grand(ProductUnits(o)) == Units(o) == T.Grand(CategoryUnits(o))
    {
      OrderAddsUp(o);
    }
    T.TotalOfHistory(h, ProductRevenue, Subtotal);
    T.TotalOfHistory(h, CategoryRevenue, Subtotal);
    T.TotalOfHistory(h, ProductUnits, Units);
    T.TotalOfHistory(h, CategoryUnits, Units);
    TotalsAddUp(h);
  }
}
