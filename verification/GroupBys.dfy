/**
  What the store holds, spelled out in the fields of the orders: which field each counter adds up,
  which one each table groups by, and whose data first-wins metadata keeps.
*/
module GroupBys {
  import opened SortedSets
  import opened Orders
  import opened Customers
  import opened Hours
  import opened Store
  import opened CatalogFacts
  import T = Tallies

  /** The counters. */
  lemma CountersAreSums(s: Store)
    requires s.Valid()
    ensures s.ordersCount == |s.history|
    ensures s.revenue == T.Sum(s.history, (o: Order) => o.total)
    ensures s.tax == T.Sum(s.history, (o: Order) => o.tax)
    ensures s.shipping == T.Sum(s.history, (o: Order) => o.shipping)
    ensures s.lineItems == T.Sum(s.history, (o: Order) => T.Sum(o.items, (li: LineItem) => li.quantity))
  {
    T.SumEqual(s.history, Total, (o: Order) => o.total);
    T.SumEqual(s.history, Tax, (o: Order) => o.tax);
    T.SumEqual(s.history, Shipping, (o: Order) => o.shipping);
    T.SumEqual(s.history, Units, (o: Order) => T.Sum(o.items, (li: LineItem) => li.quantity));
  }

  /** A table fed by one increment per element groups the elements by their key. */
  lemma ScoreIsGroup<E(!new)>(h: seq<E>, f: E -> seq<T.Event>, key: E -> string, amount: E -> int, g: E -> int,
                              k: string)
    requires k != "" && forall x :: f(x) == One(key(x), amount(x))
    requires forall x | x in h :: g(x) == if key(x) == k then amount(x) else 0
    ensures Score(T.Tally(T.Collect(h, f)), k) == T.Sum(h, g)
    ensures k in T.Tally(T.Collect(h, f)) <==> exists x :: x in h && key(x) == k
  {
    hide T.Amount, T.Collect, T.Sum;
    forall x | x in h
      ensures T.Amount(f(x), k) == g(x)
    {
      AmountOfOneItem(key(x), amount(x), k);
    }
    T.AmountTotal(h, f, g, k);
    ScoreOfTally(T.Collect(h, f), k);
    KeyIsGrouped(h, f, key, amount, k);
  }

  lemma KeyIsGrouped<E(!new)>(h: seq<E>, f: E -> seq<T.Event>, key: E -> string, amount: E -> int, k: string)
    requires k != "" && forall x :: f(x) == One(key(x), amount(x))
    ensures k in T.Keys(T.Collect(h, f)) <==> exists x :: x in h && key(x) == k
  {
    hide T.Collect;
    if k in T.Keys(T.Collect(h, f)) {
      var e :| e in T.Collect(h, f) && e.key == k;
      T.InCollect(h, f, e);
    }
    if x :| x in h && key(x) == k {
      var e := T.Event(k, amount(x));
      assert e in f(x);
      T.InCollect(h, f, e);
      assert e.key in T.Keys(T.Collect(h, f));
    }
  }

  /** No table has a row for the empty text. */
  lemma NoEmptyKey<E(!new)>(h: seq<E>, f: E -> seq<T.Event>, key: E -> string, amount: E -> int)
    requires forall x :: f(x) == One(key(x), amount(x))
    ensures "" !in T.Tally(T.Collect(h, f))
  {
    hide T.Collect;
    if "" in T.Keys(T.Collect(h, f)) {
      var e :| e in T.Collect(h, f) && e.key == "";
      T.InCollect(h, f, e);
    }
  }

  /** Where orders were shipped: counts and cents per state and per zip code. */
  lemma PlacesAreGrouped(s: Store, k: string)
    requires s.Valid() && k != ""
    ensures Score(s.stateCount, k) == T.Sum(s.history, (o: Order) => if o.shipTo.state == k then 1 else 0)
    ensures Score(s.stateRevenue, k) == T.Sum(s.history, (o: Order) => if o.shipTo.state == k then o.total else 0)
    ensures Score(s.zipCount, k) == T.Sum(s.history, (o: Order) => if o.shipTo.zip == k then 1 else 0)
    ensures Score(s.zipRevenue, k) == T.Sum(s.history, (o: Order) => if o.shipTo.zip == k then o.total else 0)
    ensures k in s.stateCount <==> exists o :: o in s.history && o.shipTo.state == k
    ensures k in s.zipCount <==> exists o :: o in s.history && o.shipTo.zip == k
    ensures s.stateCount.Keys == s.stateRevenue.Keys && s.zipCount.Keys == s.zipRevenue.Keys
  {
    hide T.Sum, T.Tally, T.Collect, Score;
    var h := s.history;
    StatesAreGrouped(h, k);
    ZipsAreGrouped(h, k);
    SameRows(h, StateCount, StateRevenue, (o: Order) => o.shipTo.state, (o: Order) => 1, (o: Order) => o.total);
    SameRows(h, ZipCount, ZipRevenue, (o: Order) => o.shipTo.zip, (o: Order) => 1, (o: Order) => o.total);
  }

  lemma StatesAreGrouped(h: seq<Order>, k: string)
    requires k != ""
    ensures Score(T.Tally(T.Collect(h, StateCount)), k)
            == T.Sum(h, (o: Order) => if o.shipTo.state == k then 1 else 0)
    ensures Score(T.Tally(T.Collect(h, StateRevenue)), k)
            == T.Sum(h, (o: Order) => if o.shipTo.state == k then o.total else 0)
    ensures k in T.Tally(T.Collect(h, StateCount)) <==> exists o :: o in h && o.shipTo.state == k
  {
    hide T.Sum, T.Tally, T.Collect, Score;
    var key := (o: Order) => o.shipTo.state;
    ScoreIsGroup(h, StateCount, key, o => 1, (o: Order) => if o.shipTo.state == k then 1 else 0, k);
    ScoreIsGroup(h, StateRevenue, key, (o: Order) => o.total,
                 (o: Order) => if o.shipTo.state == k then o.total else 0, k);
  }

  lemma ZipsAreGrouped(h: seq<Order>, k: string)
    requires k != ""
    ensures Score(T.Tally(T.Collect(h, ZipCount)), k) == T.Sum(h, (o: Order) => if o.shipTo.zip == k then 1 else 0)
    ensures Score(T.Tally(T.Collect(h, ZipRevenue)), k)
            == T.Sum(h, (o: Order) => if o.shipTo.zip == k then o.total else 0)
    ensures k in T.Tally(T.Collect(h, ZipCount)) <==> exists o :: o in h && o.shipTo.zip == k
  {
    hide T.Sum, T.Tally, T.Collect, Score;
    var key := (o: Order) => o.shipTo.zip;
    ScoreIsGroup(h, ZipCount, key, o => 1, (o: Order) => if o.shipTo.zip == k then 1 else 0, k);
    ScoreIsGroup(h, ZipRevenue, key, (o: Order) => o.total,
                 (o: Order) => if o.shipTo.zip == k then o.total else 0, k);
  }

  lemma SameRows<E(!new)>(h: seq<E>, f: E -> seq<T.Event>, g: E -> seq<T.Event>, key: E -> string,
                          a: E -> int, b: E -> int)
    requires forall x :: f(x) == One(key(x), a(x)) && g(x) == One(key(x), b(x))
    ensures T.Tally(T.Collect(h, f)).Keys == T.Tally(T.Collect(h, g)).Keys
  {
    hide T.Collect;
    forall k
      ensures k in T.Tally(T.Collect(h, f)) <==> k in T.Tally(T.Collect(h, g))
    {
      if k == "" {
        NoEmptyKey(h, f, key, a);
        NoEmptyKey(h, g, key, b);
      } else {
        KeyIsGrouped(h, f, key, a, k);
        KeyIsGrouped(h, g, key, b, k);
      }
    }
  }

  /** What customers ordered and spent. */
  lemma CustomersAreGrouped(s: Store, k: string)
    requires s.Valid() && k != ""
    ensures Score(s.customerOrders, k) == T.Sum(s.history, (o: Order) => if o.customer.id == k then 1 else 0)
    ensures Score(s.customerSpend, k) == T.Sum(s.history, (o: Order) => if o.customer.id == k then o.total else 0)
    ensures k in s.customerOrders <==> exists o :: o in s.history && o.customer.id == k
  {
    hide T.Sum, T.Tally, T.Collect, Score;
    var h := s.history;
    var key := (o: Order) => o.customer.id;
    ScoreIsGroup(h, CustomerOrders, key, o => 1, (o: Order) => if o.customer.id == k then 1 else 0, k);
    ScoreIsGroup(h, CustomerSpend, key, (o: Order) => o.total,
                 (o: Order) => if o.customer.id == k then o.total else 0, k);
  }

  /** What was sold: quantities and cents per SKU and per category, over all line items. */
  lemma ProductsAreGrouped(s: Store, k: string)
    requires s.Valid() && k != ""
    ensures var items := ItemsOf(s.history);
            && Score(s.productUnits, k)
               == T.Sum(items, (li: LineItem) => if li.product.sku == k then li.quantity else 0)
            && Score(s.productRevenue, k)
               == T.Sum(items, (li: LineItem) => if li.product.sku == k then li.subtotal else 0)
            && Score(s.categoryUnits, k)
               == T.Sum(items, (li: LineItem) => if li.product.category == k then li.quantity else 0)
            && Score(s.categoryRevenue, k)
               == T.Sum(items, (li: LineItem) => if li.product.category == k then li.subtotal else 0)
  {
    hide T.Sum, T.Tally, T.Collect, Score, ItemsOf;
    var items := ItemsOf(s.history);
    CollectItems(s.history, ItemSkuUnits, ProductUnits);
    CollectItems(s.history, ItemSkuRevenue, ProductRevenue);
    CollectItems(s.history, ItemCategoryUnits, CategoryUnits);
    CollectItems(s.history, ItemCategoryRevenue, CategoryRevenue);
    SkusAreGrouped(items, k);
    CategoriesAreGrouped(items, k);
  }

  lemma SkusAreGrouped(items: seq<LineItem>, k: string)
    requires k != ""
    ensures Score(T.Tally(T.Collect(items, ItemSkuUnits)), k)
            == T.Sum(items, (li: LineItem) => if li.product.sku == k then li.quantity else 0)
    ensures Score(T.Tally(T.Collect(items, ItemSkuRevenue)), k)
            == T.Sum(items, (li: LineItem) => if li.product.sku == k then li.subtotal else 0)
  {
    hide T.Sum, T.Tally, T.Collect, Score;
    var key := (li: LineItem) => li.product.sku;
    ScoreIsGroup(items, ItemSkuUnits, key, (li: LineItem) => li.quantity,
                 (li: LineItem) => if li.product.sku == k then li.quantity else 0, k);
    ScoreIsGroup(items, ItemSkuRevenue, key, (li: LineItem) => li.subtotal,
                 (li: LineItem) => if li.product.sku == k then li.subtotal else 0, k);
  }

  lemma CategoriesAreGrouped(items: seq<LineItem>, k: string)
    requires k != ""
    ensures Score(T.Tally(T.Collect(items, ItemCategoryUnits)), k)
            == T.Sum(items, (li: LineItem) => if li.product.category == k then li.quantity else 0)
    ensures Score(T.Tally(T.Collect(items, ItemCategoryRevenue)), k)
            == T.Sum(items, (li: LineItem) => if li.product.category == k then li.subtotal else 0)
  {
    hide T.Sum, T.Tally, T.Collect, Score;
    var key := (li: LineItem) => li.product.category;
    ScoreIsGroup(items, ItemCategoryUnits, key, (li: LineItem) => li.quantity,
                 (li: LineItem) => if li.product.category == k then li.quantity else 0, k);
    ScoreIsGroup(items, ItemCategoryRevenue, key, (li: LineItem) => li.subtotal,
                 (li: LineItem) => if li.product.category == k then li.subtotal else 0, k);
  }

  // --- metadata ---

  /** Element i is the first that has something to store under `k`. */
  ghost predicate IsFirst<E>(h: seq<E>, has: E -> bool, i: nat) {
    i < |h| && has(h[i]) && forall j | 0 <= j < i :: !has(h[j])
  }

  /** A hash written with HSETNX keeps what the first element stored. */
  lemma {:induction false} FirstIsKept<E, V>(h: seq<E>, f: E -> seq<(string, V)>, has: E -> bool, value: E -> V,
                                             k: string)
    requires forall x | x in h :: |f(x)| <= 1 && (has(x) <==> f(x) != [] && f(x)[0].0 == k)
    requires forall x | x in h && has(x) :: f(x)[0].1 == value(x)
    ensures k in T.FirstWins(T.Collect(h, f)) <==> exists i: nat :: IsFirst(h, has, i)
    ensures forall i: nat | IsFirst(h, has, i) ::
              k in T.FirstWins(T.Collect(h, f)) && T.FirstWins(T.Collect(h, f))[k] == value(h[i])
  {
    hide T.Collect, T.FirstWins;
    if h == [] {
      NothingKept<E, V>(f);
    } else {
      var n := |h| - 1;
      var rest, x := h[..n], h[n];
      assert h == rest + [x] && x in h && forall y | y in rest :: y in h;
      FirstIsKept(rest, f, has, value, k);
      FirstWinsGrows(rest, x, f);
      forall i: nat | i < n
        ensures IsFirst(h, has, i) <==> IsFirst(rest, has, i)
      {
        assert forall j | 0 <= j <= i :: h[j] == rest[j];
      }
      if (forall j | 0 <= j < n :: !has(h[j])) && has(x) {
        assert IsFirst(h, has, n);
      }
      if i: nat :| IsFirst(rest, has, i) {
        assert IsFirst(h, has, i);
      }
      if k !in T.FirstWins(T.Collect(rest, f)) {
        NoneBefore(rest, has);
        assert forall j | 0 <= j < n :: h[j] == rest[j];
      }
    }
  }

  lemma NothingKept<E, V>(f: E -> seq<(string, V)>)
    ensures T.FirstWins(T.Collect([], f)) == map[]
  {}

  lemma {:induction false} NoneBefore<E>(h: seq<E>, has: E -> bool)
    requires !exists i: nat :: IsFirst(h, has, i)
    ensures forall j | 0 <= j < |h| :: !has(h[j])
  {
    for n := 0 to |h|
      invariant forall j | 0 <= j < n :: !has(h[j])
    {
      assert !IsFirst(h, has, n);
    }
  }

  /** A zip code keeps the city and state of the first order shipped there that names a city. */
  lemma ZipKeepsFirstCity(s: Store, zip: string)
    requires s.Valid() && zip != ""
    ensures var has := (o: Order) => o.shipTo.zip == zip && o.shipTo.city != "";
            && (zip in s.zipMeta <==> exists i: nat :: IsFirst(s.history, has, i))
            && forall i: nat | IsFirst(s.history, has, i) ::
                 zip in s.zipMeta && s.zipMeta[zip] == ZipMeta(s.history[i].shipTo.city, s.history[i].shipTo.state)
  {
    FirstIsKept(s.history, ZipMetas, (o: Order) => o.shipTo.zip == zip && o.shipTo.city != "",
                (o: Order) => ZipMeta(o.shipTo.city, o.shipTo.state), zip);
  }

  /** A customer keeps the name and address of the first order that names the customer. */
  lemma CustomerKeepsFirstName(s: Store, id: string)
    requires s.Valid() && id != ""
    ensures var has := (o: Order) => o.customer.id == id && o.customer.name != "";
            && (id in s.customerMeta <==> exists i: nat :: IsFirst(s.history, has, i))
            && forall i: nat | IsFirst(s.history, has, i) ::
                 id in s.customerMeta
                 && s.customerMeta[id] == CustomerMeta(s.history[i].customer.name, s.history[i].customer.email)
  {
    FirstIsKept(s.history, CustomerMetas, (o: Order) => o.customer.id == id && o.customer.name != "",
                (o: Order) => CustomerMeta(o.customer.name, o.customer.email), id);
  }

  /** A product keeps the name and category of the first line item that sold it. */
  lemma ProductKeepsFirstName(s: Store, sku: string)
    requires s.Valid() && sku != ""
    ensures var items, has := ItemsOf(s.history), (li: LineItem) => li.product.sku == sku;
            && (sku in s.productMeta <==> exists i: nat :: IsFirst(items, has, i))
            && forall i: nat | IsFirst(items, has, i) ::
                 sku in s.productMeta
                 && s.productMeta[sku] == ProductMeta(items[i].product.name, items[i].product.category)
  {
    hide ItemsOf;
    CollectItems(s.history, ItemMeta, ProductMetas);
    FirstIsKept(ItemsOf(s.history), ItemMeta, (li: LineItem) => li.product.sku == sku,
                (li: LineItem) => ProductMeta(li.product.name, li.product.category), sku);
  }

  // --- new and returning ---

  /** What the first order of each customer cost, one entry per customer. */
  function FirstOrders(h: seq<Order>): seq<(string, int)> {
    T.Collect(h, (o: Order) => if o.customer.id == "" then [] else [(o.customer.id, o.total)])
  }

  /** New revenue is what the customers' first orders cost. */
  lemma {:induction false} NewRevenueIsFirstOrders(h: seq<Order>)
    ensures FirstSpend(h) == T.Total(T.FirstWins(FirstOrders(h)))
    ensures T.FirstWins(FirstOrders(h)).Keys == Seen(h)
  {
    hide T.Total, T.FirstWins;
    var f := (o: Order) => if o.customer.id == "" then [] else [(o.customer.id, o.total)];
    if h == [] {
      NothingKept<Order, int>(f);
      NothingSpent();
    } else {
      var n := |h| - 1;
      var rest, o := h[..n], h[n];
      assert h == rest + [o];
      NewRevenueIsFirstOrders(rest);
      FirstWinsGrows(rest, o, f);
      SeenSnoc(rest, o);
      if o.customer.id != "" && o.customer.id !in Seen(rest) {
        var z := T.FirstWins(FirstOrders(rest));
        T.TotalIncrBy(z, o.customer.id, o.total);
      }
    }
  }

  lemma NothingSpent()
    ensures T.Total(map[]) == 0
  {}

  // --- one hour ---

  /** A bucket that is touched expires 259,200,000 ms, three days, later. */
  lemma ExpiryIsThreeDays(hours: map<int, HourBucket>, hour: int, amount: int, now: int)
    ensures hour in BumpHour(hours, hour, amount, now)
    ensures BumpHour(hours, hour, amount, now)[hour].expireAt == now + 259_200_000
  {}

  /** The orders of an hour are those created in its 3,600,000 ms. */
  lemma HourIsGrouped(h: seq<Order>, hour: int)
    ensures OrdersIn(h, hour)
            == T.Sum(h, (o: Order) => if hour * 3_600_000 <= o.createdAt < (hour + 1) * 3_600_000 then 1 else 0)
    ensures RevenueIn(h, hour)
            == T.Sum(h, (o: Order) => if hour * 3_600_000 <= o.createdAt < (hour + 1) * 3_600_000 then o.total else 0)
  {
    T.SumEqual(h, (o: Order) => if HourOf(o.createdAt) == hour then 1 else 0,
               (o: Order) => if hour * 3_600_000 <= o.createdAt < (hour + 1) * 3_600_000 then 1 else 0);
    T.SumEqual(h, (o: Order) => if HourOf(o.createdAt) == hour then o.total else 0,
               (o: Order) => if hour * 3_600_000 <= o.createdAt < (hour + 1) * 3_600_000 then o.total else 0);
  }
}
