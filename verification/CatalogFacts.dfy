/**
  When all orders come from one writer, a SKU has one price and one category, so the product and
  category tables are functions of each other.
*/
module CatalogFacts {
  import opened SortedSets
  import opened Orders
  import opened Catalog
  import opened Conservation
  import opened Writer
  import opened Store
  import opened PairTable
  import opened Concentration
  import T = Tallies

  /** The line items of a whole history, one after the other. */
  function ItemsOf(h: seq<Order>): seq<LineItem> {
    T.Collect(h, (o: Order) => o.items)
  }

  lemma {:induction false} CollectItems<E>(h: seq<Order>, f: LineItem -> seq<E>, g: Order -> seq<E>)
    requires forall o: Order :: g(o) == T.Collect(o.items, f)
    ensures T.Collect(h, g) == T.Collect(ItemsOf(h), f)
  {
    if h != [] {
      var n := |h| - 1;
      CollectItems(h[..n], f, g);
      T.CollectAppend(ItemsOf(h[..n]), h[n].items, f);
    }
  }

  ghost predicate AllPriced(items: seq<LineItem>, pool: Pool) {
    forall li | li in items :: PricedBy(li, pool) && li.subtotal == li.unitPrice * li.quantity
  }

  lemma ItemsArePriced(h: seq<Order>, pool: Pool)
    requires forall o | o in h :: WriterBuilt(o, pool)
    ensures AllPriced(ItemsOf(h), pool)
  {
    forall li | li in ItemsOf(h)
      ensures PricedBy(li, pool) && li.subtotal == li.unitPrice * li.quantity
    {
      T.InCollect(h, (o: Order) => o.items, li);
    }
  }

  lemma PoolIsFunctional(pool: Pool, li: LineItem, i: nat)
    requires pool.WellFormed() && PricedBy(li, pool) && i < |pool.products|
    requires li.product.sku == pool.products[i].sku
    ensures li.product == pool.products[i] && li.unitPrice == pool.prices[i]
  {
    var j :| 0 <= j < |pool.products| && li.product == pool.products[j] && li.unitPrice == pool.prices[j];
    SkuNames(i, j);
  }

  lemma {:induction false} RevenueOfItems(items: seq<LineItem>, pool: Pool, i: nat)
    requires pool.WellFormed() && AllPriced(items, pool) && i < |pool.products|
    ensures var sku := pool.products[i].sku;
            T.Amount(T.Collect(items, ItemSkuRevenue), sku)
            == pool.prices[i] * T.Amount(T.Collect(items, ItemSkuUnits), sku)
  {
    hide T.Amount, SkuName, Decimal, Zeros;
    var sku := pool.products[i].sku;
    if items == [] {
      T.NoAmount([], sku);
    } else {
      var n := |items| - 1;
      var li := items[n];
      assert li in items && forall p | p in items[..n] :: p in items;
      RevenueOfItems(items[..n], pool, i);
      T.AmountAppend(T.Collect(items[..n], ItemSkuRevenue), ItemSkuRevenue(li), sku);
      T.AmountAppend(T.Collect(items[..n], ItemSkuUnits), ItemSkuUnits(li), sku);
      AmountOfOneItem(li.product.sku, li.subtotal, sku);
      AmountOfOneItem(li.product.sku, li.quantity, sku);
      if li.product.sku == sku {
        PoolIsFunctional(pool, li, i);
      }
      Distribute(pool.prices[i], T.Amount(T.Collect(items[..n], ItemSkuUnits), sku), T.Amount(ItemSkuUnits(li), sku));
    }
  }

  lemma Distribute(p: int, a: int, b: int)
    ensures p * (a + b) == p * a + p * b
  {}

  lemma AmountOfOneItem(key: string, amount: int, k: string)
    ensures T.Amount(One(key, amount), k) == if key == k && key != "" then amount else 0
  {
    if key == "" {
      T.NoAmount([], k);
    } else {
      T.AmountOfOne(T.Event(key, amount), k);
    }
  }

  /** In every reachable state a product's revenue is its price times its units. */
  lemma RevenueIsPriceTimesUnits(s: Store, pool: Pool, i: nat)
    requires s.Valid() && pool.WellFormed() && forall o | o in s.history :: WriterBuilt(o, pool)
    requires i < |pool.products|
    ensures var sku := pool.products[i].sku;
            Score(s.productRevenue, sku) == pool.prices[i] * Score(s.productUnits, sku)
  {
    hide T.Amount, T.Collect, ItemsOf, WriterBuilt, AllPriced;
    var sku := pool.products[i].sku;
    var items := ItemsOf(s.history);
    ItemsArePriced(s.history, pool);
    CollectItems(s.history, ItemSkuRevenue, ProductRevenue);
    CollectItems(s.history, ItemSkuUnits, ProductUnits);
    RevenueOfItems(items, pool, i);
    ScoreOfTally(T.Collect(items, ItemSkuRevenue), sku);
    ScoreOfTally(T.Collect(items, ItemSkuUnits), sku);
  }

  lemma ScoreOfTally(es: seq<T.Event>, k: string)
    ensures Score(T.Tally(es), k) == T.Amount(es, k)
  {
    if k !in T.Keys(es) {
      T.NoAmount(es, k);
    }
  }

  /** No SKU outside the pool ever gets a row. */
  lemma OnlyPoolProducts(s: Store, pool: Pool, sku: string)
    requires s.Valid() && pool.WellFormed() && forall o | o in s.history :: WriterBuilt(o, pool)
    requires sku in s.productUnits
    ensures exists i | 0 <= i < |pool.products| :: sku == pool.products[i].sku
  {
    CollectItems(s.history, ItemSkuUnits, ProductUnits);
    ItemsArePriced(s.history, pool);
    var items := ItemsOf(s.history);
    var e :| e in T.Collect(items, ItemSkuUnits) && e.key == sku;
    T.InCollect(items, ItemSkuUnits, e);
    var li :| li in items && e in ItemSkuUnits(li);
    assert PricedBy(li, pool);
  }

  // --- categories ---

  /** The SKUs of one category. */
  function InCategory(pool: Pool, category: string): set<string> {
    set p | p in pool.products && p.category == category :: p.sku
  }

  /** The rows of a product table that belong to a set of SKUs. */
  function Restrict(z: ZSet, skus: set<string>): ZSet {
    map m | m in z && m in skus :: z[m]
  }

  function Keep(es: seq<T.Event>, skus: set<string>): seq<T.Event> {
    T.Collect(es, (e: T.Event) => if e.key in skus then [e] else [])
  }

  lemma RestrictIncrBy(z: ZSet, skus: set<string>, k: string, d: int)
    ensures Restrict(IncrBy(z, k, d), skus) == if k in skus then IncrBy(Restrict(z, skus), k, d) else Restrict(z, skus)
  {}

  lemma KeepSnoc(es: seq<T.Event>, e: T.Event, skus: set<string>)
    ensures Keep(es + [e], skus) == if e.key in skus then Keep(es, skus) + [e] else Keep(es, skus)
  {
    T.CollectSnoc(es, e, (e: T.Event) => if e.key in skus then [e] else []);
  }

  lemma EmptyTally(skus: set<string>)
    ensures Restrict(T.Tally([]), skus) == T.Tally(Keep([], skus))
  {}

  lemma {:induction false} RestrictTally(es: seq<T.Event>, skus: set<string>)
    ensures Restrict(T.Tally(es), skus) == T.Tally(Keep(es, skus))
  {
    hide T.Tally, Keep, Restrict, IncrBy;
    if es == [] {
      EmptyTally(skus);
    } else {
      var n := |es| - 1;
      var e := es[n];
      RestrictTally(es[..n], skus);
      assert es == es[..n] + [e];
      T.TallySnoc(es[..n], e);
      RestrictIncrBy(T.Tally(es[..n]), skus, e.key, e.amount);
      KeepSnoc(es[..n], e, skus);
      T.TallySnoc(Keep(es[..n], skus), e);
    }
  }

  lemma KeepAppend(a: seq<T.Event>, b: seq<T.Event>, skus: set<string>)
    ensures Keep(a + b, skus) == Keep(a, skus) + Keep(b, skus)
  {
    T.CollectAppend(a, b, (e: T.Event) => if e.key in skus then [e] else []);
  }

  lemma GrandAppend(a: seq<T.Event>, b: seq<T.Event>)
    ensures T.Grand(a + b) == T.Grand(a) + T.Grand(b)
  {
    T.SumAppend(a, b, (e: T.Event) => e.amount);
  }

  lemma KeepOne(key: string, amount: int, skus: set<string>)
    ensures T.Grand(Keep(One(key, amount), skus)) == if key != "" && key in skus then amount else 0
  {
    GrandOfOne(key, amount);
    if key != "" {
      T.CollectSnoc([], T.Event(key, amount), (e: T.Event) => if e.key in skus then [e] else []);
      assert [] + [T.Event(key, amount)] == One(key, amount);
    }
  }

  /** An item counts towards a category exactly when its SKU is one of the category's. */
  lemma CategoryOfItem(pool: Pool, li: LineItem, category: string)
    requires pool.WellFormed() && PricedBy(li, pool)
    ensures li.product.sku in InCategory(pool, category) <==> li.product.category == category
    ensures li.product.sku != "" && li.product.category != ""
  {
    var i :| 0 <= i < |pool.products| && li.product == pool.products[i] && li.unitPrice == pool.prices[i];
    SkuNames(i, i);
    assert li.product in pool.products;
    if li.product.sku in InCategory(pool, category) {
      var p :| p in pool.products && p.category == category && p.sku == li.product.sku;
      var j :| 0 <= j < |pool.products| && p == pool.products[j];
      SkuNames(i, j);
    }
  }

  /** `bySku` and `byCategory` file the same amount of an item under its SKU and its category. */
  predicate SameAmounts(items: seq<LineItem>, bySku: LineItem -> seq<T.Event>, byCategory: LineItem -> seq<T.Event>,
                        amount: LineItem -> int) {
    forall li | li in items ::
      bySku(li) == One(li.product.sku, amount(li)) && byCategory(li) == One(li.product.category, amount(li))
  }

  lemma {:induction false} GroupItems(items: seq<LineItem>, pool: Pool, category: string,
      bySku: LineItem -> seq<T.Event>, byCategory: LineItem -> seq<T.Event>, amount: LineItem -> int)
    requires pool.WellFormed() && AllPriced(items, pool) && SameAmounts(items, bySku, byCategory, amount)
    ensures T.Amount(T.Collect(items, byCategory), category)
            == T.Grand(Keep(T.Collect(items, bySku), InCategory(pool, category)))
  {
    hide T.Amount, T.Grand, Keep, InCategory, SkuName;
    if items == [] {
      NothingToGroup(category, InCategory(pool, category));
    } else {
      var n := |items| - 1;
      var li := items[n];
      var skus := InCategory(pool, category);
      assert li in items && forall p | p in items[..n] :: p in items;
      GroupItems(items[..n], pool, category, bySku, byCategory, amount);
      T.AmountAppend(T.Collect(items[..n], byCategory), byCategory(li), category);
      KeepAppend(T.Collect(items[..n], bySku), bySku(li), skus);
      GrandAppend(Keep(T.Collect(items[..n], bySku), skus), Keep(bySku(li), skus));
      AmountOfOneItem(li.product.category, amount(li), category);
      KeepOne(li.product.sku, amount(li), skus);
      CategoryOfItem(pool, li, category);
    }
  }

  lemma NothingToGroup(category: string, skus: set<string>)
    ensures T.Amount([], category) == T.Grand(Keep([], skus)) == 0
  {}

  lemma GroupTables(h: seq<Order>, pool: Pool, category: string,
      bySku: LineItem -> seq<T.Event>, byCategory: LineItem -> seq<T.Event>, amount: LineItem -> int)
    requires pool.WellFormed() && forall o | o in h :: WriterBuilt(o, pool)
    requires forall li :: bySku(li) == One(li.product.sku, amount(li))
    requires forall li :: byCategory(li) == One(li.product.category, amount(li))
    ensures Score(T.Tally(T.Collect(ItemsOf(h), byCategory)), category)
            == T.Total(Restrict(T.Tally(T.Collect(ItemsOf(h), bySku)), InCategory(pool, category)))
  {
    hide T.Amount, T.Grand, T.Total, T.Tally, T.Collect, Keep, InCategory, ItemsOf, WriterBuilt, AllPriced, Restrict;
    var items := ItemsOf(h);
    ItemsArePriced(h, pool);
    GroupItems(items, pool, category, bySku, byCategory, amount);
    ScoreOfTally(T.Collect(items, byCategory), category);
    RestrictTally(T.Collect(items, bySku), InCategory(pool, category));
    T.TotalOfTally(Keep(T.Collect(items, bySku), InCategory(pool, category)));
  }

  /** Each category row is the sum of the product rows of that category, in units and in cents. */
  lemma CategoriesGroupProducts(s: Store, pool: Pool, category: string)
    requires s.Valid() && pool.WellFormed() && forall o | o in s.history :: WriterBuilt(o, pool)
    ensures Score(s.categoryUnits, category) == T.Total(Restrict(s.productUnits, InCategory(pool, category)))
    ensures Score(s.categoryRevenue, category) == T.Total(Restrict(s.productRevenue, InCategory(pool, category)))
  {
    hide T.Total, T.Tally, T.Collect, InCategory, ItemsOf, WriterBuilt, Restrict, Score;
    var h := s.history;
    CollectItems(h, ItemSkuUnits, ProductUnits);
    CollectItems(h, ItemCategoryUnits, CategoryUnits);
    CollectItems(h, ItemSkuRevenue, ProductRevenue);
    CollectItems(h, ItemCategoryRevenue, CategoryRevenue);
    GroupTables(h, pool, category, ItemSkuUnits, ItemCategoryUnits, (li: LineItem) => li.quantity);
    GroupTables(h, pool, category, ItemSkuRevenue, ItemCategoryRevenue, (li: LineItem) => li.subtotal);
  }

  // --- metadata ---

  /** The stored name and category of a product are the catalog's, whichever order stored them. */
  lemma MetadataIsTheCatalogs(s: Store, pool: Pool, i: nat)
    requires s.Valid() && pool.WellFormed() && forall o | o in s.history :: WriterBuilt(o, pool)
    requires i < |pool.products|
    ensures var p := pool.products[i];
            && (p.sku in s.productMeta <==> p.sku in s.productUnits)
            && (p.sku in s.productMeta ==> s.productMeta[p.sku] == ProductMeta(p.name, p.category))
  {
    hide T.FirstWins, T.Amount, WriterBuilt, SkuName, ItemsOf;
    var p := pool.products[i];
    var items := ItemsOf(s.history);
    ItemsArePriced(s.history, pool);
    CollectItems(s.history, ItemMeta, ProductMetas);
    CollectItems(s.history, ItemSkuUnits, ProductUnits);
    var metas := T.Collect(items, ItemMeta);
    T.FirstWinsIsEarliest(metas, p.sku);
    SkuNames(i, i);
    if p.sku in s.productMeta {
      var j :| 0 <= j < |metas| && metas[j] == (p.sku, s.productMeta[p.sku]);
      var li := ItemOfMeta(items, metas[j]);
      PoolIsFunctional(pool, li, i);
      UnitsOfItem(items, li);
    }
    if p.sku in s.productUnits {
      MetaOfUnits(items, p.sku);
    }
  }

  lemma MetaOfUnits(items: seq<LineItem>, sku: string)
    requires sku in T.Tally(T.Collect(items, ItemSkuUnits))
    ensures exists meta | meta in T.Collect(items, ItemMeta) :: meta.0 == sku
  {
    var e :| e in T.Collect(items, ItemSkuUnits) && e.key == sku;
    T.InCollect(items, ItemSkuUnits, e);
    var li :| li in items && e in ItemSkuUnits(li);
    T.InCollect(items, ItemMeta, (sku, ProductMeta(li.product.name, li.product.category)));
  }

  lemma ItemOfMeta(items: seq<LineItem>, meta: (string, ProductMeta)) returns (li: LineItem)
    requires meta in T.Collect(items, ItemMeta)
    ensures li in items && meta == (li.product.sku, ProductMeta(li.product.name, li.product.category))
    ensures li.product.sku != ""
  {
    T.InCollect(items, ItemMeta, meta);
    li :| li in items && meta in ItemMeta(li);
  }

  lemma UnitsOfItem(items: seq<LineItem>, li: LineItem)
    requires li in items && li.product.sku != ""
    ensures li.product.sku in T.Tally(T.Collect(items, ItemSkuUnits))
  {
    var e := T.Event(li.product.sku, li.quantity);
    assert e in ItemSkuUnits(li);
    T.InCollect(items, ItemSkuUnits, e);
    assert e.key in T.Keys(T.Collect(items, ItemSkuUnits));
  }

  // --- what the writer's orders promise the read paths ---

  lemma {:induction false} AmountOfNaturals(es: seq<T.Event>, k: string)
    requires forall e | e in es :: e.amount >= 0
    ensures T.Amount(es, k) >= 0
  {
    hide T.Amount;
    if es == [] {
      T.NoAmount([], k);
    } else {
      var n := |es| - 1;
      assert es == es[..n] + [es[n]] && es[n] in es;
      AmountOfNaturals(es[..n], k);
      T.AmountAppend(es[..n], [es[n]], k);
      T.AmountOfOne(es[n], k);
    }
  }

  /** No product ever shows negative revenue, so the concentration curve rises. */
  lemma WriterRevenueIsNonNegative(s: Store, pool: Pool)
    requires s.Valid() && pool.WellFormed() && forall o | o in s.history :: WriterBuilt(o, pool)
    ensures NonNegative(s.productRevenue)
  {
    hide T.Amount, T.Collect, ItemsOf, WriterBuilt;
    var items := ItemsOf(s.history);
    CollectItems(s.history, ItemSkuRevenue, ProductRevenue);
    var es := T.Collect(items, ItemSkuRevenue);
    forall e | e in es
      ensures e.amount >= 0
    {
      T.InCollect(items, ItemSkuRevenue, e);
      var li :| li in items && e in ItemSkuRevenue(li);
      ItemIsNonNegative(s.history, pool, li);
    }
    forall m | m in s.productRevenue
      ensures s.productRevenue[m] >= 0
    {
      AmountOfNaturals(es, m);
    }
  }

  lemma ItemIsNonNegative(h: seq<Order>, pool: Pool, li: LineItem)
    requires pool.WellFormed() && (forall o | o in h :: WriterBuilt(o, pool)) && li in ItemsOf(h)
    ensures li.subtotal >= 0
  {
    hide SkuName, T.Sum;
    T.InCollect(h, (o: Order) => o.items, li);
    var o :| o in h && li in o.items;
    var i :| 0 <= i < |pool.products| && li.product == pool.products[i] && li.unitPrice == pool.prices[i];
    TimesIsNatural(li.unitPrice, li.quantity);
  }

  lemma TimesIsNatural(a: int, b: int)
    requires a >= 0 && b >= 0
    ensures a * b >= 0
  {}

  /** The writer's SKUs never make two pairs share a key. */
  lemma WriterOrdersAreBarFree(o: Order, pool: Pool)
    requires pool.WellFormed() && WriterBuilt(o, pool)
    ensures BarFree(o)
  {
    forall li | li in o.items
      ensures '|' !in li.product.sku
    {
      var i :| 0 <= i < |pool.products| && li.product == pool.products[i];
      SkuNames(i, i);
    }
  }
}
