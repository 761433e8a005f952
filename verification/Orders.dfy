/**
  Orders as they travel through the queue, the labels the histograms file them under, and what
  one order adds to each analytics structure.  Money is integer cents; instants are integer
  milliseconds since the Unix epoch, in UTC.
*/
module Orders {
  import Lex
  import opened SortedSets
  import opened Tallies

  const TOP_ORDERS_LIMIT: nat := 10
  const TOP_PAIRS_LIMIT: nat := 200
  const HOUR := 3_600_000
  const HOUR_BUCKET_TTL := 72 * HOUR

  datatype Product = Product(sku: string, name: string, category: string)
  datatype LineItem = LineItem(product: Product, quantity: int, unitPrice: int, subtotal: int)
  datatype Customer = Customer(id: string, name: string, email: string, phone: string)
  datatype Address = Address(street: string, city: string, state: string, zip: string, country: string)
  datatype Order = Order(
    id: string, customer: Customer, shipTo: Address, items: seq<LineItem>,
    subtotal: int, tax: int, shipping: int, total: int, createdAt: int)

  /** The member of the three leaderboards, before it is encoded as text. */
  datatype Snapshot = Snapshot(
    id: string, customerName: string, state: string,
    total: int, units: int, maxItem: int, maxItemName: string, createdAtSecond: int)

  // --- labels ---

  const VALUE_LABELS: seq<string> :=
    ["$0-25", "$25-50", "$50-100", "$100-250", "$250-500", "$500-1000", "$1000+"]

  function ValueBucketLabel(total: int): string {
    if total < 2500 then "$0-25"
    else if total < 5000 then "$25-50"
    else if total < 10000 then "$50-100"
    else if total < 25000 then "$100-250"
    else if total < 50000 then "$250-500"
    else if total < 100000 then "$500-1000"
    else "$1000+"
  }

  const CART_SIZE_LABELS: seq<string> := ["1", "2-3", "4-5", "6-10", "11-15", "16+"]

  function CartSizeBucketLabel(units: int): string {
    if units <= 1 then "1"
    else if units <= 3 then "2-3"
    else if units <= 5 then "4-5"
    else if units <= 10 then "6-10"
    else if units <= 15 then "11-15"
    else "16+"
  }

  function Digit(d: int): char
    requires 0 <= d < 10
  {
    "0123456789"[d]
  }

  function TwoDigits(n: int): string
    requires 0 <= n < 100
  {
    [Digit(n / 10), Digit(n % 10)]
  }

  const HOURS_OF_DAY: seq<string> := seq(24, i requires 0 <= i < 24 => TwoDigits(i))
  const DAYS_OF_WEEK: seq<string> := ["Sun", "Mon", "Tue", "Wed", "Thu", "Fri", "Sat"]

  /** The hour an instant falls in, counted from the epoch. */
  function HourOf(t: int): int {
    t / HOUR
  }

  function HourOfDayLabel(t: int): string {
    TwoDigits(HourOf(t) % 24)
  }

  /** The epoch fell on a Thursday. */
  function DayOfWeekLabel(t: int): string {
    DAYS_OF_WEEK[(HourOf(t) / 24 + 4) % 7]
  }

  // --- what one order contributes ---

  function Units(o: Order): int {
    Sum(o.items, (li: LineItem) => li.quantity)
  }

  function Total(o: Order): int { o.total }
  function Tax(o: Order): int { o.tax }
  function Shipping(o: Order): int { o.shipping }

  /** An increment that the script skips when the key is empty. */
  function One(key: string, amount: int): seq<Event> {
    if key == "" then [] else [Event(key, amount)]
  }

  lemma BumpOne(z: ZSet, key: string, amount: int)
    ensures Bump(z, One(key, amount)) == if key == "" then z else IncrBy(z, key, amount)
  {
    Snoc([], Event(key, amount));
  }

  /** One order's single increment, seen from the tally of the whole history. */
  lemma TallyGrowsByOne(h: seq<Order>, o: Order, f: Order -> seq<Event>, key: string, amount: int)
    requires f(o) == One(key, amount)
    ensures Tally(Collect(h + [o], f))
            == if key == "" then Tally(Collect(h, f)) else IncrBy(Tally(Collect(h, f)), key, amount)
  {
    TallyGrows(h, o, f);
    BumpOne(Tally(Collect(h, f)), key, amount);
  }

  function StateCount(o: Order): seq<Event> { One(o.shipTo.state, 1) }
  function StateRevenue(o: Order): seq<Event> { One(o.shipTo.state, o.total) }

  function ItemSkuUnits(li: LineItem): seq<Event> { One(li.product.sku, li.quantity) }
  function ItemSkuRevenue(li: LineItem): seq<Event> { One(li.product.sku, li.subtotal) }
  function ItemCategoryUnits(li: LineItem): seq<Event> { One(li.product.category, li.quantity) }
  function ItemCategoryRevenue(li: LineItem): seq<Event> { One(li.product.category, li.subtotal) }

  function ProductUnits(o: Order): seq<Event> { Collect(o.items, ItemSkuUnits) }
  function ProductRevenue(o: Order): seq<Event> { Collect(o.items, ItemSkuRevenue) }
  function CategoryUnits(o: Order): seq<Event> { Collect(o.items, ItemCategoryUnits) }
  function CategoryRevenue(o: Order): seq<Event> { Collect(o.items, ItemCategoryRevenue) }

  function ValueBucket(o: Order): seq<Event> { One(ValueBucketLabel(o.total), 1) }
  function CartSizeBucket(o: Order): seq<Event> { One(CartSizeBucketLabel(Units(o)), 1) }
  function HourOfDayCount(o: Order): seq<Event> { One(HourOfDayLabel(o.createdAt), 1) }
  function HourOfDayRevenue(o: Order): seq<Event> { One(HourOfDayLabel(o.createdAt), o.total) }
  function DayOfWeekCount(o: Order): seq<Event> { One(DayOfWeekLabel(o.createdAt), 1) }
  function DayOfWeekRevenue(o: Order): seq<Event> { One(DayOfWeekLabel(o.createdAt), o.total) }

  function CustomerSpend(o: Order): seq<Event> { One(o.customer.id, o.total) }
  function CustomerOrders(o: Order): seq<Event> { One(o.customer.id, 1) }
  function ZipCount(o: Order): seq<Event> { One(o.shipTo.zip, 1) }
  function ZipRevenue(o: Order): seq<Event> { One(o.shipTo.zip, o.total) }

  // --- metadata, where the first sighting wins ---

  datatype ProductMeta = ProductMeta(name: string, category: string)
  datatype CustomerMeta = CustomerMeta(name: string, email: string)
  datatype ZipMeta = ZipMeta(city: string, state: string)

  function ItemMeta(li: LineItem): seq<(string, ProductMeta)> {
    if li.product.sku == "" then []
    else [(li.product.sku, ProductMeta(li.product.name, li.product.category))]
  }

  function ProductMetas(o: Order): seq<(string, ProductMeta)> { Collect(o.items, ItemMeta) }

  function CustomerMetas(o: Order): seq<(string, CustomerMeta)> {
    if o.customer.id == "" || o.customer.name == "" then []
    else [(o.customer.id, CustomerMeta(o.customer.name, o.customer.email))]
  }

  function ZipMetas(o: Order): seq<(string, ZipMeta)> {
    if o.shipTo.zip == "" || o.shipTo.city == "" then []
    else [(o.shipTo.zip, ZipMeta(o.shipTo.city, o.shipTo.state))]
  }

  lemma FirstWinsGrows<T, V>(h: seq<T>, o: T, f: T -> seq<(string, V)>)
    requires |f(o)| <= 1
    ensures FirstWins(Collect(h + [o], f))
            == if f(o) == [] then FirstWins(Collect(h, f)) else SetNX(FirstWins(Collect(h, f)), f(o)[0].0, f(o)[0].1)
  {
    CollectSnoc(h, o, f);
    var es := Collect(h, f);
    if f(o) == [] {
      assert es + f(o) == es;
    } else {
      hide FirstWins, SetNX;
      assert f(o) == [f(o)[0]];
      FirstWinsSnoc(es, f(o)[0]);
    }
  }

  // --- the leaderboard snapshot ---

  /** The greatest unit price of the items, and zero when none is positive. */
  function MaxItem(items: seq<LineItem>): int {
    if items == [] then 0
    else
      var rest, last := MaxItem(items[..|items| - 1]), items[|items| - 1];
      if last.unitPrice > rest then last.unitPrice else rest
  }

  /** The product name of the earliest item at that price. */
  function MaxItemName(items: seq<LineItem>): string {
    if items == [] then ""
    else
      var rest, last := items[..|items| - 1], items[|items| - 1];
      if last.unitPrice > MaxItem(rest) then last.product.name else MaxItemName(rest)
  }

  function SnapshotOf(o: Order): Snapshot {
    Snapshot(o.id, o.customer.name, o.shipTo.state, o.total, Units(o), MaxItem(o.items), MaxItemName(o.items),
             o.createdAt / 1000)
  }

  lemma {:induction false} MaxItemIsMaximum(items: seq<LineItem>)
    ensures MaxItem(items) >= 0
    ensures forall li | li in items :: li.unitPrice <= MaxItem(items)
    ensures MaxItem(items) > 0 ==>
              exists i | 0 <= i < |items| ::
                && items[i].unitPrice == MaxItem(items)
                && items[i].product.name == MaxItemName(items)
                && forall j | 0 <= j < i :: items[j].unitPrice < MaxItem(items)
    ensures MaxItem(items) == 0 ==> MaxItemName(items) == ""
  {
    if items != [] {
      var n := |items| - 1;
      var rest := items[..n];
      MaxItemIsMaximum(rest);
      assert items == rest + [items[n]];
      if items[n].unitPrice <= MaxItem(rest) {
        if MaxItem(rest) > 0 {
          var i :| 0 <= i < |rest| && rest[i].unitPrice == MaxItem(rest) && rest[i].product.name == MaxItemName(rest)
                   && forall j | 0 <= j < i :: rest[j].unitPrice < MaxItem(rest);
          assert items[i] == rest[i] && forall j | 0 <= j < i :: items[j] == rest[j];
        }
      } else {
        assert forall j | 0 <= j < n :: items[j] == rest[j];
        assert items[n].unitPrice == MaxItem(items);
      }
    }
  }

  // --- market-basket pairs ---

  function PairKey(a: string, b: string): string {
    if Lex.Less(b, a) then b + "|" + a else a + "|" + b
  }

  function PairEvent(a: string, b: string): seq<Event> {
    if a == "" || b == "" || a == b then [] else [Event(PairKey(a, b), 1)]
  }

  /** Item i paired with items i+1 .. j-1. */
  function RowPairs(items: seq<LineItem>, i: nat, j: nat): seq<Event>
    requires i < j <= |items|
  {
    if j == i + 1 then []
    else RowPairs(items, i, j - 1) + PairEvent(items[i].product.sku, items[j - 1].product.sku)
  }

  /** All pairs whose first item is one of the first i. */
  function PairsBefore(items: seq<LineItem>, i: nat): seq<Event>
    requires i <= |items|
  {
    if i == 0 then [] else PairsBefore(items, i - 1) + RowPairs(items, i - 1, |items|)
  }

  function Pairs(o: Order): seq<Event> {
    PairsBefore(o.items, |o.items|)
  }
}
