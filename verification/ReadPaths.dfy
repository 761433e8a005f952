/** The API's read paths, each stated against the full history of applied orders. */
module ReadPaths {
  import Lex
  import opened Collections
  import opened SortedSets
  import opened Orders
  import opened Leaderboards
  import opened Hours
  import opened PairTable
  import opened Conservation
  import opened Concentration
  import opened Catalog
  import opened Writer
  import opened CatalogFacts
  import opened Labels
  import opened Store
  import T = Tallies

  // --- histograms ---

  datatype Row = Row(key: string, amount: int)

  /** What the orders filed under `l` add up to. */
  function Filed(h: seq<Order>, key: Order -> string, amount: Order -> int, l: string): int {
    T.Sum(h, o => if key(o) == l then amount(o) else 0)
  }

  ghost predicate Files(f: Order -> seq<T.Event>, key: Order -> string, amount: Order -> int) {
    forall o: Order :: key(o) != "" && f(o) == One(key(o), amount(o))
  }

  lemma FiledScore(h: seq<Order>, f: Order -> seq<T.Event>, key: Order -> string, amount: Order -> int, l: string)
    requires Files(f, key, amount)
    ensures Score(T.Tally(T.Collect(h, f)), l) == Filed(h, key, amount, l)
  {
    hide T.Amount, T.Collect;
    var es := T.Collect(h, f);
    if l !in T.Keys(es) {
      T.NoAmount(es, l);
    }
    forall o | o in h
      ensures T.Amount(f(o), l) == if key(o) == l then amount(o) else 0
    {
      T.AmountOfOne(T.Event(key(o), amount(o)), l);
    }
    T.AmountTotal(h, f, o => if key(o) == l then amount(o) else 0, l);
  }

  /** Rows for a fixed list of labels miss nothing when every member of the table is listed. */
  lemma {:induction false} RowsCoverTable(z: ZSet, labels: seq<string>)
    requires Distinct(labels) && forall m | m in z :: m in labels
    ensures T.Sum(labels, l => Score(z, l)) == T.Total(z)
    decreases |labels|
  {
    hide T.Sum, T.Total;
    if labels == [] {
      assert z == map[];
      NothingToSum();
    } else {
      var n := |labels| - 1;
      var l, others := labels[n], labels[..n];
      var rest := z - {l};
      assert labels == others + [l];
      assert rest.Keys == z.Keys - {l};
      RowsCoverTable(rest, others);
      LabelIsNew(labels);
      T.SumEqual(others, m => Score(rest, m), m => Score(z, m));
      T.SumSnoc(others, l, m => Score(z, m));
      if l in z { T.TotalRemove(z, l); } else { assert rest == z; }
    }
  }

  lemma NothingToSum()
    ensures T.Sum([], l => Score(map[], l)) == 0 == T.Total(map[])
  {}

  lemma LabelIsNew(labels: seq<string>)
    requires labels != [] && Distinct(labels)
    ensures labels[|labels| - 1] !in labels[..|labels| - 1]
  {}

  lemma {:induction false} MembersAreLabels(h: seq<Order>, f: Order -> seq<T.Event>, key: Order -> string,
                                            amount: Order -> int, m: string)
    requires Files(f, key, amount) && m in T.Tally(T.Collect(h, f))
    ensures exists o | o in h :: key(o) == m
  {
    var e :| e in T.Collect(h, f) && e.key == m;
    T.InCollect(h, f, e);
  }

  /** The loop shared by the histogram readers: one row per label, zero when the table has none. */
  method ReadRows(z: ZSet, labels: seq<string>) returns (out: seq<Row>)
    ensures |out| == |labels|
    ensures forall i | 0 <= i < |out| :: out[i] == Row(labels[i], Score(z, labels[i]))
    ensures T.Sum(out, (r: Row) => r.amount) == T.Sum(labels, l => Score(z, l))
  {
    out := [];
    for i := 0 to |labels|
      invariant |out| == i
      invariant forall k | 0 <= k < i :: out[k] == Row(labels[k], Score(z, labels[k]))
      invariant T.Sum(out, (r: Row) => r.amount) == T.Sum(labels[..i], l => Score(z, l))
    {
      var score := 0;
      if labels[i] in z {
        score := z[labels[i]];
      }
      assert labels[..i + 1] == labels[..i] + [labels[i]];
      T.SumSnoc(labels[..i], labels[i], l => Score(z, l));
      T.SumSnoc(out, Row(labels[i], score), (r: Row) => r.amount);
      out := out + [Row(labels[i], score)];
    }
    assert labels[..|labels|] == labels;
  }

  function ValueKey(o: Order): string { ValueBucketLabel(o.total) }
  function CartKey(o: Order): string { CartSizeBucketLabel(Units(o)) }
  function HourKey(o: Order): string { HourOfDayLabel(o.createdAt) }
  function DayKey(o: Order): string { DayOfWeekLabel(o.createdAt) }
  function Single(o: Order): int { 1 }

  /** A fixed list of labels under which every order is filed. */
  ghost predicate Covers(labels: seq<string>, f: Order -> seq<T.Event>, key: Order -> string, amount: Order -> int) {
    Files(f, key, amount) && Distinct(labels) && forall o :: key(o) in labels
  }

  lemma ValueLabels()
    ensures |VALUE_LABELS| == 7 && Covers(VALUE_LABELS, ValueBucket, ValueKey, Single)
  {
    forall o
      ensures ValueKey(o) in VALUE_LABELS && ValueKey(o) != ""
    {}
  }

  lemma CartSizeLabels()
    ensures |CART_SIZE_LABELS| == 6 && Covers(CART_SIZE_LABELS, CartSizeBucket, CartKey, Single)
  {
    hide Units;
    forall o
      ensures CartKey(o) in CART_SIZE_LABELS && CartKey(o) != ""
    {}
  }

  lemma HourLabels()
    ensures |HOURS_OF_DAY| == 24
    ensures Covers(HOURS_OF_DAY, HourOfDayCount, HourKey, Single)
    ensures Covers(HOURS_OF_DAY, HourOfDayRevenue, HourKey, Total)
  {
    forall i, j | 0 <= i < j < 24
      ensures TwoDigits(i) != TwoDigits(j)
    {
      if i / 10 == j / 10 { assert i % 10 != j % 10; }
    }
    forall o
      ensures HourKey(o) in HOURS_OF_DAY
    {
      assert HOURS_OF_DAY[HourOf(o.createdAt) % 24] == HourKey(o);
    }
  }

  lemma DayLabels()
    ensures |DAYS_OF_WEEK| == 7
    ensures Covers(DAYS_OF_WEEK, DayOfWeekCount, DayKey, Single)
    ensures Covers(DAYS_OF_WEEK, DayOfWeekRevenue, DayKey, Total)
  {
    hide HourOf;
    DaysAreNamed();
    forall o
      ensures DayKey(o) in DAYS_OF_WEEK
    {
      assert DAYS_OF_WEEK[(HourOf(o.createdAt) / 24 + 4) % 7] == DayKey(o);
    }
  }

  lemma DaysAreNamed()
    ensures Distinct(DAYS_OF_WEEK) && forall i | 0 <= i < 7 :: DAYS_OF_WEEK[i] != ""
  {}

  lemma FiledIs(h: seq<Order>, key: Order -> string, amount: Order -> int, l: string, g: Order -> int)
    requires forall o :: g(o) == if key(o) == l then amount(o) else 0
    ensures Filed(h, key, amount, l) == T.Sum(h, g)
  {
    T.SumEqual(h, o => if key(o) == l then amount(o) else 0, g);
  }

  /** An order is filed under the label of its range of dollars. */
  lemma FiledByValue(h: seq<Order>, i: nat)
    requires i < 7
    ensures Filed(h, ValueKey, Single, VALUE_LABELS[i])
            == T.Sum(h, (o: Order) => if (i == 0 || 100 * DOLLARS[i] <= o.total)
                                         && (i == 6 || o.total < 100 * DOLLARS[i + 1]) then 1 else 0)
  {
    hide T.Sum, Filed, ValueBucketLabel;
    var g := (o: Order) => if (i == 0 || 100 * DOLLARS[i] <= o.total)
                              && (i == 6 || o.total < 100 * DOLLARS[i + 1]) then 1 else 0;
    forall o: Order
      ensures g(o) == if ValueKey(o) == VALUE_LABELS[i] then Single(o) else 0
    {
      ValueIsInRange(o.total, i);
    }
    FiledIs(h, ValueKey, Single, VALUE_LABELS[i], g);
  }

  lemma FiledByCartSize(h: seq<Order>, i: nat)
    requires i < 6
    ensures Filed(h, CartKey, Single, CART_SIZE_LABELS[i])
            == T.Sum(h, (o: Order) => if (i == 0 || CART_STARTS[i] <= Units(o))
                                         && (i == 5 || Units(o) < CART_STARTS[i + 1]) then 1 else 0)
  {
    hide T.Sum, Filed, CartSizeBucketLabel, Units;
    var g := (o: Order) => if (i == 0 || CART_STARTS[i] <= Units(o))
                              && (i == 5 || Units(o) < CART_STARTS[i + 1]) then 1 else 0;
    forall o: Order
      ensures g(o) == if CartKey(o) == CART_SIZE_LABELS[i] then Single(o) else 0
    {
      CartSizeIsInRange(Units(o), i);
    }
    FiledIs(h, CartKey, Single, CART_SIZE_LABELS[i], g);
  }

  /** An order is filed under the hour since midnight it was created in. */
  lemma FiledByHour(h: seq<Order>, i: nat)
    requires i < 24
    ensures Filed(h, HourKey, Single, HOURS_OF_DAY[i])
            == T.Sum(h, (o: Order) =>
                 if i * 3_600_000 <= o.createdAt % 86_400_000 < (i + 1) * 3_600_000 then 1 else 0)
    ensures Filed(h, HourKey, Total, HOURS_OF_DAY[i])
            == T.Sum(h, (o: Order) =>
                 if i * 3_600_000 <= o.createdAt % 86_400_000 < (i + 1) * 3_600_000 then o.total else 0)
  {
    hide T.Sum, Filed, HourOfDayLabel, Value;
    forall o: Order
      ensures HourKey(o) == HOURS_OF_DAY[i] <==> i * 3_600_000 <= o.createdAt % 86_400_000 < (i + 1) * 3_600_000
    {
      HourLabelIsTrue(o.createdAt);
      HourLabelIsNumbered(o.createdAt, i);
    }
    FiledIs(h, HourKey, Single, HOURS_OF_DAY[i], (o: Order) =>
              if i * 3_600_000 <= o.createdAt % 86_400_000 < (i + 1) * 3_600_000 then 1 else 0);
    FiledIs(h, HourKey, Total, HOURS_OF_DAY[i], (o: Order) =>
              if i * 3_600_000 <= o.createdAt % 86_400_000 < (i + 1) * 3_600_000 then o.total else 0);
  }

  /** An order is filed under the weekday it was created on; the epoch was a Thursday. */
  lemma FiledByDay(h: seq<Order>, l: string)
    ensures Filed(h, DayKey, Single, l)
            == T.Sum(h, (o: Order) => if FIRST_WEEK[o.createdAt / 86_400_000 % 7] == l then 1 else 0)
    ensures Filed(h, DayKey, Total, l)
            == T.Sum(h, (o: Order) => if FIRST_WEEK[o.createdAt / 86_400_000 % 7] == l then o.total else 0)
  {
    hide T.Sum, Filed, DayOfWeekLabel;
    forall o: Order
      ensures DayKey(o) == FIRST_WEEK[o.createdAt / 86_400_000 % 7]
    {
      DayLabelIsTrue(o.createdAt);
    }
    FiledIs(h, DayKey, Single, l, (o: Order) => if FIRST_WEEK[o.createdAt / 86_400_000 % 7] == l then 1 else 0);
    FiledIs(h, DayKey, Total, l, (o: Order) => if FIRST_WEEK[o.createdAt / 86_400_000 % 7] == l then o.total else 0);
  }

  method ValueDistribution(s: Store) returns (out: seq<Row>)
    requires s.Valid()
    ensures |out| == 7
    ensures forall i | 0 <= i < 7 ::
              && out[i].key == ["$0-25", "$25-50", "$50-100", "$100-250", "$250-500", "$500-1000", "$1000+"][i]
              && out[i].amount == T.Sum(s.history, (o: Order) =>
                   if (i == 0 || 100 * DOLLARS[i] <= o.total) && (i == 6 || o.total < 100 * DOLLARS[i + 1])
                   then 1 else 0)
    ensures T.Sum(out, (r: Row) => r.amount) == s.ordersCount
  {
    hide T.Sum, T.Tally, T.Collect, Filed, Covers, ValueKey, ValueBucketLabel;
    out := ReadRows(s.valueBuckets, VALUE_LABELS);
    HistogramsConserve(s);
    ValueLabels();
    RowsOfHistogram(s.history, ValueBucket, ValueKey, Single, VALUE_LABELS);
    forall i | 0 <= i < 7
      ensures out[i].amount == T.Sum(s.history, (o: Order) =>
                if (i == 0 || 100 * DOLLARS[i] <= o.total) && (i == 6 || o.total < 100 * DOLLARS[i + 1])
                then 1 else 0)
    {
      FiledByValue(s.history, i);
    }
  }

  method CartSizeDistribution(s: Store) returns (out: seq<Row>)
    requires s.Valid()
    ensures |out| == 6
    ensures forall i | 0 <= i < 6 ::
              && out[i].key == ["1", "2-3", "4-5", "6-10", "11-15", "16+"][i]
              && out[i].amount == T.Sum(s.history, (o: Order) =>
                   if (i == 0 || CART_STARTS[i] <= Units(o)) && (i == 5 || Units(o) < CART_STARTS[i + 1])
                   then 1 else 0)
    ensures T.Sum(out, (r: Row) => r.amount) == s.ordersCount
  {
    hide T.Sum, T.Tally, T.Collect, Filed, Covers, CartKey, CartSizeBucketLabel, Units;
    out := ReadRows(s.cartSizes, CART_SIZE_LABELS);
    HistogramsConserve(s);
    CartSizeLabels();
    RowsOfHistogram(s.history, CartSizeBucket, CartKey, Single, CART_SIZE_LABELS);
    forall i | 0 <= i < 6
      ensures out[i].amount == T.Sum(s.history, (o: Order) =>
                if (i == 0 || CART_STARTS[i] <= Units(o)) && (i == 5 || Units(o) < CART_STARTS[i + 1])
                then 1 else 0)
    {
      FiledByCartSize(s.history, i);
    }
  }

  method HourOfDay(s: Store) returns (orders: seq<Row>, revenue: seq<Row>)
    requires s.Valid()
    ensures |orders| == |revenue| == 24
    ensures forall i | 0 <= i < 24 ::
              && orders[i].key == revenue[i].key == ["0123456789"[i / 10], "0123456789"[i % 10]]
              && orders[i].amount == T.Sum(s.history, (o: Order) =>
                   if i * 3_600_000 <= o.createdAt % 86_400_000 < (i + 1) * 3_600_000 then 1 else 0)
              && revenue[i].amount == T.Sum(s.history, (o: Order) =>
                   if i * 3_600_000 <= o.createdAt % 86_400_000 < (i + 1) * 3_600_000 then o.total else 0)
    ensures T.Sum(orders, (r: Row) => r.amount) == s.ordersCount
    ensures T.Sum(revenue, (r: Row) => r.amount) == s.revenue
  {
    hide T.Sum, T.Tally, T.Collect, Filed, Covers, HourKey, HourOfDayLabel, HOURS_OF_DAY;
    orders := ReadRows(s.hourOfDayCount, HOURS_OF_DAY);
    revenue := ReadRows(s.hourOfDayRevenue, HOURS_OF_DAY);
    HistogramsConserve(s);
    HourLabels();
    RowsOfHistogram(s.history, HourOfDayCount, HourKey, Single, HOURS_OF_DAY);
    RowsOfHistogram(s.history, HourOfDayRevenue, HourKey, Total, HOURS_OF_DAY);
    forall i | 0 <= i < 24
      ensures orders[i].key == revenue[i].key == ["0123456789"[i / 10], "0123456789"[i % 10]]
      ensures orders[i].amount == T.Sum(s.history, (o: Order) =>
                if i * 3_600_000 <= o.createdAt % 86_400_000 < (i + 1) * 3_600_000 then 1 else 0)
      ensures revenue[i].amount == T.Sum(s.history, (o: Order) =>
                if i * 3_600_000 <= o.createdAt % 86_400_000 < (i + 1) * 3_600_000 then o.total else 0)
    {
      FiledByHour(s.history, i);
      HourRowIs(i);
    }
  }

  lemma HourRowIs(i: nat)
    requires i < 24
    ensures |HOURS_OF_DAY| == 24 && HOURS_OF_DAY[i] == ["0123456789"[i / 10], "0123456789"[i % 10]]
  {}

  method DayOfWeek(s: Store) returns (orders: seq<Row>, revenue: seq<Row>)
    requires s.Valid()
    ensures |orders| == |revenue| == 7
    ensures forall i | 0 <= i < 7 ::
              var day := ["Sun", "Mon", "Tue", "Wed", "Thu", "Fri", "Sat"][i];
              && orders[i].key == revenue[i].key == day
              && orders[i].amount == T.Sum(s.history, (o: Order) =>
                   if FIRST_WEEK[o.createdAt / 86_400_000 % 7] == day then 1 else 0)
              && revenue[i].amount == T.Sum(s.history, (o: Order) =>
                   if FIRST_WEEK[o.createdAt / 86_400_000 % 7] == day then o.total else 0)
    ensures T.Sum(orders, (r: Row) => r.amount) == s.ordersCount
    ensures T.Sum(revenue, (r: Row) => r.amount) == s.revenue
  {
    hide T.Sum, T.Tally, T.Collect, Filed, Covers, DayKey, DayOfWeekLabel;
    orders := ReadRows(s.dayOfWeekCount, DAYS_OF_WEEK);
    revenue := ReadRows(s.dayOfWeekRevenue, DAYS_OF_WEEK);
    HistogramsConserve(s);
    DayLabels();
    RowsOfHistogram(s.history, DayOfWeekCount, DayKey, Single, DAYS_OF_WEEK);
    RowsOfHistogram(s.history, DayOfWeekRevenue, DayKey, Total, DAYS_OF_WEEK);
    forall i | 0 <= i < 7
      ensures var day := ["Sun", "Mon", "Tue", "Wed", "Thu", "Fri", "Sat"][i];
              && orders[i].key == revenue[i].key == day
              && orders[i].amount == T.Sum(s.history, (o: Order) =>
                   if FIRST_WEEK[o.createdAt / 86_400_000 % 7] == day then 1 else 0)
              && revenue[i].amount == T.Sum(s.history, (o: Order) =>
                   if FIRST_WEEK[o.createdAt / 86_400_000 % 7] == day then o.total else 0)
    {
      FiledByDay(s.history, DAYS_OF_WEEK[i]);
    }
  }

  lemma RowsOfHistogram(h: seq<Order>, f: Order -> seq<T.Event>, key: Order -> string, amount: Order -> int,
                        labels: seq<string>)
    requires Covers(labels, f, key, amount)
    ensures forall l :: Score(T.Tally(T.Collect(h, f)), l) == Filed(h, key, amount, l)
    ensures T.Sum(labels, l => Score(T.Tally(T.Collect(h, f)), l)) == T.Total(T.Tally(T.Collect(h, f)))
  {
    var z := T.Tally(T.Collect(h, f));
    forall l
      ensures Score(z, l) == Filed(h, key, amount, l)
    {
      FiledScore(h, f, key, amount, l);
    }
    forall m | m in z
      ensures m in labels
    {
      MembersAreLabels(h, f, key, amount, m);
    }
    RowsCoverTable(z, labels);
  }

  // --- timeseries ---

  datatype HourRow = HourRow(hour: int, orders: int, revenue: int)

  predicate RowExact(h: seq<Order>, row: HourRow) {
    row.orders == OrdersIn(h, row.hour) && row.revenue == RevenueIn(h, row.hour)
  }

  /** The most recent `hours` hours; 24 by default, 72 at most. */
  method Timeseries(s: Store, hours: int) returns (out: seq<HourRow>)
    requires s.Valid()
    ensures |out| == if hours <= 0 then 24 else if hours > 72 then 72 else hours
    ensures forall i | 0 <= i < |out| :: out[i].hour == HourOf(s.now) - (|out| - 1 - i)
    // A row shows its whole hour exactly when the hour's bucket was never lost, as with punctual orders.
    ensures forall i | 0 <= i < |out| ::
              RowExact(s.history, out[i]) <==> Unbroken(ArrivalsIn(s.history, s.arrivals, out[i].hour), s.now)
    ensures AllPunctual(s.history, s.arrivals) ==> forall i | 0 <= i < |out| :: RowExact(s.history, out[i])
  {
    var n := hours;
    if n <= 0 { n := 24; }
    if n > 72 { n := 72; }
    var thisHour := HourOf(s.now);
    out := [];
    for i := 0 to n
      invariant |out| == i
      invariant forall k | 0 <= k < i ::
                  && out[k].hour == thisHour - (n - 1 - k)
                  && (out[k].orders, out[k].revenue) == ReadHour(s.hours, out[k].hour)
    {
      var hour := thisHour - (n - 1 - i);
      var (orders, revenue) := ReadHour(s.hours, hour);
      out := out + [HourRow(hour, orders, revenue)];
    }
    forall i | 0 <= i < |out|
      ensures RowExact(s.history, out[i]) <==> Unbroken(ArrivalsIn(s.history, s.arrivals, out[i].hour), s.now)
      ensures AllPunctual(s.history, s.arrivals) ==> RowExact(s.history, out[i])
    {
      ExactIffUnbroken(s.history, s.arrivals, out[i].hour, s.now);
      if AllPunctual(s.history, s.arrivals) {
        PunctualIsUnbroken(s.history, s.arrivals, out[i].hour, s.now);
      }
    }
  }

  // --- leaderboards ---

  function ScoreBy(ranking: string): Snapshot -> int {
    if ranking == "line_items" then UnitsScore
    else if ranking == "max_item" then MaxItemScore
    else TotalScore
  }

  /**
    The ten greatest distinct snapshots of the whole history, in descending order: `orders` are the
    orders behind them, and an order not shown ranks below all that are.
  */
  method TopOrders(s: Store, ranking: string) returns (out: seq<string>, ghost orders: seq<Order>)
    requires s.Valid()
    ensures |out| == |orders| <= 10
    ensures forall i | 0 <= i < |out| ::
              && orders[i] in s.history
              && out[i] == s.encode(Snapshot(orders[i].id, orders[i].customer.name, orders[i].shipTo.state,
                                             orders[i].total, Units(orders[i]), MaxItem(orders[i].items),
                                             MaxItemName(orders[i].items), orders[i].createdAt / 1000))
    ensures var score := (o: Order) => if ranking == "line_items" then Units(o)
                                       else if ranking == "max_item" then MaxItem(o.items) else o.total;
            && (forall i, j | 0 <= i < j < |out| ::
                  || score(orders[j]) < score(orders[i])
                  || (score(orders[j]) == score(orders[i]) && Lex.Less(out[j], out[i])))
            && (forall o | o in s.history ::
                  var text := s.encode(Snapshot(o.id, o.customer.name, o.shipTo.state, o.total, Units(o),
                                                MaxItem(o.items), MaxItemName(o.items), o.createdAt / 1000));
                  text !in out ==>
                    && |out| == 10
                    && forall i | 0 <= i < 10 ::
                         score(o) < score(orders[i]) || (score(o) == score(orders[i]) && Lex.Less(text, out[i])))
  {
    hide Top, Board, RevRange, IsDescending, s.Valid, Determines, Units, MaxItem, MaxItemName,
         RanksBelow, OthersBelow, ScoreBy;
    BoardRead(s, ranking);
    var z := s.topByTotal;
    if ranking == "line_items" {
      z := s.topByLineItems;
    } else if ranking == "max_item" {
      z := s.topByMaxItem;
    }
    RevRangeIsDescending(z);
    ghost var board := Board(s.history, s.encode, ScoreBy(ranking));
    TopIsGreatest(board, TOP_ORDERS_LIMIT, z);
    var members := RevRange(z);
    assert |z| <= TOP_ORDERS_LIMIT by { TopSize(board, TOP_ORDERS_LIMIT); }
    out := members[..Min(|members|, TOP_ORDERS_LIMIT)];
    assert out == members;
    orders := OrdersShown(s, ScoreBy(ranking), z, out);
    ListedRank(s, ScoreBy(ranking), z, out, orders);
    OthersRank(s, ScoreBy(ranking), z, out, orders);
    RankingSaid(s, ranking, out, orders);
  }

  lemma OthersRank(s: Store, score: Snapshot -> int, z: ZSet, out: seq<string>, orders: seq<Order>)
    requires Determines(s.encode, score) && IsDescending(z, out) && |out| == |z|
    requires IsGreatest(Board(s.history, s.encode, score), z, TOP_ORDERS_LIMIT) && Behind(s, score, z, out, orders)
    ensures OthersBelow(s, score, out, orders)
  {
    hide Determines, IsDescending, IsGreatest, Board, Behind, SnapshotOf, RanksBelow;
    forall o | o in s.history && s.encode(SnapshotOf(o)) !in out
      ensures |out| == |orders| == 10
      ensures forall i | 0 <= i < 10 :: RanksBelow(o, s.encode(SnapshotOf(o)), orders[i], out[i], score)
    {
      UnlistedRanks(s, score, z, out, orders, o);
    }
  }

  ghost predicate OthersBelow(s: Store, score: Snapshot -> int, out: seq<string>, orders: seq<Order>)
    reads s
  {
    forall o | o in s.history && s.encode(SnapshotOf(o)) !in out ::
      |out| == |orders| == 10
      && forall i | 0 <= i < 10 :: RanksBelow(o, s.encode(SnapshotOf(o)), orders[i], out[i], score)
  }

  /** The same, field by field. */
  lemma RankingSaid(s: Store, ranking: string, out: seq<string>, orders: seq<Order>)
    requires |out| == |orders| && OthersBelow(s, ScoreBy(ranking), out, orders)
    requires forall i, j | 0 <= i < j < |out| :: RanksBelow(orders[j], out[j], orders[i], out[i], ScoreBy(ranking))
    ensures var score := (o: Order) => if ranking == "line_items" then Units(o)
                                       else if ranking == "max_item" then MaxItem(o.items) else o.total;
            && (forall i, j | 0 <= i < j < |out| ::
                  || score(orders[j]) < score(orders[i])
                  || (score(orders[j]) == score(orders[i]) && Lex.Less(out[j], out[i])))
            && (forall o | o in s.history ::
                  var text := s.encode(Snapshot(o.id, o.customer.name, o.shipTo.state, o.total, Units(o),
                                                MaxItem(o.items), MaxItemName(o.items), o.createdAt / 1000));
                  text !in out ==>
                    && |out| == 10
                    && forall i | 0 <= i < 10 ::
                         score(o) < score(orders[i]) || (score(o) == score(orders[i]) && Lex.Less(text, out[i])))
  {
    hide Units, MaxItem, MaxItemName;
  }

  /** `o` has a smaller score than `p`, or the same and the smaller text. */
  ghost predicate RanksBelow(o: Order, text: string, p: Order, text': string, score: Snapshot -> int) {
    || score(SnapshotOf(o)) < score(SnapshotOf(p))
    || (score(SnapshotOf(o)) == score(SnapshotOf(p)) && Lex.Less(text, text'))
  }

  lemma BoardRead(s: Store, ranking: string)
    requires s.Valid()
    ensures var z := if ranking == "line_items" then s.topByLineItems
                     else if ranking == "max_item" then s.topByMaxItem else s.topByTotal;
            z == Top(Board(s.history, s.encode, ScoreBy(ranking)), TOP_ORDERS_LIMIT)
    ensures Determines(s.encode, ScoreBy(ranking))
  {
    hide Top, Board, Determines;
  }

  lemma OrdersShown(s: Store, score: Snapshot -> int, z: ZSet, out: seq<string>) returns (orders: seq<Order>)
    requires Determines(s.encode, score) && IsDescending(z, out)
    requires SubMap(z, Board(s.history, s.encode, score))
    ensures Behind(s, score, z, out, orders)
  {
    hide Board, SnapshotOf, Determines;
    BoardEntries(s.history, s.encode, score);
    orders := [];
    for i := 0 to |out|
      invariant |orders| == i
      invariant forall k | 0 <= k < i ::
                  && orders[k] in s.history && out[k] == s.encode(SnapshotOf(orders[k]))
                  && out[k] in z && z[out[k]] == score(SnapshotOf(orders[k]))
    {
      assert out[i] in (set m | m in out) && out[i] in z;
      var o :| o in s.history && out[i] == s.encode(SnapshotOf(o));
      orders := orders + [o];
    }
  }

  /** Orders whose scores stand in the table under their texts. */
  ghost predicate Behind(s: Store, score: Snapshot -> int, z: ZSet, out: seq<string>, orders: seq<Order>)
    reads s
  {
    && |orders| == |out|
    && forall i | 0 <= i < |out| ::
         && orders[i] in s.history && out[i] == s.encode(SnapshotOf(orders[i]))
         && out[i] in z && z[out[i]] == score(SnapshotOf(orders[i]))
  }

  lemma UnlistedRanks(s: Store, score: Snapshot -> int, z: ZSet, out: seq<string>, orders: seq<Order>, o: Order)
    requires Determines(s.encode, score) && IsDescending(z, out) && |out| == |z|
    requires IsGreatest(Board(s.history, s.encode, score), z, TOP_ORDERS_LIMIT) && Behind(s, score, z, out, orders)
    requires o in s.history && s.encode(SnapshotOf(o)) !in out
    ensures |out| == |orders| == 10
    ensures forall i | 0 <= i < 10 :: RanksBelow(o, s.encode(SnapshotOf(o)), orders[i], out[i], score)
  {
    hide Board, Determines, SnapshotOf;
    var board, text := Board(s.history, s.encode, score), s.encode(SnapshotOf(o));
    BoardEntries(s.history, s.encode, score);
    assert text in board && text !in (set m | m in out);
    assert z.Keys <= board.Keys && text !in z.Keys;
    SubsetSize(z.Keys, board.Keys);
    forall i | 0 <= i < 10
      ensures RanksBelow(o, text, orders[i], out[i], score)
    {
      var m := out[i];
      assert m in z && m in board && Before(board, text, m);
    }
  }

  lemma ListedRank(s: Store, score: Snapshot -> int, z: ZSet, out: seq<string>, orders: seq<Order>)
    requires IsDescending(z, out) && Behind(s, score, z, out, orders)
    ensures forall i, j | 0 <= i < j < |out| :: RanksBelow(orders[j], out[j], orders[i], out[i], score)
  {
    hide SnapshotOf;
  }

  // --- pairs ---

  datatype PairRow = PairRow(skuA: string, nameA: string, skuB: string, nameB: string, count: int)

  function NameOf(s: Store, sku: string): string
    reads s
  {
    if sku in s.productMeta then s.productMeta[sku].name else ""
  }

  /** Every stored key is that of two distinct non-empty SKUs of one order. */
  lemma StoredKeysAreReal(h: seq<Order>, k: string) returns (o: Order, a: string, b: string)
    requires k in PairsAfter(h)
    ensures o in h && a in Skus(o) && b in Skus(o)
    ensures k == PairKey(a, b) && Lex.Less(a, b) && a != ""
  {
    hide PairsAfter;
    EverCounted(h, k);
    var e :| e in T.Collect(h, Pairs) && e.key == k;
    T.InCollect(h, Pairs, e);
    o :| o in h && e in Pairs(o);
    KeysOfOrder(o.items, |o.items|, e);
    var p, q :| p in o.items && q in o.items && e in PairEvent(p.product.sku, q.product.sku);
    a, b := Sorted(p.product.sku, q.product.sku);
  }

  lemma {:induction false} EverCounted(h: seq<Order>, k: string)
    requires k in PairsAfter(h)
    ensures k in T.Keys(T.Collect(h, Pairs))
  {
    hide Pairs, T.Bump;
    var n := |h| - 1;
    assert h == h[..n] + [h[n]];
    AfterIsTop(h);
    BumpScore(PairsAfter(h[..n]), Pairs(h[n]), k);
    T.CollectSnoc(h[..n], h[n], Pairs);
    if k in PairsAfter(h[..n]) {
      EverCounted(h[..n], k);
      var e :| e in T.Collect(h[..n], Pairs) && e.key == k;
      assert e in T.Collect(h, Pairs);
    } else {
      var e :| e in Pairs(h[n]) && e.key == k;
      assert e in T.Collect(h, Pairs);
    }
  }

  /** The row for a stored key, split at its first bar; none when nothing stands before that bar. */
  function RowOf(s: Store, key: string): seq<PairRow>
    reads s
  {
    var bar := FirstBar(key);
    if bar < |key| && key[..bar] != "" && key in s.topPairs then
      var a, b := key[..bar], key[bar + 1..];
      [PairRow(a, NameOf(s, a), b, NameOf(s, b), s.topPairs[key])]
    else []
  }

  function RowsOf(s: Store, keys: seq<string>): seq<PairRow>
    reads s
  {
    if keys == [] then [] else RowsOf(s, keys[..|keys| - 1]) + RowOf(s, keys[|keys| - 1])
  }

  lemma NoRows(s: Store)
    ensures RowsOf(s, []) == []
  {}

  lemma NextRow(s: Store, keys: seq<string>, i: nat)
    requires i < |keys| && keys[i] in s.topPairs
    ensures var m := keys[i];
            var bar := FirstBar(m);
            RowsOf(s, keys[..i + 1])
            == if bar < |m| && m[..bar] != "" then
                 var a, b := m[..bar], m[bar + 1..];
                 RowsOf(s, keys[..i]) + [PairRow(a, NameOf(s, a), b, NameOf(s, b), s.topPairs[m])]
               else RowsOf(s, keys[..i])
  {
    hide NameOf, FirstBar;
    assert keys[..i + 1][..i] == keys[..i];
  }

  /**
    The best pairs, 20 by default, with both SKUs recovered from the stored key: the rows of `keys`, from
    the best on, and no other stored pair has a better rank.
  */
  method TopPairs(s: Store, limit: int) returns (out: seq<PairRow>, ghost keys: seq<string>)
    ensures out == RowsOf(s, keys)
    ensures |keys| == var wanted := if limit <= 0 then 20 else limit;
                      if |s.topPairs| < wanted then |s.topPairs| else wanted
    ensures forall i, j | 0 <= i < j < |keys| ::
              && keys[i] in s.topPairs && keys[j] in s.topPairs
              && (|| s.topPairs[keys[j]] < s.topPairs[keys[i]]
                  || (s.topPairs[keys[j]] == s.topPairs[keys[i]] && Lex.Less(keys[j], keys[i])))
    ensures forall k, i | k in s.topPairs && k !in keys && 0 <= i < |keys| ::
              && keys[i] in s.topPairs
              && (|| s.topPairs[k] < s.topPairs[keys[i]]
                  || (s.topPairs[k] == s.topPairs[keys[i]] && Lex.Less(k, keys[i])))
  {
    hide RevRange, NameOf, FirstBar, RowOf, RowsOf, IsDescending, Lex.Less;
    NoRows(s);
    var wanted := if limit <= 0 then 20 else limit;
    var all := RevRange(s.topPairs);
    RevRangeIsDescending(s.topPairs);
    var n := Min(wanted, |all|);
    keys := all[..n];
    BestComeFirst(s.topPairs, all, n, keys);
    out := [];
    for i := 0 to n
      invariant out == RowsOf(s, all[..i])
    {
      var m := all[i];
      assert m in all && m in s.topPairs;
      NextRow(s, all, i);
      var bar := FirstBar(m);
      if bar < |m| && m[..bar] != "" {
        var a, b := m[..bar], m[bar + 1..];
        out := out + [PairRow(a, NameOf(s, a), b, NameOf(s, b), s.topPairs[m])];
      }
    }
  }

  lemma BestComeFirst(z: ZSet, all: seq<string>, n: nat, keys: seq<string>)
    requires IsDescending(z, all) && n <= |all| && keys == all[..n]
    ensures forall m | m in all :: m in z
    ensures forall i, j | 0 <= i < j < |keys| ::
              && keys[i] in z && keys[j] in z
              && (z[keys[j]] < z[keys[i]] || (z[keys[j]] == z[keys[i]] && Lex.Less(keys[j], keys[i])))
    ensures forall k, i | k in z && k !in keys && 0 <= i < |keys| ::
              && keys[i] in z
              && (z[k] < z[keys[i]] || (z[k] == z[keys[i]] && Lex.Less(k, keys[i])))
  {
    hide Lex.Less;
    assert forall j | 0 <= j < n :: keys[j] == all[j] && all[j] in keys;
    forall m | m in all ensures m in z { assert m in (set x | x in all); }
    forall k, i | k in z && k !in keys && 0 <= i < n
      ensures all[i] in z && Before(z, k, all[i])
    {
      assert k in (set m | m in all);
      var j :| 0 <= j < |all| && all[j] == k;
      assert i < j;
    }
  }

  /**
    A stored key has a row exactly when something stands before its first bar: the two parts, the names
    on record, empty where there is none, and the stored count.
  */
  lemma RowOfIff(s: Store, key: string, row: PairRow)
    requires key in s.topPairs
    ensures RowOf(s, key) == [row]
            <==> && key == row.skuA + "|" + row.skuB && row.skuA != "" && '|' !in row.skuA
                 && row.nameA == (if row.skuA in s.productMeta then s.productMeta[row.skuA].name else "")
                 && row.nameB == (if row.skuB in s.productMeta then s.productMeta[row.skuB].name else "")
                 && row.count == s.topPairs[key]
    ensures RowOf(s, key) == [] <==> '|' !in key || key[0] == '|'
  {
    hide FirstBar;
    var bar := FirstBar(key);
    FirstBarIsFirst(key);
    if bar < |key| {
      assert key == key[..bar] + "|" + key[bar + 1..];
    }
    if key == row.skuA + "|" + row.skuB && '|' !in row.skuA {
      FirstBarOfKey(row.skuA, row.skuB);
      assert key[..|row.skuA|] == row.skuA && key[|row.skuA| + 1..] == row.skuB;
    }
  }

  lemma {:induction false} FirstBarIsFirst(m: string)
    ensures var i := FirstBar(m);
            '|' !in m[..i] && if i < |m| then m[i] == '|' else '|' !in m
  {
    if m != [] && m[0] != '|' {
      FirstBarIsFirst(m[1..]);
      var i := FirstBar(m[1..]);
      assert m[..i + 1] == [m[0]] + m[1..][..i] && m == [m[0]] + m[1..];
    }
  }

  /**
    Behind every stored key are two SKUs of one order.  Its row shows that pair, with its stored count
    and the names on record, exactly when the smaller SKU has no bar.
  */
  lemma RowShowsPairIff(s: Store, key: string) returns (o: Order, a: string, b: string)
    requires s.Valid() && key in s.topPairs
    ensures o in s.history && a in Skus(o) && b in Skus(o)
    ensures a != "" && Lex.Less(a, b) && key == PairKey(a, b)
    ensures RowOf(s, key) == [PairRow(a, NameOf(s, a), b, NameOf(s, b), s.topPairs[key])] <==> '|' !in a
  {
    hide PairsAfter, PairKey, FirstBar, NameOf, Skus;
    o, a, b := StoredKeysAreReal(s.history, key);
    Asymmetric(a, b);
    SplitRecoversPair(a, b);
  }

  /** When all orders come from one writer, every stored pair has a row, with the catalog's names. */
  lemma RowNamesProducts(s: Store, pool: Pool, key: string) returns (i: nat, j: nat)
    requires s.Valid() && key in s.topPairs
    requires pool.WellFormed() && forall o | o in s.history :: WriterBuilt(o, pool)
    ensures i < |pool.products| && j < |pool.products| && i != j
    ensures key == pool.products[i].sku + "|" + pool.products[j].sku
    ensures RowOf(s, key) == [PairRow(pool.products[i].sku, pool.products[i].name,
                                      pool.products[j].sku, pool.products[j].name, s.topPairs[key])]
  {
    hide s.Valid, WriterBuilt, FirstBar, SkuName, PairsAfter, RowOf, Skus;
    var o, a, b := RowShowsPairIff(s, key);
    WriterOrdersAreBarFree(o, pool);
    i := SoldProduct(s, pool, o, a);
    j := SoldProduct(s, pool, o, b);
    Lex.Irreflexive(a);
    Asymmetric(a, b);
    RowOfIff(s, key, PairRow(a, pool.products[i].name, b, pool.products[j].name, s.topPairs[key]));
  }

  /** A SKU of an applied order is that of a catalog product whose name is on record. */
  lemma SoldProduct(s: Store, pool: Pool, o: Order, sku: string) returns (i: nat)
    requires s.Valid() && o in s.history && sku in Skus(o)
    requires pool.WellFormed() && forall o | o in s.history :: WriterBuilt(o, pool)
    ensures i < |pool.products| && sku == pool.products[i].sku && '|' !in sku
    ensures sku in s.productMeta && s.productMeta[sku].name == pool.products[i].name
  {
    hide WriterBuilt, SkuName, T.Tally, T.Collect;
    var items := ItemsOf(s.history);
    ItemsArePriced(s.history, pool);
    var li :| li in o.items && li.product.sku == sku;
    var f := (o: Order) => o.items;
    assert li in f(o);
    T.InCollect(s.history, f, li);
    assert li in items;
    assert PricedBy(li, pool);
    i :| 0 <= i < |pool.products| && li.product == pool.products[i];
    SkuNames(i, i);
    CollectItems(s.history, ItemSkuUnits, ProductUnits);
    UnitsOfItem(items, li);
    MetadataIsTheCatalogs(s, pool, i);
  }

  /** The row shows the pair behind a stored key, its stored count, and the names on record. */
  ghost predicate IsRowOf(s: Store, key: string, row: PairRow)
    reads s
  {
    && key in s.topPairs && row.count == s.topPairs[key]
    && Lex.Less(row.skuA, row.skuB) && row.skuA != "" && key == PairKey(row.skuA, row.skuB)
    && row.nameA == NameOf(s, row.skuA) && row.nameB == NameOf(s, row.skuB)
  }

  lemma CleanRow(s: Store, key: string)
    requires s.Valid() && (forall o | o in s.history :: BarFree(o)) && key in s.topPairs
    ensures exists row :: RowOf(s, key) == [row] && IsRowOf(s, key, row)
  {
    hide PairsAfter, PairKey, FirstBar, NameOf, RowOf;
    var o, a, b := RowShowsPairIff(s, key);
    var row := PairRow(a, NameOf(s, a), b, NameOf(s, b), s.topPairs[key]);
    assert RowOf(s, key) == [row] && IsRowOf(s, key, row);
  }

  /** Without bars in any SKU no row is missing and every row shows its pair. */
  lemma {:induction false} CleanRows(s: Store, keys: seq<string>)
    requires s.Valid() && (forall o | o in s.history :: BarFree(o)) && forall m | m in keys :: m in s.topPairs
    ensures |RowsOf(s, keys)| == |keys|
    ensures forall i | 0 <= i < |keys| :: IsRowOf(s, keys[i], RowsOf(s, keys)[i])
    decreases |keys|
  {
    hide RowOf, IsRowOf, BarFree, PairsAfter, s.Valid;
    if keys != [] {
      var n := |keys| - 1;
      var key := keys[n];
      assert keys == keys[..n] + [key] && key in keys;
      CleanRows(s, keys[..n]);
      CleanRow(s, key);
    }
  }

  // --- revenue concentration ---

  /** `products` products hold `cum` of the revenue; the share is cum / total. */
  datatype Point = Point(percent: int, products: nat, cum: int)

  const PERCENTILES: seq<int> := [1, 5, 10, 20, 50, 80, 100]

  /** How many of n products a percentile takes: truncated, at least one, at most all. */
  function Taken(n: nat, percent: int): (k: nat)
    requires n > 0 && 0 < percent
    ensures 1 <= k <= n
  {
    var k := n * percent / 100;
    if k < 1 then 1 else if k > n then n else k
  }

  lemma TakenIs(n: nat, percent: int)
    requires n > 0 && 0 < percent <= 100
    ensures var k := Taken(n, percent);
            1 <= k <= n && (100 * k <= n * percent < 100 * (k + 1) || (k == 1 && n * percent < 100))
  {
    var k := n * percent / 100;
    assert n * percent <= n * 100 by { Scale(100, percent, n); }
    assert 100 * k <= n * percent < 100 * (k + 1);
  }

  lemma TakenIsMonotone(n: nat, p: int, q: int)
    requires n > 0 && 0 < p <= q
    ensures Taken(n, p) <= Taken(n, q)
  {
    var a, b := n * p, n * q;
    assert a <= b by { Scale(q, p, n); }
    assert a / 100 <= b / 100;
  }

  lemma TakenOfAll(n: nat)
    requires n > 0
    ensures Taken(n, 100) == n
  {}

  method RevenueConcentration(s: Store) returns (total: int, curve: seq<Point>)
    ensures total == T.Total(s.productRevenue)
    ensures curve == [] <==> total == 0 || s.productRevenue == map[]
    ensures curve != [] ==> |curve| == 7
    // Each point takes its percentage of the products, rounded down but one at least, the best first.
    ensures forall i | 0 <= i < |curve| ::
              var n, percent, k := |s.productRevenue|, [1, 5, 10, 20, 50, 80, 100][i], curve[i].products;
              && curve[i].percent == percent && 1 <= k <= n
              && (100 * k <= n * percent < 100 * (k + 1) || (k == 1 && n * percent < 100))
              && curve[i].cum == TopSum(s.productRevenue, k)
    ensures forall i | 0 <= i < |curve| :: OnCurve(s.productRevenue, curve[i], PERCENTILES[i])
  {
    hide T.Total, RevRange, TopSum, Taken;
    var z := s.productRevenue;
    var all := RevRange(z);
    RevRangeIsDescending(z);
    TopSumOfAll(z);
    total := AddFirst(z, all, |all|);
    curve := [];
    if |all| == 0 || total == 0 {
      return;
    }
    for i := 0 to |PERCENTILES|
      invariant |curve| == i
      invariant forall k | 0 <= k < i :: OnCurve(z, curve[k], PERCENTILES[k])
    {
      var percent := PERCENTILES[i];
      var n := Taken(|all|, percent);
      var cum := AddFirst(z, all, n);
      curve := curve + [Point(percent, n, cum)];
    }
    forall i | 0 <= i < 7
      ensures var n, percent, k := |z|, [1, 5, 10, 20, 50, 80, 100][i], curve[i].products;
              && curve[i].percent == percent && 1 <= k <= n
              && (100 * k <= n * percent < 100 * (k + 1) || (k == 1 && n * percent < 100))
              && curve[i].cum == TopSum(z, k)
    {
      TakenIs(|z|, PERCENTILES[i]);
    }
  }

  /** The loops that accumulate the total and each point's revenue. */
  method AddFirst(z: ZSet, all: seq<string>, n: nat) returns (cum: int)
    requires all == RevRange(z) && n <= |all| == |z|
    ensures cum == TopSum(z, n)
  {
    hide T.Sum, RevRange, TopSum;
    NoSum(z, all);
    cum := 0;
    for i := 0 to n
      invariant cum == T.Sum(all[..i], m => Score(z, m))
    {
      AddNext(z, all, i);
      cum := cum + Score(z, all[i]);
    }
    ListingSum(z, n);
  }

  lemma NoSum(z: ZSet, all: seq<string>)
    ensures T.Sum(all[..0], m => Score(z, m)) == 0
  {}

  lemma AddNext(z: ZSet, all: seq<string>, i: nat)
    requires i < |all|
    ensures T.Sum(all[..i + 1], m => Score(z, m)) == T.Sum(all[..i], m => Score(z, m)) + Score(z, all[i])
  {
    assert all[..i + 1] == all[..i] + [all[i]];
    T.SumSnoc(all[..i], all[i], m => Score(z, m));
  }

  ghost predicate OnCurve(z: ZSet, point: Point, percent: int) {
    && 0 < percent && z != map[]
    && point == Point(percent, Taken(|z|, percent), TopSum(z, Taken(|z|, percent)))
  }

  /** The shape of the curve. */
  lemma CurveIsPareto(z: ZSet, p: Point, q: Point, i: nat, j: nat)
    requires i <= j < |PERCENTILES| && OnCurve(z, p, PERCENTILES[i]) && OnCurve(z, q, PERCENTILES[j])
    // A point is the best that many products can do, and some choice of them does it.
    ensures forall t | SubMap(t, z) && |t| == p.products :: T.Total(t) <= p.cum
    ensures exists t :: SubMap(t, z) && |t| == p.products && T.Total(t) == p.cum
    // Points rise to the right, from at least the uniform share up to everything.
    ensures p.products <= q.products
    ensures NonNegative(z) ==> 0 <= p.cum <= q.cum
    ensures p.cum * |z| >= T.Total(z) * p.products
    ensures p.percent == 100 ==> p.products == |z| && p.cum == T.Total(z)
  {
    hide T.Total, TopSum, Taken, NonNegative;
    forall t | SubMap(t, z) && |t| == p.products
      ensures T.Total(t) <= p.cum
    {
      TopSumIsBest(z, t);
    }
    var best := BestChoice(z, p.products);
    TakenIsMonotone(|z|, p.percent, q.percent);
    if NonNegative(z) {
      TopSumIsMonotone(z, p.products, q.products);
    }
    ShareIsAtLeastUniform(z, p.products);
    TopSumOfAll(z);
    TakenOfAll(|z|);
  }
}
