/** The market-basket table: pair counts, trimmed to the 200 best after every order. */
module PairTable {
  import Lex
  import opened Collections
  import opened SortedSets
  import opened Orders
  import opened Tallies

  /** The table after each order of the history was counted in and the table trimmed. */
  function PairsAfter(h: seq<Order>): ZSet {
    if h == [] then map[]
    else Trim(Bump(PairsAfter(h[..|h| - 1]), Pairs(h[|h| - 1])), TOP_PAIRS_LIMIT)
  }

  lemma PairsAfterOne(h: seq<Order>, o: Order)
    ensures PairsAfter(h + [o]) == Trim(Bump(PairsAfter(h), Pairs(o)), TOP_PAIRS_LIMIT)
  {
    hide Bump, Trim, Pairs;
    var g := h + [o];
    assert g[..|g| - 1] == h && g[|g| - 1] == o;
  }

  /** One turn of the inner loop of the script. */
  lemma CountOnePair(z: ZSet, items: seq<LineItem>, i: nat, j: nat)
    requires i < j < |items|
    ensures var a, b := items[i].product.sku, items[j].product.sku;
            var counted := Bump(z, PairsBefore(items, i) + RowPairs(items, i, j));
            Bump(z, PairsBefore(items, i) + RowPairs(items, i, j + 1))
            == if a == "" || b == "" || a == b then counted else IncrBy(counted, PairKey(a, b), 1)
  {
    hide Bump, PairKey, PairsBefore;
    var a, b := items[i].product.sku, items[j].product.sku;
    var before := PairsBefore(items, i) + RowPairs(items, i, j);
    if PairEvent(a, b) == [] {
      assert PairsBefore(items, i) + RowPairs(items, i, j + 1) == before;
    } else {
      assert PairsBefore(items, i) + RowPairs(items, i, j + 1) == before + [Event(PairKey(a, b), 1)];
      BumpSnoc(z, before, Event(PairKey(a, b), 1));
    }
  }

  lemma NoPairs(z: ZSet, items: seq<LineItem>)
    ensures Bump(z, PairsBefore(items, 0)) == z
  {}

  lemma RowBounds(items: seq<LineItem>, i: nat)
    requires i < |items|
    ensures PairsBefore(items, i) + RowPairs(items, i, i + 1) == PairsBefore(items, i)
    ensures PairsBefore(items, i) + RowPairs(items, i, |items|) == PairsBefore(items, i + 1)
  {}

  // --- what survives the trimming ---

  lemma {:induction false} BumpScore(z: ZSet, es: seq<Event>, k: string)
    ensures k in Bump(z, es) <==> k in z || k in Keys(es)
    ensures Score(Bump(z, es), k) == Score(z, k) + Amount(es, k)
  {
    if es != [] {
      var n := |es| - 1;
      BumpScore(z, es[..n], k);
      assert es == es[..n] + [es[n]];
      assert Keys(es) == Keys(es[..n]) + {es[n].key};
    }
  }

  lemma AfterIsTop(h: seq<Order>)
    requires h != []
    ensures var counted := Bump(PairsAfter(h[..|h| - 1]), Pairs(h[|h| - 1]));
            PairsAfter(h) == Top(counted, TOP_PAIRS_LIMIT)
  {
    TrimIsTop(Bump(PairsAfter(h[..|h| - 1]), Pairs(h[|h| - 1])), TOP_PAIRS_LIMIT);
  }

  /** The table never holds more than 200 pairs. */
  lemma TableIsBounded(h: seq<Order>)
    ensures |PairsAfter(h)| <= 200
  {
    if h != [] {
      AfterIsTop(h);
      TopSize(Bump(PairsAfter(h[..|h| - 1]), Pairs(h[|h| - 1])), TOP_PAIRS_LIMIT);
    }
  }

  /** What the orders from index `from` on contributed to pair `k`. */
  function CountSince(h: seq<Order>, from: nat, k: string): int
    requires from <= |h|
  {
    Amount(Collect(h[from..], Pairs), k)
  }

  /**
    A stored score is the exact count of the pair over some final stretch of the history: all that
    eviction can do is forget everything before a point.
  */
  lemma {:induction false} StoredCountsASuffix(h: seq<Order>, k: string)
    requires k in PairsAfter(h)
    ensures exists from | 0 <= from <= |h| :: PairsAfter(h)[k] == CountSince(h, from, k)
  {
    hide Bump, Pairs, CountSince, Amount;
    var n := |h| - 1;
    var rest, o := h[..n], h[n];
    assert h == rest + [o];
    AfterIsTop(h);
    BumpScore(PairsAfter(rest), Pairs(o), k);
    var from: nat := n;
    if k in PairsAfter(rest) {
      StoredCountsASuffix(rest, k);
      from :| 0 <= from <= n && PairsAfter(rest)[k] == CountSince(rest, from, k);
    } else {
      NothingSince(rest, k);
    }
    CountSinceSnoc(rest, o, from, k);
  }

  lemma NothingSince(h: seq<Order>, k: string)
    ensures CountSince(h, |h|, k) == 0
  {
    assert h[|h|..] == [];
  }

  lemma CountSinceSnoc(h: seq<Order>, o: Order, from: nat, k: string)
    requires from <= |h|
    ensures CountSince(h + [o], from, k) == CountSince(h, from, k) + Amount(Pairs(o), k)
  {
    hide Pairs, Amount;
    assert (h + [o])[from..] == h[from..] + [o];
    CollectSnoc(h[from..], o, Pairs);
    AmountAppend(Collect(h[from..], Pairs), Pairs(o), k);
  }

  lemma AmountOfNone(k: string)
    ensures Amount([], k) == 0
  {}

  lemma EventIsNatural(a: string, b: string, k: string)
    ensures Amount(PairEvent(a, b), k) >= 0
  {
    AmountOfOne(Event(PairKey(a, b), 1), k);
  }

  lemma {:induction false} RowAmountIsNatural(items: seq<LineItem>, i: nat, j: nat, k: string)
    requires i < j <= |items|
    ensures Amount(RowPairs(items, i, j), k) >= 0
  {
    hide Amount, PairKey;
    if j == i + 1 {
      AmountOfNone(k);
    } else {
      var sku, last := items[i].product.sku, items[j - 1].product.sku;
      RowAmountIsNatural(items, i, j - 1, k);
      AmountAppend(RowPairs(items, i, j - 1), PairEvent(sku, last), k);
      EventIsNatural(sku, last, k);
    }
  }

  lemma {:induction false} PairAmountIsNatural(items: seq<LineItem>, i: nat, k: string)
    requires i <= |items|
    ensures Amount(PairsBefore(items, i), k) >= 0
  {
    hide Amount, RowPairs;
    if i == 0 {
      AmountOfNone(k);
    } else {
      PairAmountIsNatural(items, i - 1, k);
      RowAmountIsNatural(items, i - 1, |items|, k);
      AmountAppend(PairsBefore(items, i - 1), RowPairs(items, i - 1, |items|), k);
    }
  }

  lemma {:induction false} CountIsNatural(h: seq<Order>, k: string)
    ensures Amount(Collect(h, Pairs), k) >= 0
  {
    if h != [] {
      var n := |h| - 1;
      CountIsNatural(h[..n], k);
      PairAmountIsNatural(h[n].items, |h[n].items|, k);
      AmountAppend(Collect(h[..n], Pairs), Pairs(h[n]), k);
    }
  }

  /** No stored score exceeds the true cumulative count. */
  lemma StoredNeverOvercounts(h: seq<Order>, k: string)
    requires k in PairsAfter(h)
    ensures PairsAfter(h)[k] <= Amount(Collect(h, Pairs), k)
  {
    StoredCountsASuffix(h, k);
    var from :| 0 <= from <= |h| && PairsAfter(h)[k] == CountSince(h, from, k);
    assert h == h[..from] + h[from..];
    CollectAppend(h[..from], h[from..], Pairs);
    AmountAppend(Collect(h[..from], Pairs), Collect(h[from..], Pairs), k);
    CountIsNatural(h[..from], k);
  }

  /** Until a 201st distinct pair turns up the table is the exact tally. */
  lemma {:induction false} ExactWhileFewPairs(h: seq<Order>)
    requires |Keys(Collect(h, Pairs))| <= 200
    ensures PairsAfter(h) == Tally(Collect(h, Pairs))
  {
    if h == [] {
      assert Collect(h, Pairs) == [];
    } else {
      var n := |h| - 1;
      var rest, o := h[..n], h[n];
      assert h == rest + [o];
      assert Keys(Collect(rest, Pairs)) <= Keys(Collect(h, Pairs)) by {
        CollectSnoc(rest, o, Pairs);
        forall e | e in Collect(rest, Pairs) ensures e in Collect(h, Pairs) {}
      }
      SubsetSize(Keys(Collect(rest, Pairs)), Keys(Collect(h, Pairs)));
      ExactWhileFewPairs(rest);
      TallyGrows(rest, o, Pairs);
      AfterIsTop(h);
      var exact := Tally(Collect(h, Pairs));
      assert exact.Keys == Keys(Collect(h, Pairs));
      TopOfFew(exact, TOP_PAIRS_LIMIT);
    }
  }

  lemma TopOfFew(z: ZSet, limit: nat)
    requires |z| <= limit
    ensures Top(z, limit) == z
  {
    forall m | m in z
      ensures m in Top(z, limit)
    {
      RanksPartition(z, m);
    }
  }

  // --- what one order adds ---

  function CountOf(items: seq<LineItem>, sku: string): int {
    Sum(items, (li: LineItem) => if li.product.sku == sku then 1 else 0)
  }

  lemma CountOfNone(sku: string)
    ensures CountOf([], sku) == 0
  {}

  function Skus(o: Order): set<string> {
    set li | li in o.items :: li.product.sku
  }

  predicate BarFree(o: Order) {
    forall li | li in o.items :: '|' !in li.product.sku
  }

  /** The first '|' of a text, where TopPairs splits it, or its length. */
  function FirstBar(m: string): (i: nat)
    ensures i <= |m|
  {
    if m == [] || m[0] == '|' then 0 else 1 + FirstBar(m[1..])
  }

  lemma {:induction false} FirstBarOfKey(a: string, b: string)
    ensures FirstBar(a + "|" + b) == |a| <==> '|' !in a
  {
    var m := a + "|" + b;
    if a != [] && a[0] != '|' {
      assert m[1..] == a[1..] + "|" + b;
      FirstBarOfKey(a[1..], b);
      assert '|' in a <==> '|' in a[1..] by { assert a == [a[0]] + a[1..]; }
    }
  }

  /** Splitting a stored key at its first bar gives back the pair exactly when the smaller SKU has no bar. */
  lemma SplitRecoversPair(a: string, b: string)
    requires !Lex.Less(b, a)
    ensures var m := PairKey(a, b);
            var i := FirstBar(m);
            (i < |m| && m[..i] == a && m[i + 1..] == b) <==> '|' !in a
  {
    FirstBarOfKey(a, b);
  }

  lemma Sorted(a: string, b: string) returns (p: string, q: string)
    requires a != b
    ensures (p == a && q == b) || (p == b && q == a)
    ensures Lex.Less(p, q) && !Lex.Less(q, p) && PairKey(a, b) == PairKey(b, a) == p + "|" + q
  {
    Lex.Connected(a, b);
    if Lex.Less(b, a) { p, q := b, a; } else { p, q := a, b; }
    if Lex.Less(q, p) {
      Lex.Transitive(p, q, p);
      Lex.Irreflexive(p);
    }
  }

  // --- the pairs behind a key ---

  predicate SplitsAt(k: string, i: nat)
    requires i < |k|
  {
    k[i] == '|' && k[..i] != "" && k[i + 1..] != "" && Lex.Less(k[..i], k[i + 1..])
  }

  /** The pairs of SKUs that splitting `k` at one of its first n characters gives. */
  function SplitsBefore(k: string, n: nat): (r: seq<(string, string)>)
    requires n <= |k|
    ensures forall i | 0 <= i < |r| :: |r[i].0| < n
    ensures Distinct(r)
  {
    if n == 0 then []
    else SplitsBefore(k, n - 1) + if SplitsAt(k, n - 1) then [(k[..n - 1], k[n..])] else []
  }

  /** Every unordered pair of distinct non-empty SKUs with this key, once, the smaller first. */
  function PairsWithKey(k: string): seq<(string, string)> {
    SplitsBefore(k, |k|)
  }

  lemma {:induction false} AreSplits(k: string, n: nat, a: string, b: string)
    requires n <= |k|
    ensures (a, b) in SplitsBefore(k, n)
            <==> |a| < n && a != "" && b != "" && Lex.Less(a, b) && k == a + "|" + b
  {
    if n > 0 {
      AreSplits(k, n - 1, a, b);
      assert |a| == n - 1 && k == a + "|" + b ==> k[..n - 1] == a && k[n..] == b;
      assert SplitsAt(k, n - 1) ==> k == k[..n - 1] + "|" + k[n..];
    }
  }

  lemma ArePairs(k: string, a: string, b: string)
    ensures (a, b) in PairsWithKey(k) <==> a != "" && b != "" && Lex.Less(a, b) && k == a + "|" + b
    ensures (a, b) in PairsWithKey(k) ==> a != b
  {
    AreSplits(k, |k|, a, b);
    Lex.Irreflexive(a);
  }

  // --- counting them ---

  /** One event counts for the pair it is made of. */
  function Hits(c: string, d: string): ((string, string)) -> int {
    (ab: (string, string)) => if ab == (c, d) || ab == (d, c) then 1 else 0
  }

  /** How often item i pairs up with items i+1 .. j-1 to a given pair. */
  function RowCount(items: seq<LineItem>, i: nat, j: nat): ((string, string)) -> int
    requires i < j <= |items|
  {
    var sku, later := items[i].product.sku, items[i + 1..j];
    (ab: (string, string)) =>
      if sku == ab.0 then CountOf(later, ab.1) else if sku == ab.1 then CountOf(later, ab.0) else 0
  }

  function CountProduct(items: seq<LineItem>): ((string, string)) -> int {
    (ab: (string, string)) => CountOf(items, ab.0) * CountOf(items, ab.1)
  }

  lemma EventAmount(c: string, d: string, k: string)
    ensures Amount(PairEvent(c, d), k) == Sum(PairsWithKey(k), Hits(c, d))
  {
    hide Sum, PairsWithKey, PairKey, Distinct;
    var pairs := PairsWithKey(k);
    DistinctPairs(k);
    if PairEvent(c, d) == [] {
      AmountOfNone(k);
      forall ab | ab in pairs ensures Hits(c, d)(ab) == 0 { ArePairs(k, ab.0, ab.1); }
      SumOfZeros(pairs, Hits(c, d));
    } else {
      var p, q := Sorted(c, d);
      ArePairs(k, p, q);
      AmountOfOne(Event(PairKey(c, d), 1), k);
      forall ab | ab in pairs && ab != (p, q) ensures Hits(c, d)(ab) == 0 { ArePairs(k, ab.0, ab.1); }
      SumOfOne(pairs, (p, q), Hits(c, d));
    }
  }

  lemma DistinctPairs(k: string)
    ensures Distinct(PairsWithKey(k))
  {}

  lemma CountSnoc(items: seq<LineItem>, i: nat, j: nat, sku: string)
    requires i <= j < |items|
    ensures CountOf(items[i..j + 1], sku) == CountOf(items[i..j], sku) + if items[j].product.sku == sku then 1 else 0
  {
    assert items[i..j + 1] == items[i..j] + [items[j]];
    SumSnoc(items[i..j], items[j], (li: LineItem) => if li.product.sku == sku then 1 else 0);
  }

  lemma {:induction false} RowAmount(items: seq<LineItem>, i: nat, j: nat, k: string)
    requires i < j <= |items|
    ensures Amount(RowPairs(items, i, j), k) == Sum(PairsWithKey(k), RowCount(items, i, j))
  {
    hide Amount, Sum, CountOf, PairKey, PairEvent, PairsWithKey;
    var pairs := PairsWithKey(k);
    if j == i + 1 {
      assert items[i + 1..j] == [];
      forall ab | ab in pairs ensures RowCount(items, i, j)(ab) == 0 {
        CountOfNone(ab.0);
        CountOfNone(ab.1);
      }
      SumOfZeros(pairs, RowCount(items, i, j));
      AmountOfNone(k);
    } else {
      var sku, last := items[i].product.sku, items[j - 1].product.sku;
      RowAmount(items, i, j - 1, k);
      AmountAppend(RowPairs(items, i, j - 1), PairEvent(sku, last), k);
      EventAmount(sku, last, k);
      forall ab | ab in pairs
        ensures RowCount(items, i, j)(ab) == RowCount(items, i, j - 1)(ab) + Hits(sku, last)(ab)
      {
        ArePairs(k, ab.0, ab.1);
        CountSnoc(items, i + 1, j - 1, ab.0);
        CountSnoc(items, i + 1, j - 1, ab.1);
      }
      SumAdd(pairs, RowCount(items, i, j - 1), Hits(sku, last), RowCount(items, i, j));
    }
  }

  lemma CountCons(items: seq<LineItem>, i: nat, sku: string)
    requires i < |items|
    ensures CountOf(items[i..], sku) == CountOf(items[i + 1..], sku) + if items[i].product.sku == sku then 1 else 0
  {
    assert items[i..] == [items[i]] + items[i + 1..];
    SumAppend([items[i]], items[i + 1..], (li: LineItem) => if li.product.sku == sku then 1 else 0);
    assert [items[i]][..0] == [];
  }

  lemma RowOfProduct(items: seq<LineItem>, i: nat, a: string, b: string)
    requires i < |items| && a != b
    ensures CountProduct(items[i..])((a, b))
            == RowCount(items, i, |items|)((a, b)) + CountProduct(items[i + 1..])((a, b))
  {
    hide CountOf;
    CountCons(items, i, a);
    CountCons(items, i, b);
    assert items[i + 1..|items|] == items[i + 1..];
  }

  lemma {:induction false} AmountBefore(items: seq<LineItem>, i: nat, k: string)
    requires i <= |items|
    ensures Amount(PairsBefore(items, i), k) + Sum(PairsWithKey(k), CountProduct(items[i..]))
            == Sum(PairsWithKey(k), CountProduct(items))
  {
    hide Amount, Sum, CountOf, PairKey, RowPairs, CountProduct, RowCount, PairsWithKey;
    if i == 0 {
      assert items[0..] == items;
      AmountOfNone(k);
    } else {
      var pairs := PairsWithKey(k);
      AmountBefore(items, i - 1, k);
      AmountAppend(PairsBefore(items, i - 1), RowPairs(items, i - 1, |items|), k);
      RowAmount(items, i - 1, |items|, k);
      forall ab | ab in pairs
        ensures CountProduct(items[i - 1..])(ab) == RowCount(items, i - 1, |items|)(ab) + CountProduct(items[i..])(ab)
      {
        ArePairs(k, ab.0, ab.1);
        RowOfProduct(items, i - 1, ab.0, ab.1);
      }
      SumAdd(pairs, RowCount(items, i - 1, |items|), CountProduct(items[i..]), CountProduct(items[i - 1..]));
    }
  }

  /**
    What an order adds to a key, whatever its SKUs: the sum of count(a)·count(b) over every unordered
    pair of distinct non-empty SKUs with that key.
  */
  lemma PairAmount(o: Order, k: string)
    ensures Amount(Pairs(o), k) == Sum(PairsWithKey(k), CountProduct(o.items))
  {
    hide Amount, Sum, CountOf, PairsWithKey;
    AmountBefore(o.items, |o.items|, k);
    assert o.items[|o.items|..] == [];
    forall ab | ab in PairsWithKey(k) ensures CountProduct([])(ab) == 0 {
      CountOfNone(ab.0);
      CountOfNone(ab.1);
    }
    SumOfZeros(PairsWithKey(k), CountProduct([]));
  }

  lemma {:induction false} CountIsPositive(items: seq<LineItem>, sku: string)
    ensures CountOf(items, sku) >= 0
    ensures CountOf(items, sku) > 0 <==> exists li | li in items :: li.product.sku == sku
  {
    if items == [] {
      CountOfNone(sku);
    } else {
      var n := |items| - 1;
      CountIsPositive(items[..n], sku);
      CountSnoc(items, 0, n, sku);
      assert items[0..n] == items[..n] && items[0..n + 1] == items && items == items[..n] + [items[n]];
      assert items[n] in items;
    }
  }

  lemma ProductIsPositive(o: Order, ab: (string, string))
    ensures CountProduct(o.items)(ab) >= 0
    ensures CountProduct(o.items)(ab) > 0 <==> ab.0 in Skus(o) && ab.1 in Skus(o)
  {
    hide CountOf;
    CountIsPositive(o.items, ab.0);
    CountIsPositive(o.items, ab.1);
    var x, y := CountOf(o.items, ab.0), CountOf(o.items, ab.1);
    assert x > 0 && y > 0 ==> x * y > 0;
    assert x == 0 || y == 0 ==> x * y == 0;
  }

  predicate SamePair(a: string, b: string, c: string, d: string) {
    (a == c && b == d) || (a == d && b == c)
  }

  /** Two different SKUs of the order, other than a and b, with the key of a and b. */
  predicate OthersShareKey(o: Order, a: string, b: string) {
    exists c, d | c in Skus(o) && d in Skus(o) ::
      c != "" && d != "" && c != d && PairKey(c, d) == PairKey(a, b) && !SamePair(c, d, a, b)
  }

  /** The key of a and b gets more than their own count from these. */
  predicate OtherTerm(o: Order, k: string, p: string, q: string, ab: (string, string)) {
    ab in PairsWithKey(k) && ab != (p, q) && CountProduct(o.items)(ab) != 0
  }

  lemma OthersAreTerms(o: Order, a: string, b: string) returns (p: string, q: string, ab: (string, string))
    requires a != b && OthersShareKey(o, a, b)
    ensures SamePair(p, q, a, b) && Lex.Less(p, q)
    ensures OtherTerm(o, PairKey(a, b), p, q, ab)
  {
    hide CountOf, PairsWithKey, Skus, PairKey, CountProduct;
    p, q := Sorted(a, b);
    var c, d :| c in Skus(o) && d in Skus(o)
                && c != "" && d != "" && c != d && PairKey(c, d) == PairKey(a, b) && !SamePair(c, d, a, b);
    var r, s := Sorted(c, d);
    ab := (r, s);
    ArePairs(PairKey(a, b), r, s);
    ProductIsPositive(o, ab);
  }

  lemma TermsAreOthers(o: Order, a: string, b: string, p: string, q: string, ab: (string, string))
    requires Lex.Less(p, q) && SamePair(p, q, a, b) && OtherTerm(o, PairKey(a, b), p, q, ab)
    ensures OthersShareKey(o, a, b)
  {
    hide CountOf, PairsWithKey, Skus, PairKey, CountProduct;
    var (c, d) := ab;
    ArePairs(PairKey(a, b), c, d);
    ProductIsPositive(o, ab);
    var r, s := Sorted(c, d);
    Asymmetric(p, q);
    Asymmetric(c, d);
    assert PairKey(c, d) == PairKey(a, b) && !SamePair(c, d, a, b);
  }

  lemma Asymmetric(p: string, q: string)
    requires Lex.Less(p, q)
    ensures !Lex.Less(q, p)
  {
    if Lex.Less(q, p) {
      Lex.Transitive(p, q, p);
      Lex.Irreflexive(p);
    }
  }

  /**
    An order adds count(a)·count(b) to the one key of an unordered pair of distinct SKUs, one when no
    SKU repeats, if and only if no other pair of its SKUs shares that key; if one does it adds more.
  */
  lemma PairCountIff(o: Order, a: string, b: string)
    requires a != b && a != "" && b != ""
    ensures PairKey(a, b) == PairKey(b, a)
    ensures Amount(Pairs(o), PairKey(a, b)) >= CountOf(o.items, a) * CountOf(o.items, b)
    ensures Amount(Pairs(o), PairKey(a, b)) == CountOf(o.items, a) * CountOf(o.items, b)
            <==> !OthersShareKey(o, a, b)
  {
    hide Amount, Sum, CountOf, PairsWithKey, Skus, Pairs, PairKey, OthersShareKey;
    var p, q := Sorted(a, b);
    var k := PairKey(a, b);
    PairAmount(o, k);
    ArePairs(k, p, q);
    DistinctPairs(k);
    forall ab | ab in PairsWithKey(k) ensures CountProduct(o.items)(ab) >= 0 { ProductIsPositive(o, ab); }
    SumIsOneTermIff(PairsWithKey(k), (p, q), CountProduct(o.items));
    if OthersShareKey(o, a, b) {
      var r, s, ab := OthersAreTerms(o, a, b);
      Asymmetric(p, q);
    } else {
      forall ab | ab in PairsWithKey(k) && ab != (p, q) ensures CountProduct(o.items)(ab) == 0 {
        if OtherTerm(o, k, p, q, ab) { TermsAreOthers(o, a, b, p, q, ab); }
      }
    }
  }

  /** The larger SKU of one pair starts, and the smaller of the other ends, with the same text and a bar between. */
  ghost predicate Overlap(p: string, q: string, r: string, s: string) {
    exists t :: r == p + "|" + t && q == t + "|" + s
  }

  /** When two pairs have the same key: they are the same, or a SKU of one continues across a bar of the other. */
  lemma SharedKeyIff(p: string, q: string, r: string, s: string)
    ensures p + "|" + q == r + "|" + s <==> (p == r && q == s) || Overlap(p, q, r, s) || Overlap(r, s, p, q)
  {
    var m := p + "|" + q;
    if m == r + "|" + s {
      if |p| < |r| {
        OverlapOfKey(p, q, r, s);
      } else if |r| < |p| {
        OverlapOfKey(r, s, p, q);
      } else {
        assert p == m[..|p|] == r && q == m[|p| + 1..] == s;
      }
    }
    if t :| r == p + "|" + t && q == t + "|" + s { assert m == p + "|" + t + "|" + s == r + "|" + s; }
    if t :| p == r + "|" + t && s == t + "|" + q { assert m == r + "|" + t + "|" + q == r + "|" + s; }
  }

  lemma OverlapOfKey(p: string, q: string, r: string, s: string)
    requires p + "|" + q == r + "|" + s && |p| < |r|
    ensures Overlap(p, q, r, s)
  {
    var m := p + "|" + q;
    var t := m[|p| + 1..|r|];
    assert m[..|r|] == r && m[|p|] == '|' && m[..|p|] == p && m[|p| + 1..] == q && m[|r|] == '|' && m[|r| + 1..] == s;
    assert r == p + "|" + t;
    assert q == t + "|" + s;
  }

  lemma BarInside(p: string, t: string)
    ensures '|' in p + "|" + t
  {
    assert (p + "|" + t)[|p|] == '|';
  }

  /** Without bars in its SKUs an order never shares a key. */
  lemma BarFreeNeverShares(o: Order, a: string, b: string)
    requires BarFree(o) && a in Skus(o) && b in Skus(o) && a != b
    ensures !OthersShareKey(o, a, b)
  {
    hide PairKey;
    forall c, d | c in Skus(o) && d in Skus(o) && c != d && PairKey(c, d) == PairKey(a, b)
      ensures SamePair(c, d, a, b)
    {
      var p, q := Sorted(a, b);
      var r, s := Sorted(c, d);
      SharedKeyIff(p, q, r, s);
      if t :| r == p + "|" + t && q == t + "|" + s { BarInside(p, t); }
      if t :| p == r + "|" + t && s == t + "|" + q { BarInside(r, t); }
    }
  }

  function ItemOf(sku: string): LineItem {
    LineItem(Product(sku, "", ""), 1, 0, 0)
  }

  /** With bars it can: the pair of a and b|c, each in the order once, is counted twice. */
  lemma BarsCollide(o: Order)
    requires o.items == [ItemOf("a"), ItemOf("b|c"), ItemOf("a|b"), ItemOf("c")]
    ensures CountOf(o.items, "a") * CountOf(o.items, "b|c") == 1
    ensures Amount(Pairs(o), PairKey("a", "b|c")) >= 2
  {
    hide Amount, Pairs, CountOf, Skus, PairKey, OthersShareKey;
    CountOfFour(o.items, "a");
    CountOfFour(o.items, "b|c");
    PairCountIff(o, "a", "b|c");
    OneKey();
    FourShare(o);
  }

  lemma OneKey()
    ensures PairKey("a|b", "c") == PairKey("a", "b|c")
  {
    Asymmetric("a", "b|c");
    Asymmetric("a|b", "c");
    assert "a" + "|" + "b|c" == "a|b" + "|" + "c";
  }

  lemma FourShare(o: Order)
    requires o.items == [ItemOf("a"), ItemOf("b|c"), ItemOf("a|b"), ItemOf("c")]
    ensures OthersShareKey(o, "a", "b|c")
  {
    hide PairKey;
    OneKey();
    var third, fourth := o.items[2], o.items[3];
    assert third in o.items && fourth in o.items;
    assert "a|b" in Skus(o) && "c" in Skus(o);
    assert |"a|b"| == 3 && |"a"| == 1 && |"c"| == 1 && "c"[0] != "a"[0];
    assert !SamePair("a|b", "c", "a", "b|c");
  }

  lemma CountOfFour(items: seq<LineItem>, sku: string)
    requires |items| == 4
    ensures CountOf(items, sku)
            == (if items[0].product.sku == sku then 1 else 0) + (if items[1].product.sku == sku then 1 else 0)
               + (if items[2].product.sku == sku then 1 else 0) + (if items[3].product.sku == sku then 1 else 0)
  {
    CountCons(items, 0, sku);
    CountCons(items, 1, sku);
    CountCons(items, 2, sku);
    CountCons(items, 3, sku);
    assert items[0..] == items && items[4..] == [];
    CountOfNone(sku);
  }

  lemma {:induction false} RowKeys(items: seq<LineItem>, i: nat, j: nat, e: Event)
    requires i < j <= |items| && e in RowPairs(items, i, j)
    ensures exists p, q | p in items && q in items :: e in PairEvent(p.product.sku, q.product.sku)
  {
    if j > i + 1 {
      if e in RowPairs(items, i, j - 1) {
        RowKeys(items, i, j - 1, e);
      } else {
        assert items[i] in items && items[j - 1] in items;
      }
    }
  }

  /** Every key an order counts is the key of two distinct non-empty SKUs of that order. */
  lemma {:induction false} KeysOfOrder(items: seq<LineItem>, i: nat, e: Event)
    requires i <= |items| && e in PairsBefore(items, i)
    ensures exists p, q | p in items && q in items :: e in PairEvent(p.product.sku, q.product.sku)
  {
    if i > 0 {
      if e in PairsBefore(items, i - 1) {
        KeysOfOrder(items, i - 1, e);
      } else {
        RowKeys(items, i - 1, |items|, e);
      }
    }
  }
}
