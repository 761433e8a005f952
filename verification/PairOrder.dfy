/**
  The pair table does depend on the order of the history, once more than 200 pairs compete: what an
  eviction forgets depends on when it happens.
*/
module PairOrder {
  import Lex
  import opened Collections
  import opened SortedSets
  import opened Orders
  import opened Tallies
  import opened PairTable

  // --- a rival: one order with at least 200 pairs, each counted once, all ranking above key k ---

  ghost predicate Rivals(o: Order, k: string) {
    && |Keys(Pairs(o))| >= TOP_PAIRS_LIMIT
    && forall x | x in Keys(Pairs(o)) :: Lex.Less(k, x) && Amount(Pairs(o), x) == 1
  }

  ghost predicate CountsOnly(o: Order, k: string) {
    Pairs(o) == [Event(k, 1)]
  }

  lemma TableStep(h: seq<Order>, o: Order)
    ensures PairsAfter(h + [o]) == Top(Bump(PairsAfter(h), Pairs(o)), TOP_PAIRS_LIMIT)
  {
    hide Bump, Top, Pairs;
    var g := h + [o];
    AfterIsTop(g);
    assert g[..|g| - 1] == h && g[|g| - 1] == o;
  }

  /** Alone, the pair is counted once per order. */
  lemma CountedAlone(o: Order, k: string)
    requires CountsOnly(o, k)
    ensures PairsAfter([o]) == map[k := 1] && PairsAfter([o, o]) == map[k := 2]
  {
    hide Pairs, Bump, Top;
    assert [] + [o] == [o] && [o] + [o] == [o, o];
    TableStep([], o);
    TableStep([o], o);
    BumpByOne(map[], k);
    BumpByOne(map[k := 1], k);
    TopOfFew(map[k := 1], TOP_PAIRS_LIMIT);
    TopOfFew(map[k := 2], TOP_PAIRS_LIMIT);
  }

  lemma BumpByOne(z: ZSet, k: string)
    ensures Bump(z, [Event(k, 1)]) == IncrBy(z, k, 1)
  {
    BumpSnoc(z, [], Event(k, 1));
    assert [] + [Event(k, 1)] == [Event(k, 1)];
  }

  /** The rivals have been counted on top of a table that holds k alone. */
  lemma Counted(k: string, n: int, o: Order)
    requires Rivals(o, k)
    ensures var z := Bump(map[k := n], Pairs(o));
            && k !in Keys(Pairs(o)) && z.Keys == {k} + Keys(Pairs(o)) && z[k] == n
            && forall x | x in Keys(Pairs(o)) :: z[x] == 1
  {
    hide Bump, Pairs, Amount, Keys;
    Lex.Irreflexive(k);
    var z := Bump(map[k := n], Pairs(o));
    forall x
      ensures x in z <==> x == k || x in Keys(Pairs(o))
      ensures Score(z, x) == (if x == k then n else 0) + Amount(Pairs(o), x)
    {
      BumpScore(map[k := n], Pairs(o), x);
    }
    NoAmount(Pairs(o), k);
  }

  /** With two orders behind it, k survives the arrival of the rivals. */
  lemma Survives(k: string, o: Order)
    requires Rivals(o, k)
    ensures k in Top(Bump(map[k := 2], Pairs(o)), TOP_PAIRS_LIMIT)
  {
    hide Bump, Pairs, Keys;
    Counted(k, 2, o);
    Lex.Irreflexive(k);
    var z, others := Bump(map[k := 2], Pairs(o)), Keys(Pairs(o));
    forall x | x in z
      ensures !Before(z, k, x)
    {
      assert x == k || x in others;
    }
    assert Above(z, k) == {};
  }

  /** With one, it is evicted, and 200 rivals stay. */
  lemma Evicted(k: string, o: Order)
    requires Rivals(o, k)
    ensures var m := Top(Bump(map[k := 1], Pairs(o)), TOP_PAIRS_LIMIT);
            |m| == TOP_PAIRS_LIMIT && forall x | x in m :: Lex.Less(k, x) && m[x] == 1
  {
    hide Bump, Pairs, Keys;
    Counted(k, 1, o);
    Lex.Irreflexive(k);
    var z, others := Bump(map[k := 1], Pairs(o)), Keys(Pairs(o));
    forall x | x in z
      ensures Before(z, k, x) <==> x in others
    {
      assert x == k || x in others;
    }
    assert Above(z, k) == others;
    TopSize(z, TOP_PAIRS_LIMIT);
    SubsetSize(others, z.Keys);
  }

  /** And counting it again does not bring it back. */
  lemma StaysAway(m: ZSet, k: string)
    requires |m| == TOP_PAIRS_LIMIT && forall x | x in m :: Lex.Less(k, x) && m[x] == 1
    ensures k !in Top(IncrBy(m, k, 1), TOP_PAIRS_LIMIT)
  {
    Lex.Irreflexive(k);
    var z := IncrBy(m, k, 1);
    assert k !in m;
    assert Above(z, k) == m.Keys;
  }

  /** The same three orders, in two different orders of processing, leave different tables. */
  lemma TableDependsOnOrder(one: Order, rivals: Order, k: string)
    requires CountsOnly(one, k) && Rivals(rivals, k)
    ensures multiset([one, one, rivals]) == multiset([one, rivals, one])
    ensures k in PairsAfter([one, one, rivals]) && k !in PairsAfter([one, rivals, one])
  {
    hide Pairs, Bump, Top, Rivals;
    CountedAlone(one, k);
    assert [one, one] + [rivals] == [one, one, rivals] && [one] + [rivals] == [one, rivals];
    assert [one, rivals] + [one] == [one, rivals, one];
    TableStep([one, one], rivals);
    Survives(k, rivals);
    TableStep([one], rivals);
    Evicted(k, rivals);
    TableStep([one, rivals], one);
    BumpByOne(PairsAfter([one, rivals]), k);
    StaysAway(PairsAfter([one, rivals]), k);
  }

  // --- such orders exist ---

  /** A SKU of n letters. */
  function Cs(n: nat): string {
    seq(n, i => 'c')
  }

  function ManyItems(): seq<LineItem> {
    seq(201, i requires 0 <= i < 201 => ItemOf(Cs(i + 1)))
  }

  ghost predicate IsMany(o: Order) {
    o.items == ManyItems()
  }

  lemma SkusOfMany(o: Order)
    requires IsMany(o)
    ensures BarFree(o) && forall sku | sku in Skus(o) :: sku != "" && sku[0] == 'c'
    ensures forall n | 1 <= n <= 201 :: Cs(n) in Skus(o)
  {
    forall li | li in o.items
      ensures '|' !in li.product.sku && li.product.sku != "" && li.product.sku[0] == 'c'
    {
      var i :| 0 <= i < 201 && o.items[i] == li;
      assert li.product.sku == Cs(i + 1);
    }
    forall n | 1 <= n <= 201
      ensures Cs(n) in Skus(o)
    {
      assert o.items[n - 1] in o.items;
    }
  }

  lemma {:induction false} CountedOnce(items: seq<LineItem>, sku: string)
    requires forall i, j | 0 <= i < j < |items| :: items[i].product.sku != items[j].product.sku
    ensures CountOf(items, sku) <= 1
  {
    if items == [] {
      CountOfNone(sku);
    } else {
      var n := |items| - 1;
      CountedOnce(items[..n], sku);
      CountSnoc(items, 0, n, sku);
      assert items[0..n] == items[..n] && items[0..n + 1] == items;
      CountIsPositive(items[..n], sku);
      forall li | li in items[..n]
        ensures li.product.sku != items[n].product.sku
      {
        var i :| 0 <= i < n && items[..n][i] == li;
        assert items[i].product.sku != items[n].product.sku;
      }
    }
  }

  lemma ManyAreDistinct(o: Order, sku: string)
    requires IsMany(o) && sku in Skus(o)
    ensures CountOf(o.items, sku) == 1
  {
    forall i, j | 0 <= i < j < |o.items|
      ensures o.items[i].product.sku != o.items[j].product.sku
    {
      assert |Cs(i + 1)| != |Cs(j + 1)|;
    }
    CountedOnce(o.items, sku);
    CountIsPositive(o.items, sku);
  }

  lemma AmountOfPair(o: Order, a: string, b: string)
    requires IsMany(o) && a in Skus(o) && b in Skus(o) && a != b
    ensures Amount(Pairs(o), PairKey(a, b)) == 1
  {
    hide CountOf, Skus, Pairs, PairKey, IsMany;
    SkusOfMany(o);
    BarFreeNeverShares(o, a, b);
    PairCountIff(o, a, b);
    ManyAreDistinct(o, a);
    ManyAreDistinct(o, b);
  }

  lemma KeyOfMany(o: Order, x: string)
    requires IsMany(o) && x in Keys(Pairs(o))
    ensures Amount(Pairs(o), x) == 1 && x != "" && x[0] == 'c'
  {
    hide CountOf, PairKey, IsMany;
    var e :| e in Pairs(o) && e.key == x;
    KeysOfOrder(o.items, |o.items|, e);
    var p, q :| p in o.items && q in o.items && e in PairEvent(p.product.sku, q.product.sku);
    var a, b := Sorted(p.product.sku, q.product.sku);
    assert a in Skus(o) && b in Skus(o);
    AmountOfPair(o, a, b);
    SkusOfMany(o);
  }

  function Named(i: nat): string {
    "c|" + Cs(i + 2)
  }

  lemma NamedIsKey(o: Order, i: nat)
    requires IsMany(o) && i < 200
    ensures Named(i) in Keys(Pairs(o))
  {
    hide Pairs, CountOf, IsMany;
    SkusOfMany(o);
    var a, b := Cs(1), Cs(i + 2);
    assert |a| != |b|;
    AmountOfPair(o, a, b);
    PrefixIsLess(b);
    Asymmetric(a, b);
    assert a == "c" && PairKey(a, b) == "c" + "|" + b == Named(i);
    if Named(i) !in Keys(Pairs(o)) { NoAmount(Pairs(o), Named(i)); }
  }

  lemma PrefixIsLess(b: string)
    requires |b| >= 2 && b[0] == 'c'
    ensures Lex.Less("c", b)
  {}

  lemma ManyKeys(o: Order)
    requires IsMany(o)
    ensures |Keys(Pairs(o))| >= TOP_PAIRS_LIMIT
  {
    hide Pairs, IsMany;
    var names := seq(200, i requires 0 <= i < 200 => Named(i));
    forall i, j | 0 <= i < j < 200
      ensures names[i] != names[j]
    {
      assert |Named(i)| != |Named(j)|;
    }
    SizeOfDistinct(names);
    forall x | x in names
      ensures x in Keys(Pairs(o))
    {
      var i :| 0 <= i < 200 && names[i] == x;
      NamedIsKey(o, i);
    }
    SubsetSize((set x | x in names), Keys(Pairs(o)));
  }

  lemma TwoItems(o: Order)
    requires o.items == [ItemOf("a"), ItemOf("aa")]
    ensures CountsOnly(o, "a|aa")
  {
    var items := o.items;
    Asymmetric("a", "aa");
    assert PairKey("a", "aa") == "a|aa";
    assert RowPairs(items, 0, 1) == [] && RowPairs(items, 1, 2) == [];
    assert RowPairs(items, 0, 2) == [Event("a|aa", 1)];
    assert PairsBefore(items, 1) == [Event("a|aa", 1)];
  }

  /** An order of SKUs a and aa, and one of 201 SKUs c, cc, ccc and so on. */
  lemma WitnessOfOrder(one: Order, many: Order)
    requires one.items == [ItemOf("a"), ItemOf("aa")] && many.items == ManyItems()
    ensures multiset([one, one, many]) == multiset([one, many, one])
    ensures PairsAfter([one, one, many]) != PairsAfter([one, many, one])
  {
    hide Pairs, PairsAfter;
    TwoItems(one);
    ManyKeys(many);
    forall x | x in Keys(Pairs(many))
      ensures Lex.Less("a|aa", x) && Amount(Pairs(many), x) == 1
    {
      KeyOfMany(many, x);
    }
    TableDependsOnOrder(one, many, "a|aa");
  }
}
