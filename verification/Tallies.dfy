/**
  What a run of increments leaves behind.

  A sorted set fed by ZINCRBY is described by the list of its increments: `Tally` of that list.
  `Collect` gathers the increments of a whole history of orders, `Sum` adds up a counter.  The
  theorems say how a tally grows by one order, that it does not depend on the order of the
  history, and what all its scores add up to.
*/
module Tallies {
  import opened Collections
  import opened SortedSets

  datatype Event = Event(key: string, amount: int)

  function Collect<T, E>(s: seq<T>, f: T -> seq<E>): seq<E> {
    if s == [] then [] else Collect(s[..|s| - 1], f) + f(s[|s| - 1])
  }

  function Sum<T>(s: seq<T>, f: T -> int): int {
    if s == [] then 0 else Sum(s[..|s| - 1], f) + f(s[|s| - 1])
  }

  /** All increments of one key. */
  function Amount(es: seq<Event>, k: string): int {
    Sum(es, (e: Event) => if e.key == k then e.amount else 0)
  }

  function Keys(es: seq<Event>): set<string> {
    set e | e in es :: e.key
  }

  function Tally(es: seq<Event>): ZSet {
    map k | k in Keys(es) :: Amount(es, k)
  }

  /** ZINCRBY for each event in turn. */
  function Bump(z: ZSet, es: seq<Event>): ZSet {
    if es == [] then z
    else var e := es[|es| - 1]; IncrBy(Bump(z, es[..|es| - 1]), e.key, e.amount)
  }

  /** HSETNX for each event in turn. */
  function SetNX<V>(m: map<string, V>, k: string, v: V): map<string, V> {
    if k in m then m else m[k := v]
  }

  function FirstWins<V>(es: seq<(string, V)>): map<string, V> {
    if es == [] then map[]
    else var e := es[|es| - 1]; SetNX(FirstWins(es[..|es| - 1]), e.0, e.1)
  }

  // --- growing by one element ---

  lemma Snoc<T>(s: seq<T>, x: T)
    ensures (s + [x])[..|s|] == s && (s + [x])[|s|] == x
  {}

  lemma CollectSnoc<T, E>(s: seq<T>, x: T, f: T -> seq<E>)
    ensures Collect(s + [x], f) == Collect(s, f) + f(x)
  {
    Snoc(s, x);
  }

  lemma SumSnoc<T>(s: seq<T>, x: T, f: T -> int)
    ensures Sum(s + [x], f) == Sum(s, f) + f(x)
  {
    Snoc(s, x);
  }

  lemma {:induction false} SumAppend<T>(s: seq<T>, t: seq<T>, f: T -> int)
    ensures Sum(s + t, f) == Sum(s, f) + Sum(t, f)
  {
    if t == [] {
      assert s + t == s;
    } else {
      var n := |t| - 1;
      assert (s + t)[..|s + t| - 1] == s + t[..n];
      SumAppend(s, t[..n], f);
    }
  }

  lemma {:induction false} CollectAppend<T, E>(s: seq<T>, t: seq<T>, f: T -> seq<E>)
    ensures Collect(s + t, f) == Collect(s, f) + Collect(t, f)
  {
    if t == [] {
      assert s + t == s && Collect(t, f) == [];
    } else {
      var n := |t| - 1;
      assert (s + t)[..|s + t| - 1] == s + t[..n];
      CollectAppend(s, t[..n], f);
      assert Collect(s, f) + (Collect(t[..n], f) + f(t[n])) == Collect(s, f) + Collect(t[..n], f) + f(t[n]);
    }
  }

  lemma AmountAppend(a: seq<Event>, b: seq<Event>, k: string)
    ensures Amount(a + b, k) == Amount(a, k) + Amount(b, k)
  {
    SumAppend(a, b, (e: Event) => if e.key == k then e.amount else 0);
  }

  lemma AmountOfOne(e: Event, k: string)
    ensures Amount([e], k) == if e.key == k then e.amount else 0
  {
    SumSnoc([], e, (e: Event) => if e.key == k then e.amount else 0);
    assert [] + [e] == [e];
  }

  lemma TallySnoc(es: seq<Event>, e: Event)
    ensures Tally(es + [e]) == IncrBy(Tally(es), e.key, e.amount)
  {
    assert Keys(es + [e]) == Keys(es) + {e.key};
    forall k
      ensures Amount(es + [e], k) == Amount(es, k) + if e.key == k then e.amount else 0
      ensures k !in Keys(es) ==> Amount(es, k) == 0
    {
      SumSnoc(es, e, (e: Event) => if e.key == k then e.amount else 0);
      if k !in Keys(es) { NoAmount(es, k); }
    }
  }

  lemma {:induction false} NoAmount(es: seq<Event>, k: string)
    requires k !in Keys(es)
    ensures Amount(es, k) == 0
  {
    if es != [] {
      var n := |es| - 1;
      assert es[n] in es && es[n].key in Keys(es);
      forall e | e in es[..n] ensures e.key in Keys(es) {}
      NoAmount(es[..n], k);
    }
  }

  /** Incrementing a tally by `b` gives the tally of the longer list. */
  lemma {:induction false} BumpTally(a: seq<Event>, b: seq<Event>)
    ensures Bump(Tally(a), b) == Tally(a + b)
  {
    if b == [] {
      assert a + b == a;
    } else {
      var n := |b| - 1;
      BumpTally(a, b[..n]);
      assert a + b == (a + b[..n]) + [b[n]];
      TallySnoc(a + b[..n], b[n]);
    }
  }

  lemma BumpSnoc(z: ZSet, es: seq<Event>, e: Event)
    ensures Bump(z, es + [e]) == IncrBy(Bump(z, es), e.key, e.amount)
  {
    Snoc(es, e);
  }

  lemma {:induction false} BumpAppend(z: ZSet, a: seq<Event>, b: seq<Event>)
    ensures Bump(z, a + b) == Bump(Bump(z, a), b)
  {
    if b == [] {
      assert a + b == a;
    } else {
      var n := |b| - 1;
      BumpAppend(z, a, b[..n]);
      assert (a + b)[..|a + b| - 1] == a + b[..n];
    }
  }

  /** The step every tallied table takes when one more order is applied. */
  lemma TallyGrows<T>(h: seq<T>, o: T, f: T -> seq<Event>)
    ensures Bump(Tally(Collect(h, f)), f(o)) == Tally(Collect(h + [o], f))
  {
    CollectSnoc(h, o, f);
    BumpTally(Collect(h, f), f(o));
  }

  lemma FirstWinsSnoc<V>(es: seq<(string, V)>, e: (string, V))
    ensures FirstWins(es + [e]) == SetNX(FirstWins(es), e.0, e.1)
  {
    Snoc(es, e);
  }

  // --- the order of the history does not matter ---

  lemma MovedToEnd<T>(t: seq<T>, i: nat, f: T -> int)
    requires i < |t|
    ensures Sum(t, f) == Sum(t[..i] + t[i + 1..], f) + f(t[i])
    ensures multiset(t[..i] + t[i + 1..]) + multiset{t[i]} == multiset(t)
  {
    hide Sum;
    var a, b := t[..i], t[i + 1..];
    assert t == (a + [t[i]]) + b;
    SumAppend(a, b, f);
    SumAppend(a + [t[i]], b, f);
    SumSnoc(a, t[i], f);
  }

  lemma {:induction false} SumPermutes<T>(s: seq<T>, t: seq<T>, f: T -> int)
    requires multiset(s) == multiset(t)
    ensures Sum(s, f) == Sum(t, f)
  {
    assert |multiset(s)| == |s| && |multiset(t)| == |t|;
    if s != [] {
      var n := |s| - 1;
      MovedToEnd(s, n, f);
      assert s[n] in multiset(t);
      var i :| 0 <= i < |t| && t[i] == s[n];
      MovedToEnd(t, i, f);
      var s', t' := s[..n] + s[n + 1..], t[..i] + t[i + 1..];
      assert s' == s[..n];
      assert multiset(s') == multiset(s) - multiset{s[n]} && multiset(t') == multiset(t) - multiset{s[n]};
      SumPermutes(s', t', f);
    }
  }

  lemma {:induction false} AmountOfCollect<T>(h: seq<T>, f: T -> seq<Event>, k: string)
    ensures Amount(Collect(h, f), k) == Sum(h, o => Amount(f(o), k))
  {
    if h != [] {
      var n := |h| - 1;
      AmountOfCollect(h[..n], f, k);
      AmountAppend(Collect(h[..n], f), f(h[n]), k);
    }
  }

  lemma {:induction false} InCollect<T, E>(h: seq<T>, f: T -> seq<E>, e: E)
    ensures e in Collect(h, f) <==> exists o :: o in h && e in f(o)
  {
    if h != [] {
      var n := |h| - 1;
      InCollect(h[..n], f, e);
      assert h == h[..n] + [h[n]];
    }
  }

  lemma TallyPermutes<T>(s: seq<T>, t: seq<T>, f: T -> seq<Event>)
    requires multiset(s) == multiset(t)
    ensures Tally(Collect(s, f)) == Tally(Collect(t, f))
  {
    forall e
      ensures e in Collect(s, f) <==> e in Collect(t, f)
    {
      InCollect(s, f, e);
      InCollect(t, f, e);
      assert forall o :: o in s <==> o in multiset(s);
      assert forall o :: o in t <==> o in multiset(t);
    }
    assert Keys(Collect(s, f)) == Keys(Collect(t, f));
    forall k
      ensures Amount(Collect(s, f), k) == Amount(Collect(t, f), k)
    {
      AmountOfCollect(s, f, k);
      AmountOfCollect(t, f, k);
      SumPermutes(s, t, o => Amount(f(o), k));
    }
  }

  // --- sums term by term ---

  lemma {:induction false} SumAdd<T>(s: seq<T>, f: T -> int, g: T -> int, h: T -> int)
    requires forall x | x in s :: h(x) == f(x) + g(x)
    ensures Sum(s, h) == Sum(s, f) + Sum(s, g)
  {
    if s != [] {
      var n := |s| - 1;
      assert s[n] in s && forall x | x in s[..n] :: x in s;
      SumAdd(s[..n], f, g, h);
    }
  }

  lemma {:induction false} SumOfZeros<T>(s: seq<T>, f: T -> int)
    requires forall x | x in s :: f(x) == 0
    ensures Sum(s, f) == 0
  {
    if s != [] {
      var n := |s| - 1;
      assert s[n] in s && forall x | x in s[..n] :: x in s;
      SumOfZeros(s[..n], f);
    }
  }

  lemma {:induction false} SumOfNonNegative<T>(s: seq<T>, f: T -> int)
    requires forall x | x in s :: f(x) >= 0
    ensures Sum(s, f) >= 0 && (Sum(s, f) == 0 <==> forall x | x in s :: f(x) == 0)
  {
    if s != [] {
      var n := |s| - 1;
      assert s == s[..n] + [s[n]];
      assert s[n] in s && forall x | x in s[..n] :: x in s;
      SumOfNonNegative(s[..n], f);
    }
  }

  lemma WithoutOne<T>(s: seq<T>, x: T, f: T -> int) returns (rest: seq<T>)
    requires Distinct(s) && x in s
    ensures Sum(s, f) == Sum(rest, f) + f(x)
    ensures forall y :: y in rest <==> y in s && y != x
  {
    hide Sum;
    var i :| 0 <= i < |s| && s[i] == x;
    var before, later := s[..i], s[i + 1..];
    rest := before + later;
    MovedToEnd(s, i, f);
    assert s == before + [x] + later;
    assert x !in before && x !in later;
  }

  lemma SumOfOne<T>(s: seq<T>, x: T, f: T -> int)
    requires Distinct(s) && forall y | y in s && y != x :: f(y) == 0
    ensures Sum(s, f) == if x in s then f(x) else 0
  {
    if x in s {
      var rest := WithoutOne(s, x, f);
      SumOfZeros(rest, f);
    } else {
      SumOfZeros(s, f);
    }
  }

  lemma SumIsOneTermIff<T>(s: seq<T>, x: T, f: T -> int)
    requires Distinct(s) && x in s && forall y | y in s :: f(y) >= 0
    ensures Sum(s, f) >= f(x)
    ensures Sum(s, f) == f(x) <==> forall y | y in s && y != x :: f(y) == 0
  {
    var rest := WithoutOne(s, x, f);
    SumOfNonNegative(rest, f);
  }

  // --- the scores of a table added up ---

  function Total(z: ZSet): int
    decreases |z|
  {
    if z == map[] then 0 else var k := Highest(z); z[k] + Total(z - {k})
  }

  lemma {:induction false} TotalRemove(z: ZSet, k: string)
    requires k in z
    ensures Total(z) == z[k] + Total(z - {k})
    decreases |z|
  {
    var h := Highest(z);
    if h != k {
      assert (z - {h}).Keys == z.Keys - {h} && (z - {k}).Keys == z.Keys - {k};
      TotalRemove(z - {h}, k);
      TotalRemove(z - {k}, h);
      assert z - {h} - {k} == z - {k} - {h};
    }
  }

  lemma TotalIncrBy(z: ZSet, k: string, d: int)
    ensures Total(IncrBy(z, k, d)) == Total(z) + d
  {
    var z' := IncrBy(z, k, d);
    TotalRemove(z', k);
    assert z' - {k} == z - {k};
    if k in z {
      TotalRemove(z, k);
    } else {
      assert z - {k} == z;
    }
  }

  function Grand(es: seq<Event>): int {
    Sum(es, (e: Event) => e.amount)
  }

  lemma {:induction false} TotalOfTally(es: seq<Event>)
    ensures Total(Tally(es)) == Grand(es)
  {
    if es == [] {
      assert Tally(es) == map[];
    } else {
      var n := |es| - 1;
      assert es == es[..n] + [es[n]];
      TallySnoc(es[..n], es[n]);
      TotalIncrBy(Tally(es[..n]), es[n].key, es[n].amount);
      TotalOfTally(es[..n]);
    }
  }

  lemma {:induction false} GrandOfCollect<T>(h: seq<T>, f: T -> seq<Event>)
    ensures Grand(Collect(h, f)) == Sum(h, o => Grand(f(o)))
  {
    if h != [] {
      var n := |h| - 1;
      GrandOfCollect(h[..n], f);
      SumAppend(Collect(h[..n], f), f(h[n]), (e: Event) => e.amount);
    }
  }

  lemma {:induction false} SumEqual<T>(s: seq<T>, f: T -> int, g: T -> int)
    requires forall x | x in s :: f(x) == g(x)
    ensures Sum(s, f) == Sum(s, g)
  {
    if s != [] {
      var n := |s| - 1;
      assert s[n] in s && forall x | x in s[..n] :: x in s;
      SumEqual(s[..n], f, g);
    }
  }

  lemma GrandTotal<T>(h: seq<T>, f: T -> seq<Event>, g: T -> int)
    requires forall o | o in h :: Grand(f(o)) == g(o)
    ensures Grand(Collect(h, f)) == Sum(h, g)
  {
    GrandOfCollect(h, f);
    SumEqual(h, o => Grand(f(o)), g);
  }

  lemma AmountTotal<T>(h: seq<T>, f: T -> seq<Event>, g: T -> int, k: string)
    requires forall o | o in h :: Amount(f(o), k) == g(o)
    ensures Amount(Collect(h, f), k) == Sum(h, g)
  {
    AmountOfCollect(h, f, k);
    SumEqual(h, o => Amount(f(o), k), g);
  }

  /** All scores of a tallied table add up to what the orders contributed, order by order. */
  lemma TotalOfHistory<T>(h: seq<T>, f: T -> seq<Event>, g: T -> int)
    requires forall o | o in h :: Grand(f(o)) == g(o)
    ensures Total(Tally(Collect(h, f))) == Sum(h, g)
  {
    TotalOfTally(Collect(h, f));
    GrandTotal(h, f, g);
  }

  // --- first writer wins ---

  /** The stored value of a key is the value of its earliest event. */
  lemma {:induction false} FirstWinsIsEarliest<V>(es: seq<(string, V)>, k: string)
    ensures k in FirstWins(es) <==> exists i | 0 <= i < |es| :: es[i].0 == k
    ensures k in FirstWins(es) ==>
              exists i | 0 <= i < |es| :: es[i] == (k, FirstWins(es)[k]) && forall j | 0 <= j < i :: es[j].0 != k
  {
    if es != [] {
      var n := |es| - 1;
      var rest := es[..n];
      FirstWinsIsEarliest(rest, k);
      if k in FirstWins(rest) {
        var i :| 0 <= i < |rest| && rest[i] == (k, FirstWins(rest)[k]) && forall j | 0 <= j < i :: rest[j].0 != k;
        assert es[i] == rest[i];
        assert forall j | 0 <= j < i :: es[j] == rest[j];
      } else {
        assert forall j | 0 <= j < n :: es[j].0 != k by {
          forall j | 0 <= j < n ensures es[j].0 != k { assert rest[j] == es[j]; }
        }
        if es[n].0 == k { assert es[n] == (k, FirstWins(es)[k]); }
      }
    }
  }
}
