/**
  Redis sorted sets: a finite map from members to integer scores, ranked by (score, member).

  `Trim` is the ZREMRANGEBYRANK 0 -(L+1) call of the order script, with Redis's negative-index
  arithmetic.  The theorems say that it keeps exactly the L greatest members, and that trimming
  after every insertion gives the same table as trimming once at the end.
*/
module SortedSets {
  import Lex
  import opened Collections

  type ZSet = map<string, int>

  /** ZSCORE, with a missing member read as zero. */
  function Score(z: ZSet, m: string): int {
    if m in z then z[m] else 0
  }

  /** ZINCRBY */
  function IncrBy(z: ZSet, m: string, delta: int): ZSet {
    z[m := Score(z, m) + delta]
  }

  /** `a` ranks strictly below `b`: smaller score, ties broken by member. */
  predicate Before(z: ZSet, a: string, b: string)
    requires a in z && b in z
  {
    z[a] < z[b] || (z[a] == z[b] && Lex.Less(a, b))
  }

  function Below(z: ZSet, m: string): set<string>
    requires m in z
  {
    set x | x in z && Before(z, x, m)
  }

  function Above(z: ZSet, m: string): set<string>
    requires m in z
  {
    set x | x in z && Before(z, m, x)
  }

  /** ZREMRANGEBYRANK start stop: negative indices count from the highest rank. */
  function RemRangeByRank(z: ZSet, start: int, stop: int): ZSet {
    var n := |z|;
    var from := if start < 0 then start + n else start;
    var to := if stop < 0 then stop + n else stop;
    var lo := if from < 0 then 0 else from;
    if lo > to || lo >= n then
      z
    else
      var hi := if to >= n then n - 1 else to;
      map m | m in z && !(lo <= |Below(z, m)| <= hi) :: z[m]
  }

  function Trim(z: ZSet, limit: nat): ZSet {
    RemRangeByRank(z, 0, -(limit + 1))
  }

  /** The members that fewer than `limit` others rank above. */
  function Top(z: ZSet, limit: nat): ZSet {
    map m | m in z && |Above(z, m)| < limit :: z[m]
  }

  ghost predicate SubMap(t: ZSet, z: ZSet) {
    forall m | m in t :: m in z && t[m] == z[m]
  }

  function Min(a: int, b: int): int {
    if a <= b then a else b
  }

  /** `t` holds the `limit` greatest entries of `z` (all of them when there are fewer). */
  ghost predicate IsGreatest(z: ZSet, t: ZSet, limit: nat) {
    && SubMap(t, z)
    && |t| == Min(limit, |z|)
    && forall x, k | x in z && x !in t && k in t && k in z :: Before(z, x, k)
  }

  // --- the rank order is a strict total order ---

  lemma BeforeIsStrict(z: ZSet, a: string, b: string)
    requires a in z && b in z
    ensures !Before(z, a, a)
    ensures !(Before(z, a, b) && Before(z, b, a))
    ensures a != b ==> Before(z, a, b) || Before(z, b, a)
  {
    Lex.Irreflexive(a);
    Lex.Connected(a, b);
    if Lex.Less(a, b) && Lex.Less(b, a) {
      Lex.Transitive(a, b, a);
    }
  }

  lemma BeforeIsTransitive(z: ZSet, a: string, b: string, c: string)
    requires a in z && b in z && c in z
    requires Before(z, a, b) && Before(z, b, c)
    ensures Before(z, a, c)
  {
    if Lex.Less(a, b) && Lex.Less(b, c) {
      Lex.Transitive(a, b, c);
    }
  }

  lemma RanksPartition(z: ZSet, m: string)
    requires m in z
    ensures |Below(z, m)| + 1 + |Above(z, m)| == |z|
  {
    var lo, hi := Below(z, m), Above(z, m);
    forall x | x in z
      ensures x in lo || x == m || x in hi
      ensures !(x in lo && x in hi)
    {
      BeforeIsStrict(z, x, m);
    }
    BeforeIsStrict(z, m, m);
    assert z.Keys == lo + {m} + hi;
    assert |z.Keys| == |lo + {m}| + |hi|;
  }

  lemma {:induction false} LeastExists(z: ZSet) returns (m: string)
    requires z != map[]
    ensures m in z && forall x | x in z && x != m :: Before(z, m, x)
    decreases |z|
  {
    var a :| a in z;
    var rest := z - {a};
    if rest == map[] {
      assert rest.Keys == z.Keys - {a} && forall x | x in z && x != a :: x in z.Keys - {a};
      m := a;
    } else {
      var b := LeastExists(rest);
      BeforeIsStrict(z, a, b);
      m := if Before(z, a, b) then a else b;
      forall x | x in z && x != m
        ensures Before(z, m, x)
      {
        if x != a && x != b {
          assert x in rest && Before(rest, b, x);
          if m == a { BeforeIsTransitive(z, a, b, x); }
        }
      }
    }
  }

  // --- Trim keeps exactly the greatest entries ---

  lemma TrimIsTop(z: ZSet, limit: nat)
    ensures Trim(z, limit) == Top(z, limit)
  {
    forall m | m in z
      ensures m in Trim(z, limit) <==> m in Top(z, limit)
    {
      RanksPartition(z, m);
    }
  }

  /** The least of more than `limit` entries plays no part in the top. */
  lemma DropLeast(z: ZSet, limit: nat, least: string)
    requires |z| > limit && least in z && forall x | x in z && x != least :: Before(z, least, x)
    ensures Top(z - {least}, limit) == Top(z, limit)
  {
    var rest := z - {least};
    assert rest.Keys == z.Keys - {least};
    RanksPartition(z, least);
    assert Below(z, least) == {} by {
      forall x | x in z ensures !Before(z, x, least) { BeforeIsStrict(z, x, least); }
    }
    forall m | m in rest
      ensures Above(rest, m) == Above(z, m)
    {
      BeforeIsStrict(z, least, m);
      assert forall x | x in rest :: Before(rest, m, x) == Before(z, m, x);
    }
  }

  lemma {:induction false} TopSize(z: ZSet, limit: nat)
    ensures |Top(z, limit)| == Min(limit, |z|)
    decreases |z|
  {
    if |z| <= limit {
      forall m | m in z ensures m in Top(z, limit) { RanksPartition(z, m); }
      assert Top(z, limit) == z;
    } else {
      var least := LeastExists(z);
      DropLeast(z, limit, least);
      assert (z - {least}).Keys == z.Keys - {least};
      TopSize(z - {least}, limit);
    }
  }

  lemma AboveShrinks(z: ZSet, a: string, b: string)
    requires a in z && b in z && Before(z, a, b)
    ensures |Above(z, b)| < |Above(z, a)|
  {
    forall x | x in Above(z, b)
      ensures x in Above(z, a)
    {
      BeforeIsTransitive(z, a, b, x);
    }
    BeforeIsStrict(z, b, b);
    assert b in Above(z, a) && b !in Above(z, b);
    SubsetSize(Above(z, b), Above(z, a));
  }

  lemma TopDominates(z: ZSet, limit: nat, x: string, k: string)
    requires x in z && x !in Top(z, limit) && k in Top(z, limit)
    ensures Before(z, x, k)
  {
    BeforeIsStrict(z, x, k);
    if Before(z, k, x) {
      AboveShrinks(z, k, x);
    }
  }

  /** Top is the set of the `limit` greatest entries, and there is no other such set. */
  lemma TopIsGreatest(z: ZSet, limit: nat, t: ZSet)
    ensures IsGreatest(z, t, limit) <==> t == Top(z, limit)
  {
    var top := Top(z, limit);
    TopSize(z, limit);
    forall x, k | x in z && x !in top && k in top
      ensures Before(z, x, k)
    {
      TopDominates(z, limit, x, k);
    }
    assert IsGreatest(z, top, limit);
    if IsGreatest(z, t, limit) {
      GreatestIsUnique(z, limit, t, top);
    }
  }

  lemma GreatestIsUnique(z: ZSet, limit: nat, s: ZSet, t: ZSet)
    requires IsGreatest(z, s, limit) && IsGreatest(z, t, limit)
    ensures s == t
  {
    if exists a :: a in s && a !in t {
      var a :| a in s && a !in t;
      if t.Keys <= s.Keys {
        SubsetSize(t.Keys, s.Keys);
        assert false;
      }
      var b :| b in t && b !in s;
      BeforeIsStrict(z, a, b);
      assert false;
    }
    assert s.Keys <= t.Keys;
    SubsetSize(s.Keys, t.Keys);
  }

  /** Forgetting entries outside the top never changes the top. */
  lemma TopAbsorbs(all: ZSet, some: ZSet, limit: nat)
    requires SubMap(some, all) && SubMap(Top(all, limit), some)
    ensures Top(some, limit) == Top(all, limit)
  {
    var top := Top(all, limit);
    TopSize(all, limit);
    forall m | m in some
      ensures m in Top(some, limit) <==> m in top
    {
      assert Above(some, m) <= Above(all, m) by {
        forall x | x in Above(some, m) ensures x in Above(all, m) { assert Before(all, m, x); }
      }
      SubsetSize(Above(some, m), Above(all, m));
      if m !in top {
        forall k | k in top
          ensures k in Above(some, m)
        {
          TopDominates(all, limit, m, k);
          assert Before(some, m, k);
        }
        SubsetSize(top.Keys, Above(some, m));
        SubsetSize(Above(all, m), all.Keys);
      }
    }
  }

  /**
    One ZADD followed by the trim, on a table that already forgot everything outside its top:
    the result is the top of the whole history, also when the member had been evicted before.
  */
  lemma AddThenTrim(all: ZSet, m: string, score: int, limit: nat)
    requires m in all ==> all[m] == score
    ensures Trim(Top(all, limit)[m := score], limit) == Top(all[m := score], limit)
  {
    var all', some := all[m := score], Top(all, limit)[m := score];
    forall x | x in Top(all', limit)
      ensures x in some && some[x] == all'[x]
    {
      if x != m {
        assert Above(all, x) <= Above(all', x) by {
          forall y | y in Above(all, x) ensures y in Above(all', x) { assert Before(all', x, y); }
        }
        SubsetSize(Above(all, x), Above(all', x));
      }
    }
    TopAbsorbs(all', some, limit);
    TrimIsTop(some, limit);
  }

  // --- ZREVRANGE ---

  predicate IsHighest(z: ZSet, m: string) {
    m in z && forall x | x in z && x != m :: Before(z, x, m)
  }

  lemma {:induction false} HighestExists(z: ZSet)
    requires z != map[]
    ensures exists m :: IsHighest(z, m)
    decreases |z|
  {
    var a :| a in z;
    var rest := z - {a};
    if rest == map[] {
      assert rest.Keys == z.Keys - {a} && forall x | x in z && x != a :: x in z.Keys - {a};
      assert IsHighest(z, a);
    } else {
      HighestExists(rest);
      var b :| IsHighest(rest, b);
      BeforeIsStrict(z, a, b);
      var m := if Before(z, a, b) then b else a;
      forall x | x in z && x != m
        ensures Before(z, x, m)
      {
        if x != a && x != b {
          assert x in rest && Before(rest, x, b);
          if m == a { BeforeIsTransitive(z, x, b, a); }
        }
      }
      assert IsHighest(z, m);
    }
  }

  lemma HighestIsUnique(z: ZSet, a: string, b: string)
    requires IsHighest(z, a) && IsHighest(z, b)
    ensures a == b
  {
    BeforeIsStrict(z, a, b);
  }

  function Highest(z: ZSet): (m: string)
    requires z != map[]
    ensures IsHighest(z, m)
  {
    HighestExists(z);
    assert forall a, b | IsHighest(z, a) && IsHighest(z, b) :: a == b by {
      forall a, b | IsHighest(z, a) && IsHighest(z, b) ensures a == b { HighestIsUnique(z, a, b); }
    }
    var m :| IsHighest(z, m);
    m
  }

  /** ZREVRANGE 0 -1: every member, from the highest rank down. */
  function RevRange(z: ZSet): seq<string>
    decreases |z|
  {
    if z == map[] then [] else var m := Highest(z); [m] + RevRange(z - {m})
  }

  /** A listing of all members of `z`, each once, strictly descending in rank. */
  ghost predicate IsDescending(z: ZSet, s: seq<string>) {
    && (set m | m in s) == z.Keys
    && forall i, j | 0 <= i < j < |s| :: s[i] in z && s[j] in z && Before(z, s[j], s[i])
  }

  lemma ConsDescending(z: ZSet, m: string, t: seq<string>)
    requires IsHighest(z, m) && IsDescending(z - {m}, t)
    ensures IsDescending(z, [m] + t)
  {
    var rest, s := z - {m}, [m] + t;
    assert rest.Keys == z.Keys - {m};
    forall x
      ensures x in s <==> x in z
    {
      assert x in t <==> x in (set y | y in t);
      assert x in rest <==> x in z.Keys - {m};
      assert x in s <==> x == m || x in t;
    }
    forall i, j | 0 <= i < j < |s|
      ensures s[i] in z && s[j] in z && Before(z, s[j], s[i])
    {
      assert s[j] == t[j - 1] && t[j - 1] in (set y | y in t);
      if i > 0 { assert Before(rest, t[j - 1], t[i - 1]); }
    }
  }

  lemma {:induction false} RevRangeIsDescending(z: ZSet)
    ensures IsDescending(z, RevRange(z)) && |RevRange(z)| == |z|
    decreases |z|
  {
    if z == map[] {
      assert RevRange(z) == [];
    } else {
      var m := Highest(z);
      assert (z - {m}).Keys == z.Keys - {m};
      RevRangeIsDescending(z - {m});
      ConsDescending(z, m, RevRange(z - {m}));
    }
  }
}
