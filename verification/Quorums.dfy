/**
  Quorums across the sentinel fleet while sentinels come and go.  A group of sentinels can declare a
  master down, which is what starts a failover, when one of its members asks for no more votes than
  the group has; safety is that two such groups always share a member.  The vote for a leader that
  Redis Sentinel holds after that is not part of the model.
*/
module Quorums {
  import opened Collections

  function Majority(n: nat): nat {
    n / 2 + 1
  }

  /** Which sentinel monitors which cluster, and with what quorum. */
  type Monitors = map<(int, string), int>

  function Pushed(m: Monitors, reached: set<(int, string)>, quorum: int): Monitors {
    map k | k in m :: if k in reached then quorum else m[k]
  }

  /** The calls of a push that succeed: every sentinel, every cluster, unless the sentinel fails. */
  function Reaching(ports: set<int>, names: set<string>, up: set<(int, string)>): set<(int, string)> {
    set k | k in up && k.0 in ports && k.1 in names
  }

  /** SENTINEL MONITOR: the sentinel starts monitoring, or starts over. */
  function Started(m: Monitors, reached: set<(int, string)>, quorum: int): Monitors {
    m + map k | k in reached :: quorum
  }

  lemma NothingStarted(m: Monitors, quorum: int)
    ensures Started(m, {}, quorum) == m
  {}

  lemma StartedOneMore(m: Monitors, ports: set<int>, p: int, c: string, up: set<(int, string)>, quorum: int)
    ensures var before := Started(m, Reaching(ports, {c}, up), quorum);
            Started(m, Reaching(ports + {p}, {c}, up), quorum)
            == if (p, c) in up then before[(p, c) := quorum] else before
  {
    assert Reaching(ports + {p}, {c}, up)
           == Reaching(ports, {c}, up) + if (p, c) in up then {(p, c)} else {};
  }

  lemma NothingPushed(m: Monitors, quorum: int)
    ensures Pushed(m, {}, quorum) == m
  {}

  class Fleet {
    var monitors: Monitors

    /** SENTINEL SET quorum: an error when the sentinel is gone or does not monitor the cluster. */
    method SetQuorum(port: int, cluster: string, quorum: int, up: bool) returns (ok: bool)
      modifies this
      ensures ok <==> up && (port, cluster) in old(monitors)
      ensures monitors == if ok then old(monitors)[(port, cluster) := quorum] else old(monitors)
      ensures monitors == if up then Pushed(old(monitors), {(port, cluster)}, quorum) else old(monitors)
    {
      ok := up && (port, cluster) in monitors;
      if ok {
        monitors := monitors[(port, cluster) := quorum];
      }
      assert up ==> monitors == Pushed(old(monitors), {(port, cluster)}, quorum);
    }

    /**
      After a removal: push the majority of the remaining fleet for every cluster the first remaining
      sentinel lists.  Failed calls are logged and skipped.
    */
    method UpdateQuorumAcrossSentinels(sentinels: seq<int>, listed: bool, names: seq<string>, up: set<(int, string)>)
      requires sentinels != [] && forall c :: c in names <==> (sentinels[0], c) in monitors
      modifies this
      ensures monitors == if listed
                          then Pushed(old(monitors), Reaching((set p | p in sentinels), (set c | c in names), up),
                                      Majority(|sentinels|))
                          else old(monitors)
      ensures monitors == map k | k in old(monitors) ::
                if listed && k in up && k.0 in sentinels && k.1 in names then |sentinels| / 2 + 1 else old(monitors)[k]
    {
      var quorum := |sentinels| / 2 + 1;
      if !listed {
        return;
      }
      ghost var reached: set<(int, string)> := {};
      NothingPushed(monitors, quorum);
      for i := 0 to |names|
        invariant monitors == Pushed(old(monitors), reached, quorum)
        invariant forall k :: k in reached <==> k in up && k.0 in sentinels && k.1 in names[..i]
      {
        var c := names[i];
        ghost var before := reached;
        for j := 0 to |sentinels|
          invariant monitors == Pushed(old(monitors), reached, quorum)
          invariant forall k :: k in reached <==> k in before || (k in up && k.0 in sentinels[..j] && k.1 == c)
        {
          var p := sentinels[j];
          assert sentinels[..j + 1] == sentinels[..j] + [p];
          var ok := SetQuorum(p, c, quorum, (p, c) in up);
          if (p, c) in up { reached := reached + {(p, c)}; }
          assert monitors == Pushed(old(monitors), reached, quorum);
        }
        assert sentinels[..|sentinels|] == sentinels && names[..i + 1] == names[..i] + [c];
      }
      assert names[..|names|] == names;
      assert reached == Reaching((set p | p in sentinels), (set c | c in names), up);
    }

    /**
      After adding sentinels: each new one starts monitoring every cluster in V6Destroyed whose master
      some older sentinel knows, and the older ones get the new quorum.
    */
    method RegisterClusters(prior: seq<int>, added: seq<int>, total: nat, clusters: seq<string>, ready: set<string>,
                            known: set<string>, up: set<(int, string)>)
      modifies this
      ensures var names := set c | c in clusters && c in ready && c in known;
              monitors == if prior == [] || added == [] then old(monitors)
                          else Registered(old(monitors), (set p | p in prior), (set p | p in added), names, up, total)
      // Known clusters in that state are monitored by every new sentinel that takes the call, and there and
      // on the old ones the quorum is the majority of the fleet as it was listed.
      ensures prior != [] && added != [] ==>
                && (forall k :: k in monitors <==>
                      || k in old(monitors)
                      || (k in up && k.0 in added && k.1 in clusters && k.1 in ready && k.1 in known))
                && forall k | k in monitors ::
                     if k in up && (k.0 in added || k.0 in prior) && k.1 in clusters && k.1 in ready && k.1 in known
                     then monitors[k] == total / 2 + 1 else k in old(monitors) && monitors[k] == old(monitors)[k]
    {
      hide Registered, Reaching, Pushed, Started;
      if prior == [] || added == [] {
        return;
      }
      var quorum := total / 2 + 1;
      ghost var old', new' := set p | p in prior, set p | p in added;
      NothingRegistered(monitors, old', new', up, total);
      ghost var names: set<string> := {};
      for i := 0 to |clusters|
        invariant names == set c | c in clusters[..i] && c in ready && c in known
        invariant monitors == Registered(old(monitors), old', new', names, up, total)
      {
        var c := clusters[i];
        assert clusters[..i + 1] == clusters[..i] + [c];
        if c in ready && c in known {
          ghost var start := monitors;
          MonitorOnAll(added, c, quorum, up);
          SetOnAll(prior, c, quorum, up);
          OneMoreRegistered(old(monitors), old', new', names, c, up, total);
          names := names + {c};
        }
      }
      assert clusters[..|clusters|] == clusters;
      forall k
        ensures k in monitors <==>
                  || k in old(monitors)
                  || (k in up && k.0 in added && k.1 in clusters && k.1 in ready && k.1 in known)
        ensures k in monitors ==>
                  if k in up && (k.0 in added || k.0 in prior) && k.1 in clusters && k.1 in ready && k.1 in known
                  then monitors[k] == total / 2 + 1 else k in old(monitors) && monitors[k] == old(monitors)[k]
      {
        RegisteredIs(old(monitors), old', new', names, up, total, k);
      }
    }

    /** sentinel add: the fleet's quorums are looked at only when v8 sentinels were added. */
    method AfterAddition(version: int, prior: seq<int>, added: seq<int>, total: nat, clusters: seq<string>,
                         ready: set<string>, known: set<string>, up: set<(int, string)>)
      modifies this
      ensures var names := set c | c in clusters && c in ready && c in known;
              monitors == if version != 8 || prior == [] || added == [] then old(monitors)
                          else Registered(old(monitors), (set p | p in prior), (set p | p in added), names, up, total)
      ensures version == 8 && prior != [] && added != [] ==>
                && (forall k :: k in monitors <==>
                      || k in old(monitors)
                      || (k in up && k.0 in added && k.1 in clusters && k.1 in ready && k.1 in known))
                && forall k | k in monitors ::
                     if k in up && (k.0 in added || k.0 in prior) && k.1 in clusters && k.1 in ready && k.1 in known
                     then monitors[k] == total / 2 + 1 else k in old(monitors) && monitors[k] == old(monitors)[k]
    {
      if version == 8 {
        RegisterClusters(prior, added, total, clusters, ready, known, up);
      }
    }

    method MonitorOnAll(ports: seq<int>, c: string, quorum: int, up: set<(int, string)>)
      modifies this
      ensures monitors == Started(old(monitors), Reaching((set p | p in ports), {c}, up), quorum)
    {
      hide Started;
      NothingStarted(monitors, quorum);
      assert Reaching((set p | p in ports[..0]), {c}, up) == {};
      for i := 0 to |ports|
        invariant monitors == Started(old(monitors), Reaching((set p | p in ports[..i]), {c}, up), quorum)
      {
        var p := ports[i];
        ghost var before := set q | q in ports[..i];
        StartedOneMore(old(monitors), before, p, c, up, quorum);
        ghost var shown := ports[..i + 1];
        assert (set q | q in shown) == before + {p};
        assert ports[..i + 1] == ports[..i] + [p];
        if (p, c) in up {
          monitors := monitors[(p, c) := quorum];
        }
      }
      assert ports[..|ports|] == ports;
    }

    method SetOnAll(ports: seq<int>, c: string, quorum: int, up: set<(int, string)>)
      modifies this
      ensures monitors == Pushed(old(monitors), Reaching((set p | p in ports), {c}, up), quorum)
    {
      NothingPushed(monitors, quorum);
      assert Reaching((set p | p in ports[..0]), {c}, up) == {};
      for i := 0 to |ports|
        invariant monitors == Pushed(old(monitors), Reaching((set p | p in ports[..i]), {c}, up), quorum)
      {
        var p := ports[i];
        assert ports[..i + 1] == ports[..i] + [p];
        var ok := SetQuorum(p, c, quorum, (p, c) in up);
      }
      assert ports[..|ports|] == ports;
    }
  }

  /** New sentinels monitor the named clusters, old ones get the new quorum, as far as the calls succeed. */
  function Registered(m: Monitors, old': set<int>, new': set<int>, names: set<string>, up: set<(int, string)>,
                      total: nat): Monitors
  {
    Pushed(Started(m, Reaching(new', names, up), Majority(total)), Reaching(old', names, up), Majority(total))
  }

  lemma RegisteredIs(m: Monitors, old': set<int>, new': set<int>, names: set<string>, up: set<(int, string)>,
                     total: nat, k: (int, string))
    ensures var after, called := Registered(m, old', new', names, up, total), k in up && k.1 in names;
            && (k in after <==> k in m || (called && k.0 in new'))
            && (k in after ==>
                  if called && (k.0 in new' || k.0 in old') then after[k] == total / 2 + 1
                  else k in m && after[k] == m[k])
  {}

  lemma NothingRegistered(m: Monitors, old': set<int>, new': set<int>, up: set<(int, string)>, total: nat)
    ensures Registered(m, old', new', {}, up, total) == m
  {}

  lemma OneMoreRegistered(m: Monitors, old': set<int>, new': set<int>, names: set<string>, c: string,
                          up: set<(int, string)>, total: nat)
    ensures var before := Registered(m, old', new', names, up, total);
            Pushed(Started(before, Reaching(new', {c}, up), Majority(total)), Reaching(old', {c}, up), Majority(total))
            == Registered(m, old', new', names + {c}, up, total)
  {
    hide Reaching;
    ReachingOneMore(old', names, c, up);
    ReachingOneMore(new', names, c, up);
  }

  lemma ReachingOneMore(ports: set<int>, names: set<string>, c: string, up: set<(int, string)>)
    ensures Reaching(ports, names + {c}, up) == Reaching(ports, names, up) + Reaching(ports, {c}, up)
  {}

  // --- who can start a failover ---

  /** A group of sentinels that is large enough for one of its own members. */
  predicate CanStart(m: Monitors, c: string, group: set<int>) {
    exists p | p in group :: (p, c) in m && m[(p, c)] <= |group|
  }

  /** Any two groups that can start a failover of `c` share a sentinel. */
  ghost predicate Safe(m: Monitors, c: string, fleet: set<int>) {
    forall a, b | a <= fleet && b <= fleet && CanStart(m, c, a) && CanStart(m, c, b) :: a * b != {}
  }

  /** Quorums of at least a majority are safe. */
  lemma MajoritiesMeet(m: Monitors, c: string, fleet: set<int>)
    requires forall p | p in fleet && (p, c) in m :: m[(p, c)] >= Majority(|fleet|)
    ensures Safe(m, c, fleet)
  {
    forall a, b | a <= fleet && b <= fleet && CanStart(m, c, a) && CanStart(m, c, b)
      ensures a * b != {}
    {
      if a * b == {} {
        assert |a + b| == |a| + |b|;
        SubsetSize(a + b, fleet);
      }
    }
  }

  /**
    Removing a sentinel from a fleet with majority quorums: whichever of the pushes have been made,
    in whatever order and with whatever failures, the remaining fleet is safe.
  */
  lemma RemovalIsSafeThroughout(m: Monitors, c: string, fleet: set<int>, reached: set<(int, string)>)
    requires forall p | p in fleet && (p, c) in m :: m[(p, c)] == Majority(|fleet| + 1)
    ensures Safe(Pushed(m, reached, Majority(|fleet|)), c, fleet)
  {
    MajoritiesMeet(Pushed(m, reached, Majority(|fleet|)), c, fleet);
  }

  /** After a push that reached the whole fleet every quorum is a strict majority and within the fleet. */
  lemma PushedQuorumIsMajority(m: Monitors, names: set<string>, fleet: set<int>, up: set<(int, string)>, p: int,
                               c: string)
    requires p in fleet && c in names && (p, c) in m && (p, c) in up
    ensures var q := Pushed(m, Reaching(fleet, names, up), Majority(|fleet|))[(p, c)];
            2 * q > |fleet| && q <= |fleet|
  {
    SubsetSize({p}, fleet);
  }

  /**
    The push covers what the first sentinel monitors: afterwards every monitored cluster has the
    majority quorum on every sentinel exactly when the first sentinel monitors all of them, or the
    quorums it missed happened to be right.
  */
  lemma PushCoversAllIff(m: Monitors, names: set<string>, fleet: set<int>, first: int)
    requires first in fleet && forall c :: c in names <==> (first, c) in m
    ensures var after := Pushed(m, Reaching(fleet, names, m.Keys), Majority(|fleet|));
            (forall k | k in m && k.0 in fleet :: after[k] == Majority(|fleet|))
            <==> forall k | k in m && k.0 in fleet :: (first, k.1) in m || m[k] == Majority(|fleet|)
  {
    var after := Pushed(m, Reaching(fleet, names, m.Keys), Majority(|fleet|));
    forall k | k in m && k.0 in fleet
      ensures after[k] == if (first, k.1) in m then Majority(|fleet|) else m[k]
    {
      assert k in Reaching(fleet, names, m.Keys) <==> k.1 in names;
    }
  }

  lemma MajorityOf(total: nat, n: nat)
    ensures 2 * Majority(total) > n <==> total / 2 >= n / 2
    ensures Majority(total) <= n <==> total / 2 < n
  {}

  /**
    Adding v6 sentinels leaves every quorum as it was: it still is a strict majority of the fleet
    exactly when the larger fleet needs no larger one.
  */
  lemma KeptQuorumIsMajorityIff(m: Monitors, c: string, old': set<int>, new': set<int>, p: int)
    requires old' !! new' && p in old' && (p, c) in m && m[(p, c)] == Majority(|old'|)
    ensures 2 * m[(p, c)] > |old' + new'| <==> |old'| / 2 == |old' + new'| / 2
  {
    assert |old' + new'| == |old'| + |new'|;
    MajorityOf(|old'|, |old' + new'|);
  }

  /**
    After an addition the quorum comes from a fresh listing of the fleet, which may have failed or
    missed sentinels.  On old and new sentinels alike it is a strict majority exactly when the listing
    showed enough of the fleet, and within the fleet exactly when it did not show far too many.
  */
  lemma RegisteredQuorumIsMajorityIff(m: Monitors, old': set<int>, new': set<int>, names: set<string>,
                                      up: set<(int, string)>, total: nat, p: int, c: string)
    requires old' !! new' && c in names && p in old' + new' && (p, c) in up && (p in old' ==> (p, c) in m)
    ensures var after, n := Registered(m, old', new', names, up, total), |old' + new'|;
            && (p, c) in after
            && (2 * after[(p, c)] > n <==> total / 2 >= n / 2)
            && (after[(p, c)] <= n <==> total / 2 < n)
            && (total == n ==> 2 * after[(p, c)] > n && after[(p, c)] <= n)
  {
    SubsetSize({p}, old' + new');
    MajorityOf(total, |old' + new'|);
  }

  // --- what can go wrong ---

  lemma TakeSome(s: set<int>, n: nat) returns (t: set<int>)
    requires n <= |s|
    ensures t <= s && |t| == n
  {
    t := {};
    while |t| < n
      invariant t <= s && |t| <= n
    {
      assert s == t + (s - t) && |s| == |t| + |s - t|;
      var x := Any(s - t);
      t := t + {x};
    }
  }

  /** Two groups out of a fleet large enough for both, each holding one of two given members. */
  lemma TwoGroups(fleet: set<int>, x: int, y: int, q: nat, r: nat) returns (a: set<int>, b: set<int>)
    requires x in fleet && y in fleet && x != y && 1 <= q && 1 <= r && q + r <= |fleet|
    ensures a <= fleet && b <= fleet && a * b == {} && x in a && y in b && |a| == q && |b| == r
  {
    var rest := fleet - {x, y};
    assert fleet == rest + {x, y} && |fleet| == |rest| + 2;
    var s := TakeSome(rest, q - 1);
    assert rest == s + (rest - s) && |rest| == |s| + |rest - s|;
    var t := TakeSome(rest - s, r - 1);
    a, b := s + {x}, t + {y};
  }

  lemma TwoStart(m: Monitors, c: string, fleet: set<int>, x: int, y: int)
    requires x in fleet && y in fleet && x != y && (x, c) in m && (y, c) in m
    requires 1 <= m[(x, c)] && 1 <= m[(y, c)] && m[(x, c)] + m[(y, c)] <= |fleet|
    ensures !Safe(m, c, fleet)
  {
    var a, b := TwoGroups(fleet, x, y, m[(x, c)], m[(y, c)]);
    assert CanStart(m, c, a) && CanStart(m, c, b);
  }

  lemma Another(s: set<int>, x: int) returns (y: int)
    requires |s| >= 2
    ensures y in s && y != x
  {
    var rest := s - {x};
    if x in s { assert s == rest + {x}; } else { assert s == rest; }
    y := Any(rest);
  }

  /**
    A failed re-listing reads as an empty fleet: every sentinel then gets quorum 1, and any two of
    them can disagree.  With every call getting through, the fleet is safe exactly when the listing
    showed enough of it.
  */
  lemma RegisteredFleetIsSafeIff(m: Monitors, old': set<int>, new': set<int>, c: string, total: nat)
    requires old' !! new' && forall p | p in old' :: (p, c) in m
    ensures var everyone := set p | p in old' + new' :: (p, c);
            Safe(Registered(m, old', new', {c}, everyone, total), c, old' + new') <==> total / 2 >= |old' + new'| / 2
  {
    var fleet := old' + new';
    var everyone := set p | p in fleet :: (p, c);
    var after := Registered(m, old', new', {c}, everyone, total);
    forall p | p in fleet
      ensures (p, c) in after && after[(p, c)] == Majority(total)
    {
      assert (p, c) in everyone;
    }
    MajorityOf(total, |fleet|);
    if 2 * Majority(total) > |fleet| {
      MajoritiesMeet(after, c, fleet);
    } else {
      var x := Another(fleet, 0);
      var y := Another(fleet, x);
      TwoStart(after, c, fleet, x, y);
    }
  }

  /** Registration needs an old and a new sentinel, so a failed re-listing is always unsafe. */
  lemma FailedListingIsUnsafe(m: Monitors, old': set<int>, new': set<int>, c: string)
    requires old' !! new' && old' != {} && new' != {} && forall p | p in old' :: (p, c) in m
    ensures var everyone := set p | p in old' + new' :: (p, c);
            !Safe(Registered(m, old', new', {c}, everyone, 0), c, old' + new')
  {
    assert |old' + new'| == |old'| + |new'|;
    RegisteredFleetIsSafeIff(m, old', new', c, 0);
  }

  // --- while sentinels are being added ---

  /**
    A state on the way: the new sentinels in `joined` monitor the cluster already, the old ones in
    `updated` have the new quorum, the other old ones still have their old majority.
  */
  ghost predicate Midway(m: Monitors, c: string, old': set<int>, new': set<int>, joined: set<int>, updated: set<int>) {
    && old' !! new' && joined <= new' && updated <= old'
    && forall p | p in old' + joined ::
         && (p, c) in m
         && m[(p, c)] == if p in joined || p in updated then Majority(|old' + new'|) else Majority(|old'|)
  }

  /**
    In any such state the fleet is safe exactly when nobody is late, or the two least quorums around
    do not fit into the sentinels that monitor the cluster.
  */
  lemma MidwayIsSafeIff(m: Monitors, c: string, old': set<int>, new': set<int>, joined: set<int>, updated: set<int>)
    requires Midway(m, c, old', new', joined, updated)
    ensures var before, after, late := Majority(|old'|), Majority(|old' + new'|), |old' - updated|;
            Safe(m, c, old' + joined)
            <==> late == 0 || before + (if late >= 2 then before else after) > |old'| + |joined|
  {
    var fleet, waiting := old' + joined, old' - updated;
    var before, after, late := Majority(|old'|), Majority(|old' + new'|), |waiting|;
    assert |old' + new'| == |old'| + |new'| && |fleet| == |old'| + |joined|;
    SubsetSize(joined, new');
    if late == 0 {
      assert waiting == {};
      FitsNoTwo(m, c, fleet, after, after, 0);
    } else {
      var x := Any(waiting);
      if late >= 2 {
        if 2 * before > |fleet| {
          FitsNoTwo(m, c, fleet, before, before, x);
        } else {
          var y := Another(waiting, x);
          TwoStart(m, c, fleet, x, y);
        }
      } else {
        assert waiting == {x} by { SubsetSize({x}, waiting); }
        forall p | p in fleet && p != x ensures p in joined || p in updated { assert p !in waiting; }
        if before + after > |fleet| {
          FitsNoTwo(m, c, fleet, before, after, x);
        } else {
          var y := Another(fleet, x);
          TwoStart(m, c, fleet, x, y);
        }
      }
    }
  }

  /** One sentinel may ask for q votes, all others for at least r: too many for two separate groups. */
  lemma FitsNoTwo(m: Monitors, c: string, fleet: set<int>, q: nat, r: nat, x: int)
    requires q <= r && q + r > |fleet|
    requires forall p | p in fleet && (p, c) in m :: m[(p, c)] >= if p == x then q else r
    ensures Safe(m, c, fleet)
  {
    forall a, b | a <= fleet && b <= fleet && CanStart(m, c, a) && CanStart(m, c, b)
      ensures a * b != {}
    {
      var p :| p in a && (p, c) in m && m[(p, c)] <= |a|;
      var s :| s in b && (s, c) in m && m[(s, c)] <= |b|;
      assert p == s ==> p in a * b;
      SubsetSize(a + b, fleet);
      assert a * b == {} ==> |a + b| == |a| + |b|;
    }
  }

  function Watching(m: Monitors, c: string, fleet: set<int>): set<int> {
    set p | p in fleet && (p, c) in m
  }

  /** What the fleet looks like once the calls in `up` have been made. */
  function Registering(m: Monitors, c: string, old': set<int>, new': set<int>, up: set<(int, string)>): Monitors {
    Registered(m, old', new', {c}, up, |old' + new'|)
  }

  /** Nobody to add, nobody to be added to, or one added to an even number or to a single one. */
  predicate Benign(old': set<int>, new': set<int>) {
    old' == {} || new' == {} || (|new'| == 1 && (|old'| % 2 == 0 || |old'| == 1))
  }

  lemma BenignIsSafe(m: Monitors, c: string, old': set<int>, new': set<int>, joined: set<int>, updated: set<int>)
    requires Midway(m, c, old', new', joined, updated) && Benign(old', new')
    ensures Safe(m, c, old' + joined)
  {
    hide Midway, Safe;
    MidwayBounds(m, c, old', new', joined, updated);
    assert |old' + new'| == |old'| + |new'|;
    MidwayIsSafeIff(m, c, old', new', joined, updated);
    SubsetSize(joined, new');
    SubsetSize(old' - updated, old');
  }

  lemma MidwayBounds(m: Monitors, c: string, old': set<int>, new': set<int>, joined: set<int>, updated: set<int>)
    requires Midway(m, c, old', new', joined, updated)
    ensures joined <= new' && updated <= old' && old' !! new'
  {}

  lemma UnlessBenignUnsafe(m: Monitors, c: string, old': set<int>, new': set<int>)
    requires Midway(m, c, old', new', new', {}) && !Benign(old', new')
    ensures !Safe(m, c, old' + new')
  {
    MidwayBounds(m, c, old', new', new', {});
    hide Midway, Safe;
    assert |old' + new'| == |old'| + |new'| && old' - {} == old';
    MidwayIsSafeIff(m, c, old', new', new', {});
  }

  /**
    Adding sentinels keeps the fleet safe, whichever of the calls have been made and whichever fail,
    exactly when one is added to an even number or to a single one.  The documented step from three
    sentinels to six is not of that kind.
  */
  lemma AdditionIsSafeIff(m: Monitors, c: string, old': set<int>, new': set<int>)
    requires old' !! new'
    requires forall p | p in old' :: (p, c) in m && m[(p, c)] == Majority(|old'|)
    requires forall p | p in new' :: (p, c) !in m
    ensures (forall up :: var after := Registering(m, c, old', new', up);
                          Safe(after, c, Watching(after, c, old' + new')))
            <==> Benign(old', new')
  {
    hide Safe, Registering, Midway, Watching, Benign;
    if Benign(old', new') {
      forall up
        ensures var after := Registering(m, c, old', new', up); Safe(after, c, Watching(after, c, old' + new'))
      {
        var joined, updated := MidwayThere(m, c, old', new', up);
        BenignIsSafe(Registering(m, c, old', new', up), c, old', new', joined, updated);
      }
    } else {
      var up := set p | p in new' :: (p, c);
      var joined, updated := MidwayThere(m, c, old', new', up);
      assert joined == new' by {
        forall p | p in new' ensures p in joined { assert (p, c) in up; }
      }
      assert updated == {};
      UnlessBenignUnsafe(Registering(m, c, old', new', up), c, old', new');
    }
  }

  lemma MidwayAt(m: Monitors, c: string, old': set<int>, new': set<int>, up: set<(int, string)>, p: int)
    requires old' !! new' && p in old' + new'
    requires p in old' ==> (p, c) in m && m[(p, c)] == Majority(|old'|)
    requires p in new' ==> (p, c) !in m
    ensures var after := Registering(m, c, old', new', up);
            && ((p, c) in after <==> p in old' || (p, c) in up)
            && ((p, c) in after ==>
                  after[(p, c)] == if (p, c) in up then Majority(|old' + new'|) else Majority(|old'|))
  {
    hide Majority;
  }

  lemma MidwayThere(m: Monitors, c: string, old': set<int>, new': set<int>, up: set<(int, string)>)
    returns (joined: set<int>, updated: set<int>)
    requires old' !! new'
    requires forall p | p in old' :: (p, c) in m && m[(p, c)] == Majority(|old'|)
    requires forall p | p in new' :: (p, c) !in m
    ensures joined == (set p | p in new' && (p, c) in up) && updated == (set p | p in old' && (p, c) in up)
    ensures var after := Registering(m, c, old', new', up);
            && Midway(after, c, old', new', joined, updated)
            && Watching(after, c, old' + new') == old' + joined
  {
    joined, updated := set p | p in new' && (p, c) in up, set p | p in old' && (p, c) in up;
    hide Registering, Majority;
    var after := Registering(m, c, old', new', up);
    forall p | p in old' + new'
      ensures (p, c) in after <==> p in old' || (p, c) in up
      ensures (p, c) in after ==>
                after[(p, c)] == if (p, c) in up then Majority(|old' + new'|) else Majority(|old'|)
    {
      MidwayAt(m, c, old', new', up, p);
    }
  }

  /**
    The pushed quorum counts every running sentinel, whether or not it monitors the cluster.  The
    sentinels that do can reach it together exactly when they outnumber the others.
  */
  lemma PushedQuorumIsReachableIff(m: Monitors, names: set<string>, fleet: set<int>, c: string)
    requires c in names && fleet != {}
    ensures var watching := set p | p in fleet && (p, c) in m;
            var everyone := set p, n | p in fleet && n in names :: (p, n);
            var after := Pushed(m, Reaching(fleet, names, everyone), Majority(|fleet|));
            watching != {} ==> (CanStart(after, c, watching) <==> 2 * |watching| > |fleet|)
  {
    var watching := set p | p in fleet && (p, c) in m;
    var everyone := set p, n | p in fleet && n in names :: (p, n);
    var after := Pushed(m, Reaching(fleet, names, everyone), Majority(|fleet|));
    forall p | p in watching
      ensures (p, c) in after && after[(p, c)] == Majority(|fleet|)
    {
      assert (p, c) in everyone;
    }
    if watching != {} {
      var p := Any(watching);
      assert (p, c) in after;
    }
  }
}
