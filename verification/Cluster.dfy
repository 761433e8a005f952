/**
  The cluster commands as they run: loops over the instances and sentinels Docker lists, with every
  call into a container free to fail.  Each command is shown to be a step of `Upgrade`.
*/
module Cluster {
  import opened Collections
  import opened Lifecycle
  import opened Upgrade

  /** SENTINEL FAILOVER: done, no replica in good shape yet (try again), or any other error. */
  datatype FailoverReply = Accepted | NoGoodReplica | Rejected

  /** A sentinel's answer to SENTINEL MASTER. */
  datatype Reply = NoReply | Names(port: int)

  /** The first master port a sentinel names, 0 when none answers. */
  method FirstNamed(replies: seq<Reply>) returns (port: int)
    ensures || (port == 0 && forall r | r in replies :: r.NoReply?)
            || exists i | 0 <= i < |replies| ::
                 replies[i] == Names(port) && forall j | 0 <= j < i :: replies[j].NoReply?
  {
    port := 0;
    for i := 0 to |replies|
      invariant forall k | 0 <= k < i :: replies[k].NoReply?
    {
      if replies[i].Names? {
        return replies[i].port;
      }
    }
  }

  /** A command that walks a list and stops at the first port that refuses has reached these. */
  function Reached(ports: seq<int>, wanted: set<int>, accepts: set<int>): (r: set<int>)
    ensures forall p | p in r :: p in ports && p in wanted && p in accepts
    ensures AllAccept(ports, wanted, accepts) <==> forall p | p in ports && p in wanted :: p in r
  {
    if ports == [] then {}
    else
      var n := |ports| - 1;
      var before, p := Reached(ports[..n], wanted, accepts), ports[n];
      assert ports == ports[..n] + [p] && p in ports;
      if p in wanted && AllAccept(ports, wanted, accepts) then before + {p} else before
  }

  /** A listing shows each element of a set and nothing else. */
  ghost predicate ShowsAll(listing: seq<int>, ports: set<int>) {
    forall p :: p in listing <==> p in ports
  }

  lemma NothingListed(listing: seq<int>, ports: set<int>)
    requires ShowsAll(listing, ports)
    ensures listing == [] <==> ports == {}
  {
    if ports != {} {
      var p := Any(ports);
      assert p in listing;
    }
    if listing != [] {
      var p := listing[0];
      assert p in listing && p in ports;
    }
  }

  lemma PromotionFires(file: File, write: Write)
    ensures Load(file) == Ok(MixedVersions) ==>
              var (file', r) := Try(file, Attempt(Trigger.PromoteV8, true, write));
              (r == Fired <==> write == Written) && (r == Fired ==> file' == Saved(V8Prioritized))
  {
    PermittedOfChain(1, Trigger.PromoteV8);
  }

  /** A listing without the master's port. */
  function Without(ports: seq<int>, port: int): (r: seq<int>)
    ensures forall p :: p in r <==> p in ports && p != port
  {
    if ports == [] then []
    else
      var rest := Without(ports[..|ports| - 1], port);
      if ports[|ports| - 1] == port then rest else rest + [ports[|ports| - 1]]
  }

  lemma RefusalShows(ports: seq<int>, i: nat, wanted: set<int>, accepts: set<int>)
    requires i < |ports| && ports[i] in wanted && ports[i] !in accepts
    ensures !AllAccept(ports, wanted, accepts)
  {
    var p := ports[i];
    assert p in ports;
  }

  /** The first refusal is the end of it. */
  lemma {:induction false} ReachedStops(ports: seq<int>, i: nat, wanted: set<int>, accepts: set<int>)
    requires i < |ports| && ports[i] in wanted && ports[i] !in accepts
    ensures Reached(ports, wanted, accepts) == Reached(ports[..i], wanted, accepts)
    ensures !AllAccept(ports, wanted, accepts)
  {
    hide AllAccept, Reached;
    RefusalShows(ports, i, wanted, accepts);
    var n := |ports| - 1;
    if i < n {
      assert ports[..n][..i] == ports[..i];
      ReachedStops(ports[..n], i, wanted, accepts);
    }
    LastIsNotReached(ports, wanted, accepts);
  }

  lemma LastIsNotReached(ports: seq<int>, wanted: set<int>, accepts: set<int>)
    requires ports != [] && !AllAccept(ports, wanted, accepts)
    ensures Reached(ports, wanted, accepts) == Reached(ports[..|ports| - 1], wanted, accepts)
  {}

  lemma ReachesNext(ports: seq<int>, i: nat, wanted: set<int>, accepts: set<int>)
    requires i < |ports| && AllAccept(ports[..i], wanted, accepts)
    ensures ports[i] !in wanted ==>
              && Reached(ports[..i + 1], wanted, accepts) == Reached(ports[..i], wanted, accepts)
              && AllAccept(ports[..i + 1], wanted, accepts)
    ensures ports[i] in wanted && ports[i] in accepts ==>
              && Reached(ports[..i + 1], wanted, accepts) == Reached(ports[..i], wanted, accepts) + {ports[i]}
              && AllAccept(ports[..i + 1], wanted, accepts)
  {
    assert ports[..i + 1][..i] == ports[..i] && ports[..i + 1] == ports[..i] + [ports[i]];
  }

  lemma ReachesAll(ports: seq<int>, wanted: set<int>, accepts: set<int>)
    requires AllAccept(ports, wanted, accepts) && forall p | p in wanted :: p in ports
    ensures Reached(ports, wanted, accepts) == wanted && wanted <= accepts
  {
    var r := Reached(ports, wanted, accepts);
    forall p | p in wanted ensures p in r { assert p in ports; }
    assert wanted <= r && r <= wanted;
  }

  /** The port such a command stops at, if any. */
  function StopsAt(ports: seq<int>, wanted: set<int>, accepts: set<int>): set<int> {
    if ports == [] then {}
    else
      var n := |ports| - 1;
      var before, p := StopsAt(ports[..n], wanted, accepts), ports[n];
      if before == {} && p in wanted && p !in accepts then {p} else before
  }

  lemma {:induction false} GoesOn(ports: seq<int>, wanted: set<int>, accepts: set<int>)
    requires AllAccept(ports, wanted, accepts)
    ensures StopsAt(ports, wanted, accepts) == {}
  {
    if ports != [] {
      var n := |ports| - 1;
      assert ports == ports[..n] + [ports[n]];
      GoesOn(ports[..n], wanted, accepts);
    }
  }

  lemma {:induction false} StopsHere(ports: seq<int>, i: nat, wanted: set<int>, accepts: set<int>)
    requires i < |ports| && AllAccept(ports[..i], wanted, accepts) && ports[i] in wanted && ports[i] !in accepts
    ensures StopsAt(ports, wanted, accepts) == {ports[i]}
  {
    hide AllAccept;
    var n := |ports| - 1;
    if i == n {
      GoesOn(ports[..n], wanted, accepts);
    } else {
      assert ports[..n][..i] == ports[..i];
      StopsHere(ports[..n], i, wanted, accepts);
    }
  }

  /** Element i is one of `wanted`, and none of those before it refused. */
  ghost predicate ComesTo(ports: seq<int>, i: nat, p: int, wanted: set<int>, accepts: set<int>) {
    i < |ports| && ports[i] == p && p in wanted && forall k | 0 <= k < i && ports[k] in wanted :: ports[k] in accepts
  }

  lemma ComesToLater(ports: seq<int>, i: nat, p: int, wanted: set<int>, accepts: set<int>)
    requires ports != [] && i < |ports| - 1
    ensures ComesTo(ports, i, p, wanted, accepts) <==> ComesTo(ports[..|ports| - 1], i, p, wanted, accepts)
  {
    var before := ports[..|ports| - 1];
    assert forall k | 0 <= k <= i :: before[k] == ports[k];
  }

  lemma ComesToLast(ports: seq<int>, p: int, wanted: set<int>, accepts: set<int>)
    requires ports != []
    ensures var n := |ports| - 1;
            ComesTo(ports, n, p, wanted, accepts)
            <==> ports[n] == p && p in wanted && AllAccept(ports[..n], wanted, accepts)
  {
    var n := |ports| - 1;
    var before := ports[..n];
    if AllAccept(before, wanted, accepts) {
      forall k | 0 <= k < n && ports[k] in wanted ensures ports[k] in accepts {
        assert before[k] == ports[k] && ports[k] in before;
      }
    }
    if ComesTo(ports, n, p, wanted, accepts) {
      forall q | q in before && q in wanted ensures q in accepts {
        var k :| 0 <= k < n && before[k] == q;
        assert ports[k] == q;
      }
    }
  }

  lemma ComesToSplit(ports: seq<int>, p: int, wanted: set<int>, accepts: set<int>)
    requires ports != []
    ensures var before, last := ports[..|ports| - 1], ports[|ports| - 1];
            (exists i: nat :: ComesTo(ports, i, p, wanted, accepts))
            <==> || (exists i: nat :: ComesTo(before, i, p, wanted, accepts))
                 || (last == p && p in wanted && AllAccept(before, wanted, accepts))
  {
    hide AllAccept;
    var n := |ports| - 1;
    ComesToLast(ports, p, wanted, accepts);
    if i: nat :| ComesTo(ports, i, p, wanted, accepts) {
      if i < n { ComesToLater(ports, i, p, wanted, accepts); }
    }
    if i: nat :| ComesTo(ports[..n], i, p, wanted, accepts) {
      ComesToLater(ports, i, p, wanted, accepts);
    }
  }

  lemma {:induction false} StopsIff(ports: seq<int>, wanted: set<int>, accepts: set<int>)
    ensures StopsAt(ports, wanted, accepts) == {} <==> AllAccept(ports, wanted, accepts)
  {
    if ports != [] {
      var n := |ports| - 1;
      assert ports == ports[..n] + [ports[n]];
      StopsIff(ports[..n], wanted, accepts);
    }
  }

  lemma {:induction false} ReachedComesTo(ports: seq<int>, p: int, wanted: set<int>, accepts: set<int>)
    ensures p in Reached(ports, wanted, accepts)
            <==> p in accepts && exists i: nat :: ComesTo(ports, i, p, wanted, accepts)
    ensures p in StopsAt(ports, wanted, accepts)
            <==> p !in accepts && exists i: nat :: ComesTo(ports, i, p, wanted, accepts)
  {
    if ports != [] {
      hide ComesTo;
      var n := |ports| - 1;
      assert ports == ports[..n] + [ports[n]];
      ReachedComesTo(ports[..n], p, wanted, accepts);
      ComesToSplit(ports, p, wanted, accepts);
      StopsIff(ports[..n], wanted, accepts);
    }
  }

  /** What a command that walks a list reaches, and where it stops: everything wanted before that accepts. */
  lemma ReachedIff(ports: seq<int>, p: int, wanted: set<int>, accepts: set<int>)
    ensures p in Reached(ports, wanted, accepts) || p in StopsAt(ports, wanted, accepts)
            <==> exists i :: && 0 <= i < |ports| && ports[i] == p && p in wanted
                             && forall k | 0 <= k < i && ports[k] in wanted :: ports[k] in accepts
    ensures p in Reached(ports, wanted, accepts) ==> p in accepts
    ensures p in StopsAt(ports, wanted, accepts) ==> p !in accepts
  {
    ReachedComesTo(ports, p, wanted, accepts);
    if i :| && 0 <= i < |ports| && ports[i] == p && p in wanted
            && forall k | 0 <= k < i && ports[k] in wanted :: ports[k] in accepts {
      assert ComesTo(ports, i, p, wanted, accepts);
    }
  }

  /** What the wait on sentinel `first` succeeds on: every non-master at its priority, or nothing to expect. */
  ghost predicate Satisfied(w: World, first: int, views: Views) {
    NonMasters(w) == {} || (first in views && Observed(w, views[first]))
  }

  /** After the promotion, a poll shows the new priority, and so does a view that had it before. */
  lemma SatisfiedIff(w: World, first: int, polled: set<int>)
    ensures Satisfied(w, first, Saw(w.views, first, Promoted(w.instances, NonMasters(w)), polled))
            <==> || w.instances.Keys - {w.master} == {}
                 || (first in w.views && forall p | p in w.instances && p != w.master && p !in polled ::
                       && p in w.views[first]
                       && w.views[first][p] == if w.instances[p].version == 6 then 100 else 1)
  {}

  lemma SatisfiedNow(w: World, first: int)
    ensures Satisfied(w, first, w.views)
            <==> || w.instances.Keys - {w.master} == {}
                 || (&& first in w.views
                     && forall p | p in w.instances && p != w.master ::
                          && p in w.views[first]
                          && w.views[first][p] == if w.instances[p].version == 6 then 100 else 1)
  {}

  lemma BootsWith(file: File, version: int)
    requires version == 6 || version == 8
    ensures BootPriority(file, version)
            == if version == 6 then 100
               else if file in [Missing, Saved(AllV6), Saved(MixedVersions)] then 200 else 1
  {}

  lemma AllPromoted(w: World)
    ensures var after := Promoted(w.instances, NonMasters(w));
            && after.Keys == w.instances.Keys
            && forall p | p in after ::
                 after[p] == w.instances[p].(priority := if p == w.master then w.instances[p].priority
                                                         else if w.instances[p].version == 6 then 100 else 1)
  {}

  lemma SatisfiedIsSeen(w: World, views: Views)
    requires w.sentinels != map[]
    ensures Satisfied(w, First(w), views) <==> SeenByFirst(w, views)
  {}

  lemma DropsCommute(views: Views, resets: set<int>, port: int)
    ensures Restarted(Dropped(views, port), resets) == Dropped(Restarted(views, resets), port)
  {}

  lemma RestartedIs(views: Views, resets: set<int>)
    ensures Restarted(views, resets) == map s | s in views :: if s in resets then map[] else views[s]
    ensures Restarted(views, {}) == views
  {}

  lemma SameWait(w: World, w': World, updated: set<int>, first: int, views: Views)
    requires w'.instances == Promoted(w.instances, updated) && w'.master == w.master
    ensures NonMasters(w') == NonMasters(w)
    ensures Satisfied(w, first, views) <==> Satisfied(w', first, views)
  {}

  lemma NothingPromoted(w: World, first: int)
    ensures Promoted(w.instances, {}) == w.instances && Saw(w.views, first, w.instances, {}) == w.views
  {
    NothingSeen(w.views, first, w.instances);
  }

  lemma NamedPorts(replies: seq<Reply>, port: int)
    ensures port in (set r | r in replies && r.Names? :: r.port) <==> Names(port) in replies
  {
    if Names(port) in replies { assert Names(port).port == port; }
  }

  method NamedBy(replies: seq<Reply>, port: int) returns (named: bool)
    ensures named <==> Names(port) in replies
  {
    for i := 0 to |replies|
      invariant forall k | 0 <= k < i :: replies[k] != Names(port)
    {
      if replies[i] == Names(port) {
        return true;
      }
    }
    named := false;
  }

  /** The listed instances that run Redis 6, or those that do not. */
  function OfVersion(listing: seq<int>, instances: map<int, Instance>, six: bool): (r: seq<int>)
    ensures forall p :: p in r <==> p in listing && p in instances && (instances[p].version == 6) == six
  {
    if listing == [] then []
    else
      var n := |listing| - 1;
      var rest, p := OfVersion(listing[..n], instances, six), listing[n];
      assert listing == listing[..n] + [p];
      if p in instances && (instances[p].version == 6) == six then rest + [p] else rest
  }

  /** Every listed port among `wanted` accepts. */
  predicate AllAccept(ports: seq<int>, wanted: set<int>, accepts: set<int>) {
    forall p | p in ports && p in wanted :: p in accepts
  }

  /** How far promote-v8 gets: the v8 replicas in listing order, and the v6 ones only after all of them. */
  function PromotedBefore(w: World, listing: seq<int>, accepts: set<int>): set<int> {
    var v8 := OfVersion(listing, w.instances, false);
    var v6 := OfVersion(listing, w.instances, true);
    Reached(v8, NonMasters(w), accepts)
    + if AllAccept(v8, NonMasters(w), accepts) then Reached(v6, NonMasters(w), accepts) else {}
  }

  lemma PromotedAll(w: World, listing: seq<int>, accepts: set<int>)
    requires ShowsAll(listing, w.instances.Keys)
    ensures PromotedBefore(w, listing, accepts) <= NonMasters(w)
    ensures PromotedBefore(w, listing, accepts) == NonMasters(w)
            <==> forall p | p in NonMasters(w) :: p in accepts
    ensures PromotedBefore(w, listing, accepts) == NonMasters(w)
            <==> AllAccept(OfVersion(listing, w.instances, false), NonMasters(w), accepts)
                 && AllAccept(OfVersion(listing, w.instances, true), NonMasters(w), accepts)
  {
    hide Reached, OfVersion;
    var v8, v6 := OfVersion(listing, w.instances, false), OfVersion(listing, w.instances, true);
    forall p | p in NonMasters(w)
      ensures p in v8 || p in v6
    {
      assert p in listing;
    }
    if AllAccept(v8, NonMasters(w), accepts) && AllAccept(v6, NonMasters(w), accepts) {
      forall p | p in NonMasters(w) ensures p in PromotedBefore(w, listing, accepts) {}
    } else if !AllAccept(v8, NonMasters(w), accepts) {
      var p :| p in v8 && p in NonMasters(w) && p !in accepts;
      assert p !in PromotedBefore(w, listing, accepts);
    } else {
      var p :| p in v6 && p in NonMasters(w) && p !in accepts;
      assert p !in PromotedBefore(w, listing, accepts);
    }
  }

  lemma ReachedSnoc(ports: seq<int>, p: int, wanted: set<int>, accepts: set<int>)
    ensures Reached(ports + [p], wanted, accepts)
            == Reached(ports, wanted, accepts)
               + if p in wanted && p in accepts && AllAccept(ports, wanted, accepts) then {p} else {}
    ensures AllAccept(ports + [p], wanted, accepts)
            <==> AllAccept(ports, wanted, accepts) && (p in wanted ==> p in accepts)
  {
    assert (ports + [p])[..|ports|] == ports;
    assert AllAccept(ports + [p], wanted, accepts)
           <==> AllAccept(ports, wanted, accepts) && (p in wanted ==> p in accepts);
  }

  /** Walking those of one version is walking them all for those of that version. */
  lemma {:induction false} ReachedOfVersion(listing: seq<int>, instances: map<int, Instance>, six: bool,
                                            wanted: set<int>, chosen: set<int>, accepts: set<int>)
    requires chosen == set p | p in wanted && p in instances && (instances[p].version == 6) == six
    ensures Reached(OfVersion(listing, instances, six), wanted, accepts) == Reached(listing, chosen, accepts)
    ensures AllAccept(OfVersion(listing, instances, six), wanted, accepts) <==> AllAccept(listing, chosen, accepts)
  {
    hide Reached, AllAccept;
    if listing == [] {
      NoneReached(wanted, accepts);
      NoneReached(chosen, accepts);
    } else {
      var n := |listing| - 1;
      var p := listing[n];
      assert listing == listing[..n] + [p];
      ReachedOfVersion(listing[..n], instances, six, wanted, chosen, accepts);
      ReachedSnoc(OfVersion(listing[..n], instances, six), p, wanted, accepts);
      ReachedSnoc(listing[..n], p, chosen, accepts);
    }
  }

  lemma NoneReached(wanted: set<int>, accepts: set<int>)
    ensures Reached([], wanted, accepts) == {} && AllAccept([], wanted, accepts)
  {}

  /** promote-v8 goes through the v8 replicas in listing order, and touches a v6 one only after all of them. */
  lemma PromotedBeforeIff(w: World, listing: seq<int>, accepts: set<int>, p: int)
    requires ShowsAll(listing, w.instances.Keys)
    ensures p in PromotedBefore(w, listing, accepts)
            <==> && p in w.instances && p != w.master && p in accepts
                 && (exists i :: && 0 <= i < |listing| && listing[i] == p
                                 && forall k | 0 <= k < i && listing[k] in w.instances && listing[k] != w.master ::
                                      (w.instances[listing[k]].version == 6 <==> w.instances[p].version == 6)
                                      ==> listing[k] in accepts)
                 && (w.instances[p].version == 6 ==>
                       forall q | q in w.instances && q != w.master && w.instances[q].version != 6 :: q in accepts)
  {
    hide Reached, OfVersion, StopsAt;
    var v8 := set q | q in NonMasters(w) && (w.instances[q].version == 6) == false;
    var v6 := set q | q in NonMasters(w) && (w.instances[q].version == 6) == true;
    ReachedOfVersion(listing, w.instances, false, NonMasters(w), v8, accepts);
    ReachedOfVersion(listing, w.instances, true, NonMasters(w), v6, accepts);
    assert PromotedBefore(w, listing, accepts)
           == Reached(listing, v8, accepts)
              + if AllAccept(listing, v8, accepts) then Reached(listing, v6, accepts) else {};
    ReachedIff(listing, p, v8, accepts);
    ReachedIff(listing, p, v6, accepts);
  }

  /** The v6 instances isolate-v6-replicas disconnects: all but the master, if a sentinel names one. */
  function ToBreak(instances: map<int, Instance>, replies: seq<Reply>, master: int): set<int> {
    set p | p in instances && instances[p].version == 6 && !(Names(master) in replies && p == master)
  }

  lemma NothingBroken(instances: map<int, Instance>)
    ensures BreakLinks(instances, {}) == instances
  {}

  /** The readable instances that do not replicate from the master directly. */
  function Strays(instances: map<int, Instance>, master: int, readable: set<int>): set<int> {
    set p | p in instances && p != master && p in readable && instances[p].target != master
  }

  /** The instances a reconciliation rewires: up to the first that refuses, or that accepts but does not sync. */
  function Rewired(listing: seq<int>, strays: set<int>, accepts: set<int>, syncs: set<int>): set<int> {
    Reached(listing, strays, accepts * syncs) + StopsAt(listing, strays, accepts * syncs) * accepts
  }

  /** That is: those before which every stray accepted and synced, if they accept themselves. */
  lemma RewiredIff(listing: seq<int>, instances: map<int, Instance>, master: int, readable: set<int>,
                   accepts: set<int>, syncs: set<int>, p: int)
    ensures var strays := set q | q in instances && q != master && q in readable && instances[q].target != master;
            var rewired := Rewired(listing, Strays(instances, master, readable), accepts, syncs);
            p in rewired
            <==> && p in accepts
                 && exists i :: && 0 <= i < |listing| && listing[i] == p && p in strays
                                && forall k | 0 <= k < i && listing[k] in strays :: listing[k] in accepts * syncs
  {
    hide Reached, StopsAt;
    ReachedIff(listing, p, Strays(instances, master, readable), accepts * syncs);
  }

  /** Some sentinel names a master that is there. */
  predicate CanStart(instances: map<int, Instance>, master: int, replies: seq<Reply>) {
    Names(master) in replies && master in instances
  }

  lemma NothingRewired(instances: map<int, Instance>, master: int)
    ensures PointAt(instances, master, {}, {}) == instances
  {}

  /**
    From any replication graph, rewiring the strays leaves none, touches nobody else, and so leaves
    every replica on the master exactly when the unreadable ones already were.
  */
  lemma ReconciledHasNoStrays(instances: map<int, Instance>, master: int, readable: set<int>)
    ensures var strays := Strays(instances, master, readable);
            var after := PointAt(instances, master, strays, strays);
            && Strays(after, master, readable) == {}
            && SameButLinks(after, instances)
            && ((forall p | p in after && p != master :: after[p].target == master)
                <==> forall p | p in instances && p != master && p !in readable :: instances[p].target == master)
  {
    var strays := Strays(instances, master, readable);
    var after := PointAt(instances, master, strays, strays);
    forall p | p in instances && p != master
      ensures after[p].target == if p in readable then master else instances[p].target
    {}
  }

  /** Whatever a reconciliation rewires are replicas, and those that caught up could. */
  lemma RewiredBounds(w: World, listing: seq<int>, replies: seq<Reply>, readable: set<int>, accepts: set<int>,
                      syncs: set<int>)
    requires forall p | p in syncs && p in w.instances :: CanSync(w, p)
    ensures var strays := Strays(w.instances, w.master, readable);
            && Reached(listing, strays, accepts * syncs) <= Rewired(listing, strays, accepts, syncs) <= NonMasters(w)
            && forall p | p in Reached(listing, strays, accepts * syncs) :: CanSync(w, p)
  {
    hide Reached;
    StopsInWanted(listing, Strays(w.instances, w.master, readable), accepts * syncs);
  }

  lemma {:induction false} StopsInWanted(ports: seq<int>, wanted: set<int>, accepts: set<int>)
    ensures StopsAt(ports, wanted, accepts) <= wanted
  {
    if ports != [] {
      StopsInWanted(ports[..|ports| - 1], wanted, accepts);
    }
  }

  lemma WinnerIsReplica(w: World, leader: int, eligible: set<int>, winner: int)
    requires Election(w, leader, eligible, winner)
    ensures winner in NonMasters(w)
  {}

  lemma NothingReconciled(w: World)
    ensures w.sentinels != map[] ==> Reconciled(w, {}, {}, {}) == w
  {
    NothingRewired(w.instances, w.master);
    if w.sentinels != map[] { NothingSeen(w.views, First(w), w.instances); }
  }

  lemma FailoverWrites(file: File, done: bool, write: Write)
    ensures Advance(file, V8Prioritized, Trigger.Failover, done, write)
            == if file != Saved(V8Prioritized) || !done then file
               else match write
                 case Written => Saved(FailoverComplete)
                 case Untouched => file
                 case Truncated => Torn
                 case Unconfirmed => Saved(FailoverComplete)
  {
    AdvanceWrites(file, 2, done, write);
  }

  lemma FailoverFires(file: File, write: Write)
    ensures Load(file) == Ok(V8Prioritized) ==>
              forall done ::
                var fired := Try(file, Attempt(Trigger.Failover, done, write));
                && (fired.1 == Fired <==> done && write == Written)
                && (fired.1 == Fired ==> fired.0 == Saved(FailoverComplete))
                && Advance(file, V8Prioritized, Trigger.Failover, done, write) == fired.0
    ensures Load(file) != Ok(V8Prioritized) ==>
              forall done :: Advance(file, V8Prioritized, Trigger.Failover, done, write) == file
  {
    PermittedOfChain(2, Trigger.Failover);
  }

  lemma IsolationFires(file: File, write: Write)
    ensures Load(file) == Ok(FailoverComplete) ==>
              forall done ::
                && (Try(file, Attempt(BreakReplication, done, write)).1 == Fired <==> done && write == Written)
                && Advance(file, FailoverComplete, BreakReplication, done, write)
                   == Try(file, Attempt(BreakReplication, done, write)).0
  {
    PermittedOfChain(3, BreakReplication);
  }

  class Cluster {
    var instances: map<int, Instance>
    var sentinels: map<int, int>
    var views: Views
    var master: int
    var file: File
    ghost var attempted: bool
    ghost var promoted: bool

    ghost function View(): World
      reads this
    {
      World(instances, sentinels, views, master, file, attempted, promoted)
    }

    /** Only a sentinel that monitors the cluster can name a master. */
    ghost predicate Answers(replies: seq<Reply>)
      reads `views
    {
      (exists r | r in replies :: r.Names?) ==> views != map[]
    }

    /** The sentinels that answer agree on the master. */
    ghost predicate Agree(replies: seq<Reply>)
      reads `master, `views
    {
      master > 0 && Answers(replies) && forall r | r in replies :: r.Names? ==> r.port == master
    }

    /** `fleet` lists every sentinel by port, or could not be listed, or there is none. */
    ghost predicate ListsFleet(fleet: seq<int>)
      reads `sentinels
    {
      fleet == [] || (ShowsAll(fleet, sentinels.Keys) && forall i, j | 0 <= i < j < |fleet| :: fleet[i] < fleet[j])
    }

    lemma FirstOfFleet(fleet: seq<int>)
      requires ListsFleet(fleet) && fleet != []
      ensures sentinels != map[] && First(View()) == fleet[0]
    {
      assert fleet[0] in fleet && fleet[0] in sentinels;
      assert forall k | 0 <= k < |fleet| :: fleet[0] <= fleet[k];
      var first := First(View());
      assert first in fleet;
    }

    /** `listing` shows every instance. */
    ghost predicate Lists(listing: seq<int>)
      reads `instances
    {
      ShowsAll(listing, instances.Keys) && forall p | p in instances :: p > 0
    }

    // --- instance add and rm ---

    /** instance add: a new replica of the master sentinel reports, on a free port. */
    method AddInstance(port: int, version: int, replies: seq<Reply>, started: bool, ready: bool, configured: bool,
                       synced: bool, resets: set<int>, write: Write)
      returns (ok: bool, ghost fate: AddFate)
      requires (version == 6 || version == 8) && port !in instances && Agree(replies)
      // Redis 6 cannot replicate from Redis 8.
      requires synced && master in instances ==> instances[master].version == 6 || version != 6
      modifies this
      ensures AddTakes(old(View()), port, version, fate, View())
      ensures fate == if !(Names(master) in replies && master in old(instances) && started) then NotStarted
                      else if !ready || !configured then Stranded(0)
                      else if !synced then Stranded(master)
                      else Joined(resets, write)
      ensures ok <==> fate.Joined?
      // A v8 replica stays behind the v6 ones until the promotion, and does not need it afterwards.
      ensures fate != NotStarted ==>
                var priority := if version == 6 then 100
                                else if old(file) in [Missing, Saved(AllV6), Saved(MixedVersions)] then 200 else 1;
                var target := if ready && configured then master else 0;
                instances == old(instances)[port := Instance(version, priority, target, ok)]
      ensures fate == NotStarted ==> View() == old(View())
    {
      hide Try, Advance, Load, BootPriority, InitialReplicaPriority, LoadOrBlank, Restarted, Dropped;
      AdvanceWhenFound(file, AllV6, AddV8Instance, write);
      BootsWith(file, version);
      fate := NotStarted;
      if instances == map[] {
        return false, fate;
      }
      var masterPort := FirstNamed(replies);
      if masterPort == 0 || masterPort !in instances || !started {
        return false, fate;
      }
      DropsCommute(views, resets, port);
      ok := StartReplica(port, version, masterPort, ready, configured, synced);
      if !ok {
        fate := Stranded(instances[port].target);
        return;
      }
      views := Restarted(views, resets);
      if version == 8 && LoadOrBlank(file) == AllV6 {
        file := Try(file, Attempt(AddV8Instance, true, write)).0;
      }
      fate := Joined(resets, write);
    }

    /** Start the container, wait for it, point it at the master and wait for the sync. */
    method StartReplica(port: int, version: int, masterPort: int, ready: bool, configured: bool, synced: bool)
      returns (ok: bool)
      modifies `instances, `views
      ensures views == Dropped(old(views), port)
      ensures ok <==> ready && configured && synced
      ensures var target := if ready && configured then masterPort else 0;
              instances == old(instances)[port := Instance(version, BootPriority(file, version), target, ok)]
    {
      var priority := InitialReplicaPriority(file, version);
      instances := instances[port := Instance(version, if priority > 0 then priority else PRIORITY_DEFAULT, 0, false)];
      views := Dropped(views, port);
      if !ready || !configured {
        return false;
      }
      instances := instances[port := instances[port].(target := masterPort, synced := synced)];
      ok := synced;
    }

    /**
      Refused when any sentinel names it as master, whatever the others answer; otherwise the instance
      goes, and the last v6 to go ends a phase.
    */
    method RemoveInstance(port: int, replies: seq<Reply>, disconnected: bool, resets: set<int>, stopped: bool,
                          listed: bool, remaining: seq<int>, write: Write)
      returns (ok: bool, ghost named: set<int>, ghost fate: RmFate)
      requires port in instances && Answers(replies)
      requires ShowsAll(remaining, instances.Keys - {port})
      modifies this
      ensures RemoveTakes(old(View()), port, named, fate, View())
      ensures named == set r | r in replies && r.Names? :: r.port
      ensures Names(port) in replies ==> !ok && View() == old(View())
      ensures fate == if stopped then Removed(resets, listed, write) else NotStopped(disconnected, resets)
      ensures ok <==> Names(port) !in replies && stopped
    {
      hide Try, Advance, Load, LoadOrBlank, Restarted, Dropped;
      AdvanceWhenFound(file, ReplicationBroken, DestroyV6, write);
      named := set r | r in replies && r.Names? :: r.port;
      fate := if stopped then Removed(resets, listed, write) else NotStopped(disconnected, resets);
      assert named != {} ==> views != map[];
      var isMaster := NamedBy(replies, port);
      assert isMaster <==> port in named by { NamedPorts(replies, port); }
      if isMaster {
        return false, named, fate;
      }
      if disconnected {
        instances := BreakLinks(instances, {port});
      }
      views := Restarted(views, resets);
      if !stopped {
        return false, named, fate;
      }
      instances := instances - {port};
      views := Dropped(views, port);
      assert instances == old(instances) - {port};
      ok := true;
      if !listed {
        return;
      }
      var hasV6 := AnyV6(remaining);
      if !hasV6 && LoadOrBlank(file) == ReplicationBroken {
        file := Try(file, Attempt(DestroyV6, true, write)).0;
      }
    }

    method AnyV6(listing: seq<int>) returns (found: bool)
      requires ShowsAll(listing, instances.Keys)
      ensures found <==> exists p | p in instances :: instances[p].version == 6
    {
      for i := 0 to |listing|
        invariant forall p | p in listing[..i] :: p in instances && instances[p].version != 6
      {
        var p := listing[i];
        assert p in listing && listing[..i + 1] == listing[..i] + [p];
        if instances[p].version == 6 {
          return true;
        }
      }
      assert listing[..|listing|] == listing;
      found := false;
    }

    // --- promote-v8 ---

    method PromoteV8(fleet: seq<int>, listing: seq<int>, replies: seq<Reply>, accepts: set<int>, polled: set<int>,
                     write: Write)
      returns (ok: bool, ghost known: bool, ghost updated: set<int>, ghost seen: set<int>)
      requires Lists(listing) && Agree(replies) && ListsFleet(fleet) && AllDirect(View(), polled)
      requires forall p | p in instances :: instances[p].version == 6 || instances[p].version == 8
      modifies this
      ensures PromoteTakes(old(View()), known, updated, seen, write, View())
      ensures known <==> fleet != [] && old(file) == Saved(MixedVersions) && Names(master) in replies
      ensures updated == if known && HasV8(old(View())) then PromotedBefore(old(View()), listing, accepts) else {}
      // Success: every replica takes its priority, and the first sentinel shows it, polled or known before.
      ensures ok <==> && fleet != [] && old(file) == Saved(MixedVersions) && Names(master) in replies
                      && (exists p | p in old(instances) :: old(instances)[p].version != 6)
                      && old(instances).Keys - {master} <= accepts
                      && (|| old(instances).Keys - {master} == {}
                          || (&& fleet[0] in old(views)
                              && forall p | p in old(instances) && p != master && p !in polled ::
                                   && p in old(views)[fleet[0]]
                                   && old(views)[fleet[0]][p] == if old(instances)[p].version == 6 then 100 else 1))
                      && write == Written
      ensures ok ==> && file == Saved(V8Prioritized) && instances.Keys == old(instances).Keys
                     && forall p | p in instances :: instances[p] == old(instances)[p].(priority :=
                          if p == master then old(instances)[p].priority
                          else if old(instances)[p].version == 6 then 100 else 1)
    {
      hide Load, Try, Observed, Saw, Promoted, PromotedBefore, AllAccept, OfVersion, Satisfied;
      known, updated, seen := false, {}, {};
      LoadedIff(file, MixedVersions);
      if fleet == [] || Load(file) != Ok(MixedVersions) {
        return false, known, updated, seen;
      }
      FirstOfFleet(fleet);
      FailedActionChangesNothing(file, Trigger.PromoteV8, write);
      PromotionFires(file, write);
      PromotedAll(View(), listing, accepts);
      AllPromoted(View());
      SatisfiedIff(View(), fleet[0], polled);
      var done;
      done, known, updated, seen := PromotionAction(fleet[0], listing, replies, accepts, polled);
      attempted := true;
      var (file', r) := Try(file, Attempt(Trigger.PromoteV8, done, write));
      file := file';
      promoted := promoted || (file == Saved(V8Prioritized) && !LeavesMasterBehind(old(View())));
      ok := r == Fired;
      assert SeenByFirst(old(View()), views) <==> Satisfied(old(View()), fleet[0], views) by {
        SatisfiedIsSeen(old(View()), views);
      }
    }

    /** What promote-v8 does between the guard of its transition and the transition itself. */
    method PromotionAction(first: int, listing: seq<int>, replies: seq<Reply>, accepts: set<int>, polled: set<int>)
      returns (ok: bool, ghost known: bool, ghost updated: set<int>, ghost seen: set<int>)
      requires Lists(listing) && Agree(replies)
      requires forall p | p in instances :: instances[p].version == 6 || instances[p].version == 8
      modifies `instances, `views
      ensures known <==> Names(master) in replies
      ensures updated == if known && HasV8(old(View())) then PromotedBefore(old(View()), listing, accepts) else {}
      ensures instances == Promoted(old(instances), updated) && views == Saw(old(views), first, instances, seen)
      ensures updated <= NonMasters(old(View()))
      ensures ok <==> known && HasV8(old(View())) && updated == NonMasters(old(View()))
                      && Satisfied(old(View()), first, views)
      ensures seen == if known && HasV8(old(View())) && updated == NonMasters(old(View())) then polled else {}
    {
      hide Observed, Saw, OfVersion, PromotedBefore, AllAccept;
      ghost var w := View();
      PromotedAll(w, listing, accepts);
      NothingPromoted(w, first);
      known, updated, seen := false, {}, {};
      var masterPort := FirstNamed(replies);
      if masterPort == 0 {
        return false, known, updated, seen;
      }
      known := true;
      var v6, v8 := SplitByVersion(listing);
      if v8 == [] {
        return false, known, updated, seen;
      }
      ghost var v := v8[0];
      assert v in v8 && HasV8(w);
      var done;
      done, updated := SetAllPriorities(listing, v6, v8, accepts);
      assert forall p | p in NonMasters(w) :: p in listing && (p in v6 || p in v8);
      NothingPromoted(View(), first);
      if !done {
        return false, known, updated, seen;
      }
      seen := polled;
      views := Saw(views, first, instances, polled);
      var expected := Without(v8 + v6, masterPort);
      assert ShowsAll(expected, NonMasters(View()));
      ok := WaitForPriorities(first, expected);
      SatisfiedNow(View(), first);
      SameWait(w, View(), updated, first, views);
    }

    method SetAllPriorities(ghost listing: seq<int>, v6: seq<int>, v8: seq<int>, accepts: set<int>)
      returns (done: bool, ghost updated: set<int>)
      requires Lists(listing)
      requires forall p | p in instances :: instances[p].version == 6 || instances[p].version == 8
      requires v6 == OfVersion(listing, instances, true) && v8 == OfVersion(listing, instances, false)
      modifies `instances
      ensures updated == PromotedBefore(old(View()), listing, accepts)
      ensures done <==> updated == NonMasters(old(View()))
      ensures instances == Promoted(old(instances), updated)
    {
      hide Reached, OfVersion, AllAccept;
      ghost var w := View();
      PromotedAll(w, listing, accepts);
      done, updated := SetPriorities(v8, PRIORITY_V8_PROMOTED, accepts, {});
      assert NonMasters(View()) == NonMasters(w);
      if done {
        done, updated := SetPriorities(v6, PRIORITY_DEFAULT, accepts, updated);
        assert NonMasters(View()) == NonMasters(w);
      }
      assert updated == PromotedBefore(w, listing, accepts);
    }

    method SplitByVersion(listing: seq<int>) returns (v6: seq<int>, v8: seq<int>)
      requires Lists(listing)
      ensures v6 == OfVersion(listing, instances, true) && v8 == OfVersion(listing, instances, false)
    {
      v6, v8 := [], [];
      for i := 0 to |listing|
        invariant v6 == OfVersion(listing[..i], instances, true) && v8 == OfVersion(listing[..i], instances, false)
      {
        var p := listing[i];
        assert p in listing && listing[..i + 1] == listing[..i] + [p];
        if instances[p].version == 6 {
          v6 := v6 + [p];
        } else {
          v8 := v8 + [p];
        }
      }
      assert listing[..|listing|] == listing;
    }

    /** CONFIG SET on each listed instance but the master, stopping at the first that refuses. */
    method SetPriorities(ports: seq<int>, priority: int, accepts: set<int>, ghost before: set<int>)
      returns (done: bool, ghost updated: set<int>)
      requires forall p | p in ports ::
                 p in instances && priority == PromotedPriority(instances[p].version) && p !in before
      modifies `instances
      ensures updated == before + Reached(ports, NonMasters(View()), accepts)
      ensures done <==> AllAccept(ports, NonMasters(View()), accepts)
      ensures instances == Promoted(old(instances), updated - before)
    {
      hide Reached, AllAccept;
      updated := before;
      ghost var wanted := NonMasters(View());
      assert instances == Promoted(instances, updated - before);
      for i := 0 to |ports|
        invariant updated == before + Reached(ports[..i], wanted, accepts)
        invariant AllAccept(ports[..i], wanted, accepts)
        invariant instances == Promoted(old(instances), updated - before)
      {
        var p := ports[i];
        assert p in ports && ports[..i + 1] == ports[..i] + [p];
        ReachesNext(ports, i, wanted, accepts);
        if p != master {
          if p !in accepts {
            ReachedStops(ports, i, wanted, accepts);
            return false, updated;
          }
          instances := instances[p := instances[p].(priority := priority)];
          updated := updated + {p};
        }
      }
      assert ports[..|ports|] == ports;
      done := true;
    }

    /**
      The success predicate of the wait: with nothing to expect it is met at once; otherwise the sentinel
      must monitor the cluster and show every non-master at the priority it was given.
    */
    method WaitForPriorities(first: int, expected: seq<int>) returns (ok: bool)
      requires ShowsAll(expected, NonMasters(View()))
      ensures ok <==> || instances.Keys - {master} == {}
                      || (&& first in views
                          && forall p | p in instances && p != master ::
                               && p in views[first]
                               && views[first][p] == if instances[p].version == 6 then 100 else 1)
    {
      NothingListed(expected, NonMasters(View()));
      if expected == [] {
        return true;
      }
      if first !in views {
        return false;
      }
      var view := views[first];
      for i := 0 to |expected|
        invariant forall p | p in expected[..i] ::
                    p in instances && p in view && view[p] == PromotedPriority(instances[p].version)
      {
        var p := expected[i];
        assert p in expected && expected[..i + 1] == expected[..i] + [p];
        if p !in view || view[p] != PromotedPriority(instances[p].version) {
          return false;
        }
      }
      assert expected[..|expected|] == expected;
      ok := true;
    }

    // --- isolate-v6-replicas ---

    /** REPLICAOF NO ONE on every v6 instance but the master, then a reset of every sentinel. */
    method IsolateV6Replicas(listing: seq<int>, replies: seq<Reply>, listed: bool, accepts: set<int>, resets: set<int>,
                             write: Write)
      returns (ok: bool, ghost broken: set<int>, actionOk: bool)
      requires Lists(listing) && Agree(replies)
      modifies this
      ensures IsolateTakes(old(View()), broken, if actionOk then resets else {}, actionOk, write, View())
      // What goes are the v6 instances, without the master if a sentinel names it.
      ensures var toBreak := set p | && p in old(instances) && old(instances)[p].version == 6
                                     && !(p == master && Names(master) in replies);
              old(file) == Saved(FailoverComplete) && listed ==>
                && broken == Reached(listing, toBreak, accepts)
                && (actionOk <==> toBreak <= accepts)
                && (actionOk ==> broken == toBreak)
      ensures instances == map p | p in old(instances) ::
                if p in broken then old(instances)[p].(target := 0) else old(instances)[p]
      ensures ok <==> old(file) == Saved(FailoverComplete) && actionOk && write == Written
      ensures actionOk ==> old(file) == Saved(FailoverComplete) && listed
      ensures actionOk ==> views == map s | s in old(views) :: if s in resets then map[] else old(views)[s]
      ensures !actionOk ==> views == old(views)
      ensures ok ==> forall p | p in instances && instances[p].version == 6 && p != master :: instances[p].target == 0
    {
      hide Load, Try, Advance, Reached, AllAccept, Restarted;
      IsolationFires(file, write);
      RestartedIs(views, resets);
      LoadedIff(file, FailoverComplete);
      NothingBroken(instances);
      broken, actionOk := {}, false;
      if Load(file) != Ok(FailoverComplete) {
        return false, broken, actionOk;
      }
      if listed {
        var masterPort := FirstNamed(replies);
        actionOk, broken := BreakReplications(listing, masterPort, replies, accepts);
      }
      ghost var toBreak := set p | && p in old(instances) && old(instances)[p].version == 6
                                   && !(p == master && Names(master) in replies);
      assert ToBreak(old(instances), replies, master) == toBreak;
      if actionOk {
        views := Restarted(views, resets);
      }
      var (file', r) := Try(file, Attempt(BreakReplication, actionOk, write));
      file := file';
      ok := r == Fired;
    }

    method BreakReplications(listing: seq<int>, masterPort: int, ghost replies: seq<Reply>, accepts: set<int>)
      returns (done: bool, ghost broken: set<int>)
      requires Lists(listing) && master > 0 && masterPort == if Names(master) in replies then master else 0
      modifies `instances
      ensures instances == BreakLinks(old(instances), broken)
      ensures broken == Reached(listing, ToBreak(old(instances), replies, master), accepts)
      ensures done <==> ToBreak(old(instances), replies, master) <= accepts
      ensures done ==> broken == ToBreak(old(instances), replies, master)
      ensures forall p | p in broken :: p in instances && instances[p].version == 6
      ensures done ==> forall p | p in instances && instances[p].version == 6 && p != master :: instances[p].target == 0
    {
      hide Reached, AllAccept;
      ghost var wanted := ToBreak(instances, replies, master);
      broken := {};
      NothingBroken(instances);
      for i := 0 to |listing|
        invariant instances == BreakLinks(old(instances), broken)
        invariant broken == Reached(listing[..i], wanted, accepts)
        invariant AllAccept(listing[..i], wanted, accepts)
      {
        var p := listing[i];
        assert p in listing && listing[..i + 1] == listing[..i] + [p];
        ReachesNext(listing, i, wanted, accepts);
        if instances[p].version == 6 && p != masterPort {
          if p !in accepts {
            ReachedStops(listing, i, wanted, accepts);
            assert p in wanted;
            return false, broken;
          }
          instances := instances[p := instances[p].(target := 0)];
          broken := broken + {p};
        }
      }
      assert listing[..|listing|] == listing;
      ReachesAll(listing, wanted, accepts);
      done := true;
    }

    // --- failover ---

    /**
      Before a failover, point every replica at the master sentinel reports.  An instance whose
      replication state cannot be read is skipped; one that refuses or does not sync ends the command.
    */
    method ReconcileReplication(listing: seq<int>, replies: seq<Reply>, readable: set<int>, accepts: set<int>,
                                syncs: set<int>, visible: set<int>)
      returns (ok: bool, ghost rewired: set<int>, ghost caughtUp: set<int>)
      requires Lists(listing) && Agree(replies)
      modifies `instances
      ensures instances == PointAt(old(instances), master, rewired, caughtUp)
      ensures var strays := Strays(old(instances), master, readable);
              && rewired == (if CanStart(old(instances), master, replies)
                             then Rewired(listing, strays, accepts, syncs) else {})
              && caughtUp == if CanStart(old(instances), master, replies)
                             then Reached(listing, strays, accepts * syncs) else {}
      // Success: a sentinel named a master that is there, every readable instance elsewhere took it and
      // synced, and if there was any, the sentinel then saw all replicas.
      ensures var strays := set p | p in old(instances) && p != master && p in readable
                                    && old(instances)[p].target != master;
              && (ok <==> && Names(master) in replies && master in old(instances) && strays <= accepts * syncs
                          && (strays != {} ==> old(instances).Keys - {master} <= visible))
              && (ok ==> rewired == caughtUp == strays)
      ensures ok ==> forall p | p in instances && p != master && p in readable :: instances[p].target == master
    {
      hide Reached, AllAccept, StopsAt;
      rewired, caughtUp := {}, {};
      NothingRewired(instances, master);
      ghost var before, strays := instances, Strays(instances, master, readable);
      var masterPort := FirstNamed(replies);
      if masterPort == 0 || masterPort !in instances {
        return false, rewired, caughtUp;
      }
      assert masterPort == master && Names(master) in replies;
      var any := false;
      for i := 0 to |listing|
        invariant instances == PointAt(before, master, rewired, rewired)
        invariant rewired == Reached(listing[..i], strays, accepts * syncs) && (any <==> rewired != {})
        invariant AllAccept(listing[..i], strays, accepts * syncs)
      {
        var p := listing[i];
        assert p in listing && listing[..i + 1] == listing[..i] + [p];
        ReachesNext(listing, i, strays, accepts * syncs);
        if p != masterPort && p in readable && instances[p].target != masterPort {
          assert p in strays;
          if p !in accepts || p !in syncs {
            ReachedStops(listing, i, strays, accepts * syncs);
            StopsHere(listing, i, strays, accepts * syncs);
          }
          caughtUp := rewired;
          if p !in accepts {
            return false, rewired, caughtUp;
          }
          instances := instances[p := instances[p].(target := masterPort)];
          rewired, any := rewired + {p}, true;
          if p !in syncs {
            return false, rewired, caughtUp;
          }
          instances := instances[p := instances[p].(synced := true)];
        }
      }
      caughtUp := rewired;
      assert listing[..|listing|] == listing;
      GoesOn(listing, strays, accepts * syncs);
      ReachesAll(listing, strays, accepts * syncs);
      if any {
        ok := SentinelSeesAll(listing, masterPort, visible);
      } else {
        ok := true;
      }
    }

    /** Wait, one by one, until sentinel lists every replica. */
    method SentinelSeesAll(listing: seq<int>, masterPort: int, visible: set<int>) returns (ok: bool)
      requires Lists(listing)
      ensures ok <==> instances.Keys - {masterPort} <= visible
    {
      for i := 0 to |listing|
        invariant forall p | p in listing[..i] && p != masterPort :: p in visible
      {
        var p := listing[i];
        assert p in listing && listing[..i + 1] == listing[..i] + [p];
        if p != masterPort && p !in visible {
          assert p in instances.Keys - {masterPort};
          return false;
        }
      }
      assert listing[..|listing|] == listing;
      forall p | p in instances.Keys - {masterPort} ensures p in visible { assert p in listing; }
      ok := true;
    }

    /** `vote` is what sentinel does when it accepts the failover of a reconciled cluster. */
    ghost predicate CanVote(readable: set<int>, polled: set<int>, vote: Vote)
      reads this
    {
      sentinels != map[] ==>
        var strays := Strays(instances, master, readable);
        var mid := Reconciled(View(), strays, strays, polled);
        AllDirect(mid, polled) && (vote.Vote? ==> Election(mid, First(View()), vote.eligible, vote.winner))
    }

    /**
      cluster failover.  `polled` are the replicas the first sentinel polls before it is asked, and
      `vote` the election it then holds, if any: it accepts the command only when somebody is eligible.
    */
    method Failover(fleet: seq<int>, listing: seq<int>, replies: seq<Reply>, readable: set<int>, accepts: set<int>,
                    syncs: set<int>, visible: set<int>, attempts: seq<FailoverReply>, polled: set<int>, vote: Vote,
                    inTime: bool, write: Write)
      returns (ok: bool, ghost rewired: set<int>, ghost caughtUp: set<int>, ghost seen: set<int>, ghost cast: Vote,
               ghost switched: bool)
      requires Lists(listing) && Agree(replies) && ListsFleet(fleet) && |attempts| == 6
      requires forall p | p in syncs && p in instances :: CanSync(View(), p)
      requires CanVote(readable, polled, vote)
      modifies this
      ensures FailoverTakes(old(View()), rewired, caughtUp, seen, cast, switched, write, View())
      // Success means another instance is master now, and the lifecycle moved if it was waiting for this.
      ensures fleet != [] && old(file) != Torn ==>
                var strays := set p | p in old(instances) && p != old(master) && p in readable
                                      && old(instances)[p].target != old(master);
                var accepted := exists i | 0 <= i < 6 ::
                                  attempts[i] == Accepted && forall k | 0 <= k < i :: attempts[k] == NoGoodReplica;
                && cast == (if && Names(old(master)) in replies && old(master) in old(instances)
                               && strays <= accepts * syncs
                               && (strays != {} ==> old(instances).Keys - {old(master)} <= visible)
                               && accepted then vote else NoVote)
                && (switched <==> cast.Vote? && inTime)
      // A vote is cast only for a reconciled cluster, and after a rewiring only when all replicas were visible.
      ensures cast.Vote? ==> forall p | p in old(instances) && p != old(master) && p in readable ::
                               p in rewired || old(instances)[p].target == old(master)
      ensures cast.Vote? && rewired != {} ==> old(instances).Keys - {old(master)} <= visible
      ensures switched ==> vote.Vote? && master == vote.winner && master in NonMasters(old(View()))
      ensures ok <==> fleet != [] && old(file) != Torn && switched
                      && (old(file) == Saved(V8Prioritized) ==> write == Written)
      ensures file == if !(switched && old(file) == Saved(V8Prioritized)) then old(file)
                      else match write
                        case Written => Saved(FailoverComplete)
                        case Untouched => old(file)
                        case Truncated => Torn
                        case Unconfirmed => Saved(FailoverComplete)
    {
      hide Load, Try, Advance, PointAt, Strays, Reached, StopsAt, Election, Saw;
      FailoverFires(file, write);
      LoadedIff(file, V8Prioritized);
      FailoverWrites(file, false, write);
      FailoverWrites(file, true, write);
      NothingReconciled(View());
      rewired, caughtUp, seen, cast, switched := {}, {}, {}, NoVote, false;
      if fleet == [] || Load(file) == Unreadable {
        return false, rewired, caughtUp, seen, cast, switched;
      }
      FirstOfFleet(fleet);
      var done;
      done, rewired, caughtUp, seen, cast :=
        DoFailover(fleet[0], listing, replies, readable, accepts, syncs, visible, attempts, polled, vote, inTime);
      switched := done;
      ok := done;
      if Load(file) == Ok(V8Prioritized) {
        var (file', r) := Try(file, Attempt(Trigger.Failover, done, write));
        file := file';
        ok := r == Fired;
      }
    }

    method DoFailover(first: int, listing: seq<int>, replies: seq<Reply>, readable: set<int>, accepts: set<int>,
                      syncs: set<int>, visible: set<int>, attempts: seq<FailoverReply>, polled: set<int>, vote: Vote,
                      inTime: bool)
      returns (switched: bool, ghost rewired: set<int>, ghost caughtUp: set<int>, ghost seen: set<int>,
               ghost cast: Vote)
      requires Lists(listing) && Agree(replies) && |attempts| == 6
      requires sentinels != map[] && First(View()) == first && CanVote(readable, polled, vote)
      requires forall p | p in syncs && p in instances :: CanSync(View(), p)
      modifies `instances, `master, `views
      ensures rewired <= NonMasters(old(View())) && caughtUp <= rewired
      ensures forall p | p in caughtUp :: CanSync(old(View()), p)
      ensures rewired != {} ==> old(views) != map[] && old(master) in old(instances)
      ensures var mid := Reconciled(old(View()), rewired, caughtUp, seen);
              && AllDirect(mid, seen)
              && (cast.Vote? ==>
                    Election(mid, first, cast.eligible, cast.winner) && cast.winner in NonMasters(old(View())))
              && (instances, master, views)
                 == if cast.Vote? then var w := AfterVote(mid, cast); (w.instances, w.master, w.views)
                    else (mid.instances, mid.master, mid.views)
      ensures var strays := set p | p in old(instances) && p != old(master) && p in readable
                                    && old(instances)[p].target != old(master);
              var accepted := exists i | 0 <= i < 6 ::
                                attempts[i] == Accepted && forall k | 0 <= k < i :: attempts[k] == NoGoodReplica;
              && cast == (if && Names(old(master)) in replies && old(master) in old(instances)
                             && strays <= accepts * syncs
                             && (strays != {} ==> old(instances).Keys - {old(master)} <= visible)
                             && accepted then vote else NoVote)
              && (cast.Vote? ==> rewired == strays)
      ensures switched <==> cast.Vote? && inTime
    {
      hide Election, Reached, StopsAt, Saw;
      ghost var w := View();
      switched, rewired, caughtUp, seen, cast := false, {}, {}, {}, NoVote;
      var reconciled;
      reconciled, rewired, caughtUp := ReconcileReplication(listing, replies, readable, accepts, syncs, visible);
      NothingSeen(views, first, instances);
      RewiredBounds(w, listing, replies, readable, accepts, syncs);
      if !reconciled {
        return;
      }
      seen := polled;
      views := Saw(views, first, instances, polled);
      var accepted := false;
      for i := 0 to 6
        invariant forall k | 0 <= k < i :: attempts[k] == NoGoodReplica
      {
        if attempts[i] == Accepted {
          accepted := true;
          break;
        }
        if attempts[i] == Rejected {
          return;
        }
      }
      if !accepted || vote.NoVote? {
        return;
      }
      cast := vote;
      WinnerIsReplica(Reconciled(w, rewired, caughtUp, seen), first, vote.eligible, vote.winner);
      master := vote.winner;
      instances := Repointed(instances, vote.winner, vote.moved);
      views := Dropped(Restarted(views, vote.forgets), vote.winner);
      switched := inTime;
    }

    // --- sentinels ---

    /**
      sentinel rm: it is told to forget the cluster and goes; the last v6 sentinel to go ends the upgrade.
      A failed listing shows no sentinels.
    */
    method RemoveSentinel(port: int, forgotten: bool, stopped: bool, listed: bool, remaining: seq<int>, write: Write)
      returns (ok: bool)
      requires port in sentinels
      requires ShowsAll(remaining, if listed then sentinels.Keys - {port} else {})
      modifies this
      ensures ok <==> stopped
      ensures RemoveSentinelTakes(old(View()), port, forgotten, stopped, listed, write, View())
      ensures ok ==> sentinels == old(sentinels) - {port} && views == old(views) - {port}
    {
      hide Load, Try, LoadOrBlank, Advance;
      AdvanceWhenFound(file, V8SentinelsAdded, RemoveV6Sentinels, write);
      if forgotten {
        views := views - {port};
      }
      if !stopped {
        return false;
      }
      var version := sentinels[port];
      sentinels, views := sentinels - {port}, views - {port};
      assert views == old(views) - {port};
      ok := true;
      if version == 6 {
        var hasV6 := AnyV6Sentinel(remaining, listed);
        if !hasV6 && LoadOrBlank(file) == V8SentinelsAdded {
          file := Try(file, Attempt(RemoveV6Sentinels, true, write)).0;
        }
      }
    }

    method AnyV6Sentinel(remaining: seq<int>, ghost listed: bool) returns (found: bool)
      requires ShowsAll(remaining, if listed then sentinels.Keys else {})
      ensures found <==> listed && exists p | p in sentinels :: sentinels[p] == 6
    {
      for i := 0 to |remaining|
        invariant forall p | p in remaining[..i] :: p in sentinels && sentinels[p] != 6
      {
        var p := remaining[i];
        assert p in remaining && remaining[..i + 1] == remaining[..i] + [p];
        if sentinels[p] == 6 {
          return true;
        }
      }
      assert remaining[..|remaining|] == remaining;
      found := false;
    }

    /**
      sentinel add: start them one by one; only after the last v8 started, they are made to monitor a
      cluster that waits for them and whose master an older sentinel knows, and the lifecycle moves on.
    */
    method AddSentinels(version: int, ports: seq<int>, starts: set<int>, replies: seq<Reply>, reachable: set<int>,
                        write: Write)
      returns (ok: bool, ghost started: set<int>, ghost registered: set<int>)
      requires (version == 6 || version == 8) && Answers(replies) && forall p | p in ports :: p !in sentinels
      modifies this
      ensures AddSentinelsTakes(old(View()), version, started, registered, ok, write, View())
      ensures started == Reached(ports, (set p | p in ports), starts)
      ensures ok <==> forall p | p in ports :: p in starts
      ensures registered == if ok && version == 8 && old(LoadOrBlank(file)) == V6Destroyed
                               && exists r | r in replies :: r.Names?
                            then started * reachable else {}
      ensures views == old(views) + map p | p in registered :: map[]
    {
      hide Load, Try, LoadOrBlank, Advance;
      AdvanceWhenFound(file, V6Destroyed, Trigger.AddV8Sentinels, write);
      ok, started := StartSentinels(version, ports, starts);
      registered := {};
      assert views + Blank({}) == views;
      if ok && version == 8 && LoadOrBlank(file) == V6Destroyed {
        var known := Known(replies);
        if known {
          registered := RegisterWith(ports, reachable);
        }
        file := Try(file, Attempt(Trigger.AddV8Sentinels, true, write)).0;
      }
    }

    /** Some older sentinel reports a master. */
    method Known(replies: seq<Reply>) returns (known: bool)
      ensures known <==> exists r | r in replies :: r.Names?
    {
      for i := 0 to |replies|
        invariant forall k | 0 <= k < i :: replies[k].NoReply?
      {
        if replies[i].Names? {
          return true;
        }
      }
      known := false;
    }

    /** SENTINEL MONITOR on each new sentinel; failed calls are logged and skipped. */
    method RegisterWith(ports: seq<int>, reachable: set<int>) returns (ghost registered: set<int>)
      modifies `views
      ensures registered == (set p | p in ports) * reachable
      ensures views == old(views) + Blank(registered)
    {
      registered := {};
      assert views + Blank({}) == views;
      for i := 0 to |ports|
        invariant registered == (set p | p in ports[..i]) * reachable
        invariant views == old(views) + Blank(registered)
      {
        var p := ports[i];
        ghost var before := set q | q in ports[..i];
        ghost var shown := ports[..i + 1];
        assert shown == ports[..i] + [p];
        assert (set q | q in shown) == before + {p};
        if p in reachable {
          views := views[p := map[]];
          assert registered + {p} == (before + {p}) * reachable;
          registered := registered + {p};
        }
      }
      assert ports[..|ports|] == ports;
    }

    method StartSentinels(version: int, ports: seq<int>, starts: set<int>) returns (all: bool, ghost started: set<int>)
      requires forall p | p in ports :: p !in sentinels
      modifies `sentinels
      ensures sentinels == old(sentinels) + Running(started, version)
      ensures started !! old(sentinels).Keys && started == Reached(ports, (set p | p in ports), starts)
      ensures all <==> forall p | p in ports :: p in starts
      ensures all ==> started == set p | p in ports
    {
      hide Reached, AllAccept;
      started := {};
      ghost var wanted := set p | p in ports;
      for i := 0 to |ports|
        invariant started == Reached(ports[..i], wanted, starts) && started !! old(sentinels).Keys
        invariant AllAccept(ports[..i], wanted, starts)
        invariant sentinels == old(sentinels) + Running(started, version)
      {
        var p := ports[i];
        assert p in ports && ports[..i + 1] == ports[..i] + [p];
        if p !in starts {
          ReachedStops(ports, i, wanted, starts);
          return false, started;
        }
        ReachesNext(ports, i, wanted, starts);
        sentinels := sentinels[p := version];
        started := started + {p};
      }
      assert ports[..|ports|] == ports;
      ReachesAll(ports, wanted, starts);
      all := true;
    }
  }
}
