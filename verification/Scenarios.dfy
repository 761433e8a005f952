/** Runs from `cluster create` that show what the theorems about elections leave possible. */
module Scenarios {
  import opened Collections
  import opened Lifecycle
  import opened Upgrade
  import opened Elections

  /** What `cluster create` left: 1 is the master and 2 its replica, and the fleet monitors the cluster. */
  function Fresh(fleet: map<int, int>, file: File): World {
    var six := Instance(6, PRIORITY_DEFAULT, 1, true);
    World(map[1 := six.(target := 0), 2 := six], fleet, Blank(fleet.Keys), 1, file, false, false)
  }

  /** The sentinel that commands go through. */
  ghost predicate IsLeader(w: World, s: int) {
    w.sentinels != map[] && First(w) == s
  }

  // --- commands as continuations ---

  /** promote-v8 under a master some sentinel names, after which its write lands. */
  ghost function AfterPromote(w: World, updated: set<int>, polled: set<int>): World
    requires w.sentinels != map[]
  {
    var instances := Promoted(w.instances, updated);
    var views := Saw(w.views, First(w), instances, polled);
    var done := updated == NonMasters(w) && SeenByFirst(w, views);
    w.(instances := instances, views := views, file := if done then Saved(V8Prioritized) else w.file,
       attempted := true, promoted := w.promoted || (done && !LeavesMasterBehind(w)))
  }

  lemma ThenPromote(ws: seq<World>, steps: seq<Step>, updated: set<int>, polled: set<int>)
    returns (more: seq<World>, mores: seq<Step>)
    requires IsRun(ws, steps) && Load(Last(ws).file) == Ok(MixedVersions) && HasV8(Last(ws))
    requires Last(ws).views != map[] && Last(ws).sentinels != map[]
    requires updated <= NonMasters(Last(ws)) && AllDirect(Last(ws), polled)
    ensures more == ws + [AfterPromote(Last(ws), updated, polled)]
    ensures mores == steps + [Promote(true, updated, polled, Written)] && Continues(ws, steps, more, mores)
  {
    hide SeenByFirst, HasV8, LeavesMasterBehind;
    PermittedOfChain(1, PromoteV8);
    assert Last(ws).file == Saved(MixedVersions);
    more, mores := Then(ws, steps, Promote(true, updated, polled, Written), AfterPromote(Last(ws), updated, polled));
  }

  /** A failover through the first sentinel that needs no rewiring and succeeds. */
  lemma ThenFailover(ws: seq<World>, steps: seq<Step>, vote: Vote) returns (more: seq<World>, mores: seq<Step>)
    requires IsRun(ws, steps) && Last(ws).sentinels != map[] && Last(ws).file == Saved(V8Prioritized)
    requires vote.Vote? && Election(Last(ws), First(Last(ws)), vote.eligible, vote.winner)
    ensures Continues(ws, steps, more, mores)
    ensures Last(more) == AfterVote(Last(ws), vote).(file := Saved(FailoverComplete))
  {
    hide Election;
    var w := Last(ws);
    PermittedOfChain(2, Trigger.Failover);
    NothingSeen(w.views, First(w), w.instances);
    assert PointAt(w.instances, w.master, {}, {}) == w.instances;
    assert Reconciled(w, {}, {}, {}) == w;
    var step := Step.Failover({}, {}, {}, vote, true, Written);
    more, mores := Then(ws, steps, step, AfterVote(w, vote).(file := Saved(FailoverComplete)));
  }

  /** The same after a v8 has joined. */
  function WithV8(fleet: map<int, int>): World {
    var w := Fresh(fleet, Saved(MixedVersions));
    w.(instances := w.instances[3 := Instance(8, PRIORITY_V8_DEPRIORITIZED, 1, true)])
  }

  lemma FirstV8Joins(fleet: map<int, int>) returns (ws: seq<World>, steps: seq<Step>)
    requires 11 in fleet
    ensures IsRun(ws, steps) && Last(ws) == WithV8(fleet)
  {
    hide Takes;
    var w := Fresh(fleet, Saved(AllV6));
    ws, steps := [w], [];
    PermittedOfChain(0, AddV8Instance);
    assert 11 in w.views;
    assert Dropped(Restarted(w.views, fleet.Keys), 3) == w.views;
    ws, steps := ThenJoin(ws, steps, 3, 8, fleet.Keys);
  }

  // --- a v8 wins before the promotion ---

  lemma ThreeBeatsTwo(ws: seq<World>, steps: seq<Step>) returns (more: seq<World>, mores: seq<Step>)
    requires IsRun(ws, steps) && 11 in Last(ws).views && Last(ws).master == 1
    requires {2, 3} <= Last(ws).instances.Keys
    requires Last(ws).instances[2] == Instance(6, PRIORITY_DEFAULT, 1, true)
    requires Last(ws).instances[3] == Instance(8, PRIORITY_V8_PROMOTED, 1, true)
    ensures Continues(ws, steps, more, mores) && Last(more) == Last(ws).(views := Last(more).views)
    ensures Beats(Last(more), 11, {2, 3}, 3, 8, 2, 6)
  {
    hide Takes, Created;
    assert 2 in Last(ws).instances && 3 in Last(ws).instances;
    var one, ones := ThenPoll(ws, steps, 11, 3);
    more, mores := ThenPoll(one, ones, 11, 2);
  }

  /**
    A promote-v8 that fails after it reached a v8 replica: the file still reads MixedVersions, where
    failovers are promised to stay on v6, yet the v8 replica 3 wins over the eligible v6 replica 2.
  */
  lemma FailedPromotionLetsV8Win() returns (ws: seq<World>, steps: seq<Step>)
    ensures IsRun(ws, steps) && Last(ws).file == Saved(MixedVersions) && !Last(ws).promoted
    ensures Beats(Last(ws), 11, {2, 3}, 3, 8, 2, 6)
  {
    hide Takes, Created, SeenByFirst;
    ws, steps := FirstV8Joins(map[11 := 6]);
    assert Last(ws).instances[3].version != 6 && 2 in NonMasters(Last(ws)) && 2 !in {3};
    assert 11 in Last(ws).views && 11 in Last(ws).sentinels;
    ws, steps := ThenPromote(ws, steps, {3}, {});
    ws, steps := ThreeBeatsTwo(ws, steps);
  }

  /**
    A state file that could not be read when a v8 instance joined: the error is dropped, the
    lifecycle looks late, the instance boots at the promoted priority and wins over the v6 replica.
  */
  lemma TornFileLetsV8Win() returns (ws: seq<World>, steps: seq<Step>)
    ensures IsRun(ws, steps) && Last(ws).file == Torn && !Last(ws).attempted
    ensures Beats(Last(ws), 11, {2, 3}, 3, 8, 2, 6)
  {
    hide Takes;
    ws, steps := [Fresh(map[11 := 6], Torn)], [];
    assert 11 in Last(ws).views;
    ws, steps := ThenJoin(ws, steps, 3, 8, {11});
    ws, steps := ThreeBeatsTwo(ws, steps);
  }

  // --- a v6 wins after the promotion ---

  /** One v8 joined a v6 master and its v6 replica; both sentinels polled both replicas. */
  ghost predicate Mixed(w: World) {
    && w.master == 1 && w.file == Saved(MixedVersions) && !w.promoted
    && w.instances == map[1 := Instance(6, PRIORITY_DEFAULT, 0, true), 2 := Instance(6, PRIORITY_DEFAULT, 1, true),
                          3 := Instance(8, PRIORITY_V8_DEPRIORITIZED, 1, true)]
    && w.sentinels == map[11 := 6, 12 := 6] && w.views.Keys == {11, 12}
    && w.views[12] == map[2 := PRIORITY_DEFAULT, 3 := PRIORITY_V8_DEPRIORITIZED]
  }

  lemma ReachMixed() returns (ws: seq<World>, steps: seq<Step>)
    ensures IsRun(ws, steps) && Mixed(Last(ws))
  {
    hide Takes, Created;
    ws, steps := FirstV8Joins(map[11 := 6, 12 := 6]);
    ws, steps := ThenPoll(ws, steps, 12, 2);
    ws, steps := ThenPoll(ws, steps, 12, 3);
  }

  /** promote-v8 reached both replicas, and sentinel 11, on which it waits, saw it; 12 has not polled since. */
  ghost predicate Prioritized(w: World) {
    && w.master == 1 && w.file == Saved(V8Prioritized) && w.promoted
    && w.instances == map[1 := Instance(6, PRIORITY_DEFAULT, 0, true), 2 := Instance(6, PRIORITY_DEFAULT, 1, true),
                          3 := Instance(8, PRIORITY_V8_PROMOTED, 1, true)]
    && w.sentinels == map[11 := 6, 12 := 6] && w.views.Keys == {11, 12}
    && {2, 3} <= w.views[11].Keys && w.views[11][2] == PRIORITY_DEFAULT && w.views[11][3] == PRIORITY_V8_PROMOTED
    && w.views[12] == map[2 := PRIORITY_DEFAULT, 3 := PRIORITY_V8_DEPRIORITIZED]
  }

  lemma MixedIsPromoted(w: World)
    requires Mixed(w)
    ensures NonMasters(w) == {2, 3} && AllDirect(w, {2, 3}) && HasV8(w) && IsLeader(w, 11)
    ensures Prioritized(AfterPromote(w, {2, 3}, {2, 3}))
  {
    assert w.instances[3].version != 6;
    assert 11 in w.sentinels;
    assert First(w) in w.sentinels;
    var after := AfterPromote(w, {2, 3}, {2, 3});
    var view := after.views[11];
    forall p | p in NonMasters(w)
      ensures p in view && view[p] == PromotedPriority(w.instances[p].version)
    {
      assert p in after.instances;
    }
    assert 2 in view && 3 in view;
  }

  lemma ReachPrioritized() returns (ws: seq<World>, steps: seq<Step>)
    ensures JustPromoted(ws, steps) && Prioritized(Last(ws)) && !LeavesMasterBehind(ws[|steps| - 1])
  {
    hide Takes, Created, AfterPromote;
    ws, steps := ReachMixed();
    MixedIsPromoted(Last(ws));
    assert 11 in Last(ws).views && 11 in Last(ws).sentinels;
    ws, steps := ThenPromote(ws, steps, {2, 3}, {2, 3});
  }

  /**
    promote-v8 waits for the first sentinel alone.  When that one is removed before the other has polled
    again, the next failover goes through a stale sentinel, and the v6 replica 2 wins over the eligible
    v8 replica 3, although no v8 master was left behind.
  */
  lemma OtherSentinelElectsV6() returns (ws: seq<World>, steps: seq<Step>)
    ensures IsRun(ws, steps) && Last(ws).promoted && Last(ws).file == Saved(V8Prioritized)
    ensures Last(ws).sentinels == map[12 := 6] && IsLeader(Last(ws), 12)
    ensures Beats(Last(ws), 12, {2, 3}, 2, 6, 3, 8)
  {
    hide Takes, Created, LeavesMasterBehind;
    ws, steps := ReachPrioritized();
    var w := Last(ws);
    var w' := w.(sentinels := w.sentinels - {11}, views := w.views - {11});
    assert Takes(w, RemoveSentinel(11, true, true, true, Written), w') by {
      SentinelIsRemoved(w, 11, w');
    }
    ws, steps := Then(ws, steps, RemoveSentinel(11, true, true, true, Written), w');
    assert 12 in w'.sentinels;
    assert First(w') in w'.sentinels;
  }

  lemma SentinelIsRemoved(w: World, port: int, w': World)
    requires port in w.sentinels && w.file == Saved(V8Prioritized)
    requires w' == w.(sentinels := w.sentinels - {port}, views := w.views - {port})
    ensures Takes(w, RemoveSentinel(port, true, true, true, Written), w')
  {}

  /** A failover with only the v6 replica eligible ends the phase under a v6 master. */
  lemma FailoverCompleteUnderV6() returns (ws: seq<World>, steps: seq<Step>)
    ensures IsRun(ws, steps) && Last(ws).file == Saved(FailoverComplete) && Last(ws).promoted
    ensures Last(ws).master in Last(ws).instances && Last(ws).instances[Last(ws).master].version == 6
  {
    hide Takes, Created, LeavesMasterBehind;
    ws, steps := ReachPrioritized();
    assert 11 in Last(ws).sentinels;
    assert First(Last(ws)) in Last(ws).sentinels;
    ws, steps := ThenFailover(ws, steps, Vote({2}, 2, {1, 3}, {11, 12}));
  }

  // --- a promotion under a v8 master ---

  /** Two v6 and two v8, of which 3 became master while no v6 was eligible; everybody follows it. */
  ghost predicate UnderV8Master(w: World) {
    && w.master == 3 && w.file == Saved(MixedVersions) && w.sentinels == map[11 := 6] && w.views == map[11 := map[]]
    && w.instances == map[1 := Instance(6, PRIORITY_DEFAULT, 3, true), 2 := Instance(6, PRIORITY_DEFAULT, 3, true),
                          3 := Instance(8, PRIORITY_V8_DEPRIORITIZED, 0, true),
                          4 := Instance(8, PRIORITY_V8_DEPRIORITIZED, 3, true)]
  }

  /** The two v8 joined under the v6 master 1. */
  ghost predicate TwoJoined(w: World) {
    && w.master == 1 && w.file == Saved(MixedVersions) && w.sentinels == map[11 := 6] && w.views == map[11 := map[]]
    && w.instances == map[1 := Instance(6, PRIORITY_DEFAULT, 0, true), 2 := Instance(6, PRIORITY_DEFAULT, 1, true),
                          3 := Instance(8, PRIORITY_V8_DEPRIORITIZED, 1, true),
                          4 := Instance(8, PRIORITY_V8_DEPRIORITIZED, 1, true)]
  }

  lemma TwoJoin() returns (ws: seq<World>, steps: seq<Step>)
    ensures IsRun(ws, steps) && TwoJoined(Last(ws))
  {
    hide Takes, Created;
    ws, steps := FirstV8Joins(map[11 := 6]);
    assert 11 in Last(ws).views;
    ws, steps := ThenJoin(ws, steps, 4, 8, {11});
    assert Last(ws).views == map[11 := map[]];
  }

  lemma V8BecomesMaster() returns (ws: seq<World>, steps: seq<Step>)
    ensures IsRun(ws, steps) && UnderV8Master(Last(ws))
  {
    hide Takes, Created;
    ws, steps := TwoJoin();
    ws, steps := ThenPoll(ws, steps, 11, 3);
    ws, steps := ThenElect(ws, steps, 11, Vote({3}, 3, {1, 2, 4}, {11}));
    assert Last(ws).views == map[11 := map[]];
  }

  /** promote-v8 has succeeded, and has not touched the master. */
  ghost predicate PromotedUnderV8(w: World) {
    && w.master == 3 && w.file == Saved(V8Prioritized) && w.sentinels == map[11 := 6] && w.views.Keys == {11}
    && w.instances == map[1 := Instance(6, PRIORITY_DEFAULT, 3, true), 2 := Instance(6, PRIORITY_DEFAULT, 3, true),
                          3 := Instance(8, PRIORITY_V8_DEPRIORITIZED, 0, true),
                          4 := Instance(8, PRIORITY_V8_PROMOTED, 3, true)]
    && 4 in w.views[11] && w.views[11][4] == PRIORITY_V8_PROMOTED
  }

  lemma V8MasterPromotes(w: World)
    requires UnderV8Master(w)
    ensures NonMasters(w) == {1, 2, 4} && AllDirect(w, {1, 2, 4}) && HasV8(w) && w.views != map[]
    ensures w.sentinels != map[] && PromotedUnderV8(AfterPromote(w, {1, 2, 4}, {1, 2, 4}))
  {
    assert w.instances[3].version != 6;
    assert 11 in w.sentinels && 11 in w.views;
    assert First(w) in w.sentinels;
    var view := AfterPromote(w, {1, 2, 4}, {1, 2, 4}).views[11];
    forall p | p in NonMasters(w)
      ensures p in view && view[p] == PromotedPriority(w.instances[p].version)
    {}
    assert 4 in view;
  }

  /**
    A promotion that succeeds under a v8 master leaves that one at 200.  The next failover goes to the
    other v8 and ends the phase; in the one after that the v6 replica 2 wins over the eligible v8
    replica 3.
  */
  lemma PromotionUnderV8MasterCanElectV6() returns (ws: seq<World>, steps: seq<Step>)
    ensures IsRun(ws, steps) && Last(ws).file == Saved(FailoverComplete)
    ensures Beats(Last(ws), 11, {2, 3}, 2, 6, 3, 8)
  {
    hide Takes, Created, AfterPromote;
    ws, steps := V8BecomesMaster();
    V8MasterPromotes(Last(ws));
    ws, steps := ThenPromote(ws, steps, {1, 2, 4}, {1, 2, 4});
    var w := Last(ws);
    assert 11 in w.sentinels;
    assert First(w) in w.sentinels;
    ws, steps := ThenFailover(ws, steps, Vote({4}, 4, {1, 2, 3}, {11}));
    ws, steps := ThenPoll(ws, steps, 11, 2);
    ws, steps := ThenPoll(ws, steps, 11, 3);
  }

  // --- the whole upgrade ---

  /** The v6 replicas were disconnected and removed. */
  ghost predicate Destroyed(w: World) {
    && w.master == 3 && w.file == Saved(V6Destroyed)
    && w.instances == map[3 := Instance(8, PRIORITY_V8_PROMOTED, 0, true)]
    && w.sentinels == map[11 := 6, 12 := 6] && w.views == map[11 := map[], 12 := map[]]
  }

  /** The v8 replica is master now, and the sentinels started over. */
  ghost predicate FailedOver(w: World) {
    && w.master == 3 && w.file == Saved(FailoverComplete)
    && w.instances == map[1 := Instance(6, PRIORITY_DEFAULT, 3, true), 2 := Instance(6, PRIORITY_DEFAULT, 3, true),
                          3 := Instance(8, PRIORITY_V8_PROMOTED, 0, true)]
    && w.sentinels == map[11 := 6, 12 := 6] && w.views == map[11 := map[], 12 := map[]]
  }

  lemma ReachFailedOver() returns (ws: seq<World>, steps: seq<Step>)
    ensures IsRun(ws, steps) && FailedOver(Last(ws))
  {
    hide Takes, Created, LeavesMasterBehind;
    ws, steps := ReachPrioritized();
    assert 11 in Last(ws).sentinels;
    assert First(Last(ws)) in Last(ws).sentinels;
    ws, steps := ThenFailover(ws, steps, Vote({2, 3}, 3, {1, 2}, {11, 12}));
  }

  lemma ReachDestroyed() returns (ws: seq<World>, steps: seq<Step>)
    ensures IsRun(ws, steps) && Destroyed(Last(ws))
  {
    hide Takes, Created;
    ws, steps := ReachFailedOver();
    var w1 := Last(ws).(instances := BreakLinks(Last(ws).instances, {1, 2}), file := Saved(ReplicationBroken));
    IsolateIsTaken(Last(ws), w1);
    ws, steps := Then(ws, steps, Isolate({1, 2}, {11, 12}, true, Written), w1);
    var w2 := w1.(instances := w1.instances - {1});
    var w3 := w2.(instances := w2.instances - {2}, file := Saved(V6Destroyed));
    FirstRemovalIsTaken(w1, w2);
    LastRemovalIsTaken(w2, w3);
    ws, steps := Then(ws, steps, RemoveInstance(1, {3}, Removed({11, 12}, true, Written)), w2);
    ws, steps := Then(ws, steps, RemoveInstance(2, {3}, Removed({11, 12}, true, Written)), w3);
  }

  lemma IsolateIsTaken(w: World, w': World)
    requires w.file == Saved(FailoverComplete) && w.views == map[11 := map[], 12 := map[]]
    requires {1, 2} <= w.instances.Keys && w.instances[1].version == 6 && w.instances[2].version == 6
    requires w' == w.(instances := BreakLinks(w.instances, {1, 2}), file := Saved(ReplicationBroken))
    ensures Takes(w, Isolate({1, 2}, {11, 12}, true, Written), w')
  {
    PermittedOfChain(3, BreakReplication);
    assert Restarted(w.views, {11, 12}) == w.views;
  }

  lemma FirstRemovalIsTaken(w: World, w': World)
    requires w.file == Saved(ReplicationBroken) && w.views == map[11 := map[], 12 := map[]]
    requires {1, 2} <= w.instances.Keys && w.instances[2].version == 6 && w' == w.(instances := w.instances - {1})
    ensures Takes(w, RemoveInstance(1, {3}, Removed({11, 12}, true, Written)), w')
  {
    assert 11 in w.views && Dropped(Restarted(w.views, {11, 12}), 1) == w.views;
    assert 2 in w'.instances && w'.instances[2].version == 6;
  }

  lemma LastRemovalIsTaken(w: World, w': World)
    requires w.file == Saved(ReplicationBroken) && w.views == map[11 := map[], 12 := map[]]
    requires w.instances.Keys == {2, 3} && w.instances[3].version == 8
    requires w' == w.(instances := w.instances - {2}, file := Saved(V6Destroyed))
    ensures Takes(w, RemoveInstance(2, {3}, Removed({11, 12}, true, Written)), w')
  {
    PermittedOfChain(4, DestroyV6);
    assert 11 in w.views && Dropped(Restarted(w.views, {11, 12}), 2) == w.views;
  }

  /** Adding a v6 instance is always allowed, so V6Destroyed does not keep v6 away; it just never syncs. */
  lemma V6CanComeBack() returns (ws: seq<World>, steps: seq<Step>)
    ensures IsRun(ws, steps) && Last(ws).file == Saved(V6Destroyed) && !NoV6(Last(ws).instances)
  {
    hide Takes, Created;
    ws, steps := ReachDestroyed();
    var w := Last(ws);
    var v6 := Instance(6, PRIORITY_DEFAULT, 3, false);
    var w' := w.(instances := w.instances[4 := v6]);
    StrandedIsTaken(w, w', v6);
    ws, steps := Then(ws, steps, AddInstance(4, 6, Stranded(3)), w');
    assert w'.instances[4].version == 6;
  }

  lemma StrandedIsTaken(w: World, w': World, v6: Instance)
    requires Destroyed(w) && v6 == Instance(6, PRIORITY_DEFAULT, 3, false)
    requires w' == w.(instances := w.instances[4 := v6])
    ensures Takes(w, AddInstance(4, 6, Stranded(3)), w')
  {
    assert 11 in w.views && Dropped(w.views, 4) == w.views;
  }

  /** And an upgrade can get all the way to Done. */
  lemma UpgradeGetsDone() returns (ws: seq<World>, steps: seq<Step>)
    ensures IsRun(ws, steps) && Last(ws).file == Saved(Done)
    ensures NoV6(Last(ws).instances) && NoV6Sentinel(Last(ws).sentinels)
  {
    hide Takes, Created;
    ws, steps := ReachDestroyed();
    var w := Last(ws);
    var w1 := w.(sentinels := map[11 := 6, 12 := 6, 13 := 8], views := map[11 := map[], 12 := map[], 13 := map[]],
                 file := Saved(V8SentinelsAdded));
    var w2 := w1.(sentinels := w1.sentinels - {11}, views := w1.views - {11});
    var w3 := w2.(sentinels := w2.sentinels - {12}, views := w2.views - {12}, file := Saved(Done));
    V8SentinelIsTaken(w, w1);
    V6SentinelsAreTaken(w1, w2, w3);
    ws, steps := Then(ws, steps, AddSentinels(8, {13}, {13}, true, Written), w1);
    ws, steps := Then(ws, steps, RemoveSentinel(11, true, true, true, Written), w2);
    ws, steps := Then(ws, steps, RemoveSentinel(12, true, true, true, Written), w3);
  }

  lemma V8SentinelIsTaken(w: World, w': World)
    requires Destroyed(w)
    requires w' == w.(sentinels := map[11 := 6, 12 := 6, 13 := 8],
                      views := map[11 := map[], 12 := map[], 13 := map[]], file := Saved(V8SentinelsAdded))
    ensures Takes(w, AddSentinels(8, {13}, {13}, true, Written), w')
  {
    PermittedOfChain(5, Trigger.AddV8Sentinels);
    assert 11 in w.views;
    assert w.sentinels + Running({13}, 8) == w'.sentinels && w.views + Blank({13}) == w'.views;
  }

  lemma V6SentinelsAreTaken(w1: World, w2: World, w3: World)
    requires w1.sentinels == map[11 := 6, 12 := 6, 13 := 8] && w1.file == Saved(V8SentinelsAdded)
    requires w2 == w1.(sentinels := w1.sentinels - {11}, views := w1.views - {11})
    requires w3 == w2.(sentinels := w2.sentinels - {12}, views := w2.views - {12}, file := Saved(Done))
    ensures Takes(w1, RemoveSentinel(11, true, true, true, Written), w2)
    ensures Takes(w2, RemoveSentinel(12, true, true, true, Written), w3)
  {
    PermittedOfChain(6, RemoveV6Sentinels);
    assert 12 in w2.sentinels && w2.sentinels[12] == 6;
  }
}
