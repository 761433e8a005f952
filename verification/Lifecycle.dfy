/**
  The upgrade lifecycle of a cluster: its state machine, the file the state is kept in, and what
  firing a trigger does when any part of it can fail.
*/
module Lifecycle {
  import opened Collections
  import opened Walk

  /** A lifecycle state; the state file can hold any other text as well. */
  datatype State =
    | AllV6 | MixedVersions | V8Prioritized | FailoverComplete | ReplicationBroken | V6Destroyed
    | V8SentinelsAdded | Done
    | Other(text: string)

  datatype Trigger =
    | AddV8Instance | PromoteV8 | Failover | BreakReplication | DestroyV6 | AddV8Sentinels | RemoveV6Sentinels

  /** What `configure` permits: one trigger in each state, and none in the last. */
  const LIFECYCLE: Fsm<State, Trigger> := Fsm(
    map[
      AllV6 := [Transition(AddV8Instance, MixedVersions)],
      MixedVersions := [Transition(PromoteV8, V8Prioritized)],
      V8Prioritized := [Transition(Failover, FailoverComplete)],
      FailoverComplete := [Transition(BreakReplication, ReplicationBroken)],
      ReplicationBroken := [Transition(DestroyV6, V6Destroyed)],
      V6Destroyed := [Transition(AddV8Sentinels, V8SentinelsAdded)],
      V8SentinelsAdded := [Transition(RemoveV6Sentinels, Done)],
      Done := []
    ], {})

  const CHAIN: seq<State> :=
    [AllV6, MixedVersions, V8Prioritized, FailoverComplete, ReplicationBroken, V6Destroyed, V8SentinelsAdded, Done]

  const TRIGGERS: seq<Trigger> :=
    [AddV8Instance, PromoteV8, Failover, BreakReplication, DestroyV6, AddV8Sentinels, RemoveV6Sentinels]

  // --- the walk over the configured machine ---

  lemma EdgesOfChain(i: nat)
    requires i < |CHAIN|
    ensures Edges(LIFECYCLE, CHAIN[i]) == if i == 7 then [] else [Transition(TRIGGERS[i], CHAIN[i + 1])]
  {
    if
    case i == 0 =>
    case i == 1 =>
    case i == 2 =>
    case i == 3 =>
    case i == 4 =>
    case i == 5 =>
    case i == 6 =>
    case i == 7 =>
    case i > 7 =>
  }

  lemma ChainIsDistinct()
    ensures forall i, j | 0 <= i < j < |CHAIN| :: CHAIN[i] != CHAIN[j]
  {}

  lemma StepsFrom(i: nat, s: State)
    requires i < |CHAIN|
    ensures Steps(LIFECYCLE, CHAIN[i], s) <==> i < 7 && s == CHAIN[i + 1]
  {
    EdgesOfChain(i);
    if i < 7 {
      assert Edges(LIFECYCLE, CHAIN[i])[0].dest == CHAIN[i + 1];
    }
  }

  /** After n steps the machine is in the n-th state, and after eight it cannot have got anywhere. */
  lemma {:induction false} StepsOfChain(s: State, n: nat)
    ensures ReachIn(LIFECYCLE, AllV6, s, n) <==> n < |CHAIN| && s == CHAIN[n]
    decreases n
  {
    hide ReachIn, Steps;
    if n == 0 {
      NoSteps(s);
    } else {
      OneStepMore(s, n);
      if r :| ReachIn(LIFECYCLE, AllV6, r, n - 1) && Steps(LIFECYCLE, r, s) {
        StepsOfChain(r, n - 1);
        StepsFrom(n - 1, s);
      }
      if n < |CHAIN| && s == CHAIN[n] {
        StepsOfChain(CHAIN[n - 1], n - 1);
        StepsFrom(n - 1, s);
      }
    }
  }

  lemma NoSteps(s: State)
    ensures ReachIn(LIFECYCLE, AllV6, s, 0) <==> s == AllV6
  {}

  lemma OneStepMore(s: State, n: nat)
    requires n > 0
    ensures ReachIn(LIFECYCLE, AllV6, s, n)
            <==> exists r :: ReachIn(LIFECYCLE, AllV6, r, n - 1) && Steps(LIFECYCLE, r, s)
  {}

  lemma {:induction false} RisingIsIdentity(levels: seq<nat>, n: nat, i: nat)
    requires |levels| == n && i < n
    requires forall j, k | 0 <= j < k < n :: levels[j] < levels[k]
    requires forall j | 0 <= j < n :: levels[j] < n
    ensures levels[i] == i
  {
    AtLeastIndex(levels, i);
    AtMostIndex(levels, i);
  }

  lemma {:induction false} AtLeastIndex(levels: seq<nat>, i: nat)
    requires i < |levels| && forall j, k | 0 <= j < k < |levels| :: levels[j] < levels[k]
    ensures levels[i] >= i
  {
    if i > 0 {
      AtLeastIndex(levels, i - 1);
      assert levels[i - 1] < levels[i];
    }
  }

  lemma {:induction false} AtMostIndex(levels: seq<nat>, i: nat)
    requires i < |levels| && forall j, k | 0 <= j < k < |levels| :: levels[j] < levels[k]
    requires forall j | 0 <= j < |levels| :: levels[j] < |levels|
    ensures levels[i] <= i
    decreases |levels| - i
  {
    if i < |levels| - 1 {
      AtMostIndex(levels, i + 1);
      assert levels[i] < levels[i + 1];
    }
  }

  /** Any listing in order of distance of the reachable states of this machine is the chain. */
  lemma ListingIsChain(order: seq<State>, levels: seq<nat>)
    requires Distinct(order) && |levels| == |order| && Sorted(levels)
    requires forall i | 0 <= i < |order| :: Distance(LIFECYCLE, AllV6, order[i], levels[i])
    requires forall s :: s in order <==> Reachable(LIFECYCLE, AllV6, s)
    ensures order == CHAIN
  {
    forall i | 0 <= i < |order|
      ensures levels[i] < 8 && order[i] == CHAIN[levels[i]]
    {
      StepsOfChain(order[i], levels[i]);
    }
    forall i, j | 0 <= i < j < |levels|
      ensures levels[i] < levels[j]
    {
      assert order[i] != order[j];
    }
    SetOfListing(order);
    assert |levels| == 8;
    forall i | 0 <= i < 8
      ensures order[i] == CHAIN[i]
    {
      RisingIsIdentity(levels, 8, i);
    }
  }

  lemma SetOfListing(order: seq<State>)
    requires Distinct(order) && forall s :: s in order <==> Reachable(LIFECYCLE, AllV6, s)
    ensures |order| == 8
  {
    forall s
      ensures s in order <==> s in CHAIN
    {
      if s in order {
        var n: nat :| ReachIn(LIFECYCLE, AllV6, s, n);
        StepsOfChain(s, n);
      }
      if s in CHAIN {
        var n :| 0 <= n < 8 && CHAIN[n] == s;
        StepsOfChain(s, n);
      }
    }
    ChainIsDistinct();
    SizeOfDistinct(order);
    SizeOfDistinct(CHAIN);
    assert (set x | x in order) == (set x | x in CHAIN);
  }

  /** WalkLifecycle on the configured machine: the eight states in upgrade order, and its seven edges. */
  method WalkLifecycle() returns (r: Walked<State, Trigger>)
    ensures r.Walked?
    ensures r.order == [AllV6, MixedVersions, V8Prioritized, FailoverComplete, ReplicationBroken, V6Destroyed,
                        V8SentinelsAdded, Done]
    ensures r.transitions
            == map[AllV6 := [Transition(AddV8Instance, MixedVersions)],
                   MixedVersions := [Transition(PromoteV8, V8Prioritized)],
                   V8Prioritized := [Transition(Failover, FailoverComplete)],
                   FailoverComplete := [Transition(BreakReplication, ReplicationBroken)],
                   ReplicationBroken := [Transition(DestroyV6, V6Destroyed)],
                   V6Destroyed := [Transition(AddV8Sentinels, V8SentinelsAdded)],
                   V8SentinelsAdded := [Transition(RemoveV6Sentinels, Done)]]
  {
    ghost var levels;
    r, levels := WalkFrom(LIFECYCLE, AllV6);
    assert r.Walked?;
    ListingIsChain(r.order, levels);
    forall s
      ensures s in r.transitions <==> s in CHAIN[..7]
    {
      if s in CHAIN {
        var i :| 0 <= i < 8 && CHAIN[i] == s;
        EdgesOfChain(i);
        if i < 7 { assert CHAIN[..7][i] == s; } else { ChainIsDistinct(); }
      }
      if s in CHAIN[..7] {
        var i :| 0 <= i < 7 && CHAIN[..7][i] == s;
        assert CHAIN[i] == s;
        EdgesOfChain(i);
      }
    }
    forall i | 0 <= i < 7
      ensures CHAIN[i] in r.transitions && r.transitions[CHAIN[i]] == [Transition(TRIGGERS[i], CHAIN[i + 1])]
    {
      EdgesOfChain(i);
      assert CHAIN[..7][i] == CHAIN[i];
    }
    TransitionsAre(r.transitions);
  }

  lemma TransitionsAre(transitions: map<State, seq<Transition<State, Trigger>>>)
    requires transitions.Keys == (set s | s in CHAIN[..7])
    requires forall i | 0 <= i < 7 :: transitions[CHAIN[i]] == [Transition(TRIGGERS[i], CHAIN[i + 1])]
    ensures transitions
            == map[AllV6 := [Transition(AddV8Instance, MixedVersions)],
                   MixedVersions := [Transition(PromoteV8, V8Prioritized)],
                   V8Prioritized := [Transition(Failover, FailoverComplete)],
                   FailoverComplete := [Transition(BreakReplication, ReplicationBroken)],
                   ReplicationBroken := [Transition(DestroyV6, V6Destroyed)],
                   V6Destroyed := [Transition(AddV8Sentinels, V8SentinelsAdded)],
                   V8SentinelsAdded := [Transition(RemoveV6Sentinels, Done)]]
  {
    var first := CHAIN[..7];
    assert first == [AllV6, MixedVersions, V8Prioritized, FailoverComplete, ReplicationBroken, V6Destroyed,
                     V8SentinelsAdded];
    assert transitions.Keys == {first[0], first[1], first[2], first[3], first[4], first[5], first[6]};
    assert transitions[CHAIN[0]] == [Transition(TRIGGERS[0], CHAIN[1])];
    assert transitions[CHAIN[1]] == [Transition(TRIGGERS[1], CHAIN[2])];
    assert transitions[CHAIN[2]] == [Transition(TRIGGERS[2], CHAIN[3])];
    assert transitions[CHAIN[3]] == [Transition(TRIGGERS[3], CHAIN[4])];
    assert transitions[CHAIN[4]] == [Transition(TRIGGERS[4], CHAIN[5])];
    assert transitions[CHAIN[5]] == [Transition(TRIGGERS[5], CHAIN[6])];
    assert transitions[CHAIN[6]] == [Transition(TRIGGERS[6], CHAIN[7])];
  }

  // --- the state file ---

  /** No file; a file with a state; or a file cut short by a failed write, which cannot be parsed. */
  datatype File = Missing | Saved(state: State) | Torn

  datatype Loaded = Ok(state: State) | Unreadable

  function Load(file: File): Loaded {
    match file
    case Missing => Ok(AllV6)
    case Saved(s) => Ok(s)
    case Torn => Unreadable
  }

  /** A cluster without a file is where it was created, and a file cut short is nowhere. */
  lemma LoadedIff(file: File, s: State)
    ensures Load(file) == Ok(s) <==> file == Saved(s) || (file == Missing && s == AllV6)
    ensures Load(file) == Unreadable <==> file == Torn
  {}

  /** Callers that drop the error see an empty state. */
  function LoadOrBlank(file: File): State {
    match Load(file)
    case Ok(s) => s
    case Unreadable => Other("")
  }

  /**
    How a write ends: done; failed before it touched the file; failed after truncating it; or
    complete, and yet reported as failed because closing the file failed.
  */
  datatype Write = Written | Untouched | Truncated | Unconfirmed

  /** The new state reaches the file. */
  predicate Lands(write: Write) {
    write == Written || write == Unconfirmed
  }

  function SaveTo(file: File, s: State, write: Write): File {
    match write
    case Written => Saved(s)
    case Untouched => file
    case Truncated => Torn
    case Unconfirmed => Saved(s)
  }

  /** The state files, one per cluster. */
  class StateStore {
    var files: map<string, File>

    constructor ()
      ensures files == map[]
    {
      files := map[];
    }

    function Of(cluster: string): File
      reads this
    {
      if cluster in files then files[cluster] else Missing
    }

    method Save(cluster: string, s: State, write: Write) returns (ok: bool)
      modifies this
      ensures ok <==> write == Written
      ensures write == Written || write == Unconfirmed ==> files == old(files)[cluster := Saved(s)]
      ensures write == Untouched ==> files == old(files)
      ensures write == Truncated ==> files == old(files)[cluster := Torn]
      ensures Of(cluster) == SaveTo(old(Of(cluster)), s, write) && forall c | c != cluster :: Of(c) == old(Of(c))
    {
      match write {
        case Written => files := files[cluster := Saved(s)];
        case Untouched =>
        case Truncated => files := files[cluster := Torn];
        case Unconfirmed => files := files[cluster := Saved(s)];
      }
      ok := write == Written;
    }

    method Delete(cluster: string)
      modifies this
      ensures files == old(files) - {cluster}
      ensures Of(cluster) == Missing && forall c | c != cluster :: Of(c) == old(Of(c))
    {
      files := files - {cluster};
    }
  }

  // --- firing ---

  datatype FireResult = NotPermitted | ActionFailed | SaveFailed | Fired

  /** The state a trigger leads to. */
  function Permitted(s: State, t: Trigger): (r: seq<State>)
    ensures |r| <= 1
  {
    var edges := Edges(LIFECYCLE, s);
    if edges != [] && edges[0].trigger == t then [edges[0].dest] else []
  }

  /** Fire as a function of the machine's state and the file: guard, action, transition, save. */
  function FireStep(current: State, file: File, t: Trigger, actionOk: bool, write: Write): (State, File, FireResult) {
    var dest := Permitted(current, t);
    if dest == [] then (current, file, NotPermitted)
    else if !actionOk then (current, file, ActionFailed)
    else (dest[0], SaveTo(file, dest[0], write), if write == Written then Fired else SaveFailed)
  }

  /** A machine lives for one command; the store outlives it. */
  class Machine {
    const store: StateStore
    const cluster: string
    var current: State

    constructor (store: StateStore, cluster: string)
      requires Load(store.Of(cluster)).Ok?
      ensures this.store == store && this.cluster == cluster
      ensures cluster !in store.files ==> current == AllV6
      ensures store.Of(cluster) == if store.Of(cluster) == Missing then Missing else Saved(current)
      ensures Ok(current) == Load(store.Of(cluster))
    {
      this.store := store;
      this.cluster := cluster;
      current := Load(store.Of(cluster)).state;
    }

    method Fire(t: Trigger, actionOk: bool, write: Write) returns (r: FireResult)
      modifies this, store
      ensures (current, store.Of(cluster), r) == FireStep(old(current), old(store.Of(cluster)), t, actionOk, write)
      // In the i-th state the i-th trigger fires, and no other.
      ensures r != NotPermitted <==> exists i | 0 <= i < 7 :: old(current) == CHAIN[i] && t == TRIGGERS[i]
      ensures r == ActionFailed <==> r != NotPermitted && !actionOk
      ensures r == NotPermitted || r == ActionFailed ==> current == old(current) && store.files == old(store.files)
      ensures r == Fired || r == SaveFailed ==>
                && (r == Fired <==> write == Written)
                && (exists i | 0 <= i < 7 :: old(current) == CHAIN[i] && current == CHAIN[i + 1])
                && store.files == match write
                                  case Written => old(store.files)[cluster := Saved(current)]
                                  case Untouched => old(store.files)
                                  case Truncated => old(store.files)[cluster := Torn]
                                  case Unconfirmed => old(store.files)[cluster := Saved(current)]
      ensures forall c | c != cluster :: store.Of(c) == old(store.Of(c))
    {
      PermittedIff(current, t);
      var dest := Permitted(current, t);
      if dest == [] {
        return NotPermitted;
      }
      if !actionOk {
        return ActionFailed;
      }
      current := dest[0];
      var ok := store.Save(cluster, current, write);
      r := if ok then Fired else SaveFailed;
    }
  }

  /** Of all states only the i-th of the chain has a transition, on the i-th trigger, to the next. */
  lemma PermittedIff(s: State, t: Trigger)
    ensures Permitted(s, t) != []
            <==> exists i | 0 <= i < 7 :: s == CHAIN[i] && t == TRIGGERS[i] && Permitted(s, t) == [CHAIN[i + 1]]
    ensures Permitted(s, t) != [] <==> exists i | 0 <= i < 7 :: s == CHAIN[i] && t == TRIGGERS[i]
  {
    if s in CHAIN {
      var i :| 0 <= i < |CHAIN| && CHAIN[i] == s;
      PermittedOfChain(i, t);
      ChainIsDistinct();
    }
  }

  lemma PermittedOfChain(i: nat, t: Trigger)
    requires i < |CHAIN|
    ensures Permitted(CHAIN[i], t) == if i < 7 && t == TRIGGERS[i] then [CHAIN[i + 1]] else []
  {
    EdgesOfChain(i);
  }

  /**
    One command that loads the machine and fires: the file never runs ahead of memory, lags by at
    most the one step whose save failed, and moves only when the trigger fits and the action succeeds.
    A save that is reported as failed may have reached the file all the same.
  */
  lemma DiskFollowsMemory(i: nat, file: File, t: Trigger, actionOk: bool, write: Write)
    requires i < |CHAIN| && Load(file) == Ok(CHAIN[i])
    ensures var (memory, disk, r) := FireStep(CHAIN[i], file, t, actionOk, write);
            && (r == Fired <==> i < 7 && t == TRIGGERS[i] && actionOk && write == Written)
            && (r == Fired ==> memory == CHAIN[i + 1] && disk == Saved(memory))
            && (r == SaveFailed ==>
                  i < 7 && memory == CHAIN[i + 1] && (disk == file || disk == Torn || disk == Saved(memory)))
            && (r == SaveFailed && disk == Saved(memory) <==>
                  i < 7 && t == TRIGGERS[i] && actionOk && write == Unconfirmed)
            && (r == NotPermitted || r == ActionFailed ==> memory == CHAIN[i] && disk == file)
  {
    PermittedOfChain(i, t);
  }

  // --- whole runs ---

  /** A command that tries to advance the lifecycle, with its outcome at every point that can fail. */
  datatype Attempt = Attempt(trigger: Trigger, actionOk: bool, write: Write)

  /** NewMachine, then Fire; an unreadable file stops the command before it does anything. */
  function Try(file: File, a: Attempt): (File, FireResult) {
    match Load(file)
    case Unreadable => (file, NotPermitted)
    case Ok(s) => var (_, disk, r) := FireStep(s, file, a.trigger, a.actionOk, a.write); (disk, r)
  }

  /** NewMachine and Fire, as the commands do it. */
  method TryCommand(store: StateStore, cluster: string, a: Attempt) returns (r: FireResult)
    modifies store
    ensures (store.Of(cluster), r) == Try(old(store.Of(cluster)), a)
    ensures old(store.Of(cluster)) == Torn ==> r == NotPermitted && store.files == old(store.files)
    ensures cluster !in old(store.files) ==> (r != NotPermitted <==> a.trigger == AddV8Instance)
    ensures forall i | 0 <= i < |CHAIN| && old(store.Of(cluster)) == Saved(CHAIN[i]) ::
              r != NotPermitted <==> i < 7 && a.trigger == TRIGGERS[i]
    ensures r == NotPermitted || r == ActionFailed ==> store.files == old(store.files)
    ensures forall c | c != cluster :: store.Of(c) == old(store.Of(c))
  {
    if Load(store.Of(cluster)) == Unreadable {
      return NotPermitted;
    }
    ChainIsDistinct();
    var machine := new Machine(store, cluster);
    r := machine.Fire(a.trigger, a.actionOk, a.write);
  }

  /** The file after a command that fires `t` when it finds the cluster in state `from`. */
  function Advance(file: File, from: State, t: Trigger, actionOk: bool, write: Write): File {
    if Load(file) == Ok(from) then Try(file, Attempt(t, actionOk, write)).0 else file
  }

  lemma FailedActionChangesNothing(file: File, t: Trigger, write: Write)
    ensures Try(file, Attempt(t, false, write)).0 == file && Try(file, Attempt(t, false, write)).1 != Fired
  {}

  lemma AdvanceWhenFound(file: File, from: State, t: Trigger, write: Write)
    requires from != Other("")
    ensures Advance(file, from, t, true, write)
            == if LoadOrBlank(file) == from then Try(file, Attempt(t, true, write)).0 else file
  {}

  /** Firing the i-th trigger, in the i-th state: the file then holds what became of the write. */
  lemma AdvanceWrites(file: File, i: nat, actionOk: bool, write: Write)
    requires i < 7
    ensures Advance(file, CHAIN[i], TRIGGERS[i], actionOk, write)
            == if !actionOk || (file != Saved(CHAIN[i]) && !(file == Missing && i == 0)) then file
               else match write
                 case Written => Saved(CHAIN[i + 1])
                 case Untouched => file
                 case Truncated => Torn
                 case Unconfirmed => Saved(CHAIN[i + 1])
  {
    PermittedOfChain(i, TRIGGERS[i]);
    ChainIsDistinct();
  }

  lemma AdvanceIs(file: File, from: State, t: Trigger, write: Write)
    ensures Advance(file, from, t, true, write)
            == if file == Saved(from) || (file == Missing && from == AllV6) then Try(file, Attempt(t, true, write)).0
               else file
  {}

  /** Every listed cluster found in `from` fires; an unreadable state counts as not being there. */
  method AdvanceClustersInState(store: StateStore, clusters: seq<string>, from: State, t: Trigger,
                                write: string -> Write)
    requires forall i, j | 0 <= i < j < |clusters| :: clusters[i] != clusters[j]
    requires from != Other("")
    modifies store
    ensures forall c | c in clusters ::
              store.Of(c) == if old(store.Of(c)) == Saved(from) || (old(store.Of(c)) == Missing && from == AllV6)
                             then Try(old(store.Of(c)), Attempt(t, true, write(c))).0 else old(store.Of(c))
    ensures forall c | c !in clusters :: store.Of(c) == old(store.Of(c))
  {
    hide Try, Load, LoadOrBlank, Advance, CHAIN, TRIGGERS;
    for i := 0 to |clusters|
      invariant forall k | 0 <= k < i ::
                  store.Of(clusters[k]) == Advance(old(store.Of(clusters[k])), from, t, true, write(clusters[k]))
      invariant forall c | c !in clusters[..i] :: store.Of(c) == old(store.Of(c))
    {
      var c := clusters[i];
      assert c !in clusters[..i] && clusters[..i + 1] == clusters[..i] + [c];
      AdvanceWhenFound(store.Of(c), from, t, write(c));
      if LoadOrBlank(store.Of(c)) == from {
        var r := TryCommand(store, c, Attempt(t, true, write(c)));
      }
    }
    forall c | c in clusters
      ensures store.Of(c) == if old(store.Of(c)) == Saved(from) || (old(store.Of(c)) == Missing && from == AllV6)
                             then Try(old(store.Of(c)), Attempt(t, true, write(c))).0 else old(store.Of(c))
    {
      var k :| 0 <= k < |clusters| && clusters[k] == c;
      AdvanceIs(old(store.Of(c)), from, t, write(c));
    }
  }

  function RunAll(file: File, run: seq<Attempt>): File {
    if run == [] then file else Try(RunAll(file, run[..|run| - 1]), run[|run| - 1]).0
  }

  /** The state reached the file, whatever the command reported. */
  predicate Recorded(a: Attempt, r: FireResult) {
    r == Fired || (r == SaveFailed && a.write == Unconfirmed)
  }

  /** The triggers whose new state reached the file, in order. */
  function RecordedIn(file: File, run: seq<Attempt>): seq<Trigger> {
    if run == [] then []
    else
      var before := run[..|run| - 1];
      var a := run[|run| - 1];
      RecordedIn(file, before) + if Recorded(a, Try(RunAll(file, before), a).1) then [a.trigger] else []
  }

  /** The triggers that fired and were reported as successful, in order. */
  function FiredIn(file: File, run: seq<Attempt>): seq<Trigger> {
    if run == [] then []
    else
      var before := run[..|run| - 1];
      var a := run[|run| - 1];
      FiredIn(file, before) + if Try(RunAll(file, before), a).1 == Fired then [a.trigger] else []
  }

  /** The recorded triggers are a prefix of the upgrade's seven, and a readable file says how long. */
  ghost predicate Consistent(recorded: seq<Trigger>, disk: File) {
    && |recorded| <= 7 && recorded == TRIGGERS[..|recorded|]
    && (disk == Torn || Load(disk) == Ok(CHAIN[|recorded|]))
  }

  lemma TryKeepsConsistent(recorded: seq<Trigger>, disk: File, a: Attempt)
    requires Consistent(recorded, disk)
    ensures var (disk', r) := Try(disk, a);
            Consistent(recorded + if Recorded(a, r) then [a.trigger] else [], disk')
  {
    var i := |recorded|;
    if disk != Torn {
      DiskFollowsMemory(i, disk, a.trigger, a.actionOk, a.write);
      if Recorded(a, Try(disk, a).1) {
        assert TRIGGERS[..i + 1] == TRIGGERS[..i] + [TRIGGERS[i]];
      }
    }
    assert recorded + [] == recorded;
  }

  /** Whatever fails along the way, file and recorded triggers stay consistent. */
  lemma {:induction false} PersistedPrefix(file: File, run: seq<Attempt>)
    requires file == Missing || file == Saved(AllV6)
    ensures var recorded, disk := RecordedIn(file, run), RunAll(file, run);
            && |recorded| <= 7 && recorded == TRIGGERS[..|recorded|]
            && (disk == Torn || disk == Saved(CHAIN[|recorded|]) || (disk == Missing && recorded == []))
  {
    if run == [] {
      assert TRIGGERS[..0] == [];
    } else {
      var n := |run| - 1;
      PersistedPrefix(file, run[..n]);
      ChainIsDistinct();
      TryKeepsConsistent(RecordedIn(file, run[..n]), RunAll(file, run[..n]), run[n]);
    }
  }

  /**
    After any run of a created cluster whose file can be read, the one trigger that is permitted is the
    one after those recorded: AddV8Instance when nothing was recorded, also when there is no file.
  */
  lemma NextTriggerIff(file: File, run: seq<Attempt>, a: Attempt)
    requires (file == Missing || file == Saved(AllV6)) && RunAll(file, run) != Torn
    ensures var recorded, r := RecordedIn(file, run), Try(RunAll(file, run), a).1;
            && (r != NotPermitted <==> |recorded| < 7 && a.trigger == TRIGGERS[|recorded|])
            && (recorded == [] ==> (r != NotPermitted <==> a.trigger == AddV8Instance))
            && (r == Fired ==> RunAll(file, run + [a]) == Saved(CHAIN[|recorded| + 1]))
  {
    PersistedPrefix(file, run);
    var recorded := RecordedIn(file, run);
    DiskFollowsMemory(|recorded|, RunAll(file, run), a.trigger, a.actionOk, a.write);
    PermittedOfChain(|recorded|, a.trigger);
    assert (run + [a])[..|run|] == run;
  }

  /** The file is ahead of the reported successes by exactly the saves that landed but were reported as failed. */
  function UnconfirmedIn(file: File, run: seq<Attempt>): nat {
    if run == [] then 0
    else
      var before := run[..|run| - 1];
      var a := run[|run| - 1];
      var r := Try(RunAll(file, before), a).1;
      UnconfirmedIn(file, before) + if r == SaveFailed && a.write == Unconfirmed then 1 else 0
  }

  lemma {:induction false} FileLeadsByUnconfirmed(file: File, run: seq<Attempt>)
    ensures |RecordedIn(file, run)| == |FiredIn(file, run)| + UnconfirmedIn(file, run)
    ensures UnconfirmedIn(file, run) == 0 ==> RecordedIn(file, run) == FiredIn(file, run)
  {
    if run != [] {
      FileLeadsByUnconfirmed(file, run[..|run| - 1]);
    }
  }

  /**
    Done is on file only after all seven triggers were recorded, in order; all seven were also
    reported as successful exactly when no save landed that was reported as failed.
  */
  lemma DoneMeansAllFired(file: File, run: seq<Attempt>)
    requires (file == Missing || file == Saved(AllV6)) && RunAll(file, run) == Saved(Done)
    ensures RecordedIn(file, run) == TRIGGERS
    ensures FiredIn(file, run) == TRIGGERS <==> UnconfirmedIn(file, run) == 0
  {
    PersistedPrefix(file, run);
    FileLeadsByUnconfirmed(file, run);
    var recorded := RecordedIn(file, run);
    ChainIsDistinct();
    assert CHAIN[|recorded|] == CHAIN[7];
    assert TRIGGERS[..7] == TRIGGERS;
  }
}
