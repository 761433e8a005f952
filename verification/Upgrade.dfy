/**
  A cluster under upgrade as a transition system: its Redis instances, the sentinel fleet, what each
  sentinel believes, and the state file.  A step is one command, with its outcome at every point
  where it can fail, or something Redis or Redis Sentinel does by itself.
*/
module Upgrade {
  import opened Collections
  import opened Lifecycle

  const PRIORITY_DEFAULT := 100
  const PRIORITY_V8_DEPRIORITIZED := 200
  const PRIORITY_V8_PROMOTED := 1

  /**
    `target` is the port the instance replicates from, 0 when it reports itself a master; `synced` says
    that it has completed a sync, or was created as the master.
  */
  datatype Instance = Instance(version: int, priority: int, target: int, synced: bool)

  /** Per sentinel that monitors the cluster, the priority of each replica when it last polled it. */
  type Views = map<int, map<int, int>>

  /**
    `sentinels` maps the fleet's ports to versions, and `master` is the instance the sentinels report as
    master.  `attempted` and `promoted` remember that promote-v8 was tried, and that it moved the
    lifecycle on without leaving a v8 master behind at another priority.
  */
  datatype World = World(
    instances: map<int, Instance>, sentinels: map<int, int>, views: Views, master: int, file: File,
    attempted: bool, promoted: bool)

  /** How an instance add ends; `resets` are the sentinels that were made to start over. */
  datatype AddFate =
    | NotStarted
    | Stranded(target: int) // started, but not ready, not configured or not synced in time
    | Joined(resets: set<int>, write: Write)

  /** How an instance rm ends; `cut`: REPLICAOF NO ONE arrived; `listed`: the rest could be listed. */
  datatype RmFate =
    | NotStopped(cut: bool, resets: set<int>)
    | Removed(resets: set<int>, listed: bool, write: Write)

  /**
    An election among the `eligible` replicas.  Afterwards `moved` replicate from the winner, and the
    sentinels in `forgets` start over with an empty view.
  */
  datatype Vote = NoVote | Vote(eligible: set<int>, winner: int, moved: set<int>, forgets: set<int>)

  datatype Step =
    | AddInstance(port: int, version: int, addFate: AddFate)
    | RemoveInstance(port: int, named: set<int>, rmFate: RmFate) // `named`: what responding sentinels call master
    | Promote(known: bool, updated: set<int>, polled: set<int>, write: Write) // `known`: a sentinel named the master
    | Failover(rewired: set<int>, caughtUp: set<int>, polled: set<int>, vote: Vote, switched: bool, write: Write)
    | Isolate(broken: set<int>, resets: set<int>, actionOk: bool, write: Write)
    | AddSentinels(version: int, started: set<int>, registered: set<int>, all: bool, write: Write)
    | RemoveSentinel(port: int, forgotten: bool, stopped: bool, listed: bool, write: Write)
    | Poll(sentinel: int, port: int)
    | Sync(port: int)
    | Elect(leader: int, vote: Vote)
    | Reset(sentinel: int)

  // --- priorities ---

  /** The override a new instance boots with, 0 for none. */
  function InitialReplicaPriority(file: File, version: int): int {
    if version != 8 then 0
    else match LoadOrBlank(file)
      case AllV6 => PRIORITY_V8_DEPRIORITIZED
      case MixedVersions => PRIORITY_V8_DEPRIORITIZED
      case _ => PRIORITY_V8_PROMOTED
  }

  /** Redis's own default applies when there is no override. */
  function BootPriority(file: File, version: int): int {
    var p := InitialReplicaPriority(file, version);
    if p > 0 then p else PRIORITY_DEFAULT
  }

  /** What promote-v8 sets. */
  function PromotedPriority(version: int): int {
    if version == 6 then PRIORITY_DEFAULT else PRIORITY_V8_PROMOTED
  }

  function NonMasters(w: World): set<int> {
    w.instances.Keys - {w.master}
  }

  /** A direct replica of the master: only those are visible to sentinel. */
  predicate IsDirect(w: World, p: int) {
    p in w.instances && p != w.master && w.instances[p].target == w.master
  }

  predicate AllDirect(w: World, ports: set<int>) {
    forall p | p in ports :: IsDirect(w, p)
  }

  /** Redis 6 cannot replicate from Redis 8, and nobody can from a master that is gone. */
  predicate CanSync(w: World, p: int) {
    p in w.instances && w.master in w.instances && (w.instances[w.master].version == 6 || w.instances[p].version != 6)
  }

  function Promoted(instances: map<int, Instance>, updated: set<int>): map<int, Instance> {
    map p | p in instances ::
      if p in updated then instances[p].(priority := PromotedPriority(instances[p].version)) else instances[p]
  }

  // --- what sentinels see ---

  /** A sentinel's view after it polled some replicas. */
  function Observe(view: map<int, int>, instances: map<int, Instance>, polled: set<int>): map<int, int> {
    view + map p | p in instances && p in polled :: instances[p].priority
  }

  function Saw(views: Views, s: int, instances: map<int, Instance>, polled: set<int>): Views {
    if s in views then views[s := Observe(views[s], instances, polled)] else views
  }

  lemma NothingSeen(views: Views, s: int, instances: map<int, Instance>)
    ensures Saw(views, s, instances, {}) == views
  {
    if s in views { assert Observe(views[s], instances, {}) == views[s]; }
  }

  /** SENTINEL RESET on some sentinels. */
  function Restarted(views: Views, resets: set<int>): Views {
    map s | s in views :: if s in resets then map[] else views[s]
  }

  /** New sentinels of one version. */
  function Running(ports: set<int>, version: int): map<int, int> {
    map p | p in ports :: version
  }

  /** Sentinels that have just begun to monitor the cluster. */
  function Blank(ports: set<int>): Views {
    map p | p in ports :: map[]
  }

  /** An instance has left or joined, or is no replica any more. */
  function Dropped(views: Views, port: int): Views {
    map s | s in views :: views[s] - {port}
  }

  /** What WaitForReplicaPriorities waits for. */
  predicate Observed(w: World, view: map<int, int>) {
    forall p | p in NonMasters(w) :: p in view && view[p] == PromotedPriority(w.instances[p].version)
  }

  /** The sentinel that promote-v8 waits on and a failover goes through: listings are sorted by port. */
  ghost function First(w: World): (s: int)
    requires w.sentinels != map[]
    ensures s in w.sentinels && forall t | t in w.sentinels :: s <= t
  {
    Least(w.sentinels.Keys)
  }

  // --- elections ---

  /** A direct replica with data that the leader has polled; priority 0 is never electable. */
  predicate Electable(w: World, leader: int, p: int) {
    && leader in w.views && IsDirect(w, p) && w.instances[p].synced
    && p in w.views[leader] && w.views[leader][p] > 0
  }

  /** The leader promotes an eligible replica of least priority in its own view. */
  predicate Election(w: World, leader: int, eligible: set<int>, winner: int) {
    && (forall p | p in eligible :: Electable(w, leader, p))
    && winner in eligible
    && forall p | p in eligible :: w.views[leader][winner] <= w.views[leader][p]
  }

  function Repointed(instances: map<int, Instance>, winner: int, moved: set<int>): map<int, Instance> {
    map p | p in instances ::
      if p == winner then instances[p].(target := 0)
      else if p in moved then instances[p].(target := winner) else instances[p]
  }

  function AfterVote(w: World, vote: Vote): World
    requires vote.Vote?
  {
    w.(instances := Repointed(w.instances, vote.winner, vote.moved), master := vote.winner,
       views := Dropped(Restarted(w.views, vote.forgets), vote.winner))
  }

  // --- more of what commands look at and change ---

  /** REPLICAOF NO ONE on some instances. */
  function BreakLinks(instances: map<int, Instance>, broken: set<int>): map<int, Instance> {
    map p | p in instances :: if p in broken then instances[p].(target := 0) else instances[p]
  }

  /** REPLICAOF master on some instances, of which some then complete their sync. */
  function PointAt(instances: map<int, Instance>, master: int, rewired: set<int>, caughtUp: set<int>):
      map<int, Instance>
  {
    map p | p in instances ::
      if p in rewired then instances[p].(target := master, synced := instances[p].synced || p in caughtUp)
      else instances[p]
  }

  /** promote-v8 does not touch the master: a v8 one at another priority keeps it. */
  predicate LeavesMasterBehind(w: World) {
    && w.master in w.instances
    && w.instances[w.master].version != 6 && w.instances[w.master].priority != PRIORITY_V8_PROMOTED
  }

  predicate HasV8(w: World) {
    exists p | p in w.instances :: w.instances[p].version != 6
  }

  predicate NoV6(instances: map<int, Instance>) {
    forall p | p in instances :: instances[p].version != 6
  }

  predicate NoV6Sentinel(sentinels: map<int, int>) {
    forall p | p in sentinels :: sentinels[p] != 6
  }

  // --- the steps ---

  /** A new instance starts only when some sentinel names a master that is there. */
  ghost predicate AddTakes(w: World, port: int, version: int, fate: AddFate, w': World) {
    && (version == 6 || version == 8) && port !in w.instances
    && (fate.NotStarted? || (w.views != map[] && w.master in w.instances))
    && match fate
       case NotStarted => w' == w
       case Stranded(target) =>
         && (target == 0 || target == w.master)
         && w' == w.(instances := w.instances[port := Instance(version, BootPriority(w.file, version), target, false)],
                     views := Dropped(w.views, port))
       case Joined(resets, write) =>
         && (w.instances[w.master].version == 6 || version != 6)
         && w' == AfterJoin(w, port, version, resets, write)
  }

  /** A replica joined and synced; the first v8 moves the lifecycle on. */
  function AfterJoin(w: World, port: int, version: int, resets: set<int>, write: Write): World {
    w.(instances := w.instances[port := Instance(version, BootPriority(w.file, version), w.master, true)],
       views := Dropped(Restarted(w.views, resets), port),
       file := if version == 8 then Advance(w.file, AllV6, AddV8Instance, true, write) else w.file)
  }

  ghost predicate RemoveTakes(w: World, port: int, named: set<int>, fate: RmFate, w': World) {
    && port in w.instances && (named != {} ==> w.views != map[])
    && if port in named then w' == w
       else match fate
         case NotStopped(cut, resets) =>
           w' == w.(instances := if cut then BreakLinks(w.instances, {port}) else w.instances,
                    views := Restarted(w.views, resets))
         case Removed(resets, listed, write) =>
           w' == w.(instances := w.instances - {port},
                    views := Dropped(Restarted(w.views, resets), port),
                    file := if listed && NoV6(w.instances - {port})
                            then Advance(w.file, ReplicationBroken, DestroyV6, true, write) else w.file)
  }

  /** What the first sentinel must show before promote-v8 is content; nothing, if there is no replica. */
  ghost predicate SeenByFirst(w: World, views: Views)
    requires w.sentinels != map[]
  {
    NonMasters(w) == {} || (First(w) in views && Observed(w, views[First(w)]))
  }

  /** promote-v8: v8 replicas to 1, then v6 replicas to 100, then wait for the first sentinel to see all of it. */
  ghost predicate PromoteTakes(w: World, known: bool, updated: set<int>, polled: set<int>, write: Write, w': World) {
    || (updated == {} && w' == w) // refused: wrong state, no sentinel, or a failed listing
    || (w.sentinels != map[] && Load(w.file) == Ok(MixedVersions) &&
      var instances := Promoted(w.instances, updated);
      var views := Saw(w.views, First(w), instances, polled);
      var ok := known && HasV8(w) && updated == NonMasters(w) && SeenByFirst(w, views);
      var file := Try(w.file, Attempt(PromoteV8, ok, write)).0;
      && (known ==> w.views != map[]) && updated <= NonMasters(w) && AllDirect(w, polled)
      && (!known || !HasV8(w) ==> updated == {})
      && w' == w.(instances := instances, views := views, file := file, attempted := true,
                  promoted := w.promoted || (file == Saved(V8Prioritized) && !LeavesMasterBehind(w))))
  }

  /** The cluster between reconciliation and election: replicas rewired, the first sentinel has polled some. */
  ghost function Reconciled(w: World, rewired: set<int>, caughtUp: set<int>, polled: set<int>): World
    requires w.sentinels != map[]
  {
    var instances := PointAt(w.instances, w.master, rewired, caughtUp);
    w.(instances := instances, views := Saw(w.views, First(w), instances, polled))
  }

  /** cluster failover; the file moves only if the lifecycle was waiting for it. */
  ghost predicate FailoverTakes(w: World, rewired: set<int>, caughtUp: set<int>, polled: set<int>, vote: Vote,
                                switched: bool, write: Write, w': World)
  {
    if w.sentinels == map[] || Load(w.file) == Unreadable then w' == w && !switched && vote.NoVote?
    else
      var file := Advance(w.file, V8Prioritized, Trigger.Failover, switched, write);
      var mid := Reconciled(w, rewired, caughtUp, polled);
      && rewired <= NonMasters(w) && (rewired != {} ==> w.views != map[] && w.master in w.instances)
      && caughtUp <= rewired && (forall p | p in caughtUp :: CanSync(w, p)) && AllDirect(mid, polled)
      && match vote
         case NoVote => !switched && w' == mid.(file := file)
         case Vote(eligible, winner, _, _) =>
           Election(mid, First(w), eligible, winner) && w' == AfterVote(mid, vote).(file := file)
  }

  ghost predicate IsolateTakes(w: World, broken: set<int>, resets: set<int>, actionOk: bool, write: Write, w': World) {
    && (forall p | p in broken :: p in w.instances && w.instances[p].version == 6)
    && if Load(w.file) != Ok(FailoverComplete) then w' == w
       else w' == w.(instances := BreakLinks(w.instances, broken),
                     views := Restarted(w.views, resets),
                     file := Advance(w.file, FailoverComplete, BreakReplication, actionOk, write))
  }

  /** Only v8 sentinels are made to monitor a cluster, when it is in V6Destroyed and its master is known. */
  ghost predicate AddSentinelsTakes(w: World, version: int, started: set<int>, registered: set<int>, all: bool,
                                    write: Write, w': World)
  {
    && (version == 6 || version == 8) && started !! w.sentinels.Keys && registered <= started
    && (registered != {} ==> all && version == 8 && LoadOrBlank(w.file) == V6Destroyed && w.views != map[])
    && w' == w.(sentinels := w.sentinels + Running(started, version), views := w.views + Blank(registered),
                file := if all && version == 8 then Advance(w.file, V6Destroyed, AddV8Sentinels, true, write)
                        else w.file)
  }

  /** `forgotten`: the sentinel was told to stop monitoring.  A failed listing reads as an empty fleet. */
  ghost predicate RemoveSentinelTakes(w: World, port: int, forgotten: bool, stopped: bool, listed: bool, write: Write,
                                      w': World)
  {
    && port in w.sentinels
    && if !stopped then w' == w.(views := if forgotten then w.views - {port} else w.views)
       else
         var left := w.sentinels - {port};
         w' == w.(sentinels := left, views := w.views - {port},
                  file := if w.sentinels[port] == 6 && (!listed || NoV6Sentinel(left))
                          then Advance(w.file, V8SentinelsAdded, RemoveV6Sentinels, true, write) else w.file)
  }

  ghost predicate Takes(w: World, step: Step, w': World) {
    match step
    case AddInstance(port, version, fate) => AddTakes(w, port, version, fate, w')
    case RemoveInstance(port, named, fate) => RemoveTakes(w, port, named, fate, w')
    case Promote(known, updated, polled, write) => PromoteTakes(w, known, updated, polled, write, w')
    case Failover(rewired, caughtUp, polled, vote, switched, write) =>
      FailoverTakes(w, rewired, caughtUp, polled, vote, switched, write, w')
    case Isolate(broken, resets, actionOk, write) => IsolateTakes(w, broken, resets, actionOk, write, w')
    case AddSentinels(version, started, registered, all, write) =>
      AddSentinelsTakes(w, version, started, registered, all, write, w')
    case RemoveSentinel(port, forgotten, stopped, listed, write) =>
      RemoveSentinelTakes(w, port, forgotten, stopped, listed, write, w')
    case Poll(s, port) => s in w.views && IsDirect(w, port) && w' == w.(views := Saw(w.views, s, w.instances, {port}))
    case Sync(port) =>
      && IsDirect(w, port) && CanSync(w, port)
      && w' == w.(instances := w.instances[port := w.instances[port].(synced := true)])
    case Elect(leader, vote) =>
      vote.Vote? && Election(w, leader, vote.eligible, vote.winner) && w' == AfterVote(w, vote)
    case Reset(s) => s in w.views && w' == w.(views := w.views[s := map[]])
  }

  /** What `cluster create` leaves, when started on v6 and whatever became of the first save. */
  ghost predicate Created(w: World) {
    && w.master in w.instances
    && (forall p | p in w.instances ::
          w.instances[p] == Instance(6, PRIORITY_DEFAULT, if p == w.master then 0 else w.master, true))
    && w.views == Blank(w.sentinels.Keys)
    && (w.file == Missing || w.file == Saved(AllV6) || w.file == Torn)
    && !w.attempted && !w.promoted
  }

  ghost predicate IsRun(ws: seq<World>, steps: seq<Step>) {
    && |ws| == |steps| + 1 && Created(ws[0])
    && forall i | 0 <= i < |steps| :: Takes(ws[i], steps[i], ws[i + 1])
  }

  // --- what every run keeps ---

  /** Versions decide priorities. */
  ghost predicate Regime(w: World, v8: int) {
    forall p | p in w.instances ::
      w.instances[p].priority == if w.instances[p].version == 6 then PRIORITY_DEFAULT else v8
  }

  /** A v8 instance only ever has one of two priorities. */
  predicate KnownPriority(i: Instance) {
    if i.version == 6 then i.priority == PRIORITY_DEFAULT
    else i.version == 8 && (i.priority == PRIORITY_V8_DEPRIORITIZED || i.priority == PRIORITY_V8_PROMOTED)
  }

  /** What a sentinel last saw is the actual priority, or the one a v8 instance had before it was promoted. */
  predicate TrueOrStale(i: Instance, seen: int) {
    seen == i.priority || (i.version == 8 && seen == PRIORITY_V8_DEPRIORITIZED)
  }

  predicate ViewSane(instances: map<int, Instance>, view: map<int, int>) {
    forall p | p in view && p in instances :: TrueOrStale(instances[p], view[p])
  }

  /** Holds whatever the operator does. */
  ghost predicate Sane(w: World) {
    && (forall p | p in w.instances :: KnownPriority(w.instances[p]))
    && (w.master in w.instances ==> w.instances[w.master].synced)
    && w.views.Keys <= w.sentinels.Keys
    && forall s | s in w.views :: ViewSane(w.instances, w.views[s]) && w.master !in w.views[s]
  }

  /** Before the first promote-v8 attempt, as long as the state file can be read. */
  ghost predicate Undecided(w: World) {
    !w.attempted && w.file != Torn ==>
      && Regime(w, PRIORITY_V8_DEPRIORITIZED)
      && (Load(w.file) == Ok(AllV6) || Load(w.file) == Ok(MixedVersions))
  }

  /** After a promote-v8 that succeeded and left no v8 master behind. */
  ghost predicate Committed(w: World) {
    w.promoted ==>
      && w.attempted
      && Regime(w, PRIORITY_V8_PROMOTED)
      && LoadOrBlank(w.file) != AllV6 && LoadOrBlank(w.file) != MixedVersions
  }

  ghost predicate Inv(w: World) {
    Sane(w) && Undecided(w) && Committed(w)
  }

  /** A file that was torn stays torn: no command writes a file it cannot read. */
  lemma TornStaysTorn(w: World, step: Step, w': World)
    requires Takes(w, step, w') && w.file == Torn
    ensures w'.file == Torn
  {}

  /** Firing moves a state of the chain to the next one, leaves it, or tears the file. */
  lemma AdvanceMoves(file: File, i: nat, actionOk: bool, write: Write)
    requires i < 7
    ensures var file' := Advance(file, CHAIN[i], TRIGGERS[i], actionOk, write);
            || file' == file || file' == Torn
            || (Load(file) == Ok(CHAIN[i]) && actionOk && Lands(write) && file' == Saved(CHAIN[i + 1]))
  {
    PermittedOfChain(i, TRIGGERS[i]);
  }

  /** Who replicates from whom, and who is in sync, may differ; membership, versions and priorities do not. */
  predicate SameButLinks(a: map<int, Instance>, b: map<int, Instance>) {
    a.Keys == b.Keys && forall p | p in a :: a[p].version == b[p].version && a[p].priority == b[p].priority
  }

  lemma FailoverKeepsInstances(w: World, step: Step, w': World)
    requires Takes(w, step, w') && step.Failover?
    ensures SameButLinks(w'.instances, w.instances)
  {
    hide Try, Advance, Saw, Restarted, Dropped, Election, AllDirect;
  }

  /** Every step but add, rm and promote-v8 leaves membership, versions and priorities alone. */
  lemma OthersKeepInstances(w: World, step: Step, w': World)
    requires Takes(w, step, w') && !step.AddInstance? && !step.Promote?
    ensures !step.RemoveInstance? ==> SameButLinks(w'.instances, w.instances)
    ensures step.RemoveInstance? ==>
              SameButLinks(w'.instances, w.instances) || w'.instances == w.instances - {step.port}
  {
    hide Try, Advance, NoV6, NoV6Sentinel, Saw, Restarted, Dropped, Election, FailoverTakes;
    match step
    case RemoveInstance(port, named, fate) =>
    case Failover(rewired, caughtUp, polled, vote, switched, write) =>
      FailoverKeepsInstances(w, step, w');
    case Isolate(broken, resets, actionOk, write) =>
    case AddSentinels(version, started, registered, all, write) =>
    case RemoveSentinel(port, forgotten, stopped, listed, write) =>
    case Poll(s, port) =>
    case Sync(port) =>
    case Elect(leader, vote) =>
    case Reset(s) =>
  }

  lemma AddKeepsRegime(w: World, port: int, version: int, fate: AddFate, w': World, v8: int)
    requires AddTakes(w, port, version, fate, w') && Regime(w, v8) && BootPriority(w.file, 8) == v8
    ensures Regime(w', v8)
  {
    hide Try, Advance, LoadOrBlank;
  }

  /** No command but promote-v8 changes a priority, and newcomers boot under the regime of the file. */
  lemma RegimeKept(w: World, step: Step, w': World, v8: int)
    requires Takes(w, step, w') && Regime(w, v8) && !step.Promote?
    requires BootPriority(w.file, 8) == v8
    ensures Regime(w', v8)
  {
    if step.AddInstance? {
      AddKeepsRegime(w, step.port, step.version, step.addFate, w', v8);
    } else {
      OthersKeepInstances(w, step, w');
      hide Takes;
    }
  }

  lemma AddKeepsSanity(w: World, port: int, version: int, fate: AddFate, w': World)
    requires AddTakes(w, port, version, fate, w') && Sane(w)
    ensures Sane(w')
  {
    hide Try, Advance;
  }

  lemma RemoveKeepsSanity(w: World, port: int, named: set<int>, fate: RmFate, w': World)
    requires RemoveTakes(w, port, named, fate, w') && Sane(w)
    ensures Sane(w')
  {
    hide Try, Advance, NoV6;
  }

  lemma PromoteKeepsSanity(w: World, known: bool, updated: set<int>, polled: set<int>, write: Write, w': World)
    requires PromoteTakes(w, known, updated, polled, write, w') && Sane(w)
    ensures Sane(w')
  {
    hide Try, SeenByFirst, LeavesMasterBehind;
  }

  lemma VoteKeepsSanity(w: World, leader: int, vote: Vote)
    requires vote.Vote? && Election(w, leader, vote.eligible, vote.winner) && Sane(w)
    ensures Sane(AfterVote(w, vote))
  {}

  lemma ReconciledIsSane(w: World, rewired: set<int>, caughtUp: set<int>, polled: set<int>)
    requires w.sentinels != map[] && Sane(w) && AllDirect(Reconciled(w, rewired, caughtUp, polled), polled)
    ensures Sane(Reconciled(w, rewired, caughtUp, polled))
  {}

  lemma FailoverKeepsSanity(w: World, rewired: set<int>, caughtUp: set<int>, polled: set<int>, vote: Vote,
                            switched: bool, write: Write, w': World)
    requires FailoverTakes(w, rewired, caughtUp, polled, vote, switched, write, w') && Sane(w)
    ensures Sane(w')
  {
    hide Try, Advance, Reconciled, AfterVote, Election;
    if w.sentinels != map[] && Load(w.file) != Unreadable {
      ReconciledIsSane(w, rewired, caughtUp, polled);
      if vote.Vote? {
        VoteKeepsSanity(Reconciled(w, rewired, caughtUp, polled), First(w), vote);
      }
    }
  }

  lemma SentinelsKeepSanity(w: World, step: Step, w': World)
    requires Takes(w, step, w') && Sane(w)
    requires step.AddSentinels? || step.RemoveSentinel? || step.Poll? || step.Reset? || step.Sync? || step.Isolate?
    ensures Sane(w')
  {
    hide Try, Advance, NoV6Sentinel;
  }

  lemma SanityKept(w: World, step: Step, w': World)
    requires Takes(w, step, w') && Sane(w)
    ensures Sane(w')
  {
    hide AddTakes, RemoveTakes, PromoteTakes, FailoverTakes, IsolateTakes, AddSentinelsTakes, RemoveSentinelTakes;
    hide Election, AfterVote, Sane;
    match step
    case AddInstance(port, version, fate) =>
      AddKeepsSanity(w, port, version, fate, w');
    case RemoveInstance(port, named, fate) =>
      RemoveKeepsSanity(w, port, named, fate, w');
    case Promote(known, updated, polled, write) =>
      PromoteKeepsSanity(w, known, updated, polled, write, w');
    case Failover(rewired, caughtUp, polled, vote, switched, write) =>
      FailoverKeepsSanity(w, rewired, caughtUp, polled, vote, switched, write, w');
    case Elect(leader, vote) =>
      VoteKeepsSanity(w, leader, vote);
    case _ =>
      SentinelsKeepSanity(w, step, w');
  }

  predicate Early(s: State) {
    s == AllV6 || s == MixedVersions
  }

  /** The chain edge a step can fire: which state it must find, and what else the command checks. */
  function EdgeOf(step: Step): int {
    match step
    case AddInstance(_, _, _) => 0
    case Promote(_, _, _, _) => 1
    case Failover(_, _, _, _, _, _) => 2
    case Isolate(_, _, _, _) => 3
    case RemoveInstance(_, _, _) => 4
    case AddSentinels(_, _, _, _, _) => 5
    case RemoveSentinel(_, _, _, _, _) => 6
    case _ => -1
  }

  lemma PromoteFileStep(w: World, step: Step, w': World)
    requires Takes(w, step, w') && step.Promote?
    ensures || w'.file == w.file || w'.file == Torn
            || (Load(w.file) == Ok(CHAIN[1]) && w'.file == Saved(CHAIN[2]))
  {
    hide Saw, Promoted, SeenByFirst, HasV8, AllDirect, LeavesMasterBehind;
    PermittedOfChain(1, PromoteV8);
  }

  lemma FailoverFileStep(w: World, step: Step, w': World)
    requires Takes(w, step, w') && step.Failover?
    ensures || w'.file == w.file || w'.file == Torn
            || (Load(w.file) == Ok(CHAIN[2]) && w'.file == Saved(CHAIN[3]))
  {
    hide Saw, Election, AllDirect, PointAt, Repointed, Restarted, Dropped, Advance;
    AdvanceMoves(w.file, 2, step.switched, step.write);
  }

  /** A step leaves the file, tears it, or takes its own edge of the chain. */
  lemma FileStep(w: World, step: Step, w': World)
    requires Takes(w, step, w')
    ensures || w'.file == w.file || w'.file == Torn
            || (EdgeOf(step) >= 0 && Load(w.file) == Ok(CHAIN[EdgeOf(step)])
                && w'.file == Saved(CHAIN[EdgeOf(step) + 1]))
  {
    hide Saw, Restarted, Dropped, Election, BreakLinks, Repointed, NoV6, NoV6Sentinel, Advance;
    hide PromoteTakes, FailoverTakes;
    match step
    case AddInstance(port, version, fate) =>
      if fate.Joined? { AdvanceMoves(w.file, 0, true, fate.write); }
    case RemoveInstance(port, named, fate) =>
      if fate.Removed? { AdvanceMoves(w.file, 4, true, fate.write); }
    case Promote(known, updated, polled, write) =>
      PromoteFileStep(w, step, w');
    case Failover(rewired, caughtUp, polled, vote, switched, write) =>
      FailoverFileStep(w, step, w');
    case Isolate(broken, resets, actionOk, write) =>
      AdvanceMoves(w.file, 3, actionOk, write);
    case AddSentinels(version, started, registered, all, write) =>
      AdvanceMoves(w.file, 5, true, write);
    case RemoveSentinel(port, forgotten, stopped, listed, write) =>
      AdvanceMoves(w.file, 6, true, write);
    case Poll(s, port) =>
    case Sync(port) =>
    case Elect(leader, vote) =>
    case Reset(s) =>
  }

  // --- what each command makes of the file: its own trigger, in its own state, or nothing ---

  lemma AddFile(w: World, port: int, version: int, fate: AddFate, w': World)
    requires AddTakes(w, port, version, fate, w')
    ensures var due := fate.Joined? && version == 8 && (w.file == Missing || w.file == Saved(AllV6));
            w'.file == if !due || fate.write == Untouched then w.file
                       else if fate.write == Truncated then Torn else Saved(MixedVersions)
  {
    hide Restarted, Dropped, Advance;
    if fate.Joined? { AdvanceWrites(w.file, 0, true, fate.write); }
  }

  lemma IsolateFile(w: World, broken: set<int>, resets: set<int>, actionOk: bool, write: Write, w': World)
    requires IsolateTakes(w, broken, resets, actionOk, write, w')
    ensures var due := actionOk && w.file == Saved(FailoverComplete);
            w'.file == if !due || write == Untouched then w.file
                       else if write == Truncated then Torn else Saved(ReplicationBroken)
  {
    hide Restarted, BreakLinks, Advance;
    AdvanceWrites(w.file, 3, actionOk, write);
  }

  lemma SentinelsFile(w: World, version: int, started: set<int>, registered: set<int>, all: bool, write: Write,
                      w': World)
    requires AddSentinelsTakes(w, version, started, registered, all, write, w')
    ensures var due := all && version == 8 && w.file == Saved(V6Destroyed);
            w'.file == if !due || write == Untouched then w.file
                       else if write == Truncated then Torn else Saved(V8SentinelsAdded)
  {
    hide Advance;
    AdvanceWrites(w.file, 5, true, write);
  }

  lemma RemoveFile(w: World, port: int, named: set<int>, fate: RmFate, w': World)
    requires RemoveTakes(w, port, named, fate, w')
    ensures var due := && port !in named && fate.Removed? && fate.listed && w.file == Saved(ReplicationBroken)
                       && forall p | p in w'.instances :: w'.instances[p].version != 6;
            w'.file == if !due || fate.write == Untouched then w.file
                       else if fate.write == Truncated then Torn else Saved(V6Destroyed)
  {
    hide Restarted, Dropped, BreakLinks, Advance;
    if fate.Removed? { AdvanceWrites(w.file, 4, true, fate.write); }
  }

  /** A removal that goes through, and one that only cut the replication: what is left, and who starts over. */
  lemma RemovalLeaves(w: World, port: int, named: set<int>, fate: RmFate, w': World)
    requires RemoveTakes(w, port, named, fate, w') && port !in named
    ensures w'.instances == match fate
                            case NotStopped(cut, _) =>
                              if cut then w.instances[port := w.instances[port].(target := 0)] else w.instances
                            case Removed(_, _, _) => w.instances - {port}
    ensures w'.views == match fate
                        case NotStopped(_, resets) =>
                          map s | s in w.views :: if s in resets then map[] else w.views[s]
                        case Removed(resets, _, _) =>
                          map s | s in w.views :: if s in resets then map[] else w.views[s] - {port}
    ensures w'.sentinels == w.sentinels && w'.master == w.master
  {
    hide Advance, NoV6;
  }

  lemma SentinelFile(w: World, port: int, forgotten: bool, stopped: bool, listed: bool, write: Write, w': World)
    requires RemoveSentinelTakes(w, port, forgotten, stopped, listed, write, w')
    ensures port in w.sentinels
    ensures var due := && stopped && w.sentinels[port] == 6 && w.file == Saved(V8SentinelsAdded)
                       && (listed ==> forall p | p in w'.sentinels :: w'.sentinels[p] != 6);
            w'.file == if !due || write == Untouched then w.file else if write == Truncated then Torn else Saved(Done)
  {
    hide Advance;
    AdvanceWrites(w.file, 6, true, write);
  }

  lemma FailoverFile(w: World, rewired: set<int>, caughtUp: set<int>, polled: set<int>, vote: Vote, switched: bool,
                     write: Write, w': World)
    requires FailoverTakes(w, rewired, caughtUp, polled, vote, switched, write, w')
    ensures var due := switched && w.file == Saved(V8Prioritized);
            w'.file == if !due || write == Untouched then w.file
                       else if write == Truncated then Torn else Saved(FailoverComplete)
  {
    hide Saw, Restarted, Dropped, Election, Repointed, AllDirect, PointAt, CanSync, Advance;
    AdvanceWrites(w.file, 2, switched, write);
  }

  /** A cluster without a file, or at AllV6, stays where it is until a v8 instance has joined. */
  lemma OnlyV8Starts(w: World, step: Step, w': World)
    requires Takes(w, step, w') && (w.file == Missing || w.file == Saved(AllV6))
    requires !(step.AddInstance? && step.version == 8 && step.addFate.Joined?)
    ensures w'.file == w.file
  {
    hide Saw, Restarted, Dropped, Election, BreakLinks, Repointed, NoV6, NoV6Sentinel, Try, AllDirect, PointAt;
  }

  /** Over every run: until then the file is what creation left, and instances boot as before a promotion. */
  lemma {:induction false} StartsWithV8(ws: seq<World>, steps: seq<Step>, i: nat)
    requires IsRun(ws, steps) && i < |ws| && ws[0].file != Torn
    requires forall k | 0 <= k < i ::
               !(steps[k].AddInstance? && steps[k].version == 8 && steps[k].addFate.Joined?)
    ensures ws[i].file == ws[0].file && Load(ws[i].file) == Ok(AllV6) && BootPriority(ws[i].file, 8) == 200
  {
    hide Takes;
    if i > 0 {
      StartsWithV8(ws, steps, i - 1);
      OnlyV8Starts(ws[i - 1], steps[i - 1], ws[i]);
    }
  }

  /** Without promote-v8 the lifecycle does not get past MixedVersions, and nothing ever takes it back there. */
  lemma PhaseKept(w: World, step: Step, w': World)
    requires Takes(w, step, w')
    ensures Early(LoadOrBlank(w'.file)) ==> Early(LoadOrBlank(w.file))
    ensures !step.Promote? && Early(LoadOrBlank(w.file)) ==> Early(LoadOrBlank(w'.file)) || w'.file == Torn
  {
    hide Takes;
    FileStep(w, step, w');
    ChainIsDistinct();
  }

  /**
    A promotion that moves the lifecycle on has updated every instance but the master, and the first
    sentinel has seen it.
  */
  lemma PromotionReaches(w: World, step: Step, w': World)
    requires step.Promote? && Takes(w, step, w')
    requires Load(w.file) == Ok(MixedVersions) && w'.file == Saved(V8Prioritized)
    ensures w.sentinels != map[] && w.views != map[] && w'.views.Keys == w.views.Keys
    ensures step.updated == NonMasters(w) && w'.instances == Promoted(w.instances, NonMasters(w))
    ensures w'.master == w.master && w'.sentinels == w.sentinels && SeenByFirst(w, w'.views)
    ensures w'.promoted == (w.promoted || !LeavesMasterBehind(w))
  {
    hide SeenByFirst, Promoted, LeavesMasterBehind, HasV8;
    PermittedOfChain(1, PromoteV8);
  }

  /** If it also leaves no v8 master behind, it puts every instance under the new regime. */
  lemma PromotionSetsRegime(w: World, step: Step, w': World)
    requires step.Promote? && Takes(w, step, w') && Sane(w) && !w.promoted && w'.promoted
    ensures Regime(w', PRIORITY_V8_PROMOTED) && w'.file == Saved(V8Prioritized)
  {
    hide SeenByFirst, HasV8, Saw;
    PermittedOfChain(1, PromoteV8);
  }

  /** What promote-v8 never touches: it leaves every v8 at the promoted priority or the master behind. */
  lemma PromotionReachesAllV8(w: World, step: Step, w': World)
    requires step.Promote? && Takes(w, step, w') && Sane(w)
    requires Load(w.file) == Ok(MixedVersions) && w'.file == Saved(V8Prioritized)
    ensures (forall p | p in w'.instances && w'.instances[p].version == 8 ::
               w'.instances[p].priority == PRIORITY_V8_PROMOTED)
            <==> !LeavesMasterBehind(w)
  {
    hide Takes, SeenByFirst;
    PromotionReaches(w, step, w');
    if w.master in w.instances {
      assert w.master in w'.instances && w'.instances[w.master] == w.instances[w.master];
    }
  }

  lemma UndecidedKept(w: World, step: Step, w': World)
    requires Takes(w, step, w') && Inv(w)
    ensures Undecided(w')
  {
    if !w'.attempted && w'.file != Torn {
      if w.file == Torn { TornStaysTorn(w, step, w'); }
      PhaseKept(w, step, w');
      if !step.Promote? {
        AttemptedKept(w, step, w');
        RegimeKept(w, step, w', PRIORITY_V8_DEPRIORITIZED);
      }
    }
  }

  lemma AttemptedKept(w: World, step: Step, w': World)
    requires Takes(w, step, w') && !step.Promote?
    ensures w'.attempted == w.attempted && w'.promoted == w.promoted
  {
    hide Try, Advance, NoV6, NoV6Sentinel, Saw, Restarted, Dropped, Election, BreakLinks, Repointed;
  }

  lemma CommittedKept(w: World, step: Step, w': World)
    requires Takes(w, step, w') && Inv(w)
    ensures Committed(w')
  {
    hide Regime, Sane;
    if w'.promoted {
      PhaseKept(w, step, w');
      if step.Promote? {
        if !w.promoted {
          PromotionSetsRegime(w, step, w');
        }
      } else {
        hide Takes;
        AttemptedKept(w, step, w');
        RegimeKept(w, step, w', PRIORITY_V8_PROMOTED);
      }
    }
  }

  lemma InvKept(w: World, step: Step, w': World)
    requires Takes(w, step, w') && Inv(w)
    ensures Inv(w')
  {
    hide Takes, Sane, Undecided, Committed;
    SanityKept(w, step, w');
    UndecidedKept(w, step, w');
    CommittedKept(w, step, w');
  }

  lemma CreatedIsFine(w: World)
    requires Created(w)
    ensures Inv(w)
  {}

  lemma {:induction false} RunKeepsInv(ws: seq<World>, steps: seq<Step>, i: nat)
    requires IsRun(ws, steps) && i < |ws|
    ensures Inv(ws[i])
  {
    hide Takes, Inv, Created;
    if i == 0 {
      CreatedIsFine(ws[0]);
    } else {
      RunKeepsInv(ws, steps, i - 1);
      InvKept(ws[i - 1], steps[i - 1], ws[i]);
    }
  }

  // --- the destructive milestones ---

  /** V6Destroyed is entered only by the command that removed the last v6 instance. */
  lemma DestroyedMeansNoV6(w: World, step: Step, w': World)
    requires Takes(w, step, w')
    requires Load(w.file) != Ok(V6Destroyed) && Load(w'.file) == Ok(V6Destroyed)
    ensures NoV6(w'.instances) && step.RemoveInstance? && Load(w.file) == Ok(ReplicationBroken)
  {
    hide Takes;
    FileStep(w, step, w');
    ChainIsDistinct();
    LastV6Goes(w, step, w');
  }

  lemma LastV6Goes(w: World, step: Step, w': World)
    requires Takes(w, step, w') && step.RemoveInstance? && w'.file != w.file
    ensures NoV6(w'.instances)
  {
    hide NoV6, Advance, Dropped, Restarted;
  }

  /** Every step except adding a v6 instance keeps a cluster free of v6. */
  lemma NoV6IsKept(w: World, step: Step, w': World)
    requires Takes(w, step, w') && NoV6(w.instances)
    requires !(step.AddInstance? && step.version == 6)
    ensures NoV6(w'.instances)
  {
    if !step.AddInstance? && !step.Promote? {
      OthersKeepInstances(w, step, w');
      hide Takes;
    } else {
      hide Try, Advance, Saw, Restarted, Dropped, SeenByFirst;
    }
  }

  /**
    Done is entered only by removing a v6 sentinel, and then no v6 sentinel is left if the fleet could
    be listed.
  */
  lemma DoneMeansNoV6Sentinel(w: World, step: Step, w': World)
    requires Takes(w, step, w')
    requires Load(w.file) != Ok(Done) && Load(w'.file) == Ok(Done)
    ensures step.RemoveSentinel? && Load(w.file) == Ok(V8SentinelsAdded)
    ensures step.port in w.sentinels && w.sentinels[step.port] == 6
    ensures step.listed ==> NoV6Sentinel(w'.sentinels)
  {
    hide Takes;
    FileStep(w, step, w');
    ChainIsDistinct();
    LastV6SentinelGoes(w, step, w');
  }

  lemma LastV6SentinelGoes(w: World, step: Step, w': World)
    requires Takes(w, step, w') && step.RemoveSentinel? && w'.file != w.file
    ensures step.port in w.sentinels && w.sentinels[step.port] == 6
    ensures step.listed ==> NoV6Sentinel(w'.sentinels)
  {
    hide NoV6Sentinel, Advance;
  }

  /** Removing a v6 sentinel when the lifecycle waits for it: exactly when it ends in Done. */
  lemma WhenSentinelRemovalIsDone(w: World, port: int, forgotten: bool, listed: bool, w': World)
    requires Takes(w, RemoveSentinel(port, forgotten, true, listed, Written), w')
    requires w.file == Saved(V8SentinelsAdded) && w.sentinels[port] == 6
    ensures Load(w'.file) == Ok(Done) <==> !listed || NoV6Sentinel(w'.sentinels)
  {
    PermittedOfChain(6, RemoveV6Sentinels);
  }

  /** A removal that takes away the instance sentinel reports as master, which no responding sentinel named. */
  ghost predicate TakesMaster(w: World, step: Step) {
    step.RemoveInstance? && step.port == w.master && w.master !in step.named && step.rmFate.Removed?
  }

  /** instance rm never removes an instance that a responding sentinel names, and nothing else removes any. */
  lemma NamedInstanceStays(w: World, step: Step, w': World, p: int)
    requires Takes(w, step, w') && p in w.instances && p !in w'.instances
    ensures step.RemoveInstance? && step.port == p && p !in step.named && step.rmFate.Removed?
  {
    if !step.AddInstance? && !step.Promote? {
      OthersKeepInstances(w, step, w');
      hide Try, Advance, NoV6, Restarted, Dropped, FailoverTakes;
    } else {
      hide Try, Advance, Saw, Restarted, Dropped, SeenByFirst;
    }
  }

  /**
    Over every run, the master is among the instances all along exactly when no removal took it while
    no responding sentinel named it: nothing else can lose a master.
  */
  lemma {:induction false} MasterIsKeptIff(ws: seq<World>, steps: seq<Step>, i: nat)
    requires IsRun(ws, steps) && i < |ws|
    ensures (forall j | 0 <= j <= i :: ws[j].master in ws[j].instances)
            <==> forall k | 0 <= k < i :: !TakesMaster(ws[k], steps[k])
  {
    hide Takes, TakesMaster;
    if i > 0 {
      MasterIsKeptIff(ws, steps, i - 1);
      if ws[i - 1].master in ws[i - 1].instances {
        MasterStep(ws[i - 1], steps[i - 1], ws[i]);
      }
    }
  }

  lemma MasterStep(w: World, step: Step, w': World)
    requires Takes(w, step, w') && w.master in w.instances
    ensures w'.master in w'.instances <==> !TakesMaster(w, step)
  {
    hide Try, Advance, NoV6, NoV6Sentinel, Saw, Restarted, Dropped, SeenByFirst;
  }
}
