/** Who wins a failover, over every run of a cluster under upgrade. */
module Elections {
  import opened Collections
  import opened Lifecycle
  import opened Upgrade

  // --- runs and their continuations ---

  function Last(ws: seq<World>): World
    requires ws != []
  {
    ws[|ws| - 1]
  }

  ghost predicate Continues(ws: seq<World>, steps: seq<Step>, more: seq<World>, mores: seq<Step>) {
    IsRun(more, mores) && ws <= more && steps <= mores
  }

  lemma Then(ws: seq<World>, steps: seq<Step>, step: Step, w': World) returns (more: seq<World>, mores: seq<Step>)
    requires IsRun(ws, steps) && Takes(Last(ws), step, w')
    ensures more == ws + [w'] && mores == steps + [step] && Continues(ws, steps, more, mores)
  {
    hide Takes, Created;
    more, mores := ws + [w'], steps + [step];
    forall i | 0 <= i < |mores|
      ensures Takes(more[i], mores[i], more[i + 1])
    {
      if i < |steps| { assert more[i] == ws[i] && mores[i] == steps[i] && more[i + 1] == ws[i + 1]; }
    }
  }

  /** An election led by `s` in which `winner`, of version a, beats the eligible `loser`, of version b. */
  predicate Beats(w: World, s: int, eligible: set<int>, winner: int, a: int, loser: int, b: int) {
    && Election(w, s, eligible, winner) && loser in eligible
    && w.instances[winner].version == a && w.instances[loser].version == b
  }

  /** Sentinel `s` could promote an instance of version `a` although one of version `b` is eligible. */
  ghost predicate Prefers(w: World, s: int, a: int, b: int) {
    exists eligible, winner, loser :: Beats(w, s, eligible, winner, a, loser, b)
  }

  /** Some continuation of the run leads to such an election. */
  ghost predicate MayPrefer(ws: seq<World>, steps: seq<Step>, s: int, a: int, b: int) {
    exists more, mores :: Continues(ws, steps, more, mores) && Prefers(Last(more), s, a, b)
  }

  /** Nothing but sentinels polling and replicas finishing their sync. */
  ghost predicate Quiet(mores: seq<Step>, from: nat) {
    forall k | from <= k < |mores| :: mores[k].Poll? || mores[k].Sync?
  }

  /** It takes no more than that to get there, under some leader. */
  ghost predicate SoonPrefers(ws: seq<World>, steps: seq<Step>, a: int, b: int) {
    exists s, more, mores ::
      Continues(ws, steps, more, mores) && Quiet(mores, |steps|) && Prefers(Last(more), s, a, b)
  }

  // --- single steps as continuations ---

  function Seen(w: World, s: int, p: int): World
    requires s in w.views && p in w.instances
  {
    w.(views := w.views[s := w.views[s][p := w.instances[p].priority]])
  }

  lemma ThenPoll(ws: seq<World>, steps: seq<Step>, s: int, port: int) returns (more: seq<World>, mores: seq<Step>)
    requires IsRun(ws, steps) && s in Last(ws).views && IsDirect(Last(ws), port)
    ensures Continues(ws, steps, more, mores) && mores == steps + [Poll(s, port)]
    ensures Last(more) == Seen(Last(ws), s, port)
  {
    var w := Last(ws);
    assert Observe(w.views[s], w.instances, {port}) == w.views[s][port := w.instances[port].priority];
    more, mores := Then(ws, steps, Poll(s, port), Seen(w, s, port));
  }

  function InSync(w: World, p: int): World
    requires p in w.instances
  {
    w.(instances := w.instances[p := w.instances[p].(synced := true)])
  }

  /** A replica finishes its sync, unless it did long ago. */
  lemma ThenSync(ws: seq<World>, steps: seq<Step>, port: int) returns (more: seq<World>, mores: seq<Step>)
    requires IsRun(ws, steps) && Fit(Last(ws), port)
    ensures Continues(ws, steps, more, mores) && (mores == steps || mores == steps + [Sync(port)])
    ensures Last(more) == InSync(Last(ws), port)
  {
    var w := Last(ws);
    if w.instances[port].synced {
      assert InSync(w, port) == w;
      more, mores := ws, steps;
    } else {
      more, mores := Then(ws, steps, Sync(port), InSync(w, port));
    }
  }

  /** An instance joins on a free port. */
  lemma ThenJoin(ws: seq<World>, steps: seq<Step>, port: int, version: int, resets: set<int>)
    returns (more: seq<World>, mores: seq<Step>)
    requires IsRun(ws, steps) && (version == 6 || version == 8) && port !in Last(ws).instances
    requires Last(ws).views != map[] && Last(ws).master in Last(ws).instances
    requires Last(ws).instances[Last(ws).master].version == 6 || version != 6
    ensures Continues(ws, steps, more, mores)
    ensures Last(more) == AfterJoin(Last(ws), port, version, resets, Written)
  {
    var step := AddInstance(port, version, Joined(resets, Written));
    more, mores := Then(ws, steps, step, AfterJoin(Last(ws), port, version, resets, Written));
  }

  /** A failover attempt that rewires some replicas and then fails. */
  function Rewired(w: World, ports: set<int>, caughtUp: set<int>): World {
    w.(instances := PointAt(w.instances, w.master, ports, caughtUp))
  }

  lemma ThenRewire(ws: seq<World>, steps: seq<Step>, ports: set<int>, caughtUp: set<int>)
    returns (more: seq<World>, mores: seq<Step>)
    requires IsRun(ws, steps) && Last(ws).views != map[] && Last(ws).sentinels != map[]
    requires Last(ws).master in Last(ws).instances && Load(Last(ws).file).Ok?
    requires ports <= NonMasters(Last(ws)) && caughtUp <= ports && forall p | p in caughtUp :: CanSync(Last(ws), p)
    ensures Continues(ws, steps, more, mores) && Last(more) == Rewired(Last(ws), ports, caughtUp)
  {
    var w := Last(ws);
    var w' := Rewired(w, ports, caughtUp);
    FailedActionChangesNothing(w.file, Trigger.Failover, Written);
    NothingSeen(w.views, First(w), w'.instances);
    more, mores := Then(ws, steps, Step.Failover(ports, caughtUp, {}, NoVote, false, Written), w');
  }

  lemma ThenElect(ws: seq<World>, steps: seq<Step>, s: int, vote: Vote) returns (more: seq<World>, mores: seq<Step>)
    requires IsRun(ws, steps) && vote.Vote? && Election(Last(ws), s, vote.eligible, vote.winner)
    ensures Continues(ws, steps, more, mores) && Last(more) == AfterVote(Last(ws), vote)
  {
    more, mores := Then(ws, steps, Elect(s, vote), AfterVote(Last(ws), vote));
  }

  lemma {:induction false} FreshPort(ports: set<int>) returns (p: int)
    ensures p > 0 && forall q | q in ports :: q < p
    decreases |ports|
  {
    if ports == {} {
      p := 1;
    } else {
      var q := Any(ports);
      var r := FreshPort(ports - {q});
      p := if r > q then r else q + 1;
      forall x | x in ports ensures x < p {
        if x != q { assert x in ports - {q}; }
      }
    }
  }

  // --- v6 before the promotion ---

  /** A direct replica that is in sync or can get there. */
  predicate Fit(w: World, p: int) {
    IsDirect(w, p) && (w.instances[p].synced || CanSync(w, p))
  }

  /** A v8 replica that beats every v6 one as soon as a leader has seen its priority. */
  predicate Ahead(w: World, p: int) {
    Fit(w, p) && w.instances[p].version == 8 && w.instances[p].priority == PRIORITY_V8_PROMOTED
  }

  predicate FitV6(w: World, p: int) {
    Fit(w, p) && w.instances[p].version == 6
  }

  ghost predicate HasFitV6(w: World) {
    exists p :: FitV6(w, p)
  }

  ghost predicate SomebodyAhead(w: World) {
    exists p :: Ahead(w, p)
  }

  /**
    In every run, whichever sentinel leads, a failover elects a v6 replica exactly when one is eligible,
    as long as no v8 replica is at the promoted priority; before the first promote-v8, with a readable
    file, none is.
  */
  lemma BeforePromotionV6Wins(ws: seq<World>, steps: seq<Step>, i: nat, s: int, eligible: set<int>, winner: int)
    requires IsRun(ws, steps) && i < |ws| && Election(ws[i], s, eligible, winner)
    requires (!ws[i].attempted && ws[i].file != Torn) || !SomebodyAhead(ws[i])
    ensures ws[i].instances[winner].version == 6 <==> exists p | p in eligible :: ws[i].instances[p].version == 6
  {
    hide IsRun;
    RunKeepsInv(ws, steps, i);
    var w := ws[i];
    assert !Ahead(w, winner);
    assert TrueOrStale(w.instances[winner], w.views[s][winner]);
    if p :| p in eligible && w.instances[p].version == 6 {
      assert TrueOrStale(w.instances[p], w.views[s][p]);
      assert w.views[s][winner] <= w.views[s][p] == PRIORITY_DEFAULT;
    }
  }

  /** Quiet steps change nobody's chances. */
  ghost predicate SameChances(w: World, w': World) {
    && w.views.Keys == w'.views.Keys
    && forall p :: (Ahead(w, p) <==> Ahead(w', p)) && (FitV6(w, p) <==> FitV6(w', p))
  }

  lemma QuietStep(w: World, step: Step, w': World)
    requires Takes(w, step, w') && (step.Poll? || step.Sync?)
    ensures SameChances(w, w')
  {}

  lemma {:induction false} QuietKeepsChances(ws: seq<World>, steps: seq<Step>, more: seq<World>, mores: seq<Step>,
                                             j: nat)
    requires IsRun(ws, steps) && Continues(ws, steps, more, mores) && Quiet(mores, |steps|)
    requires |steps| <= j < |more|
    ensures SameChances(Last(ws), more[j])
  {
    hide Takes, Created, Ahead, FitV6;
    if j > |steps| {
      QuietKeepsChances(ws, steps, more, mores, j - 1);
      QuietStep(more[j - 1], mores[j - 1], more[j]);
    }
  }

  /**
    Whatever was done and whatever failed: polls and syncs can lead to an election that a v8 wins over
    an eligible v6 exactly when some sentinel monitors the cluster, some v6 is a fit replica, and some
    fit v8 replica is at the promoted priority.
  */
  lemma V8CanWinIff(ws: seq<World>, steps: seq<Step>)
    requires IsRun(ws, steps)
    ensures SoonPrefers(ws, steps, 8, 6)
            <==> Last(ws).views != map[] && HasFitV6(Last(ws)) && SomebodyAhead(Last(ws))
  {
    hide Takes, Created, Inv, Election, Ahead, FitV6;
    if SoonPrefers(ws, steps, 8, 6) {
      var s, more, mores :|
        Continues(ws, steps, more, mores) && Quiet(mores, |steps|) && Prefers(Last(more), s, 8, 6);
      QuietEnd(ws, steps, more, mores);
      WinnerIsAhead(Last(more), s);
    }
    if Last(ws).views != map[] && HasFitV6(Last(ws)) && SomebodyAhead(Last(ws)) {
      var p :| Ahead(Last(ws), p);
      var q :| FitV6(Last(ws), q);
      AheadSoonWins(ws, steps, p, q);
    }
  }

  lemma QuietEnd(ws: seq<World>, steps: seq<Step>, more: seq<World>, mores: seq<Step>)
    requires IsRun(ws, steps) && Continues(ws, steps, more, mores) && Quiet(mores, |steps|)
    ensures more != [] && SameChances(Last(ws), Last(more)) && Inv(Last(more))
  {
    hide Takes, Created, Inv, Ahead, FitV6;
    QuietKeepsChances(ws, steps, more, mores, |more| - 1);
    RunKeepsInv(more, mores, |more| - 1);
  }

  lemma WinnerIsAhead(w: World, s: int)
    requires Inv(w) && Prefers(w, s, 8, 6)
    ensures w.views != map[] && HasFitV6(w) && SomebodyAhead(w)
  {
    var eligible, winner, loser :| Beats(w, s, eligible, winner, 8, loser, 6);
    assert s in w.views;
    assert TrueOrStale(w.instances[winner], w.views[s][winner]) && TrueOrStale(w.instances[loser], w.views[s][loser]);
    assert w.views[s][winner] <= w.views[s][loser] == PRIORITY_DEFAULT;
    assert Ahead(w, winner) && FitV6(w, loser);
  }

  lemma LowerWins(w: World, s: int, winner: int, loser: int)
    requires Electable(w, s, winner) && Electable(w, s, loser) && w.views[s][winner] <= w.views[s][loser]
    ensures Prefers(w, s, w.instances[winner].version, w.instances[loser].version)
  {
    assert Beats(w, s, {winner, loser}, winner, w.instances[winner].version, loser, w.instances[loser].version);
  }

  lemma AheadSoonWins(ws: seq<World>, steps: seq<Step>, p: int, q: int)
    requires IsRun(ws, steps) && Ahead(Last(ws), p) && FitV6(Last(ws), q) && Last(ws).views != map[]
    ensures SoonPrefers(ws, steps, 8, 6)
  {
    hide Takes, Created, Election;
    PriorityOfV6(ws, steps, q);
    var s := Any(Last(ws).views.Keys);
    var a, at := ThenSync(ws, steps, p);
    var b, bt := ThenSync(a, at, q);
    var c, ct := ThenPoll(b, bt, s, p);
    var more, mores := ThenPoll(c, ct, s, q);
    LowerWins(Last(more), s, p, q);
    assert Continues(ws, steps, more, mores) && Quiet(mores, |steps|) && Prefers(Last(more), s, 8, 6);
  }

  lemma PriorityOfV6(ws: seq<World>, steps: seq<Step>, p: int)
    requires IsRun(ws, steps) && p in Last(ws).instances && Last(ws).instances[p].version == 6
    ensures Last(ws).instances[p].priority == PRIORITY_DEFAULT
  {
    RunKeepsInv(ws, steps, |ws| - 1);
  }

  /** What puts a v8 instance at the promoted priority. */
  ghost predicate PutsAhead(w: World, step: Step, p: int) {
    || (step.Promote? && p in step.updated)
    || (step.AddInstance? && step.port == p && !Early(LoadOrBlank(w.file)))
  }

  /** Step k put `p` ahead, and it has been there ever since. */
  ghost predicate PutAheadAt(ws: seq<World>, steps: seq<Step>, i: nat, p: int, k: nat)
    requires |ws| == |steps| + 1 && k < i < |ws|
  {
    PutsAhead(ws[k], steps[k], p) && forall j | k < j <= i :: p in ws[j].instances
  }

  ghost predicate PutAheadSince(ws: seq<World>, steps: seq<Step>, i: nat, p: int)
    requires |ws| == |steps| + 1 && i < |ws|
  {
    exists k: nat | k < i :: PutAheadAt(ws, steps, i, p, k)
  }

  lemma PutAheadEarlierOrNow(ws: seq<World>, steps: seq<Step>, i: nat, p: int)
    requires |ws| == |steps| + 1 && 0 < i < |ws| && p in ws[i].instances
    ensures PutAheadSince(ws, steps, i, p)
            <==> PutsAhead(ws[i - 1], steps[i - 1], p)
                 || (p in ws[i - 1].instances && PutAheadSince(ws, steps, i - 1, p))
  {
    hide PutsAhead;
    var before := i - 1;
    if k: nat :| k < i && PutAheadAt(ws, steps, i, p, k) {
      if k < i - 1 { assert PutAheadAt(ws, steps, i - 1, p, k); }
    }
    if PutsAhead(ws[i - 1], steps[i - 1], p) {
      assert PutAheadAt(ws, steps, i, p, i - 1);
    } else if p in ws[i - 1].instances {
      if k: nat :| k < before && PutAheadAt(ws, steps, before, p, k) {
        assert PutAheadAt(ws, steps, i, p, k);
      }
    }
  }

  /**
    Over every run, a v8 instance is at the promoted priority exactly when, since it joined, a
    promote-v8 reached it, successful or not, or when it joined while the file was past MixedVersions
    or could not be read.
  */
  lemma {:induction false} AheadBecause(ws: seq<World>, steps: seq<Step>, i: nat, p: int)
    requires IsRun(ws, steps) && i < |ws| && p in ws[i].instances && ws[i].instances[p].version == 8
    ensures ws[i].instances[p].priority == PRIORITY_V8_PROMOTED
            <==> PutAheadSince(ws, steps, i, p)
  {
    hide PutsAhead, PutAheadAt, Takes;
    if i > 0 {
      assert Takes(ws[i - 1], steps[i - 1], ws[i]);
      PriorityAfter(ws[i - 1], steps[i - 1], ws[i], p);
      PutAheadEarlierOrNow(ws, steps, i, p);
      if p in ws[i - 1].instances {
        AheadBecause(ws, steps, i - 1, p);
      }
    }
  }

  /** One step's effect on the priority of a v8 instance. */
  lemma PriorityAfter(w: World, step: Step, w': World, p: int)
    requires Takes(w, step, w') && p in w'.instances && w'.instances[p].version == 8
    ensures p in w.instances ==> w.instances[p].version == 8
    ensures w'.instances[p].priority == PRIORITY_V8_PROMOTED
            <==> PutsAhead(w, step, p) || (p in w.instances && w.instances[p].priority == PRIORITY_V8_PROMOTED)
  {
    if !step.AddInstance? && !step.Promote? {
      OthersKeepInstances(w, step, w');
      hide Takes;
    } else {
      hide Try, Advance, Saw, Restarted, Dropped, SeenByFirst;
    }
  }

  /**
    The step that breaks the promise: if no v8 was at the promoted priority before it, a v8 can win over
    a v6 after it exactly when it was a promote-v8 that reached a v8 that is a fit replica, or an add of
    one under such a file.
  */
  lemma BreaksWithThisStepIff(ws: seq<World>, steps: seq<Step>)
    requires IsRun(ws, steps) && steps != [] && HasFitV6(Last(ws)) && Last(ws).views != map[]
    requires var w := ws[|steps| - 1];
             forall p | p in w.instances && w.instances[p].version == 8 ::
               w.instances[p].priority != PRIORITY_V8_PROMOTED
    ensures SoonPrefers(ws, steps, 8, 6)
            <==> exists p | Fit(Last(ws), p) && Last(ws).instances[p].version == 8 ::
                   PutsAhead(ws[|steps| - 1], steps[|steps| - 1], p)
  {
    hide Takes, Created, PutsAhead, SoonPrefers, HasFitV6;
    var n := |steps| - 1;
    V8CanWinIff(ws, steps);
    forall p | Fit(Last(ws), p) && Last(ws).instances[p].version == 8
      ensures Ahead(Last(ws), p) <==> PutsAhead(ws[n], steps[n], p)
    {
      assert Takes(ws[n], steps[n], ws[n + 1]);
      PriorityAfter(ws[n], steps[n], Last(ws), p);
    }
  }

  // --- v8 after the promotion ---

  /** Sentinel `s` still has a v8 at the priority it had before promote-v8 reached it. */
  predicate Stale(w: World, s: int) {
    && s in w.views
    && exists p | p in w.views[s] && p in w.instances ::
         w.instances[p].version == 8 && w.views[s][p] != w.instances[p].priority
  }

  /**
    In every run, once promote-v8 has succeeded without leaving a v8 master behind, a failover led by a
    sentinel that is not stale elects a v8 replica exactly when one is eligible.
  */
  lemma AfterPromotionV8Wins(ws: seq<World>, steps: seq<Step>, i: nat, s: int, eligible: set<int>, winner: int)
    requires IsRun(ws, steps) && i < |ws| && ws[i].promoted && !Stale(ws[i], s)
    requires Election(ws[i], s, eligible, winner)
    ensures ws[i].instances[winner].version == 8 <==> exists p | p in eligible :: ws[i].instances[p].version == 8
  {
    hide IsRun;
    RunKeepsInv(ws, steps, i);
    V8Wins(ws[i], s, eligible, winner);
  }

  lemma V8Wins(w: World, s: int, eligible: set<int>, winner: int)
    requires Inv(w) && w.promoted && !Stale(w, s) && Election(w, s, eligible, winner)
    ensures w.instances[winner].version == 8 <==> exists p | p in eligible :: w.instances[p].version == 8
  {
    assert TrueOrStale(w.instances[winner], w.views[s][winner]);
    if p :| p in eligible && w.instances[p].version == 8 {
      assert w.views[s][winner] <= w.views[s][p] == PRIORITY_V8_PROMOTED;
    }
  }

  /** Promotion stands for the rest of the run, and a sentinel that is not stale then never gets stale. */
  lemma {:induction false} PromotionStands(ws: seq<World>, steps: seq<Step>, s: int, i: nat, j: nat)
    requires IsRun(ws, steps) && i <= j < |ws| && ws[i].promoted && !Stale(ws[i], s)
    ensures ws[j].promoted && !Stale(ws[j], s)
  {
    hide Takes, Stale, Created, Inv;
    if i < j {
      PromotionStands(ws, steps, s, i, j - 1);
      RunKeepsInv(ws, steps, j - 1);
      StaysFresh(ws[j - 1], steps[j - 1], ws[j], s);
    }
  }

  lemma ReconciledIsFresh(w: World, rewired: set<int>, caughtUp: set<int>, polled: set<int>, s: int)
    requires w.sentinels != map[] && !Stale(w, s)
    ensures !Stale(Reconciled(w, rewired, caughtUp, polled), s)
  {}

  lemma VoteStaysFresh(w: World, vote: Vote, s: int)
    requires vote.Vote? && !Stale(w, s)
    ensures !Stale(AfterVote(w, vote), s)
  {}

  lemma FailoverStaysFresh(w: World, step: Step, w': World, s: int)
    requires Takes(w, step, w') && step.Failover? && w.promoted && !Stale(w, s)
    ensures w'.promoted && !Stale(w', s)
  {
    hide Try, Advance, Reconciled, AfterVote, Election, Stale;
    if w.sentinels != map[] {
      ReconciledIsFresh(w, step.rewired, step.caughtUp, step.polled, s);
      if step.vote.Vote? {
        VoteStaysFresh(Reconciled(w, step.rewired, step.caughtUp, step.polled), step.vote, s);
      }
      FileDoesNotMatter(s);
    }
    AttemptedKept(w, step, w');
  }

  lemma FileDoesNotMatter(s: int)
    ensures forall w: World, file :: Stale(w.(file := file), s) == Stale(w, s)
  {}

  lemma StaysFresh(w: World, step: Step, w': World, s: int)
    requires Takes(w, step, w') && Inv(w) && w.promoted && !Stale(w, s)
    ensures w'.promoted && !Stale(w', s)
  {
    hide Try, Advance, NoV6, NoV6Sentinel, Election, SeenByFirst, TrueOrStale, Regime;
    hide FailoverTakes, AfterVote, ViewSane;
    if !step.Promote? { AttemptedKept(w, step, w'); }
    match step
    case AddInstance(port, version, fate) =>
    case RemoveInstance(port, named, fate) =>
    case Promote(known, updated, polled, write) =>
    case Failover(rewired, caughtUp, polled, vote, switched, write) =>
      FailoverStaysFresh(w, step, w', s);
    case Isolate(broken, resets, actionOk, write) =>
    case AddSentinels(version, started, registered, all, write) =>
    case RemoveSentinel(port, forgotten, stopped, listed, write) =>
    case Poll(t, port) =>
    case Sync(port) =>
    case Elect(leader, vote) =>
      VoteStaysFresh(w, vote, s);
    case Reset(t) =>
  }

  /** The run's last step is a promote-v8 that moved the lifecycle on, under a master that is there. */
  ghost predicate JustPromoted(ws: seq<World>, steps: seq<Step>) {
    && IsRun(ws, steps) && steps != [] && steps[|steps| - 1].Promote?
    && Load(ws[|steps| - 1].file) == Ok(MixedVersions) && Last(ws).file == Saved(V8Prioritized)
    && Last(ws).master in Last(ws).instances
  }

  /** The sentinel promote-v8 waited for is not stale. */
  lemma AwaitedIsFresh(ws: seq<World>, steps: seq<Step>)
    requires JustPromoted(ws, steps)
    ensures Last(ws).sentinels != map[] && !Stale(Last(ws), First(Last(ws)))
  {
    hide Takes, Created, Inv;
    var n := |steps| - 1;
    assert Takes(ws[n], steps[n], Last(ws));
    PromotionReaches(ws[n], steps[n], Last(ws));
    RunKeepsInv(ws, steps, n + 1);
    SeenIsFresh(ws[n], Last(ws));
  }

  lemma SeenIsFresh(w: World, w': World)
    requires w.sentinels != map[] && SeenByFirst(w, w'.views) && w'.sentinels == w.sentinels && w'.master == w.master
    requires w'.instances == Promoted(w.instances, NonMasters(w)) && Inv(w')
    ensures !Stale(w', First(w'))
  {
    var s := First(w);
    if s in w'.views {
      forall p | p in w'.views[s] && p in w'.instances
        ensures w'.views[s][p] == w'.instances[p].priority
      {
        assert p != w.master && p in NonMasters(w);
      }
    }
  }

  /** A v6 that holds data is the seed of every later v6 replica. */
  predicate SyncedV6(w: World, p: int) {
    p in w.instances && w.instances[p].version == 6 && w.instances[p].synced
  }

  ghost predicate HasSyncedV6(w: World) {
    exists p :: SyncedV6(w, p)
  }

  /**
    The promise of a successful promote-v8, that v8 wins from now on, fails for an election led by `s`
    exactly when it left a v8 master at another priority behind, or `s` still has a v8 replica from
    before it was updated, provided a v6 with data is left at all.
  */
  lemma PromotionHoldsIff(ws: seq<World>, steps: seq<Step>, s: int)
    requires JustPromoted(ws, steps) && s in Last(ws).views
    ensures MayPrefer(ws, steps, s, 6, 8)
            <==> (LeavesMasterBehind(ws[|steps| - 1]) || Stale(Last(ws), s)) && HasSyncedV6(Last(ws))
  {
    hide Inv, Created, Election, Takes, Stale, HasSyncedV6, MayPrefer, SeenByFirst, LeavesMasterBehind;
    var n := |steps| - 1;
    assert Takes(ws[n], steps[n], Last(ws));
    PromotionReaches(ws[n], steps[n], Last(ws));
    if !HasSyncedV6(Last(ws)) {
      V6NeverReturns(ws, steps, s);
    } else if Stale(Last(ws), s) {
      StaleLeaderPrefersV6(ws, steps, s);
    } else if LeavesMasterBehind(ws[n]) {
      StaysBehind(ws, steps);
      DemotedMasterLoses(ws, steps, s);
    } else {
      FreshLeaderPrefersV8(ws, steps, s);
    }
  }

  lemma FreshLeaderPrefersV8(ws: seq<World>, steps: seq<Step>, s: int)
    requires IsRun(ws, steps) && Last(ws).promoted && !Stale(Last(ws), s)
    ensures !MayPrefer(ws, steps, s, 6, 8)
  {
    hide Inv, Created, Election, Takes, Stale;
    if MayPrefer(ws, steps, s, 6, 8) {
      var more, mores :| Continues(ws, steps, more, mores) && Prefers(Last(more), s, 6, 8);
      assert more[|ws| - 1] == Last(ws);
      PromotionStands(more, mores, s, |ws| - 1, |more| - 1);
      var eligible, winner, loser :| Beats(Last(more), s, eligible, winner, 6, loser, 8);
      AfterPromotionV8Wins(more, mores, |more| - 1, s, eligible, winner);
    }
  }

  // Without a v6 that holds data, under a master that is there.

  ghost predicate V6Gone(w: World) {
    !HasSyncedV6(w)
  }

  lemma V6StaysGone(w: World, step: Step, w': World)
    requires Takes(w, step, w') && Inv(w) && V6Gone(w)
    requires w.master in w.instances ==> w.instances[w.master].version != 6
    ensures V6Gone(w') && (w'.master in w'.instances ==> w'.instances[w'.master].version != 6)
  {
    hide Takes, Inv;
    forall p
      ensures !SyncedV6(w', p)
    {
      assert !SyncedV6(w, p);
      NoDataFromNowhere(w, step, w', p);
    }
    if w'.master != w.master {
      WinnerHasData(w, step, w');
      assert !SyncedV6(w', w'.master);
    } else if w'.master in w'.instances {
      MasterIsNotReplaced(w, step, w');
    }
  }

  /** Under a v8 master no v6 completes a sync. */
  lemma NoDataFromNowhere(w: World, step: Step, w': World, p: int)
    requires Takes(w, step, w') && !SyncedV6(w, p)
    requires w.master in w.instances ==> w.instances[w.master].version != 6
    ensures !SyncedV6(w', p)
  {
    hide Try, Advance, NoV6, NoV6Sentinel, SeenByFirst, Saw, Restarted, Dropped, Election, AllDirect;
    if step.Failover? {
    } else if step.AddInstance? || step.RemoveInstance? || step.Promote? {
      hide FailoverTakes;
    } else {
      hide FailoverTakes, AddTakes, RemoveTakes, PromoteTakes;
    }
  }

  /** Nobody else takes the place of a master that stays master. */
  lemma MasterIsNotReplaced(w: World, step: Step, w': World)
    requires Takes(w, step, w') && w'.master == w.master && w.master in w'.instances
    ensures w.master in w.instances && w'.instances[w.master].version == w.instances[w.master].version
  {
    if !step.AddInstance? && !step.Promote? {
      OthersKeepInstances(w, step, w');
      hide Takes;
    } else {
      hide Try, Advance, Saw, Restarted, Dropped, SeenByFirst;
    }
  }

  /** Whoever becomes master holds data, and kept it. */
  lemma WinnerHasData(w: World, step: Step, w': World)
    requires Takes(w, step, w') && w'.master != w.master
    ensures w'.master in w'.instances && w'.instances[w'.master].synced
  {
    hide Try, Advance, NoV6, NoV6Sentinel, SeenByFirst, Saw, Restarted, Dropped;
    match step
    case Failover(rewired, caughtUp, polled, vote, switched, write) =>
    case Elect(leader, vote) =>
    case _ =>
  }

  lemma {:induction false} V6StaysGoneInRun(ws: seq<World>, steps: seq<Step>, i: nat, j: nat)
    requires IsRun(ws, steps) && i <= j < |ws| && V6Gone(ws[i])
    requires ws[i].master in ws[i].instances ==> ws[i].instances[ws[i].master].version != 6
    ensures V6Gone(ws[j]) && (ws[j].master in ws[j].instances ==> ws[j].instances[ws[j].master].version != 6)
  {
    hide Takes, Created, Inv, V6Gone;
    if i < j {
      V6StaysGoneInRun(ws, steps, i, j - 1);
      RunKeepsInv(ws, steps, j - 1);
      V6StaysGone(ws[j - 1], steps[j - 1], ws[j]);
    }
  }

  lemma V6NeverReturns(ws: seq<World>, steps: seq<Step>, s: int)
    requires IsRun(ws, steps) && !HasSyncedV6(Last(ws)) && Last(ws).master in Last(ws).instances
    ensures !MayPrefer(ws, steps, s, 6, 8)
  {
    hide Created, Takes;
    if MayPrefer(ws, steps, s, 6, 8) {
      var more, mores :| Continues(ws, steps, more, mores) && Prefers(Last(more), s, 6, 8);
      RunKeepsInv(ws, steps, |ws| - 1);
      assert !SyncedV6(Last(ws), Last(ws).master);
      assert more[|ws| - 1] == Last(ws);
      V6StaysGoneInRun(more, mores, |ws| - 1, |more| - 1);
      PreferredHasData(Last(more), s);
    }
  }

  lemma PreferredHasData(w: World, s: int)
    requires Prefers(w, s, 6, 8)
    ensures HasSyncedV6(w)
  {
    var eligible, winner, loser :| Beats(w, s, eligible, winner, 6, loser, 8);
    assert SyncedV6(w, winner);
  }

  lemma StaysBehind(ws: seq<World>, steps: seq<Step>)
    requires JustPromoted(ws, steps) && LeavesMasterBehind(ws[|steps| - 1])
    ensures var m := Last(ws).instances[Last(ws).master];
            m.version == 8 && m.priority == PRIORITY_V8_DEPRIORITIZED && m.synced
  {
    hide Takes, Created;
    var n := |steps| - 1;
    assert Takes(ws[n], steps[n], Last(ws));
    PromotionReaches(ws[n], steps[n], Last(ws));
    RunKeepsInv(ws, steps, n + 1);
  }

  /** A v6 becomes master again, another one joins under it, and the old v8 master loses to that. */
  lemma DemotedMasterLoses(ws: seq<World>, steps: seq<Step>, s: int)
    requires JustPromoted(ws, steps) && s in Last(ws).views && HasSyncedV6(Last(ws))
    requires var m := Last(ws).instances[Last(ws).master];
             m.version == 8 && m.priority == PRIORITY_V8_DEPRIORITIZED && m.synced
    ensures MayPrefer(ws, steps, s, 6, 8)
  {
    hide Takes, Created;
    var m := Last(ws).master;
    var x :| SyncedV6(Last(ws), x);
    var a, at := V6BecomesMaster(ws, steps, s, x);
    var y := FreshPort(Last(a).instances.Keys);
    PriorityOfV6(a, at, x);
    var b, bt := ThenJoin(a, at, y, 6, {});
    var c, ct := ThenPoll(b, bt, s, y);
    var more, mores := ThenPoll(c, ct, s, m);
    LowerWins(Last(more), s, y, m);
    assert Continues(ws, steps, more, mores);
  }

  lemma V6BecomesMaster(ws: seq<World>, steps: seq<Step>, s: int, x: int) returns (more: seq<World>, mores: seq<Step>)
    requires JustPromoted(ws, steps) && s in Last(ws).views && SyncedV6(Last(ws), x) && x != Last(ws).master
    ensures Continues(ws, steps, more, mores)
    ensures var w, m := Last(more), Last(ws).master;
            && w.master == x && SyncedV6(w, x) && s in w.views
            && IsDirect(w, m) && w.instances[m] == Last(ws).instances[m].(target := x)
  {
    hide Takes, Created;
    RunKeepsInv(ws, steps, |ws| - 1);
    PriorityOfV6(ws, steps, x);
    assert s in Last(ws).sentinels;
    var a, at := ThenRewire(ws, steps, {x}, {});
    var b, bt := ThenPoll(a, at, s, x);
    var vote := Vote({x}, x, {Last(ws).master}, {s});
    more, mores := ThenElect(b, bt, s, vote);
  }

  /** The stale sentinel sees a v6 replica and takes the v8 for deprioritised. */
  lemma StaleLeaderPrefersV6(ws: seq<World>, steps: seq<Step>, s: int)
    requires JustPromoted(ws, steps) && Stale(Last(ws), s) && HasSyncedV6(Last(ws))
    ensures MayPrefer(ws, steps, s, 6, 8)
  {
    hide Takes, Created;
    var a, at, x := SomeV6Replica(ws, steps, s);
    StaleEntry(ws, steps, s);
    var z :| z in Last(ws).views[s] && z in Last(ws).instances && Last(ws).instances[z].version == 8
             && Last(ws).views[s][z] == PRIORITY_V8_DEPRIORITIZED && z != Last(ws).master;
    PriorityOfV6(a, at, x);
    FleetOfViews(a, at);
    var b, bt := ThenRewire(a, at, {x, z}, {z});
    var more, mores := ThenPoll(b, bt, s, x);
    LowerWins(Last(more), s, x, z);
    assert Continues(ws, steps, more, mores);
  }

  lemma FleetOfViews(ws: seq<World>, steps: seq<Step>)
    requires IsRun(ws, steps) && Last(ws).views != map[]
    ensures Last(ws).sentinels != map[]
  {
    hide Takes, Created;
    RunKeepsInv(ws, steps, |ws| - 1);
    var s := Any(Last(ws).views.Keys);
    assert s in Last(ws).sentinels;
  }

  lemma StaleEntry(ws: seq<World>, steps: seq<Step>, s: int)
    requires IsRun(ws, steps) && Stale(Last(ws), s)
    ensures exists z | z in Last(ws).views[s] && z in Last(ws).instances ::
              Last(ws).instances[z].version == 8 && Last(ws).views[s][z] == PRIORITY_V8_DEPRIORITIZED
              && z != Last(ws).master
  {
    hide Takes, Created;
    var w := Last(ws);
    RunKeepsInv(ws, steps, |ws| - 1);
    var z :| z in w.views[s] && z in w.instances
             && w.instances[z].version == 8 && w.views[s][z] != w.instances[z].priority;
    assert TrueOrStale(w.instances[z], w.views[s][z]);
  }

  /** A v6 besides the master: one that is there, or one that joins under a v6 master. */
  lemma SomeV6Replica(ws: seq<World>, steps: seq<Step>, s: int)
    returns (more: seq<World>, mores: seq<Step>, x: int)
    requires JustPromoted(ws, steps) && s in Last(ws).views && HasSyncedV6(Last(ws))
    ensures Continues(ws, steps, more, mores)
    ensures SyncedV6(Last(more), x) && x != Last(more).master
    ensures var w, w' := Last(ws), Last(more);
            && w'.master == w.master && w'.sentinels == w.sentinels && w'.file == w.file
            && s in w'.views && w'.views[s] == w.views[s]
            && forall p | p in w.instances :: p in w'.instances && w'.instances[p] == w.instances[p]
  {
    hide Takes, Created;
    var w := Last(ws);
    x :| SyncedV6(w, x);
    if x != w.master {
      more, mores := ws, steps;
    } else {
      x := FreshPort(w.instances.Keys + w.views[s].Keys);
      more, mores := ThenJoin(ws, steps, x, 6, {});
      assert w.views[s] - {x} == w.views[s];
    }
  }

  // --- the failover that ends the phase ---

  /**
    The step into FailoverComplete is an election led by the first sentinel.  It leaves a v8 master
    exactly when a v8 was eligible, unless promote-v8 had left a v8 master behind or that sentinel was
    stale.
  */
  lemma FailoverCompletesUnderV8Iff(ws: seq<World>, steps: seq<Step>, i: nat)
    requires IsRun(ws, steps) && i < |steps| && steps[i].Failover?
    requires ws[i].file == Saved(V8Prioritized) && ws[i + 1].file == Saved(FailoverComplete)
    ensures ws[i].sentinels != map[] && steps[i].vote.Vote? && ws[i + 1].master in ws[i].instances
    ensures ws[i].promoted && !Stale(ws[i], First(ws[i])) ==>
              (ws[i].instances[ws[i + 1].master].version == 8
               <==> exists p | p in steps[i].vote.eligible && p in ws[i].instances :: ws[i].instances[p].version == 8)
  {
    hide Created, Inv, Stale;
    RunKeepsInv(ws, steps, i);
    var w, step := ws[i], steps[i];
    assert Takes(w, step, ws[i + 1]);
    FailedActionChangesNothing(w.file, Trigger.Failover, step.write);
    var mid := Reconciled(w, step.rewired, step.caughtUp, step.polled);
    var vote := step.vote;
    assert Election(mid, First(w), vote.eligible, vote.winner);
    if w.promoted && !Stale(w, First(w)) {
      ReconciledIsFresh(w, step.rewired, step.caughtUp, step.polled, First(w));
      ReconciledKeeps(w, step.rewired, step.caughtUp, step.polled);
      V8Wins(mid, First(w), vote.eligible, vote.winner);
    }
  }

  lemma ReconciledKeeps(w: World, rewired: set<int>, caughtUp: set<int>, polled: set<int>)
    requires w.sentinels != map[] && Inv(w) && AllDirect(Reconciled(w, rewired, caughtUp, polled), polled)
    ensures var mid := Reconciled(w, rewired, caughtUp, polled);
            Inv(mid) && SameButLinks(mid.instances, w.instances)
  {
    ReconciledIsSane(w, rewired, caughtUp, polled);
  }
}
