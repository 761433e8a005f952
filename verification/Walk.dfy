/**
  The breadth-first walk that discovers a state machine's topology, for an arbitrary finite machine.

  States are marked visited when they leave the queue, so the queue can hold a state several times.
  A ghost level beside every queue entry and every listed state records the number of steps from
  the start; the invariant ties levels to shortest distances.
*/
module Walk {
  import opened Collections

  datatype Transition<S, G> = Transition(trigger: G, dest: S)

  /**
    The edges found when each state is probed, in the order the probe reports them, and the states
    whose probe fails.  A state that is not configured has no edges.
  */
  datatype Fsm<S, G> = Fsm(edges: map<S, seq<Transition<S, G>>>, broken: set<S>)

  datatype Walked<S, G> =
    | Walked(order: seq<S>, transitions: map<S, seq<Transition<S, G>>>)
    | Failed(at: S)

  function Edges<S, G>(fsm: Fsm<S, G>, s: S): seq<Transition<S, G>> {
    if s in fsm.edges then fsm.edges[s] else []
  }

  ghost predicate Steps<S, G>(fsm: Fsm<S, G>, s: S, t: S) {
    exists i | 0 <= i < |Edges(fsm, s)| :: Edges(fsm, s)[i].dest == t
  }

  /** There is a path of exactly n edges from `start` to `s`. */
  ghost predicate ReachIn<S(!new), G>(fsm: Fsm<S, G>, start: S, s: S, n: nat) {
    if n == 0 then s == start else exists r :: ReachIn(fsm, start, r, n - 1) && Steps(fsm, r, s)
  }

  ghost predicate Reachable<S(!new), G>(fsm: Fsm<S, G>, start: S, s: S) {
    exists n: nat :: ReachIn(fsm, start, s, n)
  }

  /** The shortest path to `s` has n edges. */
  ghost predicate Distance<S(!new), G>(fsm: Fsm<S, G>, start: S, s: S, n: nat) {
    ReachIn(fsm, start, s, n) && forall m: nat | m < n :: !ReachIn(fsm, start, s, m)
  }

  predicate Sorted(levels: seq<nat>) {
    forall i, j | 0 <= i < j < |levels| :: levels[i] <= levels[j]
  }

  /** `s` is listed, or waits in the queue, at a level of at most n. */
  ghost predicate Covered<S>(order: seq<S>, levels: seq<nat>, queue: seq<S>, waits: seq<nat>, s: S, n: int)
    requires |order| == |levels| && |queue| == |waits|
  {
    || (exists i | 0 <= i < |order| :: order[i] == s && levels[i] <= n)
    || (exists i | 0 <= i < |queue| :: queue[i] == s && waits[i] <= n)
  }

  /** The list so far: shortest distances, in order, nobody twice. */
  ghost predicate Listed<S(!new), G>(fsm: Fsm<S, G>, start: S, order: seq<S>, levels: seq<nat>) {
    && |order| == |levels| && Distinct(order) && Sorted(levels)
    && forall i | 0 <= i < |order| :: Distance(fsm, start, order[i], levels[i])
  }

  /** Levels never decrease along the queue and never spread over more than two neighbours. */
  ghost predicate Narrow(levels: seq<nat>, waits: seq<nat>) {
    && Sorted(waits)
    && (waits != [] ==> waits[|waits| - 1] <= waits[0] + 1)
    && (waits != [] ==> forall i | 0 <= i < |levels| :: levels[i] <= waits[0])
  }

  /** The queue: real paths, whose levels are narrow. */
  ghost predicate Waiting<S(!new), G>(fsm: Fsm<S, G>, start: S, levels: seq<nat>, queue: seq<S>, waits: seq<nat>) {
    && |queue| == |waits| && Narrow(levels, waits)
    && forall i | 0 <= i < |queue| :: ReachIn(fsm, start, queue[i], waits[i])
  }

  /** Every neighbour of a listed state is listed or waits, at most one level further out. */
  ghost predicate Closed<S, G>(fsm: Fsm<S, G>, start: S, order: seq<S>, levels: seq<nat>,
                               queue: seq<S>, waits: seq<nat>)
    requires |order| == |levels| && |queue| == |waits|
  {
    && Covered(order, levels, queue, waits, start, 0)
    && forall i, k | 0 <= i < |order| && 0 <= k < |Edges(fsm, order[i])| ::
         Covered(order, levels, queue, waits, Edges(fsm, order[i])[k].dest, levels[i] + 1)
  }

  /** What holds between two turns of the walk. */
  ghost predicate Invariant<S(!new), G>(fsm: Fsm<S, G>, start: S, order: seq<S>, levels: seq<nat>,
                                        queue: seq<S>, waits: seq<nat>)
  {
    && Listed(fsm, start, order, levels)
    && Waiting(fsm, start, levels, queue, waits)
    && Closed(fsm, start, order, levels, queue, waits)
  }

  /** Whatever is n steps away is already listed, unless something waits at a level of at most n. */
  lemma {:induction false} NothingSkipped<S(!new), G>(fsm: Fsm<S, G>, start: S, order: seq<S>, levels: seq<nat>,
                                                      queue: seq<S>, waits: seq<nat>, s: S, n: nat)
    requires Invariant(fsm, start, order, levels, queue, waits) && ReachIn(fsm, start, s, n)
    ensures || (exists i | 0 <= i < |order| :: order[i] == s && levels[i] <= n)
            || (exists i | 0 <= i < |queue| :: waits[i] <= n)
  {
    if n > 0 {
      var r :| ReachIn(fsm, start, r, n - 1) && Steps(fsm, r, s);
      NothingSkipped(fsm, start, order, levels, queue, waits, r, n - 1);
      if i :| 0 <= i < |order| && order[i] == r && levels[i] <= n - 1 {
        var k :| 0 <= k < |Edges(fsm, r)| && Edges(fsm, r)[k].dest == s;
        assert Covered(order, levels, queue, waits, s, levels[i] + 1);
      }
    }
  }

  /** The first unlisted state to leave the queue leaves it at its shortest distance. */
  lemma HeadIsNearest<S(!new), G>(fsm: Fsm<S, G>, start: S, order: seq<S>, levels: seq<nat>,
                                  queue: seq<S>, waits: seq<nat>)
    requires Invariant(fsm, start, order, levels, queue, waits) && queue != [] && queue[0] !in order
    ensures Distance(fsm, start, queue[0], waits[0])
  {
    forall m: nat | m < waits[0]
      ensures !ReachIn(fsm, start, queue[0], m)
    {
      if ReachIn(fsm, start, queue[0], m) {
        NothingSkipped(fsm, start, order, levels, queue, waits, queue[0], m);
      }
    }
  }

  lemma SkipKeeps<S(!new), G>(fsm: Fsm<S, G>, start: S, order: seq<S>, levels: seq<nat>,
                              queue: seq<S>, waits: seq<nat>)
    requires Invariant(fsm, start, order, levels, queue, waits) && queue != [] && queue[0] in order
    ensures Invariant(fsm, start, order, levels, queue[1..], waits[1..])
  {
    forall s, n | Covered(order, levels, queue, waits, s, n)
      ensures Covered(order, levels, queue[1..], waits[1..], s, n)
    {
      DropHead(order, levels, queue, waits, s, n);
    }
  }

  lemma DropHead<S>(order: seq<S>, levels: seq<nat>, queue: seq<S>, waits: seq<nat>, s: S, n: int)
    requires |order| == |levels| && |queue| == |waits| && queue != []
    requires queue[0] in order && forall i | 0 <= i < |levels| :: levels[i] <= waits[0]
    requires Covered(order, levels, queue, waits, s, n)
    ensures Covered(order, levels, queue[1..], waits[1..], s, n)
  {
    if i :| 0 <= i < |queue| && queue[i] == s && waits[i] <= n {
      if i > 0 {
        assert queue[1..][i - 1] == s && waits[1..][i - 1] <= n;
      }
    }
  }

  /** The destinations of `edges` that are not listed yet: what one probe appends to the queue. */
  function Fresh<S(==), G>(edges: seq<Transition<S, G>>, order: seq<S>): (r: seq<S>)
    ensures |r| <= |edges|
    ensures forall i | 0 <= i < |r| :: exists k | 0 <= k < |edges| :: edges[k].dest == r[i]
    ensures forall k | 0 <= k < |edges| :: edges[k].dest in order || edges[k].dest in r
  {
    if edges == [] then []
    else
      var n := |edges| - 1;
      var rest := Fresh(edges[..n], order);
      assert forall k | 0 <= k < n :: edges[..n][k] == edges[k];
      if edges[n].dest in order then rest else rest + [edges[n].dest]
  }

  lemma Appended<S>(order: seq<S>, levels: seq<nat>, queue: seq<S>, waits: seq<nat>, s: S, n: int,
                    one: seq<S>, level: seq<nat>, more: seq<S>, mores: seq<nat>)
    requires |order| == |levels| && |queue| == |waits| && |one| == |level| && |more| == |mores|
    requires Covered(order, levels, queue, waits, s, n)
    ensures Covered(order + one, levels + level, queue + more, waits + mores, s, n)
  {
    if i :| 0 <= i < |order| && order[i] == s && levels[i] <= n {
      assert (order + one)[i] == s && (levels + level)[i] <= n;
    } else {
      var i :| 0 <= i < |queue| && queue[i] == s && waits[i] <= n;
      assert (queue + more)[i] == s && (waits + mores)[i] <= n;
    }
  }

  lemma FreshNext<S, G>(edges: seq<Transition<S, G>>, i: nat, order: seq<S>)
    requires i < |edges|
    ensures Fresh(edges[..i + 1], order)
            == Fresh(edges[..i], order) + if edges[i].dest in order then [] else [edges[i].dest]
  {
    assert edges[..i + 1][..i] == edges[..i];
  }

  lemma NothingFresh<S, G>(order: seq<S>)
    ensures Fresh<S, G>([], order) == []
  {}

  lemma StaysNarrow(levels: seq<nat>, waits: seq<nat>, mores: seq<nat>)
    requires Narrow(levels, waits) && waits != [] && forall i | 0 <= i < |mores| :: mores[i] == waits[0] + 1
    ensures Narrow(levels + [waits[0]], waits[1..] + mores)
  {
    var d, waits' := waits[0], waits[1..] + mores;
    forall i | 0 <= i < |waits'|
      ensures d <= waits'[i] <= d + 1
    {
      if i < |waits| - 1 { assert waits'[i] == waits[i + 1]; }
    }
    forall i, j | 0 <= i < j < |waits'|
      ensures waits'[i] <= waits'[j]
    {
      if j < |waits| - 1 { assert waits'[i] == waits[i + 1] && waits'[j] == waits[j + 1]; }
    }
  }

  lemma FreshIsNext<S(!new), G>(fsm: Fsm<S, G>, start: S, s: S, d: nat, order: seq<S>, i: nat)
    requires ReachIn(fsm, start, s, d) && i < |Fresh(Edges(fsm, s), order)|
    ensures ReachIn(fsm, start, Fresh(Edges(fsm, s), order)[i], d + 1)
  {
    assert Steps(fsm, s, Fresh(Edges(fsm, s), order)[i]);
  }

  lemma VisitKeepsWaiting<S(!new), G>(fsm: Fsm<S, G>, start: S, levels: seq<nat>, queue: seq<S>, waits: seq<nat>,
                                      order: seq<S>, more: seq<S>, mores: seq<nat>)
    requires Waiting(fsm, start, levels, queue, waits) && queue != []
    requires more == Fresh(Edges(fsm, queue[0]), order)
    requires |mores| == |more| && forall i | 0 <= i < |mores| :: mores[i] == waits[0] + 1
    ensures Waiting(fsm, start, levels + [waits[0]], queue[1..] + more, waits[1..] + mores)
  {
    hide Narrow, ReachIn, Steps, Fresh;
    var s, d := queue[0], waits[0];
    var queue', waits' := queue[1..] + more, waits[1..] + mores;
    StaysNarrow(levels, waits, mores);
    forall i | 0 <= i < |queue'|
      ensures ReachIn(fsm, start, queue'[i], waits'[i])
    {
      if i < |queue| - 1 {
        assert queue'[i] == queue[i + 1] && waits'[i] == waits[i + 1];
      } else {
        FreshIsNext(fsm, start, s, d, order, i - |queue| + 1);
      }
    }
  }

  lemma VisitCovers<S>(order: seq<S>, levels: seq<nat>, queue: seq<S>, waits: seq<nat>,
                       more: seq<S>, mores: seq<nat>, t: S, n: int)
    requires |order| == |levels| && |queue| == |waits| && queue != [] && |more| == |mores|
    requires forall i | 0 <= i < |levels| :: levels[i] <= waits[0]
    requires Covered(order, levels, queue, waits, t, n)
    ensures Covered(order + [queue[0]], levels + [waits[0]], queue[1..] + more, waits[1..] + mores, t, n)
  {
    hide Covered;
    var order', levels' := order + [queue[0]], levels + [waits[0]];
    Appended(order, levels, queue, waits, t, n, [queue[0]], [waits[0]], [], []);
    assert queue + [] == queue && waits + [] == waits;
    DropHead(order', levels', queue, waits, t, n);
    Appended(order', levels', queue[1..], waits[1..], t, n, [], [], more, mores);
    assert order' + [] == order' && levels' + [] == levels';
  }

  lemma FreshCovered<S, G>(fsm: Fsm<S, G>, order: seq<S>, levels: seq<nat>, queue: seq<S>, waits: seq<nat>,
                           more: seq<S>, mores: seq<nat>, k: nat)
    requires |order| == |levels| && |queue| == |waits| && queue != [] && |more| == |mores|
    requires forall i | 0 <= i < |levels| :: levels[i] <= waits[0]
    requires more == Fresh(Edges(fsm, queue[0]), order + [queue[0]])
    requires forall i | 0 <= i < |mores| :: mores[i] == waits[0] + 1
    requires k < |Edges(fsm, queue[0])|
    ensures Covered(order + [queue[0]], levels + [waits[0]], queue[1..] + more, waits[1..] + mores,
                    Edges(fsm, queue[0])[k].dest, waits[0] + 1)
  {
    var t, d := Edges(fsm, queue[0])[k].dest, waits[0];
    var order', levels' := order + [queue[0]], levels + [d];
    var queue', waits' := queue[1..] + more, waits[1..] + mores;
    if t in order' {
      var j :| 0 <= j < |order'| && order'[j] == t;
      assert levels'[j] <= d + 1;
    } else {
      var j :| 0 <= j < |more| && more[j] == t;
      assert queue'[|queue| - 1 + j] == t && waits'[|queue| - 1 + j] == d + 1;
    }
  }

  lemma VisitKeepsClosed<S, G>(fsm: Fsm<S, G>, start: S, order: seq<S>, levels: seq<nat>,
                               queue: seq<S>, waits: seq<nat>, more: seq<S>, mores: seq<nat>)
    requires |order| == |levels| && |queue| == |waits| && queue != []
    requires Closed(fsm, start, order, levels, queue, waits) && forall i | 0 <= i < |levels| :: levels[i] <= waits[0]
    requires more == Fresh(Edges(fsm, queue[0]), order + [queue[0]])
    requires |mores| == |more| && forall i | 0 <= i < |mores| :: mores[i] == waits[0] + 1
    ensures Closed(fsm, start, order + [queue[0]], levels + [waits[0]], queue[1..] + more, waits[1..] + mores)
  {
    hide Covered, Fresh, Edges;
    var order', levels' := order + [queue[0]], levels + [waits[0]];
    var queue', waits' := queue[1..] + more, waits[1..] + mores;
    VisitCovers(order, levels, queue, waits, more, mores, start, 0);
    forall i, k | 0 <= i < |order'| && 0 <= k < |Edges(fsm, order'[i])|
      ensures Covered(order', levels', queue', waits', Edges(fsm, order'[i])[k].dest, levels'[i] + 1)
    {
      if i < |order| {
        VisitCovers(order, levels, queue, waits, more, mores, Edges(fsm, order[i])[k].dest, levels[i] + 1);
      } else {
        FreshCovered(fsm, order, levels, queue, waits, more, mores, k);
      }
    }
  }

  /** Listing the head and appending its fresh destinations, one level further out. */
  lemma VisitKeeps<S(!new), G>(fsm: Fsm<S, G>, start: S, order: seq<S>, levels: seq<nat>,
                               queue: seq<S>, waits: seq<nat>, more: seq<S>, mores: seq<nat>)
    requires Invariant(fsm, start, order, levels, queue, waits) && queue != [] && queue[0] !in order
    requires more == Fresh(Edges(fsm, queue[0]), order + [queue[0]])
    requires |mores| == |more| && forall i | 0 <= i < |mores| :: mores[i] == waits[0] + 1
    ensures Invariant(fsm, start, order + [queue[0]], levels + [waits[0]], queue[1..] + more, waits[1..] + mores)
  {
    hide Closed, ReachIn, Distance, Fresh;
    HeadIsNearest(fsm, start, order, levels, queue, waits);
    VisitKeepsWaiting(fsm, start, levels, queue, waits, order + [queue[0]], more, mores);
    VisitKeepsClosed(fsm, start, order, levels, queue, waits, more, mores);
  }

  lemma StartHolds<S(!new), G>(fsm: Fsm<S, G>, start: S)
    ensures Invariant(fsm, start, [], [], [start], [0])
  {
    assert [start][0] == start;
  }

  lemma EmptyQueueIsComplete<S(!new), G>(fsm: Fsm<S, G>, start: S, order: seq<S>, levels: seq<nat>)
    requires Invariant(fsm, start, order, levels, [], [])
    ensures forall s :: s in order <==> Reachable(fsm, start, s)
  {
    forall s
      ensures s in order <==> Reachable(fsm, start, s)
    {
      if n: nat :| ReachIn(fsm, start, s, n) {
        NothingSkipped(fsm, start, order, levels, [], [], s, n);
      }
    }
  }

  /** One turn's inner loop: record every edge of `s` and queue the destinations not visited yet. */
  method Probe<S(==), G>(trigs: seq<Transition<S, G>>, s: S, transitions: map<S, seq<Transition<S, G>>>,
                         queue: seq<S>, visited: set<S>, ghost order: seq<S>)
    returns (transitions': map<S, seq<Transition<S, G>>>, queue': seq<S>)
    requires s !in transitions && forall t :: t in visited <==> t in order
    ensures queue' == queue + Fresh(trigs, order)
    ensures transitions' == if trigs == [] then transitions else transitions[s := trigs]
  {
    hide Fresh;
    NothingFresh<S, G>(order);
    transitions', queue' := transitions, queue;
    for i := 0 to |trigs|
      invariant queue' == queue + Fresh(trigs[..i], order)
      invariant transitions' == if i == 0 then transitions else transitions[s := trigs[..i]]
    {
      var dest := trigs[i].dest;
      FreshNext(trigs, i, order);
      assert trigs[..i + 1] == trigs[..i] + [trigs[i]];
      var found := if s in transitions' then transitions'[s] else [];
      assert found == trigs[..i];
      transitions' := transitions'[s := found + [trigs[i]]];
      if dest !in visited {
        queue' := queue' + [dest];
      }
    }
    assert trigs[..|trigs|] == trigs;
  }

  method WalkFrom<S(==, !new), G>(fsm: Fsm<S, G>, start: S) returns (r: Walked<S, G>, ghost levels: seq<nat>)
    // An error names a reachable state whose probe fails; success means there is none.
    ensures r.Failed? ==> Reachable(fsm, start, r.at) && r.at in fsm.broken
    ensures r.Walked? ==> forall s :: Reachable(fsm, start, s) ==> s !in fsm.broken
    // Exactly the reachable states, each once, in order of distance.
    ensures r.Walked? ==> Distinct(r.order) && forall s :: s in r.order <==> Reachable(fsm, start, s)
    ensures r.Walked? ==>
              && |levels| == |r.order| && Sorted(levels)
              && forall i | 0 <= i < |r.order| :: Distance(fsm, start, r.order[i], levels[i])
    // Exactly their edges.
    ensures r.Walked? ==>
              && (forall s :: s in r.transitions <==> s in r.order && Edges(fsm, s) != [])
              && forall s | s in r.transitions :: r.transitions[s] == Edges(fsm, s)
  {
    hide Closed, ReachIn, Fresh, Sorted, Waiting, Distinct;
    var visited: set<S>, order: seq<S> := {}, [];
    var transitions: map<S, seq<Transition<S, G>>> := map[];
    var queue := [start];
    levels := [];
    ghost var waits: seq<nat> := [0];
    StartHolds(fsm, start);
    while |queue| > 0
      invariant |queue| == |waits| && Invariant(fsm, start, order, levels, queue, waits)
      invariant forall s :: s in visited <==> s in order
      invariant forall s | s in order :: s !in fsm.broken
      invariant forall s :: s in transitions <==> s in order && Edges(fsm, s) != []
      invariant forall s | s in transitions :: transitions[s] == Edges(fsm, s)
      decreases fsm.edges.Keys - visited, |queue|
    {
      var s := queue[0];
      ghost var rest := queue[1..];
      if s in visited {
        SkipKeeps(fsm, start, order, levels, queue, waits);
        queue, waits := queue[1..], waits[1..];
        continue;
      }
      ghost var level := QueueLevel(fsm, start, order, levels, queue, waits);
      ghost var more := Fresh(Edges(fsm, s), order + [s]);
      ghost var mores: seq<nat> := seq(|more|, i requires 0 <= i < |more| => level + 1);
      VisitKeeps(fsm, start, order, levels, queue, waits, more, mores);
      levels, waits := levels + [level], waits[1..] + mores;
      queue := queue[1..];
      visited := visited + {s};
      order := order + [s];
      if s in fsm.broken {
        assert Reachable(fsm, start, s);
        return Failed(s), levels;
      }
      assert s !in fsm.edges ==> fsm.edges.Keys - visited == fsm.edges.Keys - (visited - {s}) && |more| == 0;
      transitions, queue := Probe(Edges(fsm, s), s, transitions, queue, visited, order);
    }
    assert queue == [] && waits == [];
    EmptyQueueIsComplete(fsm, start, order, levels);
    r := Walked(order, transitions);
  }

  /** The level of the head of the queue, where a path of that length leads to it. */
  lemma QueueLevel<S(!new), G>(fsm: Fsm<S, G>, start: S, order: seq<S>, levels: seq<nat>,
                               queue: seq<S>, waits: seq<nat>) returns (level: nat)
    requires Invariant(fsm, start, order, levels, queue, waits) && queue != []
    ensures |waits| == |queue| && level == waits[0] && ReachIn(fsm, start, queue[0], level)
  {
    level := waits[0];
  }
}
