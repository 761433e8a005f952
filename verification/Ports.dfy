/** Port planning: first fit over a range, and the loop that plans several ports before using any. */
module Ports {

  datatype Plan = Planned(ports: seq<int>) | NoFreePort

  /** The free ports of a range. */
  function Free(first: int, last: int, used: set<int>): set<int> {
    set p | first <= p <= last && p !in used
  }

  /** First fit: the least free port. */
  predicate IsFirstFit(first: int, last: int, used: set<int>, p: int) {
    p in Free(first, last, used) && forall q | q in Free(first, last, used) :: p <= q
  }

  /** The ports of the listed containers; unlabelled ones report 0. */
  method UsedPorts(containers: seq<int>) returns (used: set<int>)
    ensures forall p :: p in used <==> p in containers && p > 0
  {
    used := {};
    for i := 0 to |containers|
      invariant forall p :: p in used <==> p in containers[..i] && p > 0
    {
      assert containers[..i + 1] == containers[..i] + [containers[i]];
      if containers[i] > 0 {
        used := used + {containers[i]};
      }
    }
    assert containers[..|containers|] == containers;
  }

  method AllocatePort(first: int, last: int, used: set<int>) returns (found: bool, port: int)
    ensures found ==> first <= port <= last && port !in used && forall q | first <= q < port :: q in used
    ensures !found ==> port == 0 && forall q | first <= q <= last :: q in used
  {
    var p := first;
    while p <= last
      invariant forall q | first <= q < p && q <= last :: q in used
    {
      if p !in used {
        return true, p;
      }
      p := p + 1;
    }
    found, port := false, 0;
  }

  function Marked(ports: seq<int>): set<int> {
    set p | p in ports
  }

  /** Repeated first fit: every port is the first fit once those before it are marked as used. */
  ghost predicate IsMarkedPlan(first: int, last: int, used: set<int>, ports: seq<int>) {
    forall i | 0 <= i < |ports| :: IsFirstFit(first, last, used + Marked(ports[..i]), ports[i])
  }

  /** The smallest free ports, in increasing order. */
  ghost predicate AreSmallestFree(first: int, last: int, used: set<int>, ports: seq<int>) {
    && (forall i, j | 0 <= i < j < |ports| :: ports[i] < ports[j])
    && (forall p | p in ports :: p in Free(first, last, used))
    && forall p, q | p in ports && q in Free(first, last, used) && q < p :: q in ports
  }

  /**
    cluster create plans all its ports before it starts a container, and instead of marking a port it
    moves the start of the range past it.
  */
  method PlanPorts(count: nat, first: int, last: int, used: set<int>) returns (plan: Plan)
    ensures var free := set p | first <= p <= last && p !in used; plan.NoFreePort? <==> |free| < count
    // Each port is the least of the range that is neither in use nor planned before it.
    ensures plan.Planned? ==>
              && |plan.ports| == count
              && forall i | 0 <= i < count ::
                   && first <= plan.ports[i] <= last && plan.ports[i] !in used && plan.ports[i] !in plan.ports[..i]
                   && forall q | first <= q < plan.ports[i] :: q in used || q in plan.ports[..i]
    ensures plan.Planned? ==> AreSmallestFree(first, last, used, plan.ports)
  {
    var start := first;
    var ports: seq<int> := [];
    for i := 0 to count
      invariant |ports| == i && first <= start
      invariant AreSmallestFree(first, last, used, ports)
      invariant forall p | p in ports :: p < start
      invariant forall p | p in Free(first, last, used) :: p in ports || p in Free(start, last, used)
      invariant |Free(first, last, used)| == i + |Free(start, last, used)|
    {
      var found, p := AllocatePort(start, last, used);
      if !found {
        assert Free(start, last, used) == {};
        return NoFreePort;
      }
      TakeFirst(start, last, used, p);
      ExtendPlan(first, start, last, used, ports, p);
      ports := ports + [p];
      start := p + 1;
    }
    PlanIsMarkedFirstFit(first, last, used, ports);
    forall i | 0 <= i < count
      ensures first <= ports[i] <= last && ports[i] !in used && ports[i] !in ports[..i]
      ensures forall q | first <= q < ports[i] :: q in used || q in ports[..i]
    {
      FirstFitIs(first, last, used, ports, i);
    }
    plan := Planned(ports);
  }

  lemma FirstFitIs(first: int, last: int, used: set<int>, ports: seq<int>, i: nat)
    requires i < |ports| && IsMarkedPlan(first, last, used, ports)
    ensures first <= ports[i] <= last && ports[i] !in used && ports[i] !in ports[..i]
    ensures forall q | first <= q < ports[i] :: q in used || q in ports[..i]
  {
    var p := ports[i];
    assert IsFirstFit(first, last, used + Marked(ports[..i]), p);
    forall q | first <= q < p
      ensures q in used || q in ports[..i]
    {
      assert q !in Free(first, last, used + Marked(ports[..i]));
    }
  }

  lemma TakeFirst(start: int, last: int, used: set<int>, p: int)
    requires IsFirstFit(start, last, used, p)
    ensures Free(start, last, used) == {p} + Free(p + 1, last, used)
    ensures |Free(start, last, used)| == 1 + |Free(p + 1, last, used)|
  {
    forall q | q in Free(start, last, used)
      ensures q == p || q in Free(p + 1, last, used)
    {}
    assert Free(start, last, used) == {p} + Free(p + 1, last, used);
  }

  lemma ExtendPlan(first: int, start: int, last: int, used: set<int>, ports: seq<int>, p: int)
    requires first <= start && AreSmallestFree(first, last, used, ports) && IsFirstFit(start, last, used, p)
    requires forall q | q in ports :: q < start
    requires forall q | q in Free(first, last, used) :: q in ports || q in Free(start, last, used)
    ensures AreSmallestFree(first, last, used, ports + [p])
  {
    var longer := ports + [p];
    assert p in Free(first, last, used);
    forall i, j | 0 <= i < j < |longer|
      ensures longer[i] < longer[j]
    {
      if j == |ports| {
        var q := ports[i];
        assert q in ports;
      }
    }
  }

  /** Bumping the start of the range and marking the port give the same plan. */
  lemma PlanIsMarkedFirstFit(first: int, last: int, used: set<int>, ports: seq<int>)
    ensures AreSmallestFree(first, last, used, ports) <==> IsMarkedPlan(first, last, used, ports)
  {
    if AreSmallestFree(first, last, used, ports) {
      forall i | 0 <= i < |ports|
        ensures IsFirstFit(first, last, used + Marked(ports[..i]), ports[i])
      {
        FitsInOrder(first, last, used, ports, i);
      }
    }
    if IsMarkedPlan(first, last, used, ports) {
      MarkedIsIncreasing(first, last, used, ports);
      forall p, q | p in ports && q in Free(first, last, used) && q < p
        ensures q in ports
      {
        var i :| 0 <= i < |ports| && ports[i] == p;
        assert IsFirstFit(first, last, used + Marked(ports[..i]), ports[i]);
        assert q !in Free(first, last, used + Marked(ports[..i]));
        assert q in Marked(ports[..i]) && q in ports[..i];
      }
    }
  }

  lemma EarlierAreSmaller(ports: seq<int>, i: nat)
    requires i < |ports| && forall j, k | 0 <= j < k < |ports| :: ports[j] < ports[k]
    ensures forall q :: q in Marked(ports[..i]) <==> q in ports && q < ports[i]
  {
    forall q
      ensures q in Marked(ports[..i]) <==> q in ports && q < ports[i]
    {
      if q in ports {
        var j :| 0 <= j < |ports| && ports[j] == q;
        if j < i { assert ports[..i][j] == q; }
      }
    }
  }

  lemma FitsInOrder(first: int, last: int, used: set<int>, ports: seq<int>, i: nat)
    requires AreSmallestFree(first, last, used, ports) && i < |ports|
    ensures IsFirstFit(first, last, used + Marked(ports[..i]), ports[i])
  {
    var p := ports[i];
    assert p in ports;
    EarlierAreSmaller(ports, i);
    assert p !in Marked(ports[..i]);
    forall q | q in Free(first, last, used + Marked(ports[..i]))
      ensures p <= q
    {
      assert q in Free(first, last, used) && !(q in ports && q < p);
    }
  }

  lemma MarkedIsIncreasing(first: int, last: int, used: set<int>, ports: seq<int>)
    requires IsMarkedPlan(first, last, used, ports)
    ensures forall i, j | 0 <= i < j < |ports| :: ports[i] < ports[j]
    ensures forall p | p in ports :: p in Free(first, last, used)
  {
    forall i | 0 <= i < |ports|
      ensures ports[i] in Free(first, last, used)
    {
      assert IsFirstFit(first, last, used + Marked(ports[..i]), ports[i]);
    }
    forall i, j | 0 <= i < j < |ports|
      ensures ports[i] < ports[j]
    {
      var p, q := ports[i], ports[j];
      assert IsFirstFit(first, last, used + Marked(ports[..i]), p);
      assert IsFirstFit(first, last, used + Marked(ports[..j]), q);
      assert ports[..j][i] == p && Marked(ports[..i]) <= Marked(ports[..j]);
      assert q in Free(first, last, used + Marked(ports[..i]));
    }
  }
}
