/**
  The three trimmed order leaderboards.

  Each keeps ten entries and forgets the rest at every step, yet always equals the ten greatest
  distinct snapshots of every order ever applied.  The text encoding of a snapshot is a parameter;
  all it has to do is not give two snapshots with different scores the same text.
*/
module Leaderboards {
  import opened SortedSets
  import opened Orders

  function TotalScore(s: Snapshot): int { s.total }
  function UnitsScore(s: Snapshot): int { s.units }
  function MaxItemScore(s: Snapshot): int { s.maxItem }

  ghost predicate Determines(encode: Snapshot -> string, score: Snapshot -> int) {
    forall s, t :: encode(s) == encode(t) ==> score(s) == score(t)
  }

  ghost predicate ScoreFaithful(encode: Snapshot -> string) {
    && Determines(encode, TotalScore)
    && Determines(encode, UnitsScore)
    && Determines(encode, MaxItemScore)
  }

  /** Every snapshot of the history with its score, untrimmed. */
  function Board(h: seq<Order>, encode: Snapshot -> string, score: Snapshot -> int): ZSet {
    if h == [] then map[]
    else
      var s := SnapshotOf(h[|h| - 1]);
      Board(h[..|h| - 1], encode, score)[encode(s) := score(s)]
  }

  lemma {:induction false} BoardEntries(h: seq<Order>, encode: Snapshot -> string, score: Snapshot -> int)
    requires Determines(encode, score)
    ensures forall m | m in Board(h, encode, score) :: exists o | o in h :: m == encode(SnapshotOf(o))
    ensures forall o | o in h ::
              && encode(SnapshotOf(o)) in Board(h, encode, score)
              && Board(h, encode, score)[encode(SnapshotOf(o))] == score(SnapshotOf(o))
  {
    if h != [] {
      var n := |h| - 1;
      BoardEntries(h[..n], encode, score);
      assert h == h[..n] + [h[n]];
      forall m | m in Board(h, encode, score)
        ensures exists o | o in h :: m == encode(SnapshotOf(o))
      {
        if m in Board(h[..n], encode, score) {
          var o :| o in h[..n] && m == encode(SnapshotOf(o));
          assert o in h;
        } else {
          assert h[n] in h;
        }
      }
    }
  }

  /** The ZADD and ZREMRANGEBYRANK of the script turn the top of a history into the top of the longer one. */
  lemma LeaderboardStep(h: seq<Order>, o: Order, encode: Snapshot -> string, score: Snapshot -> int, limit: nat)
    requires Determines(encode, score)
    ensures var s := SnapshotOf(o);
            Trim(Top(Board(h, encode, score), limit)[encode(s) := score(s)], limit)
            == Top(Board(h + [o], encode, score), limit)
  {
    var s := SnapshotOf(o);
    BoardEntries(h, encode, score);
    AddThenTrim(Board(h, encode, score), encode(s), score(s), limit);
    assert (h + [o])[..|h|] == h;
  }

  /** The board depends only on which orders were applied: not on their order, not on re-deliveries. */
  lemma BoardOfSameOrders(h: seq<Order>, g: seq<Order>, encode: Snapshot -> string, score: Snapshot -> int)
    requires Determines(encode, score)
    requires forall o :: o in h <==> o in g
    ensures Board(h, encode, score) == Board(g, encode, score)
  {
    BoardEntries(h, encode, score);
    BoardEntries(g, encode, score);
  }
}
