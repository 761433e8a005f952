/** New against returning customers. */
module Customers {
  import opened Orders
  import T = Tallies

  /** The customer IDs of a history; orders without an ID are not counted. */
  function Seen(h: seq<Order>): set<string> {
    set o | o in h && o.customer.id != "" :: o.customer.id
  }

  function NamedOrder(o: Order): int { if o.customer.id == "" then 0 else 1 }
  function NamedSpend(o: Order): int { if o.customer.id == "" then 0 else o.total }

  /** What customers spent on the first order each of them placed. */
  function FirstSpend(h: seq<Order>): int {
    if h == [] then 0
    else
      var rest, o := h[..|h| - 1], h[|h| - 1];
      FirstSpend(rest) + if o.customer.id == "" || o.customer.id in Seen(rest) then 0 else o.total
  }

  lemma SeenSnoc(h: seq<Order>, o: Order)
    ensures Seen(h + [o]) == Seen(h) + if o.customer.id == "" then {} else {o.customer.id}
    ensures FirstSpend(h + [o])
            == FirstSpend(h) + if o.customer.id == "" || o.customer.id in Seen(h) then 0 else o.total
    ensures T.Sum(h + [o], NamedOrder) == T.Sum(h, NamedOrder) + NamedOrder(o)
    ensures T.Sum(h + [o], NamedSpend) == T.Sum(h, NamedSpend) + NamedSpend(o)
  {
    T.Snoc(h, o);
    forall id
      ensures id in Seen(h + [o]) <==> id in Seen(h) || (id == o.customer.id && id != "")
    {
      if id in Seen(h) {
        var p :| p in h && p.customer.id == id && id != "";
        assert p in h + [o];
      }
      if id == o.customer.id { assert o in h + [o]; }
    }
  }
}
