/**
  The rolling timeseries: one bucket per hour of order creation, each with a 72-hour expiry that
  is set anew whenever an order lands in it.

  `Buckets` is what a history of orders, applied at given instants, leaves behind.  The theorems say
  exactly when the hour a reader asks for shows its whole history.
*/
module Hours {
  import opened Orders
  import T = Tallies

  datatype HourBucket = HourBucket(orders: int, revenue: int, expireAt: int)

  const WINDOW := 72

  /** HINCRBY on both fields, then EXPIRE. */
  function BumpHour(hours: map<int, HourBucket>, hour: int, amount: int, now: int): map<int, HourBucket> {
    var (orders, revenue) := ReadHour(hours, hour);
    hours[hour := HourBucket(orders + 1, revenue + amount, now + HOUR_BUCKET_TTL)]
  }

  /** A key is gone once the clock is past its expiry. */
  function Expire(hours: map<int, HourBucket>, now: int): map<int, HourBucket> {
    map hour | hour in hours && now <= hours[hour].expireAt :: hours[hour]
  }

  /** HGETALL with missing fields read as zero. */
  function ReadHour(hours: map<int, HourBucket>, hour: int): (int, int) {
    if hour in hours then (hours[hour].orders, hours[hour].revenue) else (0, 0)
  }

  function OrdersIn(h: seq<Order>, hour: int): int {
    T.Sum(h, (o: Order) => if HourOf(o.createdAt) == hour then 1 else 0)
  }

  function RevenueIn(h: seq<Order>, hour: int): int {
    T.Sum(h, (o: Order) => if HourOf(o.createdAt) == hour then o.total else 0)
  }

  /** The hours the API can ask for at instant `now`. */
  predicate InWindow(hour: int, now: int) {
    HourOf(now) - WINDOW < hour <= HourOf(now)
  }

  // --- what a history leaves behind ---

  /** The buckets right after the last order of `h` was applied, each order at its instant in `at`. */
  function Buckets(h: seq<Order>, at: seq<int>): map<int, HourBucket>
    requires |h| == |at|
  {
    if h == [] then map[]
    else
      var n := |h| - 1;
      BumpHour(Expire(Buckets(h[..n], at[..n]), at[n]), HourOf(h[n].createdAt), h[n].total, at[n])
  }

  /** One clock: orders arrive one after the other, none later than now. */
  ghost predicate Arrived(at: seq<int>, now: int) {
    && (forall i, j | 0 <= i < j < |at| :: at[i] <= at[j])
    && forall i | 0 <= i < |at| :: at[i] <= now
  }

  /** `hours` is what the history left behind, less what has expired by now. */
  ghost predicate HoursMatch(hours: map<int, HourBucket>, h: seq<Order>, at: seq<int>, now: int)
    requires |h| == |at|
  {
    Arrived(at, now) && hours == Expire(Buckets(h, at), now)
  }

  lemma HoursKeptByTick(hours: map<int, HourBucket>, h: seq<Order>, at: seq<int>, now: int, later: int)
    requires |h| == |at| && now <= later && HoursMatch(hours, h, at, now)
    ensures HoursMatch(Expire(hours, later), h, at, later)
  {}

  lemma HoursKeptByApply(hours: map<int, HourBucket>, h: seq<Order>, at: seq<int>, now: int, o: Order)
    requires |h| == |at| && HoursMatch(hours, h, at, now)
    ensures HoursMatch(BumpHour(hours, HourOf(o.createdAt), o.total, now), h + [o], at + [now], now)
  {
    BucketsSnoc(h, at, o, now);
  }

  lemma BucketsSnoc(h: seq<Order>, at: seq<int>, o: Order, now: int)
    requires |h| == |at|
    ensures Buckets(h + [o], at + [now])
            == BumpHour(Expire(Buckets(h, at), now), HourOf(o.createdAt), o.total, now)
  {
    assert (h + [o])[..|h|] == h && (at + [now])[..|at|] == at;
  }

  // --- one hour ---

  /** When the orders created in `hour` were applied. */
  function ArrivalsIn(h: seq<Order>, at: seq<int>, hour: int): (r: seq<int>)
    requires |h| == |at|
    ensures forall t | t in r :: exists i | 0 <= i < |h| :: HourOf(h[i].createdAt) == hour && at[i] == t
  {
    if h == [] then []
    else
      var n := |h| - 1;
      var before := ArrivalsIn(h[..n], at[..n], hour);
      assert forall i | 0 <= i < n :: h[..n][i] == h[i] && at[..n][i] == at[i];
      if HourOf(h[n].createdAt) == hour then before + [at[n]] else before
  }

  /** No two consecutive arrivals are further apart than the expiry. */
  predicate Gapless(arrivals: seq<int>) {
    forall i | 0 < i < |arrivals| :: arrivals[i] <= arrivals[i - 1] + HOUR_BUCKET_TTL
  }

  /** The hour's bucket has been there from its first order until `now`. */
  predicate Unbroken(arrivals: seq<int>, now: int) {
    Gapless(arrivals) && (arrivals != [] ==> now <= arrivals[|arrivals| - 1] + HOUR_BUCKET_TTL)
  }

  /**
    The bucket of an hour after a history: there as long as the last order of that hour is recent
    enough, expiring one TTL after it, and complete exactly when it was never lost before.
  */
  ghost predicate BucketIs(hours: map<int, HourBucket>, h: seq<Order>, arrivals: seq<int>, hour: int, now: int) {
    && OrdersIn(h, hour) == |arrivals| && (arrivals == [] ==> RevenueIn(h, hour) == 0)
    && (hour in hours <==> arrivals != [] && now <= arrivals[|arrivals| - 1] + HOUR_BUCKET_TTL)
    && (hour in hours ==>
          && hours[hour].expireAt == arrivals[|arrivals| - 1] + HOUR_BUCKET_TTL
          && (if Gapless(arrivals) then ReadHour(hours, hour) == (OrdersIn(h, hour), RevenueIn(h, hour))
              else hours[hour].orders < OrdersIn(h, hour)))
  }

  lemma GaplessSnoc(arrivals: seq<int>, t: int)
    ensures Gapless([])
    ensures Gapless(arrivals + [t])
            <==> Gapless(arrivals) && (arrivals != [] ==> t <= arrivals[|arrivals| - 1] + HOUR_BUCKET_TTL)
  {
    var longer := arrivals + [t];
    if Gapless(longer) {
      forall i | 0 < i < |arrivals| ensures arrivals[i] <= arrivals[i - 1] + HOUR_BUCKET_TTL {
        assert longer[i] == arrivals[i] && longer[i - 1] == arrivals[i - 1];
      }
      assert arrivals != [] ==> longer[|arrivals|] == t && longer[|arrivals| - 1] == arrivals[|arrivals| - 1];
    }
  }

  lemma HourSums(h: seq<Order>, o: Order, hour: int)
    ensures OrdersIn(h + [o], hour) == OrdersIn(h, hour) + if HourOf(o.createdAt) == hour then 1 else 0
    ensures RevenueIn(h + [o], hour) == RevenueIn(h, hour) + if HourOf(o.createdAt) == hour then o.total else 0
  {
    T.SumSnoc(h, o, (o: Order) => if HourOf(o.createdAt) == hour then 1 else 0);
    T.SumSnoc(h, o, (o: Order) => if HourOf(o.createdAt) == hour then o.total else 0);
  }

  /** One order at `t`, then time passing until `now`. */
  lemma BucketStep(hours: map<int, HourBucket>, h: seq<Order>, o: Order, arrivals: seq<int>, hour: int, t: int,
                   now: int)
    requires BucketIs(hours, h, arrivals, hour, t) && t <= now
    ensures BucketIs(Expire(BumpHour(hours, HourOf(o.createdAt), o.total, t), now), h + [o],
                     arrivals + if HourOf(o.createdAt) == hour then [t] else [], hour, now)
  {
    hide OrdersIn, RevenueIn, Gapless;
    HourSums(h, o, hour);
    GaplessSnoc(arrivals, t);
    if HourOf(o.createdAt) != hour {
      assert arrivals + [] == arrivals;
    }
  }

  lemma {:induction false} BucketAfter(h: seq<Order>, at: seq<int>, hour: int, now: int)
    requires |h| == |at| && Arrived(at, now)
    ensures BucketIs(Expire(Buckets(h, at), now), h, ArrivalsIn(h, at, hour), hour, now)
  {
    hide OrdersIn, RevenueIn, Gapless, ArrivalsIn;
    if h == [] {
      NothingIn(hour);
    } else {
      var n := |h| - 1;
      var before, o, t := h[..n], h[n], at[n];
      assert h == before + [o] && at == at[..n] + [t];
      BucketAfter(before, at[..n], hour, t);
      ArrivalsSnoc(h, at, hour);
      BucketStep(Expire(Buckets(before, at[..n]), t), before, o, ArrivalsIn(before, at[..n], hour), hour, t, now);
    }
  }

  lemma NothingIn(hour: int)
    ensures OrdersIn([], hour) == RevenueIn([], hour) == 0 && ArrivalsIn([], [], hour) == []
  {}

  lemma ArrivalsSnoc(h: seq<Order>, at: seq<int>, hour: int)
    requires |h| == |at| && h != []
    ensures var n := |h| - 1;
            ArrivalsIn(h, at, hour)
            == ArrivalsIn(h[..n], at[..n], hour) + if HourOf(h[n].createdAt) == hour then [at[n]] else []
  {}

  /** The reply for an hour is its whole history: every order created in it, and all their cents. */
  predicate ReadsExact(hours: map<int, HourBucket>, h: seq<Order>, hour: int) {
    ReadHour(hours, hour) == (OrdersIn(h, hour), RevenueIn(h, hour))
  }

  /** A single read is exact exactly when the bucket was never lost. */
  lemma ExactIffUnbroken(h: seq<Order>, at: seq<int>, hour: int, now: int)
    requires |h| == |at| && Arrived(at, now)
    ensures ReadsExact(Expire(Buckets(h, at), now), h, hour) <==> Unbroken(ArrivalsIn(h, at, hour), now)
  {
    hide ArrivalsIn, Gapless, Buckets, OrdersIn, RevenueIn;
    BucketAfter(h, at, hour, now);
    GaplessSnoc([], now);
  }

  /**
    The whole future of an hour that can still be asked for: every read of it, up to the last one the
    window allows, is exact if and only if consecutive orders of that hour arrived within the expiry
    of each other and the last of them no earlier than a millisecond before the hour began.  A writer
    clock that runs ahead makes the store drop the bucket while the API still asks for it.
  */
  lemma AlwaysExactIff(h: seq<Order>, at: seq<int>, hour: int, now: int)
    requires |h| == |at| && Arrived(at, now) && HourOf(now) - WINDOW < hour
    ensures var a := ArrivalsIn(h, at, hour);
            (forall later | now <= later && InWindow(hour, later) :: ReadsExact(Expire(Buckets(h, at), later), h, hour))
            <==> Gapless(a) && (a != [] ==> hour * HOUR - 1 <= a[|a| - 1])
  {
    hide ArrivalsIn, Gapless, Buckets, ReadsExact;
    var a := ArrivalsIn(h, at, hour);
    var last := (hour + WINDOW) * HOUR - 1;
    assert InWindow(hour, last) && now <= last;
    forall later | now <= later && InWindow(hour, later)
      ensures later <= last
      ensures ReadsExact(Expire(Buckets(h, at), later), h, hour) <==> Unbroken(a, later)
    {
      ExactIffUnbroken(h, at, hour, later);
    }
  }

  // --- a sufficient condition that can be read off each order ---

  /**
    The order is processed no earlier than one millisecond before the hour it says it was created in.
    Every order created no later than it is processed satisfies this.
  */
  predicate Punctual(o: Order, arrival: int) {
    HourOf(o.createdAt) * HOUR - 1 <= arrival
  }

  predicate AllPunctual(h: seq<Order>, at: seq<int>)
    requires |h| == |at|
  {
    forall i | 0 <= i < |h| :: Punctual(h[i], at[i])
  }

  /** An order created no later than it is processed is punctual. */
  lemma CreatedEarlierIsPunctual(o: Order, arrival: int)
    requires o.createdAt <= arrival
    ensures Punctual(o, arrival)
  {}

  /** Punctual orders never lose an hour that can still be asked for. */
  lemma PunctualIsUnbroken(h: seq<Order>, at: seq<int>, hour: int, now: int)
    requires |h| == |at| && Arrived(at, now) && AllPunctual(h, at) && HourOf(now) - WINDOW < hour
    ensures Unbroken(ArrivalsIn(h, at, hour), now)
  {
    hide ArrivalsIn;
    var a := ArrivalsIn(h, at, hour);
    forall k | 0 <= k < |a|
      ensures hour * HOUR - 1 <= a[k] <= now
    {
      assert a[k] in a;
      var i :| 0 <= i < |h| && HourOf(h[i].createdAt) == hour && at[i] == a[k];
      assert Punctual(h[i], at[i]);
    }
  }
}
