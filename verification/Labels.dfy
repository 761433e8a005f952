/** What the labels of the histograms say: the texts on the rows are true of the orders behind them. */
module Labels {
  import opened Orders
  import opened Catalog

  // --- amounts and cart sizes ---

  const DOLLARS: seq<nat> := [0, 25, 50, 100, 250, 500, 1000]

  /** The text of the range from a to b, and of the open range from a. */
  function RangeText(a: nat, b: nat): string { Decimal(a) + "-" + Decimal(b) }
  function OpenText(a: nat): string { Decimal(a) + "+" }

  lemma SmallNumbers()
    ensures forall n: nat | n < 10 :: Decimal(n) == [Digit(n)]
    ensures forall n: nat | 10 <= n < 100 :: Decimal(n) == [Digit(n / 10), Digit(n % 10)]
  {}

  lemma DollarTexts()
    ensures Decimal(0) == "0" && Decimal(25) == "25" && Decimal(50) == "50"
    ensures Decimal(100) == "100" && Decimal(250) == "250" && Decimal(500) == "500" && Decimal(1000) == "1000"
  {
    SmallNumbers();
  }

  lemma UnitTexts()
    ensures Decimal(1) == "1" && Decimal(2) == "2" && Decimal(3) == "3" && Decimal(4) == "4" && Decimal(5) == "5"
    ensures Decimal(6) == "6" && Decimal(10) == "10" && Decimal(11) == "11"
    ensures Decimal(15) == "15" && Decimal(16) == "16"
  {
    SmallNumbers();
  }

  /** The rows of the value histogram name consecutive ranges of whole dollars, the last one open. */
  lemma ValueTexts(i: nat)
    requires i < 7
    ensures |VALUE_LABELS| == 7
    ensures VALUE_LABELS[i]
            == "$" + if i < 6 then RangeText(DOLLARS[i], DOLLARS[i + 1]) else OpenText(DOLLARS[6])
  {
    hide Decimal;
    DollarTexts();
    if
    case i == 0 => assert RangeText(0, 25) == "0-25";
    case i == 1 => assert RangeText(25, 50) == "25-50";
    case i == 2 => assert RangeText(50, 100) == "50-100";
    case i == 3 => assert RangeText(100, 250) == "100-250";
    case i == 4 => assert RangeText(250, 500) == "250-500";
    case i == 5 => assert RangeText(500, 1000) == "500-1000";
    case i == 6 => assert OpenText(1000) == "1000+";
  }

  /** An order is filed under a range exactly when its cents lie in it; the first takes all that is less. */
  lemma ValueIsInRange(total: int, i: nat)
    requires i < 7
    ensures |VALUE_LABELS| == 7
    ensures ValueBucketLabel(total) == VALUE_LABELS[i]
            <==> (i == 0 || 100 * DOLLARS[i] <= total) && (i == 6 || total < 100 * DOLLARS[i + 1])
  {
    ValueLabelsDiffer();
    var j := if total < 2500 then 0 else if total < 5000 then 1 else if total < 10000 then 2
             else if total < 25000 then 3 else if total < 50000 then 4 else if total < 100000 then 5 else 6;
    assert ValueBucketLabel(total) == VALUE_LABELS[j];
  }

  lemma ValueLabelsDiffer()
    ensures forall i, j | 0 <= i < j < |VALUE_LABELS| :: VALUE_LABELS[i] != VALUE_LABELS[j]
  {}

  const CART_STARTS: seq<nat> := [1, 2, 4, 6, 11, 16]

  lemma CartTexts(i: nat)
    requires i < 6
    ensures |CART_SIZE_LABELS| == 6
    ensures CART_SIZE_LABELS[i]
            == if i == 0 then Decimal(1)
               else if i < 5 then RangeText(CART_STARTS[i], CART_STARTS[i + 1] - 1) else OpenText(CART_STARTS[5])
  {
    hide Decimal;
    UnitTexts();
    if
    case i == 0 => assert Decimal(1) == "1";
    case i == 1 => assert RangeText(2, 3) == "2-3";
    case i == 2 => assert RangeText(4, 5) == "4-5";
    case i == 3 => assert RangeText(6, 10) == "6-10";
    case i == 4 => assert RangeText(11, 15) == "11-15";
    case i == 5 => assert OpenText(16) == "16+";
  }

  lemma CartSizeIsInRange(units: int, i: nat)
    requires i < 6
    ensures |CART_SIZE_LABELS| == 6
    ensures CartSizeBucketLabel(units) == CART_SIZE_LABELS[i]
            <==> (i == 0 || CART_STARTS[i] <= units) && (i == 5 || units < CART_STARTS[i + 1])
  {
    CartLabelsDiffer();
    var j := if units <= 1 then 0 else if units <= 3 then 1 else if units <= 5 then 2
             else if units <= 10 then 3 else if units <= 15 then 4 else 5;
    assert CartSizeBucketLabel(units) == CART_SIZE_LABELS[j];
  }

  lemma CartLabelsDiffer()
    ensures forall i, j | 0 <= i < j < |CART_SIZE_LABELS| :: CART_SIZE_LABELS[i] != CART_SIZE_LABELS[j]
  {}

  // --- hours ---

  /** Hours are counted from the epoch, 3,600,000 ms each. */
  lemma HourIs(t: int)
    ensures HourOf(t) * 3_600_000 <= t < (HourOf(t) + 1) * 3_600_000
  {}

  lemma TwoDigitsAre(n: nat)
    requires n < 100
    ensures |TwoDigits(n)| == 2 && AllDigits(TwoDigits(n)) && Value(TwoDigits(n)) == n
  {
    var s := TwoDigits(n);
    assert s[..1] == [Digit(n / 10)] && s[..1][..0] == "";
    assert Value(s[..1]) == n / 10;
  }

  /** The i-th row is labelled with the number i in two digits. */
  lemma HourRowsAreNumbered(i: nat)
    requires i < 24
    ensures |HOURS_OF_DAY| == 24 && |HOURS_OF_DAY[i]| == 2
    ensures AllDigits(HOURS_OF_DAY[i]) && Value(HOURS_OF_DAY[i]) == i
  {
    TwoDigitsAre(i);
  }

  /** The hour on the label is the hour of the day, UTC: the instant lies in that hour since midnight. */
  lemma HourLabelIsTrue(t: int)
    ensures var l := HourOfDayLabel(t);
            && |l| == 2 && AllDigits(l)
            && Value(l) * 3_600_000 <= t % 86_400_000 < (Value(l) + 1) * 3_600_000
  {
    TwoDigitsAre(HourOf(t) % 24);
    HoursOfDay(t);
  }

  lemma HoursOfDay(t: int)
    ensures t / 3_600_000 % 24 == t % 86_400_000 / 3_600_000
  {
    var d, r := t / 86_400_000, t % 86_400_000;
    assert t == d * 86_400_000 + r;
    assert t / 3_600_000 == d * 24 + r / 3_600_000;
  }

  /** Which row that is: the label of row i, and no other, is used in hour i. */
  lemma HourLabelIsNumbered(t: int, i: nat)
    requires i < 24
    ensures |HOURS_OF_DAY| == 24
    ensures HourOfDayLabel(t) == HOURS_OF_DAY[i] <==> Value(HourOfDayLabel(t)) == i
  {
    TwoDigitsAre(HourOf(t) % 24);
    TwoDigitsAre(i);
    assert HOURS_OF_DAY[i] == TwoDigits(i);
  }

  // --- weekdays ---

  const FIRST_WEEK: seq<string> := ["Thu", "Fri", "Sat", "Sun", "Mon", "Tue", "Wed"]

  /** The epoch began on a Thursday, and the days of its first week have their names in order. */
  lemma FirstWeek(day: nat)
    requires day < 7
    ensures DayOfWeekLabel(day * 86_400_000) == ["Thu", "Fri", "Sat", "Sun", "Mon", "Tue", "Wed"][day]
  {
    if
    case day == 0 =>
    case day == 1 =>
    case day == 2 =>
    case day == 3 =>
    case day == 4 =>
    case day == 5 =>
    case day == 6 =>
  }

  lemma DayIs(t: int)
    ensures HourOf(t) / 24 == t / 86_400_000
  {
    var d, r := t / 86_400_000, t % 86_400_000;
    assert t == d * 86_400_000 + r;
    assert t / 3_600_000 == d * 24 + r / 3_600_000;
  }

  /** A label lasts from one midnight to the next. */
  lemma SameDaySameLabel(t: int, u: int)
    requires t / 86_400_000 == u / 86_400_000
    ensures DayOfWeekLabel(t) == DayOfWeekLabel(u)
  {
    DayIs(t);
    DayIs(u);
  }

  /** A week later the label is the same, and no two days of a week share one. */
  lemma WeeksRepeat(t: int, days: int)
    requires 0 <= days <= 7
    ensures DayOfWeekLabel(t + days * 86_400_000) == DayOfWeekLabel(t) <==> days == 0 || days == 7
  {
    DayIs(t);
    DayIs(t + days * 86_400_000);
    assert (t + days * 86_400_000) / 86_400_000 == t / 86_400_000 + days;
    WeekdaysDiffer();
  }

  lemma WeekdaysDiffer()
    ensures forall i, j | 0 <= i < j < |DAYS_OF_WEEK| :: DAYS_OF_WEEK[i] != DAYS_OF_WEEK[j]
  {}

  /** Every instant has the name its day of the week has in the first week. */
  lemma {:induction false} DayLabelIsTrue(t: int)
    ensures DayOfWeekLabel(t) == FIRST_WEEK[t / 86_400_000 % 7]
  {
    DayIs(t);
    var day := t / 86_400_000;
    FirstWeek(day % 7);
    DayIs(day % 7 * 86_400_000);
    assert (day + 4) % 7 == (day % 7 + 4) % 7;
  }
}
