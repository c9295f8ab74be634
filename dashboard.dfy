// The dashboard figures of the ledger: the totals of `updateDashboard`
// (app.js:219-242) and the seven-day series of `renderPaymentsChart`
// (app.js:251-271).
module Dashboard {
  import opened Lists
  import opened Records

  const MsPerDay: int := 86400000

  /** The local calendar day of the instant `t` (milliseconds since the epoch),
      for a zone `tz` milliseconds ahead of UTC: what `setHours(0, 0, 0, 0)`
      reduces a date to. Division rounds down, also before 1970. */
  function DayOf(t: int, tz: int): int {
    (t + tz) / MsPerDay
  }

  /** The instant of local midnight that starts day `d`. */
  function DayStart(d: int, tz: int): int {
    d * MsPerDay - tz
  }

  /** A day runs from its midnight included to the next midnight excluded. */
  lemma DayOfBounds(t: int, tz: int)
    ensures DayStart(DayOf(t, tz), tz) <= t < DayStart(DayOf(t, tz) + 1, tz)
  {
    var d := DayOf(t, tz);
    assert (t + tz) == d * MsPerDay + (t + tz) % MsPerDay;
  }

  /** Midnight belongs to the day it starts; the millisecond before it, to the day before. */
  lemma MidnightBoundary(d: int, tz: int)
    ensures DayOf(DayStart(d, tz), tz) == d
    ensures DayOf(DayStart(d, tz) - 1, tz) == d - 1
  {
    assert DayStart(d, tz) + tz == d * MsPerDay;
    assert DayStart(d, tz) - 1 + tz == (d - 1) * MsPerDay + (MsPerDay - 1);
  }

  /** `reduce((sum, order) => sum + parseFloat(order.amount), 0)`. */
  function SumAmounts(os: seq<Order>): real {
    if os == [] then 0.0 else os[0].amount + SumAmounts(os[1..])
  }

  predicate NonNegativeAmounts(os: seq<Order>) {
    forall i :: 0 <= i < |os| ==> os[i].amount >= 0.0
  }

  predicate IsPaid(o: Order) { o.paymentStatus == "paid" }
  predicate IsDeferred(o: Order) { o.paymentStatus == "deferred" }
  predicate IsSettledOrDeferred(o: Order) { o.paymentStatus == "paid" || o.paymentStatus == "deferred" }

  /** The filter of the daily figures: paid, and created on local day `day`. */
  function PaidOn(day: int, tz: int): Order -> bool {
    (o: Order) => o.paymentStatus == "paid" && DayOf(o.createdAt, tz) == day
  }

  /** Paid orders created on a day in `[lo, hi)`. */
  function PaidWithin(lo: int, hi: int, tz: int): Order -> bool {
    (o: Order) => o.paymentStatus == "paid" && lo <= DayOf(o.createdAt, tz) < hi
  }

  function TotalPaid(orders: seq<Order>): real { SumAmounts(Filter(orders, IsPaid)) }
  function TotalUnpaid(orders: seq<Order>): real { SumAmounts(Filter(orders, IsDeferred)) }

  /** The paid revenue of one local day. */
  function DayTotal(orders: seq<Order>, day: int, tz: int): real {
    SumAmounts(Filter(orders, PaidOn(day, tz)))
  }

  /** `dailyProfit`: the paid revenue of the day `now` falls on. */
  function DailyProfit(orders: seq<Order>, now: int, tz: int): real {
    DayTotal(orders, DayOf(now, tz), tz)
  }

  /** The four figures `updateDashboard` writes. */
  datatype Figures = Figures(totalPaid: real, totalUnpaid: real, dailyProfit: real, totalOrders: nat)

  function UpdateDashboard(orders: seq<Order>, now: int, tz: int): (d: Figures)
    ensures d.totalPaid == TotalPaid(orders) && d.totalUnpaid == TotalUnpaid(orders)
    ensures d.dailyProfit == DailyProfit(orders, now, tz)
    ensures d.totalPaid + d.totalUnpaid == SumAmounts(Filter(orders, IsSettledOrDeferred))
    ensures NonNegativeAmounts(orders) ==>
              0.0 <= d.dailyProfit <= d.totalPaid && 0.0 <= d.totalUnpaid
    ensures d.totalOrders == |orders|
  {
    PaidPlusUnpaid(orders);
    assert NonNegativeAmounts(orders) ==>
             0.0 <= DailyProfit(orders, now, tz) <= TotalPaid(orders) && 0.0 <= TotalUnpaid(orders) by {
      if NonNegativeAmounts(orders) {
        DailyWithinPaid(orders, DayOf(now, tz), tz);
        SumFilterNonNegative(orders, IsDeferred);
      }
    }
    Figures(TotalPaid(orders), TotalUnpaid(orders), DailyProfit(orders, now, tz), |orders|)
  }

  /** Two orders of one client created today, 50 paid and 30 deferred, give a
      paid total of 50, a deferred total of 30 and a daily profit of 50. */
  lemma TwoOrdersExample(now: int, tz: int)
    ensures var o1 := Order("o1", "c1", "", 50.0, "cash", "paid", "pending", now);
            var o2 := Order("o2", "c1", "", 30.0, "cash", "deferred", "pending", now);
            UpdateDashboard([o1, o2], now, tz) == Figures(50.0, 30.0, 50.0, 2)
  {
    var o1 := Order("o1", "c1", "", 50.0, "cash", "paid", "pending", now);
    var o2 := Order("o2", "c1", "", 30.0, "cash", "deferred", "pending", now);
    var os := [o1, o2];
    assert os[1..] == [o2] && [o2][1..] == [];
    assert Filter(os, IsPaid) == [o1];
    assert Filter(os, IsDeferred) == [o2];
    assert Filter(os, PaidOn(DayOf(now, tz), tz)) == [o1];
    assert SumAmounts([o1]) == 50.0 + SumAmounts([]);
    assert SumAmounts([o2]) == 30.0 + SumAmounts([]);
  }

  lemma {:induction false} SumConcat(a: seq<Order>, b: seq<Order>)
    ensures SumAmounts(a + b) == SumAmounts(a) + SumAmounts(b)
  {
    if a == [] {
      assert a + b == b;
    } else {
      assert (a + b)[0] == a[0];
      assert (a + b)[1..] == a[1..] + b;
      SumConcat(a[1..], b);
    }
  }

  /** One step of a filtered sum: the head counts iff it passes the filter. */
  lemma SumFilterStep(s: seq<Order>, p: Order -> bool)
    requires s != []
    ensures SumAmounts(Filter(s, p)) == (if p(s[0]) then s[0].amount else 0.0) + SumAmounts(Filter(s[1..], p))
  {
    var head: seq<Order> := if p(s[0]) then [s[0]] else [];
    SumConcat(head, Filter(s[1..], p));
    if p(s[0]) {
      assert SumAmounts(head) == s[0].amount + SumAmounts([]);
    }
  }

  /** Filtered sums over two disjoint filters add up to the sum over their union. */
  lemma {:induction false} SumFilterSplit(s: seq<Order>, p: Order -> bool, q: Order -> bool, either: Order -> bool)
    requires forall i :: 0 <= i < |s| ==> !(p(s[i]) && q(s[i]))
    requires forall i :: 0 <= i < |s| ==> either(s[i]) == (p(s[i]) || q(s[i]))
    ensures SumAmounts(Filter(s, p)) + SumAmounts(Filter(s, q)) == SumAmounts(Filter(s, either))
  {
    if s != [] {
      SumFilterSplit(s[1..], p, q, either);
      SumFilterStep(s, p);
      SumFilterStep(s, q);
      SumFilterStep(s, either);
    }
  }

  /** With non-negative amounts a filtered sum is non-negative. */
  lemma {:induction false} SumFilterNonNegative(s: seq<Order>, p: Order -> bool)
    requires NonNegativeAmounts(s)
    ensures SumAmounts(Filter(s, p)) >= 0.0
  {
    if s != [] {
      SumFilterNonNegative(s[1..], p);
      SumFilterStep(s, p);
    }
  }

  /** With non-negative amounts a narrower filter sums to no more. */
  lemma {:induction false} SumFilterMonotone(s: seq<Order>, narrow: Order -> bool, wide: Order -> bool)
    requires NonNegativeAmounts(s)
    requires forall i :: 0 <= i < |s| ==> narrow(s[i]) ==> wide(s[i])
    ensures SumAmounts(Filter(s, narrow)) <= SumAmounts(Filter(s, wide))
  {
    if s != [] {
      SumFilterMonotone(s[1..], narrow, wide);
      SumFilterStep(s, narrow);
      SumFilterStep(s, wide);
    }
  }

  /** Every paid or deferred order counts in exactly one of the two totals. */
  lemma PaidPlusUnpaid(orders: seq<Order>)
    ensures TotalPaid(orders) + TotalUnpaid(orders) == SumAmounts(Filter(orders, IsSettledOrDeferred))
  {
    SumFilterSplit(orders, IsPaid, IsDeferred, IsSettledOrDeferred);
  }

  /** Adding an order moves the totals by its amount exactly when its status is
      `paid` (resp. `deferred`); any other status counts in neither. */
  lemma TotalsOfAppend(orders: seq<Order>, o: Order)
    ensures TotalPaid(orders + [o]) == TotalPaid(orders) + (if IsPaid(o) then o.amount else 0.0)
    ensures TotalUnpaid(orders + [o]) == TotalUnpaid(orders) + (if IsDeferred(o) then o.amount else 0.0)
  {
    FilterConcat(orders, [o], IsPaid);
    FilterConcat(orders, [o], IsDeferred);
    SumConcat(Filter(orders, IsPaid), Filter([o], IsPaid));
    SumConcat(Filter(orders, IsDeferred), Filter([o], IsDeferred));
    SumFilterStep([o], IsPaid);
    SumFilterStep([o], IsDeferred);
  }

  /** A day's paid revenue never exceeds the paid total when amounts are non-negative. */
  lemma DailyWithinPaid(orders: seq<Order>, day: int, tz: int)
    requires NonNegativeAmounts(orders)
    ensures 0.0 <= DayTotal(orders, day, tz) <= TotalPaid(orders)
  {
    SumFilterNonNegative(orders, PaidOn(day, tz));
    SumFilterMonotone(orders, PaidOn(day, tz), IsPaid);
  }

  /** The paid revenue of the `n` days starting at `lo`. */
  function WindowTotal(orders: seq<Order>, lo: int, n: nat, tz: int): real {
    if n == 0 then 0.0 else WindowTotal(orders, lo, n - 1, tz) + DayTotal(orders, lo + n - 1, tz)
  }

  /** Summing day by day equals summing the paid orders of the whole window once. */
  lemma {:induction false} WindowTotalIsFilteredSum(orders: seq<Order>, lo: int, n: nat, tz: int)
    ensures WindowTotal(orders, lo, n, tz) == SumAmounts(Filter(orders, PaidWithin(lo, lo + n, tz)))
  {
    if n == 0 {
      FilterDropsAll(orders, PaidWithin(lo, lo, tz));
    } else {
      WindowTotalIsFilteredSum(orders, lo, n - 1, tz);
      SumFilterSplit(orders, PaidWithin(lo, lo + n - 1, tz), PaidOn(lo + n - 1, tz), PaidWithin(lo, lo + n, tz));
    }
  }

  /** The chart's seven bars never add up to more than the paid total. */
  lemma WeekWithinPaid(orders: seq<Order>, today: int, tz: int)
    requires NonNegativeAmounts(orders)
    ensures WindowTotal(orders, today - 6, 7, tz) <= TotalPaid(orders)
  {
    WindowTotalIsFilteredSum(orders, today - 6, 7, tz);
    SumFilterMonotone(orders, PaidWithin(today - 6, today + 1, tz), IsPaid);
  }

  /** The label of a bar: `'Today'`, or the short date of an earlier day. */
  datatype DayLabel = TodayLabel | DateLabel(day: int)

  /** Sum of a data series, last entry added last. */
  function SeriesSum(data: seq<real>): real {
    if data == [] then 0.0 else SeriesSum(data[..|data| - 1]) + data[|data| - 1]
  }

  /** The loop of `renderPaymentsChart`: for i = 6 down to 0, one bar for the day
      i days before today, oldest first. */
  method PaymentsSeries(orders: seq<Order>, now: int, tz: int) returns (labels: seq<DayLabel>, data: seq<real>)
    ensures |labels| == 7 && |data| == 7
    ensures forall k :: 0 <= k < 7 ==> data[k] == DayTotal(orders, DayOf(now, tz) - (6 - k), tz)
    ensures labels[6] == TodayLabel
    ensures forall k :: 0 <= k < 6 ==> labels[k] == DateLabel(DayOf(now, tz) - (6 - k))
    ensures data[6] == DailyProfit(orders, now, tz)
    ensures SeriesSum(data) == WindowTotal(orders, DayOf(now, tz) - 6, 7, tz)
  {
    var today := DayOf(now, tz);
    labels, data := [], [];
    var i := 6;
    while i >= 0
      invariant -1 <= i <= 6
      invariant |labels| == |data| == 6 - i
      invariant forall k :: 0 <= k < |data| ==> data[k] == DayTotal(orders, today - (6 - k), tz)
      invariant forall k :: 0 <= k < |labels| ==>
                  labels[k] == if k == 6 then TodayLabel else DateLabel(today - (6 - k))
      invariant SeriesSum(data) == WindowTotal(orders, today - 6, |data|, tz)
    {
      var day := today - i;
      var dayLabel := if i == 0 then TodayLabel else DateLabel(day);
      var dayTotal := DayTotal(orders, day, tz);
      assert (data + [dayTotal])[..|data|] == data;
      assert SeriesSum(data + [dayTotal]) == SeriesSum(data) + dayTotal;
      assert WindowTotal(orders, today - 6, |data| + 1, tz) == WindowTotal(orders, today - 6, |data|, tz) + dayTotal;
      labels := labels + [dayLabel];
      data := data + [dayTotal];
      i := i - 1;
    }
  }
}
