/**
 * The supplier-performance report: per joined row the delay, whether it
 * was on time and whether the quantity matched; per supplier name the
 * counts; and the suppliers below 80% on either rate. Rates are compared
 * by integer cross-multiplication.
 */
module SupPerformance {
  import opened Wrappers
  import opened Schema
  import opened ReportHandler

  /** ActualDelivery - ExpectedDelivery in days; missing when either date is NULL. */
  function DelayDays(r: PerformanceRow): (d: Option<int>)
    ensures d.Some? <==> r.actualDelivery.Some? && r.expectedDelivery.Some?
    ensures d.Some? ==> r.expectedDelivery.value + d.value == r.actualDelivery.value
  {
    if r.actualDelivery.Some? && r.expectedDelivery.Some? then Some(r.actualDelivery.value - r.expectedDelivery.value)
    else None
  }

  /** DelayDays <= 0; a missing delay compares false. */
  function OnTime(r: PerformanceRow): (onTime: bool)
    ensures onTime <==> r.actualDelivery.Some? && r.expectedDelivery.Some? && r.actualDelivery.value <= r.expectedDelivery.value
  {
    DelayDays(r).Some? && DelayDays(r).value <= 0
  }

  /** Accurate only when exactly the ordered quantity arrived: short and over deliveries both miss. */
  function QuantityMatch(r: PerformanceRow): (accurate: bool)
    ensures accurate <==> r.receivedQuantity == r.orderedQuantity
  {
    r.orderedQuantity == r.receivedQuantity
  }

  /**
   * One supplier's aggregates: the row count, how many rows were on time
   * and accurate, and the sum and count of the known delays (their mean
   * is AvgDelayDays).
   */
  datatype Stats = Stats(total: nat, onTime: nat, accurate: nat, delaySum: int, delayCount: nat)

  function Counted(s: Stats, r: PerformanceRow): Stats {
    var d := DelayDays(r);
    Stats(s.total + 1,
          s.onTime + (if OnTime(r) then 1 else 0),
          s.accurate + (if QuantityMatch(r) then 1 else 0),
          s.delaySum + (if d.Some? then d.value else 0),
          s.delayCount + (if d.Some? then 1 else 0))
  }

  function NamedRows(rows: seq<PerformanceRow>, name: string): (named: seq<PerformanceRow>)
    ensures forall r :: r in named <==> r in rows && r.supplierName == name
  {
    if rows == [] then []
    else
      var front := NamedRows(rows[..|rows| - 1], name);
      var last := rows[|rows| - 1];
      assert forall r :: r in rows <==> r in rows[..|rows| - 1] || r == last;
      if last.supplierName == name then front + [last] else front
  }

  lemma {:induction false} NoNamedRows(rows: seq<PerformanceRow>, name: string)
    requires forall k :: 0 <= k < |rows| ==> rows[k].supplierName != name
    ensures NamedRows(rows, name) == []
  {
    if rows != [] {
      NoNamedRows(rows[..|rows| - 1], name);
    }
  }

  function Count(rows: seq<PerformanceRow>, p: PerformanceRow -> bool): nat {
    if rows == [] then 0 else Count(rows[..|rows| - 1], p) + (if p(rows[|rows| - 1]) then 1 else 0)
  }

  function KnownDelaySum(rows: seq<PerformanceRow>): int {
    if rows == [] then 0
    else
      var d := DelayDays(rows[|rows| - 1]);
      KnownDelaySum(rows[..|rows| - 1]) + (if d.Some? then d.value else 0)
  }

  lemma {:induction false} CountBound(rows: seq<PerformanceRow>, p: PerformanceRow -> bool)
    ensures Count(rows, p) <= |rows|
  {
    if rows != [] {
      CountBound(rows[..|rows| - 1], p);
    }
  }

  /** groupby(SupplierName).agg(...), one row at a time. */
  function Aggregate(rows: seq<PerformanceRow>): (m: map<string, Stats>)
    ensures rows == [] ==> m == map[]
    ensures forall n :: n in m ==> m[n].total >= 1
  {
    if rows == [] then map[]
    else
      var m := Aggregate(rows[..|rows| - 1]);
      var last := rows[|rows| - 1];
      var s := if last.supplierName in m then m[last.supplierName] else Stats(0, 0, 0, 0, 0);
      m[last.supplierName := Counted(s, last)]
  }

  predicate HasDelay(r: PerformanceRow) {
    DelayDays(r).Some?
  }

  /** The aggregate has one entry per supplier name in the rows. */
  lemma {:induction false} AggregateKeys(rows: seq<PerformanceRow>)
    ensures forall n :: n in Aggregate(rows) <==> exists r :: r in rows && r.supplierName == n
  {
    if rows != [] {
      AggregateKeys(rows[..|rows| - 1]);
      assert forall r :: r in rows <==> r in rows[..|rows| - 1] || r == rows[|rows| - 1];
    }
  }

  /**
   * A supplier's entry holds the number of its rows, how many of them were
   * on time and accurate, and the sum and number of their known delays.
   */
  lemma {:induction false} AggregateEntry(rows: seq<PerformanceRow>, n: string)
    requires n in Aggregate(rows)
    ensures var named := NamedRows(rows, n);
      && Aggregate(rows)[n].total == |named|
      && Aggregate(rows)[n].onTime == Count(named, OnTime)
      && Aggregate(rows)[n].accurate == Count(named, QuantityMatch)
      && Aggregate(rows)[n].delaySum == KnownDelaySum(named)
      && Aggregate(rows)[n].delayCount == Count(named, HasDelay)
  {
    var front := rows[..|rows| - 1];
    var last := rows[|rows| - 1];
    var m := Aggregate(front);
    if last.supplierName == n {
      var named := NamedRows(rows, n);
      var before := NamedRows(front, n);
      assert named == before + [last];
      assert named[..|named| - 1] == before;
      if n in m {
        AggregateEntry(front, n);
      } else {
        AggregateKeys(front);
        NoNamedRows(front, n);
      }
    } else {
      AggregateEntry(front, n);
    }
  }

  /** Each rate lies between 0% and 100%: neither count exceeds the total. */
  lemma {:induction false} RatesBounded(rows: seq<PerformanceRow>, n: string)
    requires n in Aggregate(rows)
    ensures var s := Aggregate(rows)[n];
      s.total >= 1 && s.onTime <= s.total && s.accurate <= s.total && s.delayCount <= s.total
  {
    AggregateKeys(rows);
    AggregateEntry(rows, n);
    var named := NamedRows(rows, n);
    var r :| r in rows && r.supplierName == n;
    assert r in named;
    CountBound(named, OnTime);
    CountBound(named, QuantityMatch);
    CountBound(named, HasDelay);
  }

  /** OnTimeRate < 80 or AccuracyRate < 80, with the rates as count/total*100. */
  function LowPerformer(s: Stats): (low: bool)
    ensures s.total > 0 ==>
      (low <==> Rate(s.onTime, s.total) < 80.0 || Rate(s.accurate, s.total) < 80.0)
  {
    var low := 100 * s.onTime < 80 * s.total || 100 * s.accurate < 80 * s.total;
    if s.total > 0 then
      RateBelow(s.onTime, s.total, 80);
      RateBelow(s.accurate, s.total, 80);
      low
    else low
  }

  /** count / total * 100, as a real number. */
  function Rate(count: nat, total: nat): real
    requires total > 0
  {
    (count as real / total as real) * 100.0
  }

  /** The integer comparison decides the real-valued rate against a bound. */
  lemma RateBelow(count: nat, total: nat, bound: nat)
    requires total > 0
    ensures Rate(count, total) < bound as real <==> 100 * count < bound * total
  {
    var t := total as real;
    var x := count as real / t;
    assert x * t == count as real;
    assert Rate(count, total) * t == 100.0 * (count as real);
    if Rate(count, total) < bound as real {
      assert Rate(count, total) * t < bound as real * t;
    } else {
      assert Rate(count, total) * t >= bound as real * t;
    }
  }

  /** AvgDelayDays as the exact quotient (delaySum, delayCount); no known delay gives 0. */
  function AvgDelay(s: Stats): (avg: (int, nat))
    ensures s.delayCount == 0 ==> avg == (0, 1)
    ensures s.delayCount > 0 ==> avg == (s.delaySum, s.delayCount)
  {
    if s.delayCount == 0 then (0, 1) else (s.delaySum, s.delayCount)
  }

  /**
   * AvgDelayDays of a supplier: the mean of its rows' known delays, or 0
   * (fillna) when none of its rows has both dates.
   */
  lemma AvgDelayOfRows(rows: seq<PerformanceRow>, n: string)
    requires n in Aggregate(rows)
    ensures var named := NamedRows(rows, n);
      && (Count(named, HasDelay) == 0 ==> AvgDelay(Aggregate(rows)[n]) == (0, 1))
      && (Count(named, HasDelay) > 0 ==> AvgDelay(Aggregate(rows)[n]) == (KnownDelaySum(named), Count(named, HasDelay)))
  {
    AggregateEntry(rows, n);
  }

  datatype Report = NoData | Report(performance: map<string, Stats>, lowPerformers: set<string>)

  /** The report page: nothing when the query returns no rows. */
  function SupPerformanceTab(rows: seq<PerformanceRow>): (report: Report)
    ensures report.NoData? <==> rows == []
    ensures report.Report? ==> report.performance == Aggregate(rows)
    ensures report.Report? ==> forall n :: n in report.lowPerformers <==>
      n in report.performance && LowPerformer(report.performance[n])
  {
    if rows == [] then NoData
    else
      var perf := Aggregate(rows);
      Report(perf, set n | n in perf && LowPerformer(perf[n]))
  }

  /**
   * Totals count joined item rows, not orders: a completed order with two
   * lines, one late delivery, counts as two late rows for its supplier.
   */
  lemma TwoLineOrderCountsTwice()
    ensures var po := PurchaseOrder(1, None, Some(7), None, Completed, 0, Some(10), Some(12));
      var lines := [PurchaseOrderItem(1, 100, 5, 5), PurchaseOrderItem(1, 101, 3, 3)];
      var rows := GetSupplierPerformanceData([po], map[7 := "Acme"], lines);
      && "Acme" in Aggregate(rows)
      && Aggregate(rows)["Acme"].total == 2
      && Aggregate(rows)["Acme"].onTime == 0
      && LowPerformer(Aggregate(rows)["Acme"])
  {
    var po := PurchaseOrder(1, None, Some(7), None, Completed, 0, Some(10), Some(12));
    var lines := [PurchaseOrderItem(1, 100, 5, 5), PurchaseOrderItem(1, 101, 3, 3)];
    var suppliers := map[7 := "Acme"];
    var r0 := RowOf(po, suppliers, lines[0]);
    var r1 := RowOf(po, suppliers, lines[1]);
    assert lines[1..][1..] == [];
    assert RowsOfOrder(po, suppliers, lines[1..]) == [r1];
    assert RowsOfOrder(po, suppliers, lines) == [r0, r1];
    assert [po][1..] == [];
    assert GetSupplierPerformanceData([po], suppliers, lines)
           == RowsOfOrder(po, suppliers, lines) + GetSupplierPerformanceData([], suppliers, lines);
    var rows := GetSupplierPerformanceData([po], suppliers, lines);
    assert rows == [r0, r1];
    assert rows[..1] == [r0];
    assert [r0][..0] == [];
    assert Aggregate([r0]) == map["Acme" := Stats(1, 0, 1, 2, 1)];
  }
}
