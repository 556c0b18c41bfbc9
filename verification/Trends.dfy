/** Week-over-week cost trends per service, and the daily cost points, in exact decimals. */
module Trends {
  import opened Collections
  import opened Rounding
  import Text

  /** One day: the items of its per-service mapping. */
  datatype DailyRow = DailyRow(date: string, byService: seq<(string, real)>)

  datatype Direction = Increasing | Decreasing | Stable

  datatype Trend = Trend(service: string, direction: Direction, percent: real, current: real, previous: real)

  datatype Point = Point(date: string, total: real)

  // ---- windows ---------------------------------------------------------------------------------

  function Previous(rows: seq<DailyRow>): seq<DailyRow> {
    var n := |rows|;
    if n >= 14 then rows[n - 14..n - 7] else if n >= 7 then rows[..n - 7] else []
  }

  function Current(rows: seq<DailyRow>): seq<DailyRow> {
    if |rows| >= 7 then rows[|rows| - 7..] else rows
  }

  /** The two windows lie end to end and are the last fourteen rows, or all of them when there are fewer. */
  lemma WindowsAreTheLastRows(rows: seq<DailyRow>)
    ensures var k := if |rows| >= 14 then 14 else |rows|;
      Previous(rows) + Current(rows) == rows[|rows| - k..] &&
      |Current(rows)| == (if k >= 7 then 7 else k) && |Previous(rows)| == k - |Current(rows)|
  {
    var n := |rows|;
    if n >= 14 {
      assert rows[n - 14..] == rows[n - 14..n - 7] + rows[n - 7..];
    } else if n >= 7 {
      assert rows == rows[..n - 7] + rows[n - 7..];
    }
  }

  // ---- totals ----------------------------------------------------------------------------------

  function Items(rows: seq<DailyRow>): seq<(string, real)> {
    if rows == [] then [] else Items(rows[..|rows| - 1]) + rows[|rows| - 1].byService
  }

  function Services(items: seq<(string, real)>): (r: set<string>)
    ensures forall i :: 0 <= i < |items| ==> items[i].0 in r
  {
    set i | 0 <= i < |items| :: items[i].0
  }

  /** All amounts of one service. */
  function ServiceTotal(items: seq<(string, real)>, s: string): real {
    if items == [] then 0.0
    else ServiceTotal(items[..|items| - 1], s) + (if items[|items| - 1].0 == s then items[|items| - 1].1 else 0.0)
  }

  /** All amounts of all services. */
  function Total(items: seq<(string, real)>): real {
    if items == [] then 0.0 else Total(items[..|items| - 1]) + items[|items| - 1].1
  }

  function SumOver(items: seq<(string, real)>, services: seq<string>): real {
    if services == [] then 0.0
    else SumOver(items, services[..|services| - 1]) + ServiceTotal(items, services[|services| - 1])
  }

  lemma {:induction false} SumOverStep(items: seq<(string, real)>, services: seq<string>)
    requires items != [] && NoDuplicates(services)
    ensures var n := |items| - 1;
      SumOver(items, services) == SumOver(items[..n], services) + (if items[n].0 in services then items[n].1 else 0.0)
  {
    if services != [] {
      var m := |services| - 1;
      SumOverStep(items, services[..m]);
      assert services == services[..m] + [services[m]];
    }
  }

  /** Per-service totals over any duplicate-free list that covers the services add up to the grand total. */
  lemma {:induction false} ServiceTotalsAddUp(items: seq<(string, real)>, services: seq<string>)
    requires NoDuplicates(services) && forall i :: 0 <= i < |items| ==> items[i].0 in services
    ensures SumOver(items, services) == Total(items)
  {
    if items == [] {
      SumOverNothing(services);
    } else {
      SumOverStep(items, services);
      ServiceTotalsAddUp(items[..|items| - 1], services);
    }
  }

  lemma {:induction false} SumOverNothing(services: seq<string>)
    ensures SumOver([], services) == 0.0
  {
    if services != [] {
      SumOverNothing(services[..|services| - 1]);
    }
  }

  /** A service without amounts totals zero. */
  lemma {:induction false} AbsentTotalsZero(items: seq<(string, real)>, s: string)
    requires s !in Services(items)
    ensures ServiceTotal(items, s) == 0.0
  {
    if items != [] {
      var n := |items| - 1;
      assert items[n].0 in Services(items);
      assert Services(items[..n]) <= Services(items) by {
        forall x | x in Services(items[..n]) ensures x in Services(items) {
          var i :| 0 <= i < n && items[..n][i].0 == x;
          assert items[i].0 == x;
        }
      }
      AbsentTotalsZero(items[..n], s);
    }
  }

  // ---- trends ----------------------------------------------------------------------------------

  function Percent(p: real, c: real): real {
    if p == 0.0 && c > 0.0 then 100.0 else if p > 0.0 then (c - p) / p * 100.0 else 0.0
  }

  function DirectionOf(percent: real): Direction {
    if percent > 15.0 then Increasing else if percent < -15.0 then Decreasing else Stable
  }

  lemma ScaleReal(x: real, y: real, p: real)
    requires p > 0.0
    ensures x < y <==> x * p < y * p
    ensures x > y <==> x * p > y * p
  {
    if x < y {
      assert (y - x) * p > 0.0;
    } else if x > y {
      assert (x - y) * p > 0.0;
    }
  }

  /** A service is increasing or decreasing when its cost moved by more than 15 per cent of the previous week. */
  lemma DirectionMeaning(p: real, c: real)
    ensures p > 0.0 ==> (DirectionOf(Percent(p, c)) == Increasing <==> 100.0 * c > 115.0 * p)
    ensures p > 0.0 ==> (DirectionOf(Percent(p, c)) == Decreasing <==> 100.0 * c < 85.0 * p)
    ensures p <= 0.0 ==> DirectionOf(Percent(p, c)) == if p == 0.0 && c > 0.0 then Increasing else Stable
  {
    if p > 0.0 {
      var x := (c - p) / p;
      assert x * p == c - p;
      ScaleReal(x, 0.15, p);
      ScaleReal(x, -0.15, p);
      assert x > 0.15 <==> c - p > 0.15 * p;
      assert x < -0.15 <==> c - p < -0.15 * p;
      assert Percent(p, c) == x * 100.0;
    }
  }

  function TrendFor(service: string, p: real, c: real): Trend {
    Trend(service, DirectionOf(Percent(p, c)), Hundredths(Percent(p, c)), Hundredths(c), Hundredths(p))
  }

  /** A trend names its service, its two costs to the half cent and its change in per cent of the previous cost. */
  lemma TrendMeaning(service: string, p: real, c: real)
    ensures var t := TrendFor(service, p, c);
      t.service == service && -0.005 <= t.current - c <= 0.005 && -0.005 <= t.previous - p <= 0.005 &&
      (p > 0.0 ==> -0.005 <= t.percent - (c - p) / p * 100.0 <= 0.005) &&
      (p == 0.0 && c > 0.0 ==> t.percent == 100.0) && (p < 0.0 || (p == 0.0 && c <= 0.0) ==> t.percent == 0.0)
    ensures var d := TrendFor(service, p, c).direction;
      (d == Increasing <==> (p > 0.0 && 100.0 * c > 115.0 * p) || (p == 0.0 && c > 0.0)) &&
      (d == Decreasing <==> p > 0.0 && 100.0 * c < 85.0 * p)
  {
    DirectionMeaning(p, c);
    RoundPercents(p, c);
    hide DirectionOf, Percent, RoundHalfEven;
  }

  lemma RoundPercents(p: real, c: real)
    ensures p > 0.0 ==> Percent(p, c) == (c - p) / p * 100.0
    ensures p == 0.0 && c > 0.0 ==> Hundredths(Percent(p, c)) == 100.0
    ensures p < 0.0 || (p == 0.0 && c <= 0.0) ==> Hundredths(Percent(p, c)) == 0.0
  {
    assert Hundredths(100.0) == 100.0 && Hundredths(0.0) == 0.0;
    hide Hundredths;
  }

  /** `totals` holds the sums of the items, service by service. */
  ghost predicate Holds(totals: map<string, real>, items: seq<(string, real)>) {
    totals.Keys == Services(items) && forall s :: s in totals ==> totals[s] == ServiceTotal(items, s)
  }

  function Added(totals: map<string, real>, k: string, v: real): map<string, real> {
    totals[k := (if k in totals then totals[k] else 0.0) + v]
  }

  lemma AddedHolds(totals: map<string, real>, items: seq<(string, real)>, k: string, v: real)
    requires Holds(totals, items)
    ensures Holds(Added(totals, k, v), items + [(k, v)])
  {
    AddItem(items, k, v);
  }

  /** Adds up the amounts of a window per service. */
  method Accumulate(rows: seq<DailyRow>) returns (totals: map<string, real>)
    ensures Holds(totals, Items(rows))
  {
    totals := map[];
    assert Services([]) == {};
    for i := 0 to |rows|
      invariant Holds(totals, Items(rows[..i]))
    {
      assert rows[..i + 1][..i] == rows[..i];
      totals := AccumulateDay(totals, Items(rows[..i]), rows[i].byService);
    }
    assert rows[..|rows|] == rows;
  }

  /** The inner loop: one day's items on top of what is already held. */
  method AccumulateDay(before: map<string, real>, ghost held: seq<(string, real)>, items: seq<(string, real)>)
    returns (totals: map<string, real>)
    requires Holds(before, held)
    ensures Holds(totals, held + items)
  {
    totals := before;
    assert held + items[..0] == held;
    for j := 0 to |items|
      invariant Holds(totals, held + items[..j])
    {
      var (k, v) := items[j];
      AddedHolds(totals, held + items[..j], k, v);
      assert held + items[..j + 1] == held + items[..j] + [(k, v)];
      totals := totals[k := (if k in totals then totals[k] else 0.0) + v];
    }
    assert items[..|items|] == items;
  }

  lemma AddItem(items: seq<(string, real)>, k: string, v: real)
    ensures Services(items + [(k, v)]) == Services(items) + {k}
    ensures forall s :: ServiceTotal(items + [(k, v)], s) == ServiceTotal(items, s) + if s == k then v else 0.0
    ensures k !in Services(items) ==> ServiceTotal(items, k) == 0.0
  {
    var more := items + [(k, v)];
    assert more[..|items|] == items;
    forall x ensures x in Services(more) <==> x in Services(items) + {k} {
      if x in Services(items) {
        var i :| 0 <= i < |items| && items[i].0 == x;
        assert more[i].0 == x;
      }
      assert more[|items|].0 == k;
    }
    if k !in Services(items) {
      AbsentTotalsZero(items, k);
    }
  }

  /** What the list of trends is, row by row. */
  ghost predicate Describes(out: seq<Trend>, rows: seq<DailyRow>) {
    var p, c := Items(Previous(rows)), Items(Current(rows));
    var services := Text.Sorted(Services(p) + Services(c));
    |out| == |services| &&
    forall i :: 0 <= i < |out| ==>
      out[i] == TrendFor(services[i], ServiceTotal(p, services[i]), ServiceTotal(c, services[i]))
  }

  /** The total held for the service, zero when there is none. */
  function GetOr0(totals: map<string, real>, s: string): real {
    if s in totals then totals[s] else 0.0
  }

  lemma GetIsServiceTotal(totals: map<string, real>, items: seq<(string, real)>, s: string)
    requires Holds(totals, items)
    ensures GetOr0(totals, s) == ServiceTotal(items, s)
  {
    if s !in totals {
      AbsentTotalsZero(items, s);
    }
  }

  /** The last loop: one trend per service, in order. */
  method ListTrends(services: seq<string>, prev: map<string, real>, curr: map<string, real>) returns (out: seq<Trend>)
    ensures |out| == |services|
    ensures forall j :: 0 <= j < |out| ==>
      out[j] == TrendFor(services[j], GetOr0(prev, services[j]), GetOr0(curr, services[j]))
  {
    out := [];
    for i := 0 to |services|
      invariant |out| == i
      invariant forall j :: 0 <= j < i ==>
        out[j] == TrendFor(services[j], GetOr0(prev, services[j]), GetOr0(curr, services[j]))
    {
      out := out + [TrendFor(services[i], GetOr0(prev, services[i]), GetOr0(curr, services[i]))];
    }
  }

  method BuildTrends(rows: seq<DailyRow>) returns (out: seq<Trend>)
    ensures Describes(out, rows)
  {
    var prev := Accumulate(Previous(rows));
    var curr := Accumulate(Current(rows));
    var services := Text.SortSet(prev.Keys + curr.Keys);
    out := ListTrends(services, prev, curr);
    forall i | 0 <= i < |out|
      ensures out[i] == TrendFor(services[i], ServiceTotal(Items(Previous(rows)), services[i]),
                                 ServiceTotal(Items(Current(rows)), services[i]))
    {
      GetIsServiceTotal(prev, Items(Previous(rows)), services[i]);
      GetIsServiceTotal(curr, Items(Current(rows)), services[i]);
    }
  }

  function SumCurrent(out: seq<Trend>): real {
    if out == [] then 0.0 else SumCurrent(out[..|out| - 1]) + out[|out| - 1].current
  }

  /** The two amounts differ by at most half a cent for each of `n` services. */
  ghost predicate WithinHalfCents(x: real, y: real, n: nat) {
    -0.005 * n as real <= x - y <= 0.005 * n as real
  }

  lemma {:induction false} RoundedSum(out: seq<Trend>, items: seq<(string, real)>, services: seq<string>)
    requires |out| == |services|
    requires forall i :: 0 <= i < |out| ==> out[i].current == Hundredths(ServiceTotal(items, services[i]))
    ensures WithinHalfCents(SumCurrent(out), SumOver(items, services), |out|)
  {
    if out != [] {
      var n := |out| - 1;
      RoundedSum(out[..n], items, services[..n]);
      assert out[n].current == Hundredths(ServiceTotal(items, services[n]));
    }
  }

  lemma SortedDistinct(xs: seq<string>)
    requires Text.StrictlySorted(xs)
    ensures NoDuplicates(xs)
  {
    forall i, j | 0 <= i < j < |xs| ensures xs[i] != xs[j] {
      Text.LessTotal(xs[i], xs[j]);
    }
  }

  /**
   * The unrounded costs add up to the window totals, and the rounded current costs miss theirs by at most half a cent
   * per service.
   */
  ghost predicate AddsUp(out: seq<Trend>, p: seq<(string, real)>, c: seq<(string, real)>, services: seq<string>) {
    SumOver(p, services) == Total(p) && SumOver(c, services) == Total(c) &&
    WithinHalfCents(SumCurrent(out), Total(c), |out|)
  }

  lemma ListAddsUp(out: seq<Trend>, p: seq<(string, real)>, c: seq<(string, real)>, services: seq<string>)
    requires Text.StrictlySorted(services) && |out| == |services|
    requires forall i :: 0 <= i < |p| ==> p[i].0 in services
    requires forall i :: 0 <= i < |c| ==> c[i].0 in services
    requires forall i :: 0 <= i < |out| ==> out[i].current == Hundredths(ServiceTotal(c, services[i]))
    ensures AddsUp(out, p, c, services)
  {
    WindowAddsUp(p, services);
    WindowAddsUp(c, services);
    RoundingError(out, c, services);
  }

  lemma RoundingError(out: seq<Trend>, c: seq<(string, real)>, services: seq<string>)
    requires |out| == |services| && SumOver(c, services) == Total(c)
    requires forall i :: 0 <= i < |out| ==> out[i].current == Hundredths(ServiceTotal(c, services[i]))
    ensures WithinHalfCents(SumCurrent(out), Total(c), |out|)
  {
    RoundedSum(out, c, services);
  }

  lemma TrendsAddUp(out: seq<Trend>, rows: seq<DailyRow>)
    requires Describes(out, rows)
    ensures AddsUp(out, Items(Previous(rows)), Items(Current(rows)),
      Text.Sorted(Services(Items(Previous(rows))) + Services(Items(Current(rows)))))
  {
    var p, c := Items(Previous(rows)), Items(Current(rows));
    ListAddsUp(out, p, c, Text.Sorted(Services(p) + Services(c)));
  }

  /** One window. */
  lemma WindowAddsUp(items: seq<(string, real)>, services: seq<string>)
    requires Text.StrictlySorted(services) && forall i :: 0 <= i < |items| ==> items[i].0 in services
    ensures SumOver(items, services) == Total(items)
  {
    SortedDistinct(services);
    ServiceTotalsAddUp(items, services);
  }

  /** Every service of the two windows appears exactly once, in order. */
  lemma EachServiceOnce(out: seq<Trend>, rows: seq<DailyRow>)
    requires Describes(out, rows)
    ensures forall i, j :: 0 <= i < j < |out| ==> Text.Less(out[i].service, out[j].service)
    ensures var all := Services(Items(Previous(rows))) + Services(Items(Current(rows)));
      |out| == |all| && forall s :: s in all <==> exists i :: 0 <= i < |out| && out[i].service == s
  {
    var all := Services(Items(Previous(rows))) + Services(Items(Current(rows)));
    var services := Text.Sorted(all);
    assert forall i :: 0 <= i < |out| ==> out[i].service == services[i];
    forall s ensures s in all <==> exists i :: 0 <= i < |out| && out[i].service == s {
      if s in all {
        assert s in services;
        var i :| 0 <= i < |services| && services[i] == s;
        assert out[i].service == s;
      }
    }
  }

  // ---- daily points ------------------------------------------------------------------------------

  method SummarizeDailyRows(rows: seq<DailyRow>) returns (points: seq<Point>)
    ensures |points| == |rows|
    ensures forall i :: 0 <= i < |rows| ==>
      points[i] == Point(rows[i].date, HundredthsHalfUp(Total(rows[i].byService)))
  {
    points := [];
    for i := 0 to |rows|
      invariant |points| == i
      invariant forall j :: 0 <= j < i ==> points[j] == Point(rows[j].date, HundredthsHalfUp(Total(rows[j].byService)))
    {
      var items := rows[i].byService;
      var total := 0.0;
      for j := 0 to |items|
        invariant total == Total(items[..j])
      {
        assert items[..j + 1][..j] == items[..j];
        total := total + items[j].1;
      }
      assert items[..|items|] == items;
      points := points + [Point(rows[i].date, HundredthsHalfUp(total))];
    }
  }
}
