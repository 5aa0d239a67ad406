/**
 * What the chart patcher guarantees, proved about the reference
 * definitions `PatchTrace` and `PassLog` (and so, through the methods'
 * postconditions, about `PatchChart` and `PatchAllCharts`).
 */
module UnifiChartsProperties {
  import opened Host
  import opened UnifiCharts

  // ---------------------------------------------------------------------
  // The palette

  /** The six palette entries differ. */
  lemma ChartColorsDistinct(a: nat, b: nat)
    requires a < b < |ChartColors|
    ensures ChartColors[a] != ChartColors[b]
  {
  }

  /** Series colours repeat with period six. */
  lemma PaletteCycles(idx: nat)
    ensures CycleColor(idx + 6) == CycleColor(idx)
  {
  }

  /** Any six consecutive series of an ordinary chart get six different colours. */
  lemma PaletteDistinctWithinCycle(i: nat, j: nat)
    requires i < j < i + 6
    ensures CycleColor(i) != CycleColor(j)
  {
  }

  // ---------------------------------------------------------------------
  // The per-series loop

  /** Every call the loop makes is a style call on one of the chart's
      series; on the traffic chart only series 0 and 1 are styled. */
  lemma {:induction false} StyleCallsAreStyles(traffic: bool, n: nat)
    ensures forall c :: c in StyleCalls(traffic, n) ==>
      c.SetStyle? && c.index < n && (traffic ==> c.index < 2)
  {
    if n > 0 {
      StyleCallsAreStyles(traffic, n - 1);
    }
  }

  /** On an ordinary chart, style call `i` goes to series `i` and sets
      fill and stroke to the palette colour `i mod 6`, with no line width. */
  lemma {:induction false} DefaultStyleCallsAt(n: nat, i: nat)
    requires i < n
    ensures StyleCalls(false, n)[i] == SetStyle(i, ChartColors[i % 6], ChartColors[i % 6], None)
  {
    if i < n - 1 {
      DefaultStyleCallsAt(n - 1, i);
    }
  }

  /** On the traffic chart, series from index 2 on add no calls. */
  lemma {:induction false} TrafficStyleCallsSaturate(n: nat)
    requires n >= 2
    ensures StyleCalls(true, n) == StyleCalls(true, 2)
  {
    if n > 2 {
      TrafficStyleCallsSaturate(n - 1);
    }
  }

  // ---------------------------------------------------------------------
  // One chart

  /** A null handle, or one without `getSeries`, receives no call and
      causes no warning. */
  lemma NoHandleOrAccessorIsInert(h: Option<Chart>)
    requires h.None? || h.value.series.NoAccessor?
    ensures PatchTrace(h) == []
  {
  }

  /** When `getSeries` yields nothing or no series, no chart is styled
      or redrawn; only a throwing `getSeries` leaves a warning. */
  lemma EmptySeriesIsUnstyled(chart: Chart)
    requires chart.series.NoSeries? || chart.series == Series(0)
    ensures PatchTrace(Some(chart)) == if chart.fault == OnGetSeries then [Warn] else []
  {
  }

  /** An ordinary chart with `n >= 1` series and no fault: the full
      palette, then series `i` styled with palette colour `i mod 6` as both
      fill and stroke, in index order, then one redraw. `t` only names
      that chart's `PatchTrace`. */
  lemma DefaultChartTrace(title: string, n: nat, t: seq<Call>)
    requires title != "Network Traffic" && n >= 1
    requires t == PatchTrace(Some(Chart(title, Series(n), NoFault)))
    ensures |t| == n + 2
    ensures t[0] == SetColors(["#30AD55", "#006EFF", "#5DC0E0", "#D08D1E", "#CC3135", "#4797FF"])
    ensures forall i :: 1 <= i <= n ==>
      t[i] == SetStyle(i - 1, ChartColors[(i - 1) % 6], ChartColors[(i - 1) % 6], None)
    ensures t[n + 1] == Redraw
  {
    assert t == Planned(false, n);
    forall i | 1 <= i <= n
      ensures t[i] == SetStyle(i - 1, ChartColors[(i - 1) % 6], ChartColors[(i - 1) % 6], None)
    {
      DefaultStyleCallsAt(n, i - 1);
    }
  }

  /** The Network Traffic chart with `n >= 1` series and no fault: the
      blue/green palette, series 0 in translucent blue, series 1 (if there
      is one) in translucent green, both with line width 2, nothing for
      the other series, then one redraw. */
  lemma TrafficChartTrace(n: nat)
    requires n >= 1
    ensures PatchTrace(Some(Chart("Network Traffic", Series(n), NoFault)))
         == [SetColors(["#006EFF", "#30AD55"]),
             SetStyle(0, "rgba(0, 110, 255, 0.7)", "#006EFF", Some(2))]
            + (if n >= 2 then [SetStyle(1, "rgba(48, 173, 85, 0.8)", "#30AD55", Some(2))] else [])
            + [Redraw]
  {
    if n >= 2 {
      TrafficStyleCallsSaturate(n);
    }
  }

  /** Whatever happens, the traffic chart's series from index 2 on are
      never styled, and without a fault it gets min(n, 2) style calls. */
  lemma TrafficStylesOnlyFirstTwo(chart: Chart)
    requires chart.title == "Network Traffic"
    ensures forall c :: c in PatchTrace(Some(chart)) && c.SetStyle? ==> c.index < 2
    ensures chart.series.Series? && chart.fault == NoFault ==>
      |PatchTrace(Some(chart))| == if chart.series.count == 0 then 0 else Min(chart.series.count, 2) + 2
  {
    if chart.series.Series? && chart.series.count > 0 && chart.fault != OnGetSeries {
      var p := Planned(true, chart.series.count);
      StyleCallsAreStyles(true, chart.series.count);
      assert forall c :: c in p ==> c in StyleCalls(true, chart.series.count) || !c.SetStyle?;
      match chart.fault
      case OnCall(k) =>
        if k < |p| {
          assert forall c :: c in p[..k + 1] ==> c in p;
        }
      case _ =>
    }
  }

  /** A chart with series and no fault: the palette first, style calls in
      between, and exactly one redraw, as the very last call; no warning.
      `t` only names the chart's `PatchTrace`. */
  lemma RedrawOnceAndLast(chart: Chart, t: seq<Call>)
    requires chart.series.Series? && chart.series.count >= 1 && chart.fault == NoFault
    requires t == PatchTrace(Some(chart))
    ensures |t| >= 2
    ensures t[0] == SetColors(PaletteFor(IsTraffic(chart.title)))
    ensures forall i :: 0 < i < |t| - 1 ==> t[i].SetStyle?
    ensures t[|t| - 1] == Redraw
    ensures forall i :: 0 <= i < |t| - 1 ==> t[i] != Redraw
    ensures Warn !in t
  {
    var traffic := IsTraffic(chart.title);
    var n := chart.series.count;
    var styles := StyleCalls(traffic, n);
    assert t == [SetColors(PaletteFor(traffic))] + styles + [Redraw];
    StyleCallsAreStyles(traffic, n);
    forall i | 0 < i < |t| - 1
      ensures t[i].SetStyle?
    {
      assert t[i] == styles[i - 1];
      assert styles[i - 1] in styles;
    }
  }

  /** A fault on a call past the last one the chart receives changes nothing. */
  lemma LateFaultIsHarmless(chart: Chart, k: nat)
    requires chart.fault == OnCall(k)
    requires k >= |PatchTrace(Some(chart.(fault := NoFault)))|
    ensures PatchTrace(Some(chart)) == PatchTrace(Some(chart.(fault := NoFault)))
  {
  }

  /** A chart whose `k`-th call throws receives exactly the first `k + 1`
      calls it would have received without the fault, the faulting one
      included, and then the warning; it is redrawn only when `redraw`
      itself was the call that threw. `full` and `t` only name the
      fault-free and the actual `PatchTrace`. */
  lemma FaultCutsChartShort(chart: Chart, k: nat, full: seq<Call>, t: seq<Call>)
    requires chart.fault == OnCall(k)
    requires full == PatchTrace(Some(chart.(fault := NoFault))) && t == PatchTrace(Some(chart))
    requires k < |full|
    ensures t == full[..k + 1] + [Warn]
    ensures Redraw in t <==> k == |full| - 1
  {
    var traffic := IsTraffic(chart.title);
    var n := chart.series.count;
    assert full == Planned(traffic, n);
    assert t == full[..k + 1] + [Warn];
    PlannedRedrawOnlyLast(traffic, n, full);
    if Redraw in t {
      var i :| 0 <= i < |t| && t[i] == Redraw;
      assert i <= k && full[i] == Redraw;
    }
    if k == |full| - 1 {
      assert t[k] == full[k];
    }
  }

  /** The planned calls hold one redraw, at the end. */
  lemma PlannedRedrawOnlyLast(traffic: bool, n: nat, p: seq<Call>)
    requires p == Planned(traffic, n)
    ensures forall i :: 0 <= i < |p| - 1 ==> p[i] != Redraw
  {
    var styles := StyleCalls(traffic, n);
    assert p == [SetColors(PaletteFor(traffic))] + styles + [Redraw];
    StyleCallsAreStyles(traffic, n);
    forall i | 0 < i < |p| - 1
      ensures p[i] != Redraw
    {
      assert p[i] == styles[i - 1];
      assert styles[i - 1] in styles;
    }
  }

  /** Whether patching the chart makes the host throw: a `getSeries`
      that throws, or a throwing call among those the chart receives. */
  predicate Fires(chart: Chart)
  {
    && !chart.series.NoAccessor?
    && (|| chart.fault == OnGetSeries
        || (&& chart.series.Series? && chart.series.count > 0
            && chart.fault.OnCall?
            && chart.fault.k < |Planned(IsTraffic(chart.title), chart.series.count)|))
  }

  lemma {:induction false} WarnCountAppend(a: seq<Call>, b: seq<Call>)
    ensures WarnCount(a + b) == WarnCount(a) + WarnCount(b)
  {
    if a == [] {
      assert a + b == b;
    } else {
      assert (a + b)[1..] == a[1..] + b;
      WarnCountAppend(a[1..], b);
    }
  }

  lemma {:induction false} WarnCountAbsent(t: seq<Call>)
    requires Warn !in t
    ensures WarnCount(t) == 0
  {
    if t != [] {
      assert t == [t[0]] + t[1..];
      WarnCountAbsent(t[1..]);
    }
  }

  /** The exception never escapes: a chart whose patch throws leaves
      exactly one warning, as its last call, and a chart whose patch does
      not throw leaves none. `t` only names the handle's `PatchTrace`. */
  lemma WarnIffFault(h: Option<Chart>, t: seq<Call>)
    requires t == PatchTrace(h)
    ensures Warn in t <==> h.Some? && Fires(h.value)
    ensures forall i :: 0 <= i < |t| && t[i] == Warn ==> i == |t| - 1
    ensures WarnCount(t) == if h.Some? && Fires(h.value) then 1 else 0
  {
    if h.None? || h.value.series.NoAccessor? {
      assert t == [];
    } else if h.value.fault == OnGetSeries {
      assert t == [Warn];
    } else if h.value.series.NoSeries? || h.value.series.count == 0 {
      assert t == [];
    } else {
      var chart := h.value;
      var p := Planned(IsTraffic(chart.title), chart.series.count);
      assert t == Interrupt(p, chart.fault);
      PlannedHasNoWarn(IsTraffic(chart.title), chart.series.count, p);
      if Fires(chart) {
        var k := chart.fault.k;
        InterruptAt(p, k, p[..k + 1]);
        WarnAfterCut(p, k, t);
      } else {
        assert t == p;
        WarnCountAbsent(p);
      }
    }
  }

  lemma PlannedHasNoWarn(traffic: bool, n: nat, p: seq<Call>)
    requires p == Planned(traffic, n)
    ensures Warn !in p
  {
    var styles := StyleCalls(traffic, n);
    assert p == [SetColors(PaletteFor(traffic))] + styles + [Redraw];
    StyleCallsAreStyles(traffic, n);
  }

  /** Cutting a warning-free run after call `k` and warning leaves one warning, last. */
  lemma WarnAfterCut(p: seq<Call>, k: nat, t: seq<Call>)
    requires Warn !in p && k < |p| && t == p[..k + 1] + [Warn]
    ensures Warn in t
    ensures forall i :: 0 <= i < |t| && t[i] == Warn ==> i == |t| - 1
    ensures WarnCount(t) == 1
  {
    var made := p[..k + 1];
    assert forall i :: 0 <= i < |made| ==> made[i] in p;
    assert t[|t| - 1] == Warn;
    WarnCountAbsent(made);
    WarnCountAppend(made, [Warn]);
  }

  // ---------------------------------------------------------------------
  // The pass over all charts

  /** With the theme inactive or the component query missing, a pass
      makes no call at all (and does not query). */
  lemma GatedPassIsInert(themeActive: bool, queryAvailable: bool, query: Option<seq<Option<Chart>>>)
    requires !themeActive || !queryAvailable
    ensures PassLog(themeActive, queryAvailable, query) == []
  {
  }

  lemma {:induction false} ProjectAppend(a: seq<Event>, b: seq<Event>, i: nat)
    ensures Project(a + b, i) == Project(a, i) + Project(b, i)
  {
    if a == [] {
      assert a + b == b;
    } else {
      var ab := a + b;
      var head := if a[0].chart == i then [a[0].call] else [];
      assert ab[0] == a[0];
      assert ab[1..] == a[1..] + b;
      ProjectAppend(a[1..], b, i);
      calc {
        Project(ab, i);
        head + Project(a[1..] + b, i);
        head + (Project(a[1..], i) + Project(b, i));
        (head + Project(a[1..], i)) + Project(b, i);
        Project(a, i) + Project(b, i);
      }
    }
  }

  lemma {:induction false} ProjectTag(j: nat, t: seq<Call>, i: nat)
    ensures Project(Tag(j, t), i) == if i == j then t else []
  {
    if t != [] {
      assert Tag(j, t)[1..] == Tag(j, t[1..]);
      ProjectTag(j, t[1..], i);
    }
  }

  /** In the log of patching a list of charts, chart `i`'s calls are
      exactly the calls `patchChart` makes on that chart alone. */
  lemma {:induction false} ChartsLogProject(charts: seq<Option<Chart>>, i: nat)
    ensures Project(ChartsLog(charts), i) == if i < |charts| then PatchTrace(charts[i]) else []
  {
    if charts != [] {
      var m := |charts| - 1;
      ChartsLogProject(charts[..m], i);
      ProjectAppend(ChartsLog(charts[..m]), Tag(m, PatchTrace(charts[m])), i);
      ProjectTag(m, PatchTrace(charts[m]), i);
    }
  }

  /** An active pass patches every discovered chart exactly as if it
      were the only chart on the page. */
  lemma PassPatchesEachChartAlone(charts: seq<Option<Chart>>, i: nat)
    requires i < |charts|
    ensures Project(PassLog(true, true, Some(charts)), i) == PatchTrace(charts[i])
    ensures Project(PassLog(true, true, Some(charts)), i)
         == Project(PassLog(true, true, Some([charts[i]])), 0)
  {
    ChartsLogProject(charts, i);
    ChartsLogProject([charts[i]], 0);
  }

  /** Replacing any other chart, by a faulty one for instance, leaves a
      chart's calls unchanged. */
  lemma FaultIsolation(charts: seq<Option<Chart>>, j: nat, other: Option<Chart>, i: nat)
    requires i < |charts| && j < |charts| && i != j
    ensures Project(ChartsLog(charts[j := other]), i) == Project(ChartsLog(charts), i)
  {
    ChartsLogProject(charts, i);
    ChartsLogProject(charts[j := other], i);
  }

  /** Charts are patched one after the other in discovery order: every
      call for an earlier chart comes before every call for a later one,
      and every call belongs to a discovered chart. */
  lemma {:induction false} DiscoveryOrder(charts: seq<Option<Chart>>)
    ensures forall k :: 0 <= k < |ChartsLog(charts)| ==> ChartsLog(charts)[k].chart < |charts|
    ensures forall a, b :: 0 <= a < b < |ChartsLog(charts)| ==> ChartsLog(charts)[a].chart <= ChartsLog(charts)[b].chart
  {
    if charts != [] {
      var m := |charts| - 1;
      DiscoveryOrder(charts[..m]);
      var prev := ChartsLog(charts[..m]);
      var last := Tag(m, PatchTrace(charts[m]));
      var log := ChartsLog(charts);
      assert log == prev + last;
      assert |charts[..m]| == m;
      forall k | 0 <= k < |log|
        ensures log[k].chart == (if k < |prev| then prev[k].chart else m) && log[k].chart <= m
      {
        if k >= |prev| {
          assert log[k] == last[k - |prev|];
        } else {
          assert log[k] == prev[k];
        }
      }
      forall a, b | 0 <= a < b < |log|
        ensures log[a].chart <= log[b].chart
      {
        if b < |prev| {
          assert log[a] == prev[a] && log[b] == prev[b];
        } else {
          assert log[b].chart == m;
        }
      }
    }
  }

  /** The number of discovered charts whose patch throws. */
  function FaultyCount(charts: seq<Option<Chart>>): nat
  {
    if charts == [] then 0
    else
      var last := charts[|charts| - 1];
      FaultyCount(charts[..|charts| - 1]) + if last.Some? && Fires(last.value) then 1 else 0
  }

  lemma {:induction false} LogWarnCountAppend(a: seq<Event>, b: seq<Event>)
    ensures LogWarnCount(a + b) == LogWarnCount(a) + LogWarnCount(b)
  {
    if a == [] {
      assert a + b == b;
    } else {
      assert (a + b)[1..] == a[1..] + b;
      LogWarnCountAppend(a[1..], b);
    }
  }

  lemma {:induction false} LogWarnCountTag(j: nat, t: seq<Call>)
    ensures LogWarnCount(Tag(j, t)) == WarnCount(t)
  {
    if t != [] {
      assert Tag(j, t)[1..] == Tag(j, t[1..]);
      LogWarnCountTag(j, t[1..]);
    }
  }

  /** A pass logs one warning per chart whose patch throws, and no other. */
  lemma {:induction false} PassWarnsOncePerFaultyChart(charts: seq<Option<Chart>>)
    ensures LogWarnCount(ChartsLog(charts)) == FaultyCount(charts)
  {
    if charts != [] {
      var m := |charts| - 1;
      PassWarnsOncePerFaultyChart(charts[..m]);
      LogWarnCountAppend(ChartsLog(charts[..m]), Tag(m, PatchTrace(charts[m])));
      LogWarnCountTag(m, PatchTrace(charts[m]));
      WarnIffFault(charts[m], PatchTrace(charts[m]));
    }
  }

  /** Three charts whose middle one throws from `getSeries`: the other two
      are fully styled and redrawn, and the pass logs one warning. */
  lemma MiddleFaultyChartOfThree(charts: seq<Option<Chart>>, a: Chart, b: Chart, c: Chart)
    requires charts == [Some(a), Some(b), Some(c)]
    requires a.series.Series? && a.series.count >= 1 && a.fault == NoFault
    requires c.series.Series? && c.series.count >= 1 && c.fault == NoFault
    requires !b.series.NoAccessor? && b.fault == OnGetSeries
    ensures Project(PassLog(true, true, Some(charts)), 0) == Planned(IsTraffic(a.title), a.series.count)
    ensures Project(PassLog(true, true, Some(charts)), 1) == [Warn]
    ensures Project(PassLog(true, true, Some(charts)), 2) == Planned(IsTraffic(c.title), c.series.count)
    ensures LogWarnCount(PassLog(true, true, Some(charts))) == 1
  {
    FullChartInPass(charts, 0, a);
    PassPatchesEachChartAlone(charts, 1);
    FullChartInPass(charts, 2, c);
    PassWarnsOncePerFaultyChart(charts);
    FaultyCountOfThree(charts, a, b, c);
  }

  /** A discovered chart with series and no fault gets its full planned run in the pass. */
  lemma FullChartInPass(charts: seq<Option<Chart>>, i: nat, x: Chart)
    requires i < |charts| && charts[i] == Some(x)
    requires x.series.Series? && x.series.count >= 1 && x.fault == NoFault
    ensures Project(PassLog(true, true, Some(charts)), i) == Planned(IsTraffic(x.title), x.series.count)
  {
    assert PassLog(true, true, Some(charts)) == ChartsLog(charts);
    ChartsLogProject(charts, i);
    FaultFreeTrace(x);
  }

  lemma FaultFreeTrace(x: Chart)
    requires x.series.Series? && x.series.count >= 1 && x.fault == NoFault
    ensures PatchTrace(Some(x)) == Planned(IsTraffic(x.title), x.series.count)
  {
  }

  lemma FaultyCountOfThree(charts: seq<Option<Chart>>, a: Chart, b: Chart, c: Chart)
    requires charts == [Some(a), Some(b), Some(c)]
    requires !Fires(a) && Fires(b) && !Fires(c)
    ensures FaultyCount(charts) == 1
  {
    assert charts[..2] == [Some(a), Some(b)];
    assert charts[..2][..1] == [Some(a)];
    assert [Some(a)][..0] == [];
    assert FaultyCount([Some(a)]) == 0;
    assert FaultyCount(charts[..2]) == 1;
  }
}
