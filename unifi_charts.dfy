/**
 * The ProxMorph chart patcher: restyles the host's RRD charts with the
 * UniFi theme palette.
 *
 * `PatchChart` and `PatchAllCharts` are the patcher's two passes written
 * as loops over series and over charts; each returns the calls it makes.
 * `PatchTrace` and `PassLog` are the reference definitions they are
 * proved against: the calls a chart would receive with no fault, cut
 * short at the first call on which the host throws.
 */
module UnifiCharts {
  import opened Host

  /** The theme's six-colour palette, in the order series take it. */
  const ChartColors: seq<string> :=
    ["#30AD55", "#006EFF", "#5DC0E0", "#D08D1E", "#CC3135", "#4797FF"]

  /** The one chart title (exact, case-sensitive) that is styled specially. */
  const NetworkTraffic: string := "Network Traffic"

  /** The Network Traffic chart's palette: blue first, then green. */
  const TrafficColors: seq<string> := ["#006EFF", "#30AD55"]

  const TrafficInFill: string := "rgba(0, 110, 255, 0.7)"
  const TrafficInStroke: string := "#006EFF"
  const TrafficOutFill: string := "rgba(48, 173, 85, 0.8)"
  const TrafficOutStroke: string := "#30AD55"
  const TrafficLineWidth: nat := 2

  function Min(a: nat, b: nat): nat
  {
    if a <= b then a else b
  }

  /** Whether a chart gets the Network Traffic treatment: its title
      matches that string character for character, case included. */
  function IsTraffic(title: string): (b: bool)
    ensures b <==> |title| == |NetworkTraffic| && forall i :: 0 <= i < |title| ==> title[i] == NetworkTraffic[i]
  {
    title == NetworkTraffic
  }

  /** The palette handed to `setColors`: the traffic pair or the full palette. */
  function PaletteFor(traffic: bool): (p: seq<string>)
    ensures |p| == if traffic then 2 else 6
  {
    if traffic then TrafficColors else ChartColors
  }

  /** The colour of series `idx` on an ordinary chart: the palette, cycled. */
  function CycleColor(idx: nat): (c: string)
    ensures c in ChartColors
  {
    ChartColors[idx % |ChartColors|]
  }

  /** The `setStyle` call the per-series callback makes for series `idx`,
      or None when it leaves that series alone. */
  function StyleAt(traffic: bool, idx: nat): (call: Option<Call>)
    ensures call.Some? <==> (!traffic || idx < 2)
    ensures call.Some? ==> call.value.SetStyle? && call.value.index == idx
  {
    if traffic then
      if idx == 0 then Some(SetStyle(0, TrafficInFill, TrafficInStroke, Some(TrafficLineWidth)))
      else if idx == 1 then Some(SetStyle(1, TrafficOutFill, TrafficOutStroke, Some(TrafficLineWidth)))
      else None
    else
      Some(SetStyle(idx, CycleColor(idx), CycleColor(idx), None))
  }

  /** The `setStyle` calls the loop over the first `n` series makes, in index order. */
  function StyleCalls(traffic: bool, n: nat): (calls: seq<Call>)
    ensures |calls| == if traffic then Min(n, 2) else n
  {
    if n == 0 then []
    else
      StyleCalls(traffic, n - 1)
      + match StyleAt(traffic, n - 1) { case Some(c) => [c] case None => [] }
  }

  /** The style calls for fewer series are the start of those for more. */
  lemma {:induction false} StyleCallsPrefix(traffic: bool, i: nat, n: nat)
    requires i <= n
    ensures StyleCalls(traffic, i) <= StyleCalls(traffic, n)
  {
    if i < n {
      StyleCallsPrefix(traffic, i, n - 1);
    }
  }

  /** All the calls a chart with `n` series receives when nothing throws. */
  function Planned(traffic: bool, n: nat): (calls: seq<Call>)
    ensures |calls| == |StyleCalls(traffic, n)| + 2
    ensures calls[0] == SetColors(PaletteFor(traffic))
    ensures calls[|calls| - 1] == Redraw
  {
    [SetColors(PaletteFor(traffic))] + StyleCalls(traffic, n) + [Redraw]
  }

  /** The calls actually made when the host throws at `fault` during the
      run `calls`: everything up to and including the call that throws,
      then the catch block's warning. */
  function Interrupt(calls: seq<Call>, fault: Fault): (t: seq<Call>)
    ensures fault.OnCall? && fault.k < |calls| ==>
      |t| == fault.k + 2 && t[..fault.k + 1] <= calls && t[fault.k + 1] == Warn
    ensures !fault.OnCall? || fault.k >= |calls| ==> t == calls
  {
    match fault
    case OnCall(k) => if k < |calls| then calls[..k + 1] + [Warn] else calls
    case _ => calls
  }

  /** The calls `patchChart` makes on one handle (None: a null handle). */
  function PatchTrace(h: Option<Chart>): (t: seq<Call>)
    ensures t != [] ==> h.Some? && !h.value.series.NoAccessor?
    ensures t != [] ==> t[0] == Warn || t[0] == SetColors(PaletteFor(IsTraffic(h.value.title)))
  {
    match h
    case None => []
    case Some(chart) =>
      if chart.series.NoAccessor? then []
      else if chart.fault == OnGetSeries then [Warn]
      else if chart.series.NoSeries? || chart.series.count == 0 then []
      else Interrupt(Planned(IsTraffic(chart.title), chart.series.count), chart.fault)
  }

  /** The log of patching the discovered charts one after the other. */
  function ChartsLog(charts: seq<Option<Chart>>): (log: seq<Event>)
    ensures forall k :: 0 <= k < |log| ==> log[k].chart < |charts|
  {
    if charts == [] then []
    else ChartsLog(charts[..|charts| - 1]) + Tag(|charts| - 1, PatchTrace(charts[|charts| - 1]))
  }

  /** The log of one pass: nothing unless the theme is active and the
      framework's component query is available, and nothing when the
      query returns no array. */
  function PassLog(themeActive: bool, queryAvailable: bool, query: Option<seq<Option<Chart>>>): (log: seq<Event>)
    ensures log != [] ==> themeActive && queryAvailable && query.Some?
    ensures forall k :: 0 <= k < |log| ==> query.Some? && log[k].chart < |query.value|
  {
    if !themeActive || !queryAvailable then []
    else match query
      case None => []
      case Some(charts) => ChartsLog(charts)
  }

  /** `patchChart`: restyle one chart, catching any fault the host raises. */
  method PatchChart(h: Option<Chart>) returns (trace: seq<Call>)
    ensures trace == PatchTrace(h)
  {
    trace := [];
    if h.None? || h.value.series.NoAccessor? {
      return;
    }
    var chart := h.value;
    // try: getSeries
    if chart.fault == OnGetSeries {
      trace := [Warn];
      return;
    }
    if chart.series.NoSeries? || chart.series.count == 0 {
      return;
    }
    trace := StyleChart(IsTraffic(chart.title), chart.series.count, chart.fault);
  }

  /** One more series adds its style call, if it gets one, at the end. */
  lemma StyleCallsStep(traffic: bool, palette: seq<string>, idx: nat)
    ensures StyleAt(traffic, idx).Some? ==>
      [SetColors(palette)] + StyleCalls(traffic, idx + 1)
      == [SetColors(palette)] + StyleCalls(traffic, idx) + [StyleAt(traffic, idx).value]
    ensures StyleAt(traffic, idx).None? ==> StyleCalls(traffic, idx + 1) == StyleCalls(traffic, idx)
  {
  }

  /** The calls made before series `i` is reached are the start of the planned run. */
  lemma PlannedPrefix(traffic: bool, i: nat, n: nat)
    requires i <= n
    ensures Planned(traffic, n)[..1 + |StyleCalls(traffic, i)|] == [SetColors(PaletteFor(traffic))] + StyleCalls(traffic, i)
  {
    StyleCallsPrefix(traffic, i, n);
    var p := Planned(traffic, n);
    var m := |StyleCalls(traffic, i)|;
    assert forall j :: 0 <= j < 1 + m ==> p[j] == ([SetColors(PaletteFor(traffic))] + StyleCalls(traffic, i))[j];
  }

  /** A fault on call `k` of a run leaves the first `k + 1` calls and a warning. */
  lemma InterruptAt(calls: seq<Call>, k: nat, made: seq<Call>)
    requires k < |calls| && made == calls[..k + 1]
    ensures Interrupt(calls, OnCall(k)) == made + [Warn]
  {
  }

  /** The per-series `forEach` inside the try block, after `setColors`:
      the style calls in index order, stopping at the call that throws.
      `threw` says whether one did; the calls made so far are always the
      start of the planned run. */
  method StyleSeries(traffic: bool, n: nat, fault: Fault) returns (trace: seq<Call>, threw: bool)
    ensures 1 <= |trace| < |Planned(traffic, n)| && trace == Planned(traffic, n)[..|trace|]
    ensures threw <==> fault == OnCall(|trace| - 1)
    ensures !threw ==> trace == [SetColors(PaletteFor(traffic))] + StyleCalls(traffic, n)
    ensures !threw && fault.OnCall? ==> fault.k >= |trace|
  {
    var palette := PaletteFor(traffic);
    trace := [SetColors(palette)];
    threw := ThrowsAt(fault, 0);
    var idx := 0;
    while idx < n && !threw
      invariant idx <= n
      invariant trace == [SetColors(palette)] + StyleCalls(traffic, idx)
      invariant threw <==> fault == OnCall(|trace| - 1)
      invariant !threw && fault.OnCall? ==> fault.k >= |trace|
    {
      var style := StyleAt(traffic, idx);
      StyleCallsStep(traffic, palette, idx);
      if style.Some? {
        trace := trace + [style.value];
        threw := ThrowsAt(fault, |trace| - 1);
      }
      idx := idx + 1;
    }
    SeriesLoopExit(traffic, n, fault, idx, trace, threw);
  }

  /** What the per-series loop's invariant gives once the loop stops. */
  lemma SeriesLoopExit(traffic: bool, n: nat, fault: Fault, idx: nat, trace: seq<Call>, threw: bool)
    requires idx <= n && (idx == n || threw)
    requires trace == [SetColors(PaletteFor(traffic))] + StyleCalls(traffic, idx)
    requires threw <==> fault == OnCall(|trace| - 1)
    ensures 1 <= |trace| < |Planned(traffic, n)| && trace == Planned(traffic, n)[..|trace|]
    ensures !threw ==> trace == [SetColors(PaletteFor(traffic))] + StyleCalls(traffic, n)
  {
    StyleCallsPrefix(traffic, idx, n);
    PlannedPrefix(traffic, idx, n);
  }

  /** The styling part of `patchChart`'s try block, for a chart with
      `n` series: the palette, one style per series, the redraw, and a
      warning instead of the rest once a call throws. */
  method StyleChart(traffic: bool, n: nat, fault: Fault) returns (trace: seq<Call>)
    requires fault != OnGetSeries
    ensures trace == Interrupt(Planned(traffic, n), fault)
  {
    ghost var planned := Planned(traffic, n);
    var threw;
    trace, threw := StyleSeries(traffic, n, fault);
    if !threw {
      trace := trace + [Redraw];
      assert trace == planned && trace == planned[..|trace|];
      threw := ThrowsAt(fault, |trace| - 1);
    }
    if threw {
      InterruptAt(planned, |trace| - 1, trace);
      trace := trace + [Warn];
    }
  }

  /** `patchAllCharts`: one pass over the charts the component query
      discovers. `themeActive` is whether the theme stylesheet is loaded,
      `queryAvailable` whether the framework's component query exists,
      and `query` what that query returns; `queried` says whether the
      pass asked it at all. */
  method PatchAllCharts(themeActive: bool, queryAvailable: bool, query: Option<seq<Option<Chart>>>)
    returns (queried: bool, log: seq<Event>)
    ensures queried == (themeActive && queryAvailable)
    ensures log == PassLog(themeActive, queryAvailable, query)
  {
    queried, log := false, [];
    if !themeActive {
      return;
    }
    if !queryAvailable {
      return;
    }
    queried := true;
    if query.None? || |query.value| == 0 {
      return;
    }
    var charts := query.value;
    var i := 0;
    while i < |charts|
      invariant i <= |charts|
      invariant log == ChartsLog(charts[..i])
    {
      var trace := PatchChart(charts[i]);
      assert charts[..i + 1][..i] == charts[..i];
      log := log + Tag(i, trace);
      i := i + 1;
    }
    assert charts[..|charts|] == charts;
  }
}
