# ProxMorph chart patcher, modelled in Dafny

ProxMorph's chart patcher (`themes/patches/unifi-charts.js`) restyles the
RRD charts of the Proxmox web console for the UniFi theme. One call of
`patchChart` gives a chart the theme's six-colour palette and colours
each series by its index. The chart titled exactly `Network Traffic` is
the exception: it gets a blue/green pair, and only its first two series
are styled. The chart is then redrawn. Any exception a host method
throws inside the `try` block is caught and logged, one chart at a time. `patchAllCharts` does this for
every chart the framework's component query finds, but only when the
theme stylesheet is loaded and the framework is present.

The model has three modules:

- `Host` (`host.dfy`) describes the host abstractly. A chart is a
  record of its title, what `getSeries` yields (no accessor, nothing, or
  a count of series) and where the host throws, if it does (in
  `getSeries`, or on the k-th styling call). A patch's effect is the
  ordered list of calls it makes: `SetColors(palette)`,
  `SetStyle(index, fill, stroke, lineWidth?)`, `Redraw`, and `Warn` for
  the catch block's log line. A pass's log tags each call with the
  discovery index of the chart it belongs to.
- `UnifiCharts` (`unifi_charts.dfy`) holds the constants, the styling
  rule, and the two routines as methods with loops. `PatchChart`, its
  try-block part `StyleChart` and the per-series loop `StyleSeries`
  model `patchChart`. `PatchAllCharts`
  models `patchAllCharts`. Both methods are proved equal to reference
  functions: `PatchTrace` is the planned run of calls, cut short after
  the call that throws. `PassLog` is the per-chart traces laid end to
  end in discovery order.
- `UnifiChartsProperties` (`unifi_charts_properties.dfy`) holds the
  lemmas: the branch rules, redraw placement, fault containment,
  gating, isolation between charts, discovery order and warning counts.

Colours are opaque strings, compared only for equality. The series
index is a natural number, so the source's `idx % length` is Dafny's
`%`.

## Model

| member | source | states |
|---|---|---|
| UnifiCharts.PaletteFor | themes/patches/unifi-charts.js:36-58 | `setColors` gets a two-colour palette for the Network Traffic chart and the six-colour palette for every other chart |
| UnifiCharts.CycleColor | themes/patches/unifi-charts.js:60 | the colour an ordinary series gets is always one of the six palette colours |
| UnifiCharts.StyleAt | themes/patches/unifi-charts.js:39-65 | series `idx` gets a style call exactly when the chart is not the traffic chart or `idx` is 0 or 1; that call is a `setStyle` on series `idx` itself |
| UnifiCharts.StyleCalls | themes/patches/unifi-charts.js:39-65 | the per-series loop over n series makes min(n, 2) style calls on the traffic chart and n on any other chart |
| UnifiCharts.IsTraffic | themes/patches/unifi-charts.js:36 | a chart gets the Network Traffic treatment exactly when its title has the same length as `Network Traffic` and matches it character for character, case included |
| UnifiCharts.Planned | themes/patches/unifi-charts.js:36-68 | the fault-free run of a chart with n series: `setColors` with the chart's palette first, `redraw` last, and one call per style call in between (n + 2, or min(n, 2) + 2 on the traffic chart) |
| UnifiCharts.Interrupt | themes/patches/unifi-charts.js:31-71 | when call k of a run throws, the calls made are the first k + 1 of the run and then one warning; a fault on a call the run never reaches leaves the run as it is |
| UnifiCharts.PatchTrace | themes/patches/unifi-charts.js:28-72 | `patchChart` calls nothing on a null handle or one without `getSeries`; when it does call something, the first call is `setColors` with the chart's palette, or the warning when `getSeries` threw |
| UnifiCharts.ChartsLog | themes/patches/unifi-charts.js:93 | the log of patching the discovered charts in turn only holds calls attributed to a discovered chart |
| UnifiCharts.PassLog | themes/patches/unifi-charts.js:85-95 | a pass logs something only when the theme is active, the component query exists and it returned an array, and every call it logs belongs to one of the charts in that array |
| UnifiCharts.StyleSeries | themes/patches/unifi-charts.js:39-65 | the per-series loop makes a prefix of the planned run; it reports a throw exactly when its last call was the faulting one, and otherwise it has made every style call for the n series and the fault lies beyond them |
| UnifiCharts.StyleChart | themes/patches/unifi-charts.js:36-71 | the try block's loop (palette, per-series styles in index order, redraw) makes exactly the planned calls, cut off after the call that throws and followed by one warning |
| UnifiCharts.PatchChart | themes/patches/unifi-charts.js:28-72 | `patchChart` makes exactly the calls of `PatchTrace` on every handle: nothing for a null handle or one without `getSeries`, a warning alone when `getSeries` throws, nothing for no or zero series, otherwise the interrupted planned run |
| UnifiCharts.PatchAllCharts | themes/patches/unifi-charts.js:85-95 | the component query is asked exactly when the theme is active and the framework's query exists; the log is `PassLog`, with each discovered chart patched in order |
| UnifiChartsProperties.ChartColorsDistinct | themes/patches/unifi-charts.js:16-23 | the six palette colours are pairwise different |
| UnifiChartsProperties.PaletteCycles | themes/patches/unifi-charts.js:60 | series colours repeat every six indices |
| UnifiChartsProperties.PaletteDistinctWithinCycle | themes/patches/unifi-charts.js:60 | any six consecutive series of an ordinary chart get six different colours |
| UnifiChartsProperties.StyleCallsAreStyles | themes/patches/unifi-charts.js:39-65 | every call the per-series loop makes is a `setStyle` on an existing series; on the traffic chart only series 0 and 1 are targeted |
| UnifiChartsProperties.DefaultStyleCallsAt | themes/patches/unifi-charts.js:59-65 | on an ordinary chart, style call i targets series i, with fill and stroke both the palette colour i mod 6 and no line width |
| UnifiChartsProperties.TrafficStyleCallsSaturate | themes/patches/unifi-charts.js:39-55 | on the traffic chart, series from index 2 on add no style call |
| UnifiChartsProperties.NoHandleOrAccessorIsInert | themes/patches/unifi-charts.js:29 | a null handle or one without `getSeries` receives no call and logs no warning |
| UnifiChartsProperties.EmptySeriesIsUnstyled | themes/patches/unifi-charts.js:32-33 | when `getSeries` yields nothing or an empty list, there is no `setColors`, `setStyle` or `redraw`; only a throwing `getSeries` leaves one warning |
| UnifiChartsProperties.DefaultChartTrace | themes/patches/unifi-charts.js:56-68 | an ordinary chart with n ≥ 1 series and no fault gets `setColors` with the full palette, then series i styled with palette colour i mod 6 as fill and stroke and no line width, in index order, then `redraw`: n + 2 calls |
| UnifiChartsProperties.TrafficChartTrace | themes/patches/unifi-charts.js:36-68 | the Network Traffic chart with n ≥ 1 series and no fault gets `setColors(['#006EFF', '#30AD55'])`, series 0 with `rgba(0, 110, 255, 0.7)`/`#006EFF`/2, series 1 (if present) with `rgba(48, 173, 85, 0.8)`/`#30AD55`/2, then `redraw` |
| UnifiChartsProperties.TrafficStylesOnlyFirstTwo | themes/patches/unifi-charts.js:39-55 | whatever the fault, the traffic chart's series at index ≥ 2 are never styled; without a fault it gets min(n, 2) + 2 calls |
| UnifiChartsProperties.RedrawOnceAndLast | themes/patches/unifi-charts.js:36-68 | a non-empty chart with no fault gets `setColors` first, only `setStyle` calls in between, and exactly one `redraw`, as the last call; no warning |
| UnifiChartsProperties.PlannedRedrawOnlyLast | themes/patches/unifi-charts.js:68 | in the planned calls `redraw` occurs only as the final call |
| UnifiChartsProperties.LateFaultIsHarmless | themes/patches/unifi-charts.js:31-71 | a fault on a call the chart never receives changes nothing |
| UnifiChartsProperties.FaultCutsChartShort | themes/patches/unifi-charts.js:31-71 | when styling call k throws, the chart gets exactly the first k + 1 calls of its fault-free run (the one that throws included) and then one warning; it is redrawn only when `redraw` itself threw |
| UnifiChartsProperties.WarnIffFault | themes/patches/unifi-charts.js:69-71 | the exception never escapes: a patch logs a warning exactly when a host call inside the try block throws, at most one, and always as its last event |
| UnifiChartsProperties.GatedPassIsInert | themes/patches/unifi-charts.js:87-89 | with the theme inactive or `Ext.ComponentQuery` missing, a pass makes no call at all |
| UnifiChartsProperties.ChartsLogProject | themes/patches/unifi-charts.js:92-93 | in a pass's log, the calls for discovered chart i are exactly what `patchChart` makes on that chart; no call is logged for an index past the list |
| UnifiChartsProperties.PassPatchesEachChartAlone | themes/patches/unifi-charts.js:91-93 | in an active pass, every discovered chart receives the same calls as it would in a pass where it was the only chart |
| UnifiChartsProperties.FaultIsolation | themes/patches/unifi-charts.js:93 | replacing any other discovered chart, with a faulty one for instance, leaves a chart's calls unchanged |
| UnifiChartsProperties.DiscoveryOrder | themes/patches/unifi-charts.js:93 | charts are patched one after the other in discovery order: all calls for an earlier chart come before any call for a later one, and each call belongs to a discovered chart |
| UnifiChartsProperties.PassWarnsOncePerFaultyChart | themes/patches/unifi-charts.js:69-71 | a pass logs exactly one warning per discovered chart whose patch throws, and no others |
| UnifiChartsProperties.MiddleFaultyChartOfThree | themes/patches/unifi-charts.js:85-95 | of three charts whose middle one throws from `getSeries`, the first and third get their full styling and `redraw`, the middle one gets only a warning, and the pass logs one warning |

## Left out

- `init`, the `load` listener, the 500 ms `setTimeout` and the 2000 ms `setInterval` (lines 100-118): scheduling on the event loop, with no data logic to state.
- `isUnifiThemeActive` (lines 77-80) reads the DOM; its result is the boolean input `themeActive`.
- The `typeof Ext` / `Ext.ComponentQuery` check (line 89) is the boolean input `queryAvailable`. The result of `Ext.ComponentQuery.query` (line 91), a framework call, is the `query` input: `None` when it returns no array.
- Only host *method* calls throw in the model (`getSeries`, `setColors`, `setStyle`, `redraw`). Reading `chart.title` or `series.length`, and an exception from `Ext.ComponentQuery.query`, are not modelled as faults.
- The read of `chart.getSeries` in the guard (line 29) comes before the `try` block. A throw there (a throwing getter, a revoked proxy) would escape `patchChart`. It would then escape `charts.forEach(patchChart)` at line 93, so the later charts would not be patched and no warning would be logged. The model cannot express this: `PatchChart`'s guard never throws, and `FaultIsolation` and `PassPatchesEachChartAlone` hold only because that read cannot fail.
- `console.warn` and `console.log` text: a warning is the bare `Warn` event, with no message formatting.
- `setColors` gets the palette array itself in the source. The model passes the palette as a value, so a host that kept or changed that array is not modelled.
- Colour meaning, CSS/rgba parsing and rendering: colours are opaque strings.
