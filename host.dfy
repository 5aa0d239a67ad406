/**
 * The host side of the chart patcher: the chart handles the host UI
 * framework hands out, the calls the patcher can make on them, and the
 * log in which a pass records those calls.
 *
 * A chart is abstract: its title, what its `getSeries` accessor yields,
 * and the point (if any) at which the host throws while it is patched.
 */
module Host {

  datatype Option<T> = None | Some(value: T)

  /** What `chart.getSeries` amounts to on a handle: the accessor is
      missing, it returns nothing (null or undefined), or it returns a
      sequence of `count` series. */
  datatype SeriesAccess = NoAccessor | NoSeries | Series(count: nat)

  /** Where the host throws while one chart is patched: nowhere, inside
      `getSeries`, or on the `k`-th (0-based) of the styling calls the
      chart and its series receive (`setColors` is call 0, then the
      `setStyle` calls in index order, then `redraw`). */
  datatype Fault = NoFault | OnGetSeries | OnCall(k: nat)

  datatype Chart = Chart(title: string, series: SeriesAccess, fault: Fault)

  /** One call the patcher makes: on the chart, on its series number
      `index`, or to the warning channel from the catch block. */
  datatype Call =
    | SetColors(palette: seq<string>)
    | SetStyle(index: nat, fill: string, stroke: string, lineWidth: Option<nat>)
    | Redraw
    | Warn

  /** One entry of a pass's log: `call` was made while the `chart`-th
      discovered chart was being patched. */
  datatype Event = Event(chart: nat, call: Call)

  /** True when the host throws on styling call number `k`. */
  predicate ThrowsAt(f: Fault, k: nat)
  {
    f == OnCall(k)
  }

  /** The calls of one chart's patch, attributed to discovered chart `chart`. */
  function Tag(chart: nat, t: seq<Call>): (log: seq<Event>)
    ensures |log| == |t|
    ensures forall k :: 0 <= k < |t| ==> log[k] == Event(chart, t[k])
  {
    if t == [] then [] else [Event(chart, t[0])] + Tag(chart, t[1..])
  }

  /** The calls of a log that belong to discovered chart `chart`, in order. */
  function Project(log: seq<Event>, chart: nat): (t: seq<Call>)
    ensures |t| <= |log|
  {
    if log == [] then []
    else (if log[0].chart == chart then [log[0].call] else []) + Project(log[1..], chart)
  }

  /** The number of warnings in a run of calls. */
  function WarnCount(t: seq<Call>): nat
  {
    if t == [] then 0 else (if t[0] == Warn then 1 else 0) + WarnCount(t[1..])
  }

  /** The number of warnings in a pass's log. */
  function LogWarnCount(log: seq<Event>): nat
  {
    if log == [] then 0 else (if log[0].call == Warn then 1 else 0) + LogWarnCount(log[1..])
  }
}
