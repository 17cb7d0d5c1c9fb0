/**
 * The parts of `RrdPlotly` around the chart library: the handler of the
 * picker's "button clicked" event, a sequence of such events, the time range
 * and active button the layout reports, and a worked two-archive example.
 */
module Plot {
  import opened Wrappers
  import opened RrdFile
  import opened Session
  import opened Picker
  import TimeAxis

  /**
   * The "plotly_buttonclicked" handler: re-runs `initRra` with the first
   * argument of the clicked button of the picker.
   */
  method OnButtonClicked<V>(s: Session<V>, buttons: seq<Button>, clicked: nat) returns (s': Session<V>)
    requires IsPicker(s.rrd, buttons) && clicked < |buttons|
    ensures s' == Select(s, clicked)
    ensures s'.current.rraIdx == clicked
    ensures Consistent(s) ==> Consistent(s')
  {
    var idx := buttons[clicked].args[0];
    s' := InitRra(s, idx);
  }

  /** All indices in `clicks` name archives of `rrd`. */
  predicate ValidClicks<V>(rrd: Rrd<V>, clicks: seq<nat>) {
    forall k :: 0 <= k < |clicks| ==> clicks[k] < NrRRAs(rrd)
  }

  /** The state after handling the clicks in arrival order, one switch each. */
  function ApplyClicks<V>(s: Session<V>, clicks: seq<nat>): Session<V>
    requires ValidClicks(s.rrd, clicks)
    decreases |clicks|
  {
    if |clicks| == 0 then s
    else
      var t := Select(s, clicks[0]);
      ApplyClicks(t, clicks[1..])
  }

  /**
   * After any sequence of clicks the state is consistent, the fixed parts are
   * those of the start, and the selection is the one the last click names.
   */
  lemma {:induction false} LastClickWins<V>(s: Session<V>, clicks: seq<nat>)
    requires Consistent(s) && ValidClicks(s.rrd, clicks)
    ensures Consistent(ApplyClicks(s, clicks))
    ensures ApplyClicks(s, clicks).(current := s.current) == s
    ensures |clicks| > 0 ==> ApplyClicks(s, clicks) == Select(s, clicks[|clicks| - 1])
    decreases |clicks|
  {
    if |clicks| > 0 {
      var t := Select(s, clicks[0]);
      SelectPreservesConsistent(s, clicks[0]);
      LastClickWins(t, clicks[1..]);
      if |clicks| > 1 {
        assert clicks[1..][|clicks[1..]| - 1] == clicks[|clicks| - 1];
        SelectForgetsPrevious(s, clicks[|clicks| - 1], clicks[0]);
      }
    }
  }

  /**
   * The layout's title (None stands for undefined), the picker, the
   * highlighted picker button and the x range (first and last timestamp).
   */
  datatype Layout = Layout(title: Option<string>, buttons: seq<Button>, active: nat, rangeStart: int, rangeEnd: int)

  /**
   * The non-cosmetic part of `createLayout`: `title` is the `title` property
   * of the options given to `plot` (None when they have none), the picker,
   * the active archive's button highlighted, and the range from the first to
   * the last timestamp of the current axis.
   */
  method CreateLayout<V>(s: Session<V>, title: Option<string>) returns (layout: Layout)
    requires Consistent(s)
    ensures layout.title == title
    ensures IsPicker(s.rrd, layout.buttons)
    ensures layout.active == s.current.rraIdx && layout.buttons[layout.active].args == [s.current.rraIdx]
    ensures layout.rangeStart == s.lastUpdate - ActiveArchive(s).rows * ActiveArchive(s).step
    ensures layout.rangeEnd == s.lastUpdate - ActiveArchive(s).step
    ensures layout.rangeStart < layout.rangeEnd || ActiveArchive(s).rows == 1
  {
    ConsistentAxis(s);
    var buttons := CreateRraButtons(s.rrd);
    var dates := s.current.dates;
    layout := Layout(title, buttons, s.current.rraIdx, dates[0], dates[|dates| - 1]);
  }

  /** A file with two data sources: archive 0 holds 288 rows of 5 minutes, archive 1 168 rows of an hour. */
  function ExampleRrd(): Rrd<int> {
    Rrd([Archive(300, 288, (row, ds) => row + ds), Archive(3600, 168, (row, ds) => row * ds)],
        ["in", "out"], 1000000)
  }

  /**
   * Loading the example shows 288 timestamps ending at 999700; switching to
   * archive 1 shows 168 ending at 996400, with both data sources kept.
   */
  lemma ExampleSwitch(s: Session<int>)
    requires Consistent(s) && s.rrd == ExampleRrd() && s.current.rraIdx == 0
    ensures |s.current.dates| == 288 && s.current.dates[287] == 999700
    ensures var t := Select(s, 1);
            && |t.current.dates| == 168 && t.current.dates[167] == 996400
            && |t.shownDSs| == 2 && t.current.rows == 168
  {
    ConsistentAxis(s);
    SelectPreservesConsistent(s, 1);
    ConsistentAxis(Select(s, 1));
  }
}
