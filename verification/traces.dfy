/**
 * Series extraction and the trace descriptors handed to the chart: one trace
 * per shown data source, its x values the current time axis and its y values
 * the raw cells of the active archive.
 */
module Traces {
  import opened RrdFile
  import opened Session

  /** A value as JavaScript's `Array.prototype.join` sees it: `undefined` or a string. */
  datatype JsValue = Undefined | Str(text: string)

  /** The trace descriptor: name, x and y values, y axis id, line colour, and whether gaps are bridged. */
  datatype Trace<V> = Trace(name: string, x: seq<int>, y: seq<V>, yaxis: string, color: string, connectGaps: bool)

  /** `getDsName`: the data source's own name, whatever it is. */
  function DsName(ds: DataSource): string {
    ds.name
  }

  /** `getDsAxis`: every data source is drawn against the primary axis. */
  function DsAxis(ds: DataSource): string {
    "y1"
  }

  /** The six multipliers and the alphabet of `getDsColor`. */
  const ColorFactors: seq<int> := [5, 7, 13, 17, 23, 29]
  const ColorAlphabet: string := "f9482673a1c5eb0d"

  /**
   * The arrow passed to `map` in `getDsColor`: its block body looks up an
   * alphabet character and discards it, so the call yields `undefined`.
   */
  function ColorDigitCallback(c: int, idx: nat): JsValue {
    var discarded := ColorAlphabet[(c * idx) % 16];
    Undefined
  }

  /** `Array.prototype.join("")`: `undefined` elements contribute the empty string. */
  function Join(parts: seq<JsValue>): string {
    if |parts| == 0 then ""
    else
      var last := parts[|parts| - 1];
      Join(parts[..|parts| - 1]) + (if last.Str? then last.text else "")
  }

  lemma {:induction false} JoinOfUndefined(parts: seq<JsValue>)
    requires forall i :: 0 <= i < |parts| ==> parts[i] == Undefined
    ensures Join(parts) == ""
    decreases |parts|
  {
    if |parts| > 0 {
      JoinOfUndefined(parts[..|parts| - 1]);
    }
  }

  /**
   * `getDsColor` as written: "#" joined with six `undefined`s. Every data
   * source gets the same colour string "#".
   */
  function DsColor(ds: DataSource): (color: string)
    ensures color == "#"
  {
    var parts := seq(|ColorFactors|, k requires 0 <= k < |ColorFactors| => ColorDigitCallback(ColorFactors[k], ds.idx));
    JoinOfUndefined(parts);
    "#" + Join(parts)
  }

  /** `getData(dsIdx)`: the active archive's cells of column `dsIdx`, rows 0 .. rows-1, unchanged. */
  method GetData<V>(s: Session<V>, dsIdx: nat) returns (data: seq<V>)
    requires s.current.rraIdx < NrRRAs(s.rrd)
    ensures |data| == s.current.rows
    ensures forall i :: 0 <= i < |data| ==> data[i] == ActiveArchive(s).getEl(i, dsIdx)
  {
    var rra := ActiveArchive(s);
    data := [];
    var i := 0;
    while i < s.current.rows
      invariant 0 <= i <= s.current.rows
      invariant |data| == i
      invariant forall k :: 0 <= k < i ==> data[k] == rra.getEl(k, dsIdx)
    {
      var v := rra.getEl(i, dsIdx);
      data := data + [v];
      i := i + 1;
    }
  }

  /** The trace `createTrace` builds for `ds` from the current selection. */
  ghost predicate IsTraceOf<V>(s: Session<V>, ds: DataSource, t: Trace<V>)
    requires s.current.rraIdx < NrRRAs(s.rrd)
  {
    && t.name == DsName(ds)
    && t.x == s.current.dates
    && |t.y| == s.current.rows
    && (forall i :: 0 <= i < |t.y| ==> t.y[i] == ActiveArchive(s).getEl(i, ds.idx))
    && t.yaxis == DsAxis(ds)
    && t.color == DsColor(ds)
    && t.connectGaps
  }

  /** `createTrace(ds)`: the data source's name, the current axis as x, its column as y. */
  method CreateTrace<V>(s: Session<V>, ds: DataSource) returns (t: Trace<V>)
    requires s.current.rraIdx < NrRRAs(s.rrd)
    ensures IsTraceOf(s, ds, t)
    ensures Consistent(s) ==> |t.y| == |t.x|
  {
    var y := GetData(s, ds.idx);
    t := Trace(DsName(ds), s.current.dates, y, DsAxis(ds), DsColor(ds), true);
  }

  /** `createData()`: one trace per shown data source, in the order of the snapshot. */
  method CreateData<V>(s: Session<V>) returns (traces: seq<Trace<V>>)
    requires s.current.rraIdx < NrRRAs(s.rrd)
    ensures |traces| == |s.shownDSs|
    ensures forall k :: 0 <= k < |traces| ==> IsTraceOf(s, s.shownDSs[k], traces[k])
    ensures Consistent(s) ==> forall k :: 0 <= k < |traces| ==> traces[k].name == s.rrd.dsNames[k]
    ensures Consistent(s) ==> forall k :: 0 <= k < |traces| ==> |traces[k].y| == |traces[k].x|
  {
    traces := [];
    var k := 0;
    while k < |s.shownDSs|
      invariant 0 <= k <= |s.shownDSs|
      invariant |traces| == k
      invariant forall j :: 0 <= j < k ==> IsTraceOf(s, s.shownDSs[j], traces[j])
    {
      var t := CreateTrace(s, s.shownDSs[k]);
      traces := traces + [t];
      k := k + 1;
    }
  }
}
