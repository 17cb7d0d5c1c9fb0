/**
 * The state of one `RrdPlotly` instance after loading: the file, the last
 * update and data source snapshot fixed by `initRrd`, and the current
 * selection (archive index, row count, time axis) replaced by `initRra`.
 */
module Session {
  import opened RrdFile
  import TimeAxis

  /** What `initRra` sets: the active archive, its row count and its time axis. */
  datatype Selection = Selection(rraIdx: nat, rows: nat, dates: seq<int>)

  /** The whole plotting state; only `current` ever changes after loading. */
  datatype Session<V> = Session(rrd: Rrd<V>, lastUpdate: int, shownDSs: seq<DataSource>, current: Selection)

  /** The selection that archive `idx` determines. */
  function SelectionOf<V>(rrd: Rrd<V>, lastUpdate: int, idx: nat): Selection
    requires idx < NrRRAs(rrd)
  {
    var a := rrd.archives[idx];
    Selection(idx, a.rows, TimeAxis.Axis(lastUpdate, a.step, a.rows))
  }

  /** The state after switching to archive `idx`: everything but the selection is kept. */
  function Select<V>(s: Session<V>, idx: nat): Session<V>
    requires idx < NrRRAs(s.rrd)
  {
    s.(current := SelectionOf(s.rrd, s.lastUpdate, idx))
  }

  /**
   * The invariant of a loaded session: the fixed parts agree with the file,
   * the archive index is in range, and rows and axis belong to that archive.
   */
  predicate Consistent<V>(s: Session<V>) {
    && Valid(s.rrd)
    && s.lastUpdate == s.rrd.lastUpdate
    && IsSnapshot(s.rrd, s.shownDSs)
    && s.current.rraIdx < NrRRAs(s.rrd)
    && s.current == SelectionOf(s.rrd, s.lastUpdate, s.current.rraIdx)
  }

  /** The active archive of a session whose index is in range. */
  function ActiveArchive<V>(s: Session<V>): Archive<V>
    requires s.current.rraIdx < NrRRAs(s.rrd)
  {
    s.rrd.archives[s.current.rraIdx]
  }

  /** `getShownDSs`: enumerates data sources 0 .. getNrDSs()-1 in order. */
  method GetShownDSs<V>(rrd: Rrd<V>) returns (dss: seq<DataSource>)
    ensures |dss| == NrDSs(rrd)
    ensures forall i :: 0 <= i < |dss| ==> dss[i].idx == i && dss[i].name == rrd.dsNames[i]
    ensures IsSnapshot(rrd, dss)
  {
    dss := [];
    var i := 0;
    while i < NrDSs(rrd)
      invariant 0 <= i <= NrDSs(rrd)
      invariant |dss| == i
      invariant forall k :: 0 <= k < i ==> dss[k] == DataSource(k, rrd.dsNames[k])
    {
      var ds := GetDS(rrd, i);
      dss := dss + [ds];
      i := i + 1;
    }
  }

  /**
   * `initRra(idx)`: makes archive `idx` current and rebuilds the time axis;
   * the file, last update and data source snapshot are left as they were.
   */
  method InitRra<V>(s: Session<V>, idx: nat) returns (s': Session<V>)
    requires idx < NrRRAs(s.rrd)
    ensures s'.rrd == s.rrd && s'.lastUpdate == s.lastUpdate && s'.shownDSs == s.shownDSs
    ensures s'.current.rraIdx == idx
    ensures s'.current.rows == s.rrd.archives[idx].rows == |s'.current.dates|
    ensures forall i :: 0 <= i < s'.current.rows ==>
              s'.current.dates[i] == s.lastUpdate - s'.current.rows * s.rrd.archives[idx].step + i * s.rrd.archives[idx].step
    ensures s' == Select(s, idx)
    ensures Valid(s.rrd) && s.lastUpdate == s.rrd.lastUpdate && IsSnapshot(s.rrd, s.shownDSs) ==> Consistent(s')
  {
    var a := s.rrd.archives[idx];
    var rows := a.rows;
    var step := a.step;
    var dates := TimeAxis.BuildDates(s.lastUpdate, step, rows);
    s' := s.(current := Selection(idx, rows, dates));
  }

  /**
   * `initRrd(rrd)`: takes the data source snapshot and the last update once,
   * then selects archive 0.
   */
  method InitRrd<V>(rrd: Rrd<V>) returns (s: Session<V>)
    requires Valid(rrd)
    ensures Consistent(s)
    ensures s.rrd == rrd && s.lastUpdate == rrd.lastUpdate
    ensures s.current.rraIdx == 0
  {
    var shown := GetShownDSs(rrd);
    var loading := Session(rrd, rrd.lastUpdate, shown, Selection(0, 0, []));
    s := InitRra(loading, 0);
  }

  /** Switching archives keeps a loaded session consistent and touches only the selection. */
  lemma SelectPreservesConsistent<V>(s: Session<V>, idx: nat)
    requires Consistent(s) && idx < NrRRAs(s.rrd)
    ensures Consistent(Select(s, idx))
    ensures Select(s, idx).current.rraIdx == idx
    ensures Select(s, idx).(current := s.current) == s
  {
  }

  /** A consistent session is determined by its file and its archive index. */
  lemma ConsistentUnique<V>(s: Session<V>, t: Session<V>)
    requires Consistent(s) && Consistent(t)
    requires s.rrd == t.rrd && s.current.rraIdx == t.current.rraIdx
    ensures s == t
  {
    SnapshotUnique(s.rrd, s.shownDSs, t.shownDSs);
  }

  /** Selecting the same archive twice gives the state one selection gives. */
  lemma SelectIdempotent<V>(s: Session<V>, idx: nat)
    requires idx < NrRRAs(s.rrd)
    ensures Select(Select(s, idx), idx) == Select(s, idx)
  {
  }

  /** The result of a switch does not depend on which archive was shown before. */
  lemma SelectForgetsPrevious<V>(s: Session<V>, i: nat, j: nat)
    requires i < NrRRAs(s.rrd) && j < NrRRAs(s.rrd)
    ensures Select(Select(s, j), i) == Select(s, i)
  {
  }

  /**
   * The time axis of a consistent session has one entry per row, entries one
   * step apart, strictly increasing, ending one step before the last update.
   */
  lemma ConsistentAxis<V>(s: Session<V>)
    requires Consistent(s)
    ensures |s.current.dates| == s.current.rows == ActiveArchive(s).rows > 0
    ensures s.current.dates[0] == s.lastUpdate - ActiveArchive(s).rows * ActiveArchive(s).step
    ensures s.current.dates[|s.current.dates| - 1] == s.lastUpdate - ActiveArchive(s).step
    ensures forall i :: 0 <= i < |s.current.dates| - 1 ==> s.current.dates[i + 1] == s.current.dates[i] + ActiveArchive(s).step
    ensures forall i, j :: 0 <= i < j < |s.current.dates| ==> s.current.dates[i] < s.current.dates[j]
  {
    var a := ActiveArchive(s);
    assert ValidArchive(s.rrd.archives[s.current.rraIdx]);
    TimeAxis.AxisEnds(s.lastUpdate, a.step, a.rows);
    forall i | 0 <= i < |s.current.dates| - 1
      ensures s.current.dates[i + 1] == s.current.dates[i] + a.step
    {
      TimeAxis.AxisSpacing(s.lastUpdate, a.step, a.rows, i);
    }
    forall i, j | 0 <= i < j < |s.current.dates|
      ensures s.current.dates[i] < s.current.dates[j]
    {
      TimeAxis.AxisIncreasing(s.lastUpdate, a.step, a.rows, i, j);
    }
  }
}
