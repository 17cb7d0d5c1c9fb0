/**
 * The parsed RRD file as the plotting class sees it: an immutable value with
 * a list of data sources, a list of round-robin archives and the instant of
 * the last update. The binary parser that builds it is not part of this model.
 */
module RrdFile {

  /** A data source: its 0-based index in the file and its name. */
  datatype DataSource = DataSource(idx: nat, name: string)

  /**
   * One round-robin archive: seconds per row, number of rows, and its cell
   * reader `getEl(row, dsIdx)` over opaque cell values (numbers, gaps, NaN).
   */
  datatype Archive<V> = Archive(step: nat, rows: nat, getEl: (int, int) -> V)

  /** The parsed file: archives in declaration order, data source names in index order, last update in epoch seconds. */
  datatype Rrd<V> = Rrd(archives: seq<Archive<V>>, dsNames: seq<string>, lastUpdate: int)

  /** Every archive of a well-formed file has a positive step and at least one row. */
  predicate ValidArchive<V>(a: Archive<V>) {
    a.step > 0 && a.rows > 0
  }

  /** A file the plotting class can display: at least one archive, all of them well formed. */
  predicate Valid<V>(rrd: Rrd<V>) {
    && |rrd.archives| > 0
    && forall i :: 0 <= i < |rrd.archives| ==> ValidArchive(rrd.archives[i])
  }

  function NrDSs<V>(rrd: Rrd<V>): nat {
    |rrd.dsNames|
  }

  function NrRRAs<V>(rrd: Rrd<V>): nat {
    |rrd.archives|
  }

  /** The data source at index `i`, carrying that index. */
  function GetDS<V>(rrd: Rrd<V>, i: nat): (ds: DataSource)
    requires i < NrDSs(rrd)
    ensures ds.idx == i
  {
    DataSource(i, rrd.dsNames[i])
  }

  /** `dss` lists every data source of the file once, in index order. */
  predicate IsSnapshot<V>(rrd: Rrd<V>, dss: seq<DataSource>) {
    && |dss| == NrDSs(rrd)
    && forall i :: 0 <= i < |dss| ==> dss[i] == GetDS(rrd, i)
  }

  /** There is only one snapshot of a file's data sources. */
  lemma SnapshotUnique<V>(rrd: Rrd<V>, a: seq<DataSource>, b: seq<DataSource>)
    requires IsSnapshot(rrd, a) && IsSnapshot(rrd, b)
    ensures a == b
  {
  }
}
