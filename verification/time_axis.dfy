/**
 * The time axis of an archive: `rows` timestamps in epoch seconds, one step
 * apart, the first `rows * step` seconds before the last update and the last
 * one step before it. Nothing is clamped, so early timestamps may be negative.
 */
module TimeAxis {

  /** The axis as a closed form: entry i is lastUpdate - rows*step + i*step. */
  function Axis(lastUpdate: int, step: int, rows: nat): (dates: seq<int>)
    ensures |dates| == rows
  {
    seq(rows, i => lastUpdate - rows * step + i * step)
  }

  /** The loop of `initRra`: start at lastUpdate - rows*step and push `rows` timestamps, adding `step` after each. */
  method BuildDates(lastUpdate: int, step: int, rows: nat) returns (dates: seq<int>)
    ensures |dates| == rows
    ensures forall i :: 0 <= i < rows ==> dates[i] == lastUpdate - rows * step + i * step
    ensures dates == Axis(lastUpdate, step, rows)
  {
    var ts := lastUpdate - rows * step;
    dates := [];
    var i := 0;
    while i < rows
      invariant 0 <= i <= rows
      invariant ts == lastUpdate - rows * step + i * step
      invariant |dates| == i
      invariant forall k :: 0 <= k < i ==> dates[k] == lastUpdate - rows * step + k * step
    {
      dates := dates + [ts];
      ts := ts + step;
      i := i + 1;
    }
  }

  lemma MulSucc(i: int, step: int)
    ensures (i + 1) * step == i * step + step
  {
  }

  lemma MulStrictlyIncreasing(i: int, j: int, step: int)
    requires i < j && step > 0
    ensures i * step < j * step
  {
    assert j * step - i * step == (j - i) * step;
  }

  /** Consecutive entries of an axis are `step` apart. */
  lemma AxisSpacing(lastUpdate: int, step: int, rows: nat, i: nat)
    requires i + 1 < rows
    ensures Axis(lastUpdate, step, rows)[i + 1] == Axis(lastUpdate, step, rows)[i] + step
  {
    MulSucc(i, step);
  }

  /** The first entry is rows*step before the last update; the last entry is one step before it. */
  lemma AxisEnds(lastUpdate: int, step: int, rows: nat)
    requires rows > 0
    ensures Axis(lastUpdate, step, rows)[0] == lastUpdate - rows * step
    ensures Axis(lastUpdate, step, rows)[rows - 1] == lastUpdate - step
  {
    MulSucc(rows - 1, step);
  }

  /** With a positive step the axis is strictly increasing. */
  lemma AxisIncreasing(lastUpdate: int, step: int, rows: nat, i: nat, j: nat)
    requires step > 0 && i < j < rows
    ensures Axis(lastUpdate, step, rows)[i] < Axis(lastUpdate, step, rows)[j]
  {
    MulStrictlyIncreasing(i, j, step);
  }
}
