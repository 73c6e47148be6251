/**
 The simulation table and the way the animation indexes it. The file holds
 one row per particle per time step: the rows of one step are NPart
 consecutive rows, particles always in the same order, so particle i at
 step `frame` is the row `frame * NPart + i`.
 */
module Table {

  /** One row of the table: a particle position. z is never drawn. */
  datatype Sample = Sample(x: real, y: real, z: real)

  /** The two columns the animation draws. */
  datatype Axis = X | Y

  function Coord(s: Sample, axis: Axis): real
  {
    match axis
    case X => s.x
    case Y => s.y
  }

  /** Number of particles (`n_part`). */
  const NPart: nat := 3

  /** The literal the step count is divided by. The source writes it apart
      from NPart; every in-range fact below holds because the two agree. */
  const StepDivisor: nat := 3

  /** Number of animation frames: the whole blocks of rows. A trailing
      partial block is dropped by the integer division. */
  function Steps(rowCount: nat): (s: nat)
    ensures s * StepDivisor <= rowCount < (s + 1) * StepDivisor
  {
    rowCount / StepDivisor
  }

  /** The flat row read for particle i at step `frame`. */
  function RowIndex(frame: nat, i: nat): nat
  {
    frame * NPart + i
  }

  /** All rows a frame reads exist exactly when the frame is below the step
      count: the animation never reads past the table, and no frame it
      could read completely is left out. */
  lemma FrameRowsInRange(rowCount: nat, frame: nat)
    ensures (forall i :: 0 <= i < NPart ==> RowIndex(frame, i) < rowCount) <==> frame < Steps(rowCount)
  {
    assert NPart == StepDivisor;
    if forall i :: 0 <= i < NPart ==> RowIndex(frame, i) < rowCount {
      assert RowIndex(frame, NPart - 1) < rowCount;
    }
  }

  /** Distinct (frame, particle) pairs read distinct rows. */
  lemma RowIndexInjective(f1: nat, i1: nat, f2: nat, i2: nat)
    requires i1 < NPart && i2 < NPart
    ensures RowIndex(f1, i1) == RowIndex(f2, i2) <==> f1 == f2 && i1 == i2
  {
  }

  /** Every row of the whole blocks is read by exactly one in-range frame
      and particle; the rows from Steps(rowCount) * NPart on are read by
      none. */
  lemma RowOwner(rowCount: nat, r: nat)
    ensures var f, i := r / NPart, r % NPart;
      i < NPart && RowIndex(f, i) == r && (f < Steps(rowCount) <==> r < Steps(rowCount) * NPart)
  {
  }

  /** `frames` is a list of frames the animation may draw. */
  predicate FramesInRange(rowCount: nat, frames: seq<nat>)
  {
    forall k :: 0 <= k < |frames| ==> frames[k] < Steps(rowCount)
  }

  /** The contents of particle i's buffer on one axis after the frame update
      has run for `frames`, in that order: each run appends one coordinate,
      so the buffer has one entry per run. */
  function Column(df: seq<Sample>, frames: seq<nat>, i: nat, axis: Axis): (c: seq<real>)
    requires i < NPart && FramesInRange(|df|, frames)
    ensures |c| == |frames|
    decreases |frames|
  {
    if frames == [] then []
    else
      var last := frames[|frames| - 1];
      FrameRowsInRange(|df|, last);
      Column(df, frames[..|frames| - 1], i, axis) + [Coord(df[RowIndex(last, i)], axis)]
  }

  /** Entry k of a buffer is the particle's coordinate in the row of the
      k-th frame drawn. */
  lemma {:induction false} ColumnAt(df: seq<Sample>, frames: seq<nat>, i: nat, axis: Axis)
    requires i < NPart && FramesInRange(|df|, frames)
    ensures forall k :: 0 <= k < |frames| ==>
      RowIndex(frames[k], i) < |df| && Column(df, frames, i, axis)[k] == Coord(df[RowIndex(frames[k], i)], axis)
    decreases |frames|
  {
    if frames != [] {
      var init := frames[..|frames| - 1];
      ColumnAt(df, init, i, axis);
      FrameRowsInRange(|df|, frames[|frames| - 1]);
      forall k | 0 <= k < |init|
        ensures RowIndex(frames[k], i) < |df|
      {
        FrameRowsInRange(|df|, frames[k]);
      }
    }
  }

  /** The frames 0, 1, ..., k - 1. */
  function Frames(k: nat): (fs: seq<nat>)
    ensures |fs| == k && forall j :: 0 <= j < k ==> fs[j] == j
  {
    if k == 0 then [] else Frames(k - 1) + [k - 1]
  }

  /** Particle i's positions on one axis over the first k steps, read
      straight from the table. */
  function ColumnSlice(df: seq<Sample>, k: nat, i: nat, axis: Axis): (c: seq<real>)
    requires i < NPart && k <= Steps(|df|)
  {
    seq(k, j requires 0 <= j < k => FrameRowsInRange(|df|, j); Coord(df[RowIndex(j, i)], axis))
  }

  /** One more frame appends exactly one coordinate and keeps the earlier
      ones. */
  lemma ColumnAppend(df: seq<Sample>, frames: seq<nat>, frame: nat, i: nat, axis: Axis)
    requires i < NPart && FramesInRange(|df|, frames) && frame < Steps(|df|)
    ensures FramesInRange(|df|, frames + [frame])
    ensures Column(df, frames + [frame], i, axis) == Column(df, frames, i, axis) + [Coord(df[RowIndex(frame, i)], axis)]
  {
    assert (frames + [frame])[..|frames|] == frames;
  }

  /** When every particle's buffer held its column for `frames` and each
      gets the coordinate of its row of `frame` appended, every buffer holds
      its column for `frames + [frame]`. */
  lemma AllColumnsAppend(df: seq<Sample>, frames: seq<nat>, frame: nat, axis: Axis, before: seq<seq<real>>, after: seq<seq<real>>)
    requires FramesInRange(|df|, frames) && frame < Steps(|df|)
    requires |before| == NPart && |after| == NPart
    requires forall i :: 0 <= i < NPart ==> before[i] == Column(df, frames, i, axis)
    requires forall i :: 0 <= i < NPart ==> RowIndex(frame, i) < |df| && after[i] == before[i] + [Coord(df[RowIndex(frame, i)], axis)]
    ensures FramesInRange(|df|, frames + [frame])
    ensures forall i :: 0 <= i < NPart ==> after[i] == Column(df, frames + [frame], i, axis)
  {
    forall i | 0 <= i < NPart
      ensures after[i] == Column(df, frames + [frame], i, axis)
    {
      ColumnAppend(df, frames, frame, i, axis);
    }
  }

  /** Drawing frames 0 .. k - 1 in order leaves in particle i's buffer
      exactly its coordinates over the first k steps. */
  lemma {:induction false} InOrderColumn(df: seq<Sample>, k: nat, i: nat, axis: Axis)
    requires i < NPart && k <= Steps(|df|)
    ensures FramesInRange(|df|, Frames(k))
    ensures Column(df, Frames(k), i, axis) == ColumnSlice(df, k, i, axis)
  {
    ColumnAt(df, Frames(k), i, axis);
  }

  /** Later frames never change what earlier frames appended. */
  lemma ColumnPrefix(df: seq<Sample>, frames: seq<nat>, more: seq<nat>, i: nat, axis: Axis)
    requires i < NPart && FramesInRange(|df|, frames + more)
    ensures FramesInRange(|df|, frames)
    ensures Column(df, frames, i, axis) == Column(df, frames + more, i, axis)[..|frames|]
  {
    assert forall k :: 0 <= k < |frames| ==> (frames + more)[k] == frames[k];
    ColumnAt(df, frames, i, axis);
    ColumnAt(df, frames + more, i, axis);
  }

  /** The trailing partial block is never read: dropping it changes no
      buffer. */
  lemma TrailingRowsIgnored(df: seq<Sample>, frames: seq<nat>, i: nat, axis: Axis)
    requires i < NPart && FramesInRange(|df|, frames)
    ensures Steps(Steps(|df|) * NPart) == Steps(|df|)
    ensures Column(df, frames, i, axis) == Column(df[..Steps(|df|) * NPart], frames, i, axis)
  {
    var n := Steps(|df|) * NPart;
    assert Steps(n) == Steps(|df|);
    forall k | 0 <= k < |frames|
      ensures RowIndex(frames[k], i) < n
    {
      RowOwner(|df|, RowIndex(frames[k], i));
    }
    ColumnAt(df, frames, i, axis);
    ColumnAt(df[..n], frames, i, axis);
  }
}
