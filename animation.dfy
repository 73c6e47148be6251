/**
 The animation state and its frame driver. The figure holds the read-only
 table, one x buffer and one y buffer per particle that the frame update
 appends to, one trace line and one marker per particle, and the title.
 Drawing is not modelled: a line is only the points set on it.
 */
module Animation {
  import opened Table
  import opened Bounds
  import opened Title

  /** What a drawn line holds: the points set on it. */
  datatype Line = Line(xs: seq<real>, ys: seq<real>)

  class Figure {
    const df: seq<Sample>
    const steps: nat
    const limits: Limits
    var xData: seq<seq<real>>
    var yData: seq<seq<real>>
    var traces: seq<Line>
    var markers: seq<Line>
    var title: string
    /** The frames the update has been run for, in order. */
    ghost var played: seq<nat>

    /** The table is non-empty, the step count and the limits are the ones
        computed from it, and the buffers hold, for every particle, one
        coordinate per frame played, read from that frame's row. */
    ghost predicate Valid()
      reads this
    {
      && |df| > 0 && steps == Steps(|df|) && limits == PlotLimits(df)
      && FramesInRange(|df|, played)
      && |xData| == NPart && |yData| == NPart && |traces| == NPart && |markers| == NPart
      && (forall i :: 0 <= i < NPart ==> xData[i] == Column(df, played, i, X))
      && (forall i :: 0 <= i < NPart ==> yData[i] == Column(df, played, i, Y))
    }

    /** Every trace and marker is empty. */
    ghost predicate LinesCleared()
      reads this
    {
      && |traces| == NPart && |markers| == NPart
      && forall i :: 0 <= i < NPart ==> traces[i] == Line([], []) && markers[i] == Line([], [])
    }

    /** Every trace is drawn through its particle's whole buffers. */
    ghost predicate TracesFollowBuffers()
      reads this
    {
      && |xData| == NPart && |yData| == NPart && |traces| == NPart
      && forall i :: 0 <= i < NPart ==> traces[i] == Line(xData[i], yData[i])
    }

    /** The markers stand at the particles' positions of step `frame`, and
        the label names that frame. */
    ghost predicate Shows(frame: nat)
      reads this
    {
      && |markers| == NPart
      && title == FrameTitle(frame)
      && forall i :: 0 <= i < NPart ==>
        RowIndex(frame, i) < |df| && markers[i] == Line([df[RowIndex(frame, i)].x], [df[RowIndex(frame, i)].y])
    }

    /** The set-up before the animation: step count, empty buffers, one
        empty trace and marker per particle, limits from the whole table,
        empty title. */
    constructor (table: seq<Sample>)
      requires |table| > 0
      ensures Valid() && played == []
      ensures df == table && steps == Steps(|table|) && limits == PlotLimits(table)
      ensures forall i :: 0 <= i < NPart ==> xData[i] == [] && yData[i] == []
      ensures LinesCleared() && title == ""
    {
      df := table;
      steps := Steps(|table|);
      limits := PlotLimits(table);
      xData := seq(NPart, _ => []);
      yData := seq(NPart, _ => []);
      traces := seq(NPart, _ => Line([], []));
      markers := seq(NPart, _ => Line([], []));
      title := "";
      played := [];
    }

    /** Clears the points of every trace and marker; the buffers and the
        title stay as they are. */
    method Init()
      requires Valid()
      modifies this
      ensures Valid()
      ensures xData == old(xData) && yData == old(yData) && played == old(played) && title == old(title)
      ensures LinesCleared()
    {
      for i := 0 to NPart
        invariant xData == old(xData) && yData == old(yData) && played == old(played) && title == old(title)
        invariant |traces| == NPart && |markers| == NPart
        invariant forall j :: 0 <= j < i ==> traces[j] == Line([], []) && markers[j] == Line([], [])
        invariant forall j :: i <= j < NPart ==> traces[j] == old(traces[j]) && markers[j] == old(markers[j])
      {
        traces := traces[i := Line([], [])];
        markers := markers[i := Line([], [])];
      }
    }

    /** The corrected initialisation: clears every trace and marker and
        also empties every buffer, so that the next frames are drawn from a
        blank history. */
    method Restart()
      requires Valid()
      modifies this
      ensures Valid() && played == [] && title == old(title)
      ensures forall i :: 0 <= i < NPart ==> xData[i] == [] && yData[i] == []
      ensures LinesCleared()
    {
      for i := 0 to NPart
        invariant title == old(title)
        invariant |xData| == |yData| == |traces| == |markers| == NPart
        invariant forall j :: 0 <= j < i ==>
          xData[j] == [] && yData[j] == [] && traces[j] == Line([], []) && markers[j] == Line([], [])
      {
        xData := xData[i := []];
        yData := yData[i := []];
        traces := traces[i := Line([], [])];
        markers := markers[i := Line([], [])];
      }
      played := [];
    }

    /** One particle's part of a frame: reads the particle's row of that
        step, appends the position to its buffers, moves its marker there
        and sets its trace to the whole buffers. The other particles'
        buffers and lines are left alone. */
    method DrawParticle(frame: nat, i: nat)
      requires i < NPart && RowIndex(frame, i) < |df|
      requires |xData| == |yData| == |traces| == |markers| == NPart
      modifies this`xData, this`yData, this`markers, this`traces
      ensures |xData| == |yData| == |traces| == |markers| == NPart
      ensures xData == old(xData)[i := old(xData[i]) + [df[RowIndex(frame, i)].x]]
      ensures yData == old(yData)[i := old(yData[i]) + [df[RowIndex(frame, i)].y]]
      ensures markers == old(markers)[i := Line([df[RowIndex(frame, i)].x], [df[RowIndex(frame, i)].y])]
      ensures traces == old(traces)[i := Line(xData[i], yData[i])]
    {
      var idx := RowIndex(frame, i);
      var x, y := df[idx].x, df[idx].y;
      xData := xData[i := xData[i] + [x]];
      yData := yData[i := yData[i] + [y]];
      markers := markers[i := Line([x], [y])];
      traces := traces[i := Line(xData[i], yData[i])];
    }

    /** Draws one frame: every particle in turn takes its row of that step,
        then the frame is labelled. */
    method Update(frame: nat)
      requires Valid()
      requires frame < steps
      modifies this
      ensures Valid()
      ensures played == old(played) + [frame]
      ensures forall i :: 0 <= i < NPart ==>
        && RowIndex(frame, i) < |df|
        && xData[i] == old(xData[i]) + [df[RowIndex(frame, i)].x]
        && yData[i] == old(yData[i]) + [df[RowIndex(frame, i)].y]
        && traces[i] == Line(xData[i], yData[i])
      ensures Shows(frame)
    {
      FrameRowsInRange(|df|, frame);
      for i := 0 to NPart
        modifies this`xData, this`yData, this`markers, this`traces
        invariant |xData| == |yData| == |traces| == |markers| == NPart
        invariant forall j :: 0 <= j < i ==>
          && xData[j] == old(xData[j]) + [df[RowIndex(frame, j)].x]
          && yData[j] == old(yData[j]) + [df[RowIndex(frame, j)].y]
          && markers[j] == Line([df[RowIndex(frame, j)].x], [df[RowIndex(frame, j)].y])
          && traces[j] == Line(xData[j], yData[j])
        invariant forall j :: i <= j < NPart ==>
          xData[j] == old(xData[j]) && yData[j] == old(yData[j])
      {
        DrawParticle(frame, i);
      }
      title := FrameTitle(frame);
      assert FramesInRange(|df|, played + [frame]) && forall i :: 0 <= i < NPart ==>
        xData[i] == Column(df, played + [frame], i, X) && yData[i] == Column(df, played + [frame], i, Y)
      by {
        AllColumnsAppend(df, played, frame, X, old(xData), xData);
        AllColumnsAppend(df, played, frame, Y, old(yData), yData);
      }
      played := played + [frame];
    }
  }

  /** The frames 0 .. steps - 1, drawn in order. Afterwards the markers
      and the label show the last step; with no step at all nothing is
      drawn. */
  method PlayFrames(fig: Figure)
    requires fig.Valid()
    modifies fig
    ensures fig.Valid()
    ensures fig.played == old(fig.played) + Frames(fig.steps)
    ensures fig.steps > 0 ==> fig.Shows(fig.steps - 1) && fig.TracesFollowBuffers()
    ensures fig.steps == 0 ==> fig.markers == old(fig.markers) && fig.traces == old(fig.traces) && fig.title == old(fig.title)
  {
    ghost var before := fig.played;
    for frame := 0 to fig.steps
      invariant fig.Valid()
      invariant fig.played == before + Frames(frame)
      invariant frame == 0 ==> fig.markers == old(fig.markers) && fig.traces == old(fig.traces) && fig.title == old(fig.title)
      invariant frame > 0 ==> fig.Shows(frame - 1) && fig.TracesFollowBuffers()
    {
      fig.Update(frame);
      assert Frames(frame + 1) == Frames(frame) + [frame];
    }
  }

  /** One pass of the animation as the source sets it up: the lines are
      cleared once, then every frame is drawn in order. Started from a
      fresh figure, it leaves in every particle's buffers its positions
      over all whole steps, its marker at its last position and the last
      frame's label. */
  method Animate(fig: Figure)
    requires fig.Valid()
    modifies fig
    ensures fig.Valid()
    ensures fig.played == old(fig.played) + Frames(fig.steps)
    ensures old(fig.played) == [] ==> forall i :: 0 <= i < NPart ==>
      fig.xData[i] == ColumnSlice(fig.df, fig.steps, i, X) && fig.yData[i] == ColumnSlice(fig.df, fig.steps, i, Y)
    ensures fig.steps == 0 ==> fig.LinesCleared() && fig.title == old(fig.title)
    ensures fig.steps > 0 ==> fig.Shows(fig.steps - 1) && fig.TracesFollowBuffers()
  {
    fig.Init();
    ghost var before := fig.played;
    PlayFrames(fig);
    if before == [] {
      assert fig.played == Frames(fig.steps);
      forall i | 0 <= i < NPart
        ensures fig.xData[i] == ColumnSlice(fig.df, fig.steps, i, X)
        ensures fig.yData[i] == ColumnSlice(fig.df, fig.steps, i, Y)
      {
        assert fig.xData[i] == Column(fig.df, Frames(fig.steps), i, X);
        assert fig.yData[i] == Column(fig.df, Frames(fig.steps), i, Y);
        InOrderColumn(fig.df, fig.steps, i, X);
        InOrderColumn(fig.df, fig.steps, i, Y);
      }
    }
  }

  /** `fs` played `n` times over. */
  function Repeated(fs: seq<nat>, n: nat): (r: seq<nat>)
    ensures |r| == n * |fs|
  {
    if n == 0 then [] else Repeated(fs, n - 1) + fs
  }

  /** Pass p of a repetition replays `fs` entry by entry. */
  lemma {:induction false} RepeatedAt(fs: seq<nat>, n: nat, p: nat, j: nat)
    requires p < n && j < |fs|
    ensures p * |fs| + j < |Repeated(fs, n)| && Repeated(fs, n)[p * |fs| + j] == fs[j]
  {
    var earlier := Repeated(fs, n - 1);
    assert |earlier| == (n - 1) * |fs|;
    if p < n - 1 {
      RepeatedAt(fs, n - 1, p, j);
    } else {
      assert p * |fs| == |earlier|;
    }
  }

  /** The animation as the plotting library runs it by default: the pass
      above, repeated, each repetition starting with the same
      initialisation. The buffers keep every earlier pass. */
  method AnimateRepeatedly(fig: Figure, passes: nat)
    requires fig.Valid()
    modifies fig
    ensures fig.Valid()
    ensures fig.played == old(fig.played) + Repeated(Frames(fig.steps), passes)
    ensures passes == 0 ==> fig.xData == old(fig.xData) && fig.yData == old(fig.yData)
    ensures passes == 0 ==> fig.traces == old(fig.traces) && fig.markers == old(fig.markers) && fig.title == old(fig.title)
    ensures passes > 0 && fig.steps == 0 ==> fig.LinesCleared()
    ensures passes > 0 && fig.steps > 0 ==> fig.Shows(fig.steps - 1) && fig.TracesFollowBuffers()
  {
    ghost var before := fig.played;
    for p := 0 to passes
      invariant fig.Valid()
      invariant fig.played == before + Repeated(Frames(fig.steps), p)
      invariant p == 0 ==> fig.xData == old(fig.xData) && fig.yData == old(fig.yData)
      invariant p == 0 ==> fig.traces == old(fig.traces) && fig.markers == old(fig.markers) && fig.title == old(fig.title)
      invariant p > 0 && fig.steps == 0 ==> fig.LinesCleared()
      invariant p > 0 && fig.steps > 0 ==> fig.Shows(fig.steps - 1) && fig.TracesFollowBuffers()
    {
      Animate(fig);
    }
  }

  /** As written, the first frame of a repeated pass does not show the
      trace the first frame of the first pass showed: the buffers still
      hold the whole earlier pass, and the new point is appended after
      it. */
  lemma {:induction false} ReplayKeepsEarlierPass(df: seq<Sample>, i: nat, axis: Axis)
    requires i < NPart && Steps(|df|) > 0
    ensures FramesInRange(|df|, Frames(Steps(|df|)) + Frames(1))
    ensures Column(df, Frames(Steps(|df|)) + Frames(1), i, axis)
      == ColumnSlice(df, Steps(|df|), i, axis) + ColumnSlice(df, 1, i, axis)
    ensures Column(df, Frames(Steps(|df|)) + Frames(1), i, axis) != Column(df, Frames(1), i, axis)
  {
    var s := Steps(|df|);
    var first := ColumnSlice(df, 1, i, axis);
    assert Frames(1) == [0];
    assert first == [Coord(df[RowIndex(0, i)], axis)] by {
      assert |first| == 1 && first[0] == Coord(df[RowIndex(0, i)], axis);
    }
    ColumnAppend(df, Frames(s), 0, i, axis);
    InOrderColumn(df, s, i, axis);
    assert |Column(df, Frames(s) + [0], i, axis)| == s + 1;
  }

  /** The corrected loop: every pass starts from a blank history, so after
      any number of passes each particle's buffers hold exactly its
      positions over all whole steps, as after the first. */
  method AnimateRestarting(fig: Figure, passes: nat)
    requires fig.Valid()
    modifies fig
    ensures fig.Valid()
    ensures passes == 0 ==> fig.played == old(fig.played) && fig.xData == old(fig.xData) && fig.yData == old(fig.yData)
    ensures passes == 0 ==> fig.traces == old(fig.traces) && fig.markers == old(fig.markers) && fig.title == old(fig.title)
    ensures passes > 0 ==> fig.played == Frames(fig.steps)
    ensures passes > 0 ==> forall i :: 0 <= i < NPart ==>
      fig.xData[i] == ColumnSlice(fig.df, fig.steps, i, X) && fig.yData[i] == ColumnSlice(fig.df, fig.steps, i, Y)
    ensures passes > 0 && fig.steps == 0 ==> fig.LinesCleared()
    ensures passes > 0 && fig.steps > 0 ==> fig.Shows(fig.steps - 1) && fig.TracesFollowBuffers()
  {
    for p := 0 to passes
      invariant fig.Valid()
      invariant p == 0 ==> fig.played == old(fig.played) && fig.xData == old(fig.xData) && fig.yData == old(fig.yData)
      invariant p == 0 ==> fig.traces == old(fig.traces) && fig.markers == old(fig.markers) && fig.title == old(fig.title)
      invariant p > 0 ==> fig.played == Frames(fig.steps)
      invariant p > 0 && fig.steps == 0 ==> fig.LinesCleared()
      invariant p > 0 && fig.steps > 0 ==> fig.Shows(fig.steps - 1) && fig.TracesFollowBuffers()
    {
      fig.Restart();
      PlayFrames(fig);
    }
    if passes > 0 {
      forall i | 0 <= i < NPart
        ensures fig.xData[i] == ColumnSlice(fig.df, fig.steps, i, X)
        ensures fig.yData[i] == ColumnSlice(fig.df, fig.steps, i, Y)
      {
        assert fig.xData[i] == Column(fig.df, Frames(fig.steps), i, X);
        assert fig.yData[i] == Column(fig.df, Frames(fig.steps), i, Y);
        InOrderColumn(fig.df, fig.steps, i, X);
        InOrderColumn(fig.df, fig.steps, i, Y);
      }
    }
  }
}
