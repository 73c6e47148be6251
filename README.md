# Particle trajectory animation, modelled in Dafny

The program reads a simulation output table of particle positions, one row
`(x, y, z)` per particle per time step, with the rows of one step stored
together (`n_part = 3` of them, particles always in the same order). It
then animates the trajectories in the plane. This project models the two
pieces of logic in it:

* **The plot bounds** (module `Bounds`, `bounds.dfy`). These are the
  column-wise minimum and maximum of x and y over the whole table. Both axes
  are padded by one margin, a tenth of the larger span, so that every
  particle stays visible at every step.
* **The frame driver** (modules `Table`, `Title` and `Animation`). The
  class `Animation.Figure` holds:
  * the read-only table;
  * the step count `steps = int(len(df) / 3)`, the number of whole 3-row blocks;
  * the axis limits;
  * one x buffer and one y buffer per particle (`x_data`, `y_data`);
  * one trace and one marker per particle, each reduced to the points set
    on it;
  * the title.

  `Init` clears the lines. `Update(frame)` loops over the particles. For
  each particle it reads row `frame * n_part + i`, appends that row's x and
  y to the particle's buffers, moves the marker there and sets the trace to
  the whole buffers. It then sets the title to `t = <frame>`. `Animate`
  is the library's animation loop: `init` once, then frames
  `0 .. steps - 1` in order.

The function `Table.Column` is the specification of a buffer. It gives the
contents of particle i's buffer after the update has run for a given list
of frames, in order. `Figure.Valid()` keeps every buffer equal to its
`Column` for the frames drawn so far. It also keeps the step count and the
limits equal to the ones computed from the whole table. The frames drawn
are kept in a ghost history, `played`.

The source writes the step divisor as the literal `3`, apart from
`n_part = 3`. The model keeps both, as `Table.StepDivisor` and
`Table.NPart`. The in-range proof (`Table.FrameRowsInRange`) holds because
the two are equal, and its proof states that equality.

Two facts about the code shape the model:
* The animation is created without turning repetition off, so the
  library's default applies. It repeats the animation and runs `init` again
  before each pass. `AnimateRepeatedly` models this; see Findings.
* The number of particles is fixed at `n_part = 3`, and so is `NPart`.

## Model

| member | source | states |
|---|---|---|
| Table.Steps | students/mpj/course_exercise_1/Graphics/figures.py:11 | The step count is the number of whole blocks of rows: `steps * 3 <= len(df) < (steps + 1) * 3`. A trailing partial block is dropped. |
| Table.FrameRowsInRange | students/mpj/course_exercise_1/Graphics/figures.py:56-58 | Every row `frame * n_part + i` (for `i < n_part`) exists if and only if `frame < steps`. This holds because `n_part` (line 10) equals the literal divisor (line 11). |
| Table.RowIndexInjective | students/mpj/course_exercise_1/Graphics/figures.py:57 | Two (frame, particle) pairs read the same row only if they are the same pair. |
| Table.RowOwner | students/mpj/course_exercise_1/Graphics/figures.py:57 | Row r is read by frame `r / n_part` for particle `r % n_part`. That frame is below `steps` exactly when r is below `steps * n_part`, so the rows after the whole blocks are never read. |
| Table.Column | students/mpj/course_exercise_1/Graphics/figures.py:59-60 | A particle's buffer after a list of updates has exactly one entry per update. |
| Table.ColumnAt | students/mpj/course_exercise_1/Graphics/figures.py:57-60 | Entry k of particle i's buffer is that particle's coordinate in the row of the k-th frame drawn, and that row exists. |
| Table.Frames | students/mpj/course_exercise_1/Graphics/figures.py:70 | The frames the animation draws are 0, 1, ..., steps - 1, in this order. |
| Table.ColumnAppend | students/mpj/course_exercise_1/Graphics/figures.py:59-60 | One more update appends exactly one coordinate, from the new frame's row, and keeps the earlier entries. |
| Table.AllColumnsAppend | students/mpj/course_exercise_1/Graphics/figures.py:56-60 | If every particle's buffer got its new row's coordinate appended, every buffer is the column of the extended frame list. |
| Table.InOrderColumn | students/mpj/course_exercise_1/Graphics/figures.py:55-60 | After frames 0 .. k-1 in order, particle i's buffer is exactly its column slice: entry j comes from row `j * n_part + i`. |
| Table.ColumnPrefix | students/mpj/course_exercise_1/Graphics/figures.py:59-60 | Later updates never change or remove what earlier updates appended. |
| Table.TrailingRowsIgnored | students/mpj/course_exercise_1/Graphics/figures.py:11 | Cutting the table to its whole blocks leaves every buffer the same. |
| Bounds.Lowest | students/mpj/course_exercise_1/Graphics/figures.py:30-31 | A column's minimum is no larger than any row's value, and some row has it. |
| Bounds.Highest | students/mpj/course_exercise_1/Graphics/figures.py:30-31 | A column's maximum is no smaller than any row's value, and some row has it. |
| Bounds.PadBox | students/mpj/course_exercise_1/Graphics/figures.py:34-37 | Both axes are padded on both sides by the same amount. Ten times that amount covers both spans and equals one of them, so it is a tenth of the larger span. It is never negative when one of the spans is non-negative. |
| Bounds.PlotLimits | students/mpj/course_exercise_1/Graphics/figures.py:30-37 | Every sample's x lies within the x limits and its y within the y limits. |
| Bounds.ExtremesWithin | students/mpj/course_exercise_1/Graphics/figures.py:30-31 | If every row of one table occurs in another, its column extremes lie within the other's. |
| Bounds.LimitsIgnoreRowOrder | students/mpj/course_exercise_1/Graphics/figures.py:30-37 | The limits do not depend on the order of the rows. |
| Bounds.ZeroWidthIffOnePoint | students/mpj/course_exercise_1/Graphics/figures.py:33-37 | The computed x limits coincide if and only if every sample has the same (x, y). The margin gives no protection against that case. |
| Title.Decimal | students/mpj/course_exercise_1/Graphics/figures.py:64 | A frame number is written as a non-empty string of digits with no leading zero, and 0 is written as the single digit `0`. |
| Title.DecimalRoundTrip | students/mpj/course_exercise_1/Graphics/figures.py:64 | Reading the digits back gives the number. |
| Title.FrameTitle | students/mpj/course_exercise_1/Graphics/figures.py:64 | A label is `t = ` followed by the frame's digits, with no leading zero. Frame 0 is labelled `t = 0`. |
| Title.FrameTitleNamesFrame | students/mpj/course_exercise_1/Graphics/figures.py:64 | The frame can be read back from its label, and two frames share a label only if they are equal. |
| Animation.Figure.constructor | students/mpj/course_exercise_1/Graphics/figures.py:10-43 | The setup computes the step count from the row count and the limits from the whole table. Each particle starts with empty buffers and empty lines, and the title is empty. |
| Animation.Figure.Init | students/mpj/course_exercise_1/Graphics/figures.py:47-51 | Every trace and marker is cleared. The buffers, the frame history and the title are unchanged. |
| Animation.Figure.DrawParticle | students/mpj/course_exercise_1/Graphics/figures.py:57-62 | Only particle i changes. Its buffers gain that step's x and y, its marker holds exactly that point, and its trace holds the whole buffers. |
| Animation.Figure.Update | students/mpj/course_exercise_1/Graphics/figures.py:55-66 | Requires `frame < steps`, so every row read exists. Every buffer gains exactly one element, from its particle's row. Every marker holds that point and every trace its whole buffers. The title is `t = frame`. The buffers stay equal to their columns. |
| Animation.PlayFrames | students/mpj/course_exercise_1/Graphics/figures.py:70 | Frames 0 .. steps-1 are drawn in order. Afterwards the markers and the title show the last step and every trace is drawn through its whole buffers. With no whole step, no line and not the title changes. |
| Animation.Animate | students/mpj/course_exercise_1/Graphics/figures.py:70 | One pass of `init` followed by every frame. From a fresh figure, it leaves every buffer equal to its particle's full column slice. The markers and title show the last step, and every trace is drawn through its whole buffers. With no whole step, the lines stay cleared. |
| Animation.Repeated | students/mpj/course_exercise_1/Graphics/figures.py:70 | n passes over the frames draw n times as many frames. |
| Animation.RepeatedAt | students/mpj/course_exercise_1/Graphics/figures.py:70 | Entry j of pass p of a repetition is entry j of the frames: every pass draws the same frames in the same order. |
| Animation.AnimateRepeatedly | students/mpj/course_exercise_1/Graphics/figures.py:70 | The library's default repeating loop: the history gains the frames once per pass, so the buffers accumulate every pass. After at least one pass, the markers and title show the last step and every trace is drawn through its whole buffers, or, with no whole step, the lines are cleared. With no pass, nothing changes. |
| Animation.ReplayKeepsEarlierPass | students/mpj/course_exercise_1/Graphics/figures.py:47-62 | At the first frame of a second pass, a buffer holds the whole first pass followed by step 0. This differs from what the first frame of the first pass showed. |
| Animation.Figure.Restart | students/mpj/course_exercise_1/Graphics/figures.py:47-51 | Corrected `init`: it also empties the buffers and the frame history, and it clears every line. |
| Animation.AnimateRestarting | students/mpj/course_exercise_1/Graphics/figures.py:70 | The corrected loop: after one or more passes, every buffer is exactly its particle's full column slice. The markers and title show the last step and every trace is drawn through its whole buffers, or, with no whole step, the lines are cleared. With no pass, nothing changes. |

## Findings

| source | as written | input that shows it | evidently intended | confidence | as-written member | corrected member |
|---|---|---|---|---|---|---|
| students/mpj/course_exercise_1/Graphics/figures.py:47-51 | `init` clears the lines but not `x_data`/`y_data`. The animation is created with the library's default, which repeats the animation and calls `init` before each pass. So at frame 0 of the second pass, every trace is drawn through the whole first pass and then jumps back to the start. | Any table with at least 3 rows, once the animation reaches frame 0 of its second pass. | Each pass draws every trace from step 0, as the first pass does. | medium: rests on the library's default of repeating; not executed | Animation.ReplayKeepsEarlierPass | Animation.AnimateRestarting |

## Left out

- Reading the file (figures.py:6-8, a hard-coded path and a whitespace-separated parse) is I/O. The table is a parameter, a sequence of `Sample` values.
- The constructor requires a non-empty table. Reading an empty file fails before any of this code runs, and the minimum of an empty column is not a number.
- Labels and row positions: `df.loc` looks rows up by label. With the default index a row's label is its position, and the model uses positions.
- Drawing is not modelled: figure and axes creation, line styles, the `colors` list, the axis labels, the equal aspect ratio, `plt.show()`, the commented-out `ani.save` and the 50 ms interval. A line is only the points set on it, and the limits are only a value stored in the figure.
- The handles that `init` and `update` return are not modelled. The library only uses them when blitting, and blitting is off.
- Animation.Figure.Update: it requires `frame < steps` and so does not model what happens for a frame past the table. The source would append for some particles and then fail on the lookup. The library never passes such a frame.
- Coordinates are Dafny `real`s. Floating-point rounding, including that of `0.1 * ...` and of the float division in `int(len(df) / 3)`, is not modelled. The step count is natural-number division, which is the same for every row count below 2^53.
- NaN values, which the column minimum and maximum would skip, cannot occur among reals.
- The line objects may copy the buffers or share them. Either way, after every update a trace equals its buffers, and the model stores that value.
- Animation.AnimateRepeatedly: the real loop never ends. The model runs a given number of passes.
