# Lucky wheel: a Dafny model of the wheel logic

The program is a Streamlit page (`app.py`) that shows a "lucky wheel". Each
participant name gets a coloured slice of a circle. A spin button turns the
wheel with a decelerating animation. When it stops, a formula applied to the
final rotation picks the winning segment.
The logic worth modelling lives in four places:

- the colour pairing of `get_html_content`;
- four parts of the JavaScript that `get_wheel_js` embeds: segment arcs
  (`getWheel`), the spin scheduler (`spin`, `rotateWheel`, `stopRotateWheel`)
  and the easing curve (`easeOut`);
- how names are read from the manual entry box and which column of an
  uploaded table supplies them;
- the winners history file.

Modules:

- `Segments` (segments.dfy): the 16-colour palette and the name/colour list,
  built by a loop as in the source. Also the arcs of the `n` equal segments,
  with proofs that they cover a full turn and do not overlap.
- `Resolver` (resolver.dfy): how `stopRotateWheel` turns the final rotation
  into a segment index. JavaScript's `%` is modelled as a truncating
  remainder. The quarter turn the formula adds is `QuarterTurn`. The
  module also relates the index to the canvas: which segment shows at which
  screen angle.
- `Easing` (easing.dfy): the script's `easeOut` polynomial, its closed form,
  its endpoints and its monotonicity.
- `Scheduler` (scheduler.dfy): the script's shared state as the class
  `Wheel`. `Spin` is `spin()`, `Tick` is one run of `rotateWheel()` and `Stop`
  is `stopRotateWheel()`. `Animate` is the chain of 30 ms timer callbacks up
  to the stop. It is proved to end after `TicksToStop` frames, having turned
  the wheel by `Remaining`.
- `Participants` (participants.dfy): Python's `str.strip`, `str.split` and
  `str.join`, the manual-name comprehension, and the choice of name column.
- `History` (history.dfy): loading and saving `data/winners.json`, modelled as
  a value of type `StoreFile`.
- `Wrappers` (wrappers.dfy): the `Option` type.

Angles are in degrees: a `real` that stands for the script's radians times
180/π. On that scale `rotateWheel` adds `spinAngle` to the rotation, and
`stopRotateWheel` adds the 90° offset directly. The random draws
`Math.random()` are the parameters `angleDraw` and `timeDraw` of `Spin`, each
in [0, 1). The history timestamp is an opaque string passed in by the caller.

Details of the code worth noting:

- The easing is the cubic ease-out `1 - (1 - t)^3`. Each frame turns the
  wheel by `spinAngleStart - easeOut(...)`, so the wheel moves fastest at the
  start and not at all at the end. The total angle turned is the sum of the
  per-frame increments.
- `spin()` calls `rotateWheel()` at once, so when `Spin` returns, the spin
  time is already 30 and one frame of rotation has been applied.
- The name column is chosen by exact, case-sensitive matches on `name`,
  `姓名` and `Name`, in that order. Otherwise the first column is used.
- `setWheelNames` replaces the names even while a spin runs.
- With no names on the wheel the final lookup `wheelNames[index].name`
  fails, and `Winner` returns `None`.
- The segment arcs and the rotation both run clockwise on the canvas, and the
  pointer is drawn unrotated on its right-hand side, at screen angle 0
  (app.py:195-201). The index formula adds 90° to the rotation, so it names
  the segment shown at screen angle 270°, the top of the canvas, a quarter
  turn away from the pointer. `ResolvedSegmentIsAtTop` proves this for every
  rotation. `ResolvedSegmentNotUnderPointer` gives an instance: four names
  turned by 45°, where the formula gives segment 2 and segment 3 is at the
  pointer. The model keeps the formula as written.

## Model

| member | source | states |
|---|---|---|
| `Segments.ColorAt` | app.py:41-45 | the colour of a position is always one of the palette's sixteen colours |
| `Segments.PaletteDistinct` | app.py:41-45 | no colour occurs twice in the palette |
| `Segments.ColorsAgreeIff` | app.py:255-258 | two positions get the same colour if and only if they are equal modulo 16 |
| `Segments.NeighboursDiffer` | app.py:255-258 | neighbouring segments never share a colour |
| `Segments.NameData` | app.py:253-258 | the name/colour list has the names' length and order, and entry i has colour `colors[i % 16]` |
| `Segments.SegmentStart` | app.py:65-68 | segment i begins at i arc widths; `SegmentsSpanTurn` and `SegmentsCover` carry its meaning |
| `Segments.SegmentEnd` | app.py:65-68 | segment i ends where segment i + 1 begins; `SegmentsSpanTurn` carries its meaning |
| `Segments.InSegment` | app.py:65-68 | the half-open arc [start, end) of a segment; `SegmentsCover` and `SegmentsDisjoint` show these arcs partition the turn |
| `Segments.ArcWidth` | app.py:57-58 | each of the n segments is a positive arc, and n of them make exactly one turn |
| `Segments.SegmentsSpanTurn` | app.py:64-68 | segment 0 starts at 0, segment n-1 ends at a full turn, and every segment has the same width |
| `Segments.FloorFindsSegment` | app.py:220-221 | dividing an angle of the turn by the arc width and rounding down gives an index in [0, n) whose half-open arc holds the angle |
| `Segments.SegmentsCover` | app.py:64-68 | every angle in [0, 360) lies in some segment |
| `Segments.SegmentsDisjoint` | app.py:64-68 | no angle lies in two segments |
| `Resolver.Rem360` | app.py:221 | JavaScript's `% 360` lands in [0, 360) for a non-negative operand and in (-360, 0] for a negative one, and differs from its operand by whole turns |
| `Resolver.Trunc` | app.py:221 | rounding toward zero, the quotient JavaScript's `%` uses; `Rem360` carries its meaning |
| `Resolver.FloorMod360` | app.py:221 | the reference modulus in [0, 360) that `EffectiveIsModulus` ties the double remainder to, and that `FullTurnInvariance` works through |
| `Resolver.EffectiveDegrees` | app.py:219-221 | the wheel angle that the double remainder produces is always within [0, 360), for every rotation |
| `Resolver.EffectiveIsModulus` | app.py:219-221 | that angle is the true modulus of minus (rotation + 90°), for negative rotations too |
| `Resolver.ResolveIndex` | app.py:219-222 | for n ≥ 1 the winning index is a valid position and its half-open segment holds the effective angle |
| `Resolver.FullTurnInvariance` | app.py:219-221 | adding any whole number of turns to the rotation leaves the winning index unchanged |
| `Resolver.IndexDependsOnAngleOnly` | app.py:219-221 | two rotations at the same position within a turn give the same index |
| `Resolver.RestIndex` | app.py:219-221 | at rotation 0 the winner is segment floor(3n/4) |
| `Resolver.FourNamesAtRest` | app.py:219-221 | with four names and no rotation the winner is index 3, the fourth name |
| `Resolver.ShowsAt` | app.py:151-166 | segment i, turned by the rotation, shows at a given screen angle; used by the two lemmas below |
| `Resolver.ResolvedSegmentIsAtTop` | app.py:219-221 | for every rotation the resolved segment is the one shown at screen angle 270°, the top of the canvas |
| `Resolver.ResolvedSegmentNotUnderPointer` | app.py:195-201 | with four names turned by 45° the formula gives segment 2, which does not cover the pointer's screen angle 0; segment 3 does |
| `Resolver.Winner` | app.py:219-222 | a name results exactly when the wheel has names, and it is the name of the segment whose arc holds the effective angle |
| `Easing.EaseOutClosedForm` | app.py:241-245 | the script's polynomial equals b + c·(1 − (1 − t/d)³) |
| `Easing.EaseOutEndpoints` | app.py:241-245 | easeOut is b at t = 0 and b + c at t = d |
| `Easing.EaseOutMonotone` | app.py:241-245 | for c ≥ 0 and d > 0, easeOut never decreases on [0, d] |
| `Easing.EaseOutBounded` | app.py:241-245 | on [0, d] easeOut stays between b and b + c |
| `Easing.EaseOut` | app.py:241-245 | the script's easeOut polynomial; `EaseOutClosedForm`, `EaseOutEndpoints`, `EaseOutMonotone` and `EaseOutBounded` carry its meaning |
| `Scheduler.IncrementBounds` | app.py:139 | within the duration a frame's turn is between 0 and the starting speed, so the rotation never goes back |
| `Scheduler.IncrementDecelerates` | app.py:139 | a later frame turns the wheel no more than an earlier one |
| `Scheduler.IncrementVanishesAtEnd` | app.py:139 | at the end of the duration the speed is zero |
| `Scheduler.Increment` | app.py:139 | the per-frame turn `spinAngle`; `IncrementBounds`, `IncrementDecelerates` and `IncrementVanishesAtEnd` carry its meaning |
| `Scheduler.Remaining` | app.py:132-140 | the rotation the rest of the frame chain adds; `RemainingNonNegative` and `Wheel.Animate` carry its meaning |
| `Scheduler.TicksToStop` | app.py:132-137 | at least one more frame runs, the stopping one |
| `Scheduler.TicksToStopIsFirstReach` | app.py:132-137 | the spin stops on the first frame whose spin time reaches the total, not earlier and not later |
| `Scheduler.SpinFrameCount` | app.py:126-137 | a spin of 4000 to 7000 ms lasts between 134 and 234 frames, counting from spin time 0 |
| `Scheduler.RemainingNonNegative` | app.py:132-140 | the rotation still to come in a spin is never negative |
| `Scheduler.Wheel.constructor` | app.py:105-113 | the script's initial state: not spinning, all counters and the rotation 0, no names |
| `Scheduler.Wheel.SetWheelNames` | app.py:247-250 | the wheel's names become the given list |
| `Scheduler.Wheel.Spin` | app.py:115-130 | while spinning, nothing changes; otherwise the wheel spins with a starting speed in [10, 20) and a duration in [4000, 7000) taken from the draws, and the first frame has run |
| `Scheduler.Wheel.Tick` | app.py:132-140 | the spin time grows by exactly 30; at or past the total the wheel stops, unturned, and names the winner; otherwise it turns by the eased increment, never backwards |
| `Scheduler.Wheel.Stop` | app.py:206-208 | the wheel is no longer spinning and the winner is the name that `Winner` gives for the current rotation |
| `Scheduler.Wheel.Animate` | app.py:132-137 | the frames of a running spin end after exactly TicksToStop of them; the wheel has turned by the sum of their increments, never backwards, and the winner is the name that `Winner` gives for the final rotation |
| `Participants.LStrip` | app.py:400 | removes exactly the leading white space: the result is a suffix, all that was removed is white space, and the result does not begin with white space |
| `Participants.RStrip` | app.py:400 | removes exactly the trailing white space, in the same sense |
| `Participants.Strip` | app.py:400 | `str.strip()`; `StripEdges` and `StripIdempotent` carry its meaning, with `LStrip` and `RStrip` |
| `Participants.StripEdges` | app.py:400 | a non-empty stripped string begins and ends with a non-space |
| `Participants.StripIdempotent` | app.py:400 | stripping twice is stripping once |
| `Participants.Split` | app.py:400 | splitting gives one piece more than there are separators, and no piece holds a separator |
| `Participants.Join` | app.py:400 | `sep.join(parts)`, the inverse that `JoinSplit` and `SplitJoin` test `Split` against |
| `Participants.JoinSplit` | app.py:400 | joining the pieces with the separator gives back the text |
| `Participants.SplitJoin` | app.py:400 | splitting a join of separator-free pieces gives back the pieces |
| `Participants.SplitAtSeparator` | app.py:400 | the pieces of `a + sep + b` are the pieces of `a` followed by those of `b` |
| `Participants.KeepNames` | app.py:400 | the comprehension keeps at most as many names as there are lines |
| `Participants.KeptNamesAreClean` | app.py:400 | every kept name is non-empty and equal to its own strip |
| `Participants.KeepNamesSingle` | app.py:400 | one line gives its stripped text, or nothing when it is blank |
| `Participants.KeepNamesConcat` | app.py:400 | the names of two blocks of lines are those of the first block followed by those of the second |
| `Participants.ParseManualNames` | app.py:400 | the entry box gives at most one name per newline-separated line |
| `Participants.ParseLineByLine` | app.py:400 | input lines keep their relative order: the names of a text joined at a newline are those of each part, in order |
| `Participants.ConfirmManualNames` | app.py:398-401 | an empty box changes nothing; otherwise the result is exactly the parsed names of the box, each non-empty and stripped |
| `Participants.ChooseNameColumn` | app.py:374-381 | with columns present the choice is one of them, with a priority no worse than any other present column, and it is the first column when no preferred header is present; with no columns there is no choice |
| `History.LoadWinners` | app.py:21-28 | a missing or unreadable history file reads as the empty list |
| `History.SaveWinner` | app.py:31-38 | after a save the history is the old history plus one record `{name, time}`: one longer, earlier records unchanged, last name the argument |
| `History.AfterSave` | app.py:32-38 | the file one save leaves; `SaveWinner` is tied to it |
| `History.AfterSaves` | app.py:32-38 | the file a run of saves leaves; `SavesAppendInOrder` carries its meaning |
| `History.SavesAppendInOrder` | app.py:31-38 | N saves append exactly those N records, in call order |
| `History.SubmitTypedWinner` | app.py:437-440 | blank typed text leaves the file unchanged; otherwise the stripped text is appended as a record, and the stored name is already stripped |

## Left out

- Canvas drawing (`getWheel` and the redraw in `rotateWheel`: arcs, labels, hub, pointer, shadows). These are pixel side effects. Only the arc bounds are modelled.
- Audio playback, the DOM winner banner, `window.latestWinner` and `localStorage`. These are browser side effects; the winner is returned instead.
- `setTimeout`/`clearTimeout`. They are replaced by explicit calls of `Tick`, chained by `Animate`; a timer is taken to be pending exactly while the wheel is spinning.
- `Math.random`. The draws are parameters in [0, 1); `random.choice` for the "draw a winner" button (app.py:431-434) is not modelled.
- Floating point and π. The model uses exact reals in degrees, so rounding at segment boundaries is not covered.
- The Streamlit page (sidebar, buttons, session state, reruns, `components.html`), the HTML/CSS template and the base64 sound stubs. This is presentation code.
- Reading CSV/XLSX files with pandas and turning a column into a list of names (app.py:368-371, 383). These are library calls. Column headers are modelled as strings, and read failures other than a table with no columns are not modelled.
- The history file's I/O (`os.path.exists`, `open`, `json.load`/`json.dump`, `strftime`) is not modelled. A file holding JSON that loads but is not a list is not modelled either; on such a file the `append` of `save_winner` fails.
- Python's `strip` is modelled with the fixed set of characters that `str.isspace` accepts. Strings are sequences of characters with no normalisation.
