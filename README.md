# WS2812 strip simulator: effect selection and frame projection

A Dafny model of the core of a small GTK program that previews LED-strip
animations on screen. The program declares fifteen animation generators, each
for a 55-pixel strip and each built lazily, the first time it is used; the
Christmas generator is never built at all. A process-wide index names the
active one.
A "Next" button advances the index: it adds one and goes back to 0 once it
reaches 13. A 50 ms timer redraws the canvas. Each redraw pulls the next frame
from the selected generator and paints one rectangle per pixel, left to right.

The model has four modules:

- `Effects` (`effects.dfy`): the pixel count, 8-bit colours and frames, and the
  fifteen generator instances as the datatype `EffectId`. It also holds the
  `get_effect` dispatch as the function `Resolve` (indices 0 to 14, with Bounce
  for every other index) and its inverse `Ordinal`. Each generator is seen only
  from outside, through its frames: `frames(e, n)` is the frame that the
  `n`-th call of `next()` on `e` returns. A total function stands for a
  generator that never runs out of frames. `FixedLength` states the library's
  promise that every frame has 55 colours.
- `Selection` (`selection.dfy`): the click rule `NextIndex`, `n` clicks in a row
  as `Clicks`, and the cycle facts. Within `[0, 13)`, `n` clicks add `n`
  modulo 13. The cycle has period 13 and visits every index. The initial
  index 14 never comes back, and neither does 13.
- `Render` (`render.dfy`): the commands a redraw issues to the drawing context,
  in order, for each pixel: set the colour, add the slot's rectangle, outline
  it, fill it. Slot positions are exact rationals, and the lemmas show that
  the slots tile the canvas from left to right.
- `Simulator` (`simulator.dfy`): the class `App`, holding the state. This is the
  index, one step counter per generator (how many frames it has produced),
  and the generators. Its methods are `Click`, `GetEffect` and `DrawPixels`. A
  ghost history of events (clicks and frames pulled) ties that state to pure
  functions. Lemmas about those functions prove that a generator resumes
  where it stopped when it is selected again. They also prove that Christmas
  (entry 13) is never drawn, and that Collision (entry 14, the initial index)
  is drawn only before the first click.

Edge cases the model keeps exactly as the code has them: the initial index is
14, which is outside the cycle of the "Next" button; entry 13 is in the
dispatch table but no click ever selects it; and an index past the table would
resolve to Bounce, although no reachable index is past the table. The
`usize` increment cannot overflow, because the index never exceeds 14, so the
model uses unbounded naturals.

## Model

| member | source | states |
|---|---|---|
| `Effects.Resolve` | src/main.rs:61-80 | no contract of its own: its body is the `get_effect` match arm for arm, indices 0 to 14 to the fifteen instances and every other index to Bounce; `Ordinal`, `OrdinalOfResolve`, `ResolveInjective`, `ResolveFallback` and `ResolveBounce` characterise it |
| `Effects.Ordinal` | src/main.rs:62-77 | every generator instance has an entry below 15 in the dispatch table, and that entry resolves back to it |
| `Effects.OrdinalOfResolve` | src/main.rs:62-77 | inside the table, the entry of the resolved instance is the index itself |
| `Effects.ResolveInjective` | src/main.rs:62-77 | indices 0 to 14 resolve to fifteen different instances: two of them name the same instance exactly when they are equal |
| `Effects.ResolveFallback` | src/main.rs:79 | every index of 15 or more resolves to the instance of index 0, Bounce |
| `Effects.ResolveBounce` | src/main.rs:63-79 | an index resolves to Bounce if and only if it is 0 or past the table |
| `Selection.NextIndex` | src/main.rs:129-133 | the index after one click is always below 13 |
| `Selection.NextIndexMod` | src/main.rs:129-133 | a click on an index of the cycle is a step of one modulo 13 |
| `Selection.ClicksInCycle` | src/main.rs:129-133 | from an index below 13, `n` clicks give the start plus `n`, modulo 13 |
| `Selection.CyclePeriod` | src/main.rs:129-133 | from an index below 13, exactly 13 clicks return to it, and no positive smaller number of clicks does |
| `Selection.ClicksVisitAll` | src/main.rs:129-133 | from any index of the cycle, every index of the cycle is reached by a specific number of clicks below 13, so no index is skipped |
| `Selection.ClicksFromInitial` | src/main.rs:18 | from the initial index 14, click `n + 1` lands on `n` modulo 13; the first click gives 0 |
| `Selection.InitialLeftForGood` | src/main.rs:18 | starting from 14, the index is 14 only before the first click, is below 13 after any click, and is never 13 |
| `Render.PixelOps` | src/main.rs:93-101 | no contract of its own: its four commands are the loop body (set the colour, the rectangle at `i * width / 55` of width `width / 55` and the full height, outline, fill); `ProjectionLayout` places them at positions `4i` to `4i+3` |
| `Render.ProjectionLayout` | src/main.rs:92-102 | drawing a frame issues exactly four commands per pixel, and those for pixel `i` come at positions `4i` to `4i+3`: its colour, its slot's rectangle, one outline, one fill |
| `Render.SlotsTile` | src/main.rs:94-99 | slot 0 starts at the left edge, each slot starts where the previous one ends, and slot 55 starts at the canvas width |
| `Render.SlotsLeftToRight` | src/main.rs:95 | on a canvas of positive width, a higher pixel index gives a rectangle further to the right |
| `Simulator.IndexAtClicks` | src/main.rs:129-133 | after any history of events, the index is where the same number of clicks takes the initial index |
| `Simulator.ClickCountGrows` | src/main.rs:128-134 | later events never lower the number of clicks |
| `Simulator.PullsUnchangedWhileUnselected` | src/main.rs:63-79 | a generator from which no frame is pulled keeps its step count, so when it is selected again it resumes rather than restarts |
| `Simulator.ChristmasNeverDrawn` | src/main.rs:76 | in any history made of clicks and redraws, no frame is ever pulled from Christmas |
| `Simulator.CollisionOnlyBeforeFirstClick` | src/main.rs:77 | once a click has happened, redraws pull no further frame from Collision or Christmas |
| `Simulator.App.constructor` | src/main.rs:17-59 | the initial state: index 14, every step counter at 0 (no frame pulled from any generator), an empty history |
| `Simulator.App.Click` | src/main.rs:128-134 | the index becomes `NextIndex` of the old one, which is below 13; the step counters are unchanged; a history made only of redraws and clicks stays one |
| `Simulator.App.GetEffect` | src/main.rs:61-81 | returns the frame of the resolved instance numbered by how many frames that instance has produced before; only that instance's step counter goes up by one; the frame has 55 colours |
| `Simulator.App.DrawPixels` | src/main.rs:83-103 | reads the index without changing it, advances only the selected instance, and returns the projection of that instance's next frame: 4 × 55 commands |

## Left out

- GTK application, window, button and drawing-area construction and `app.run()`: these only set up the UI.
- The 50 ms redraw timer and the merging of queued redraws: event-loop scheduling. Each redraw is one call of `DrawPixels`.
- The generators' own algorithms and constructor parameters (external library): each generator is its sequence of frames, `frames(e, n)`. That `next()` never returns `None`, and that frames have 55 colours, are assumed of that parameter (`FixedLength`, required by the constructor).
- The two generators that share a library type (Twinkle and Sparkle) are separate instances. The model does not record which library type each instance has.
- The conversion of 8-bit colours to `f64` channels: `SetSourceRgb` carries the 8-bit colour.
- `Render.SlotsTile`: rectangle positions and widths are exact rationals rather than `f64`, so rounding is not modelled.
- Other behaviour of the drawing context (what `stroke_preserve` and `fill` paint, and their ignored results): `DrawPixels` returns the command sequence.
- Mutex locking, poisoning and the `unwrap` panics: the program runs on one thread, so state is modelled as plain exclusive fields. Generators are total, so exhaustion cannot happen.
- The effect list printout at start-up: logging.
- Lazy construction of the generators and of the index: the model treats every generator as built at start-up with no frame pulled yet. This differs from the program only for a generator whose frames depend on when it was built (for instance the one driven by a 5-second timer), since a generator not yet built has produced no frames either way.
