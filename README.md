# Circle shape of the connection map

This project models the `Circle` shape of the ConnectionMap diagram editor. The
editor draws circles on an HTML canvas, lets the user connect two circles with a
curve by clicking them in turn, and animates a circle while the pointer hovers
over it. The model covers four pieces of the class:

- **The hover "pop" animation** (`animation.dfy`, module `Animation`). The state
  is two flags, `isGrowing` and `isDecreasing`, and the counter
  `radiusIncreaseValue`. `onHover` sets `isGrowing`. `onHoverOut` clears
  `isGrowing` and sets `isDecreasing`. Each rendered frame first runs a growth
  phase and then a shrink phase. The growth phase adds one below 6 and clears
  `isGrowing` at 6. The shrink phase takes one off above 0 and clears
  `isDecreasing` at 0. `Step` is one frame, `Run` is several frames, and
  `Replay` applies any sequence of hovers, hover-outs and frames.
- **Quarter classification** (`insertion_order.dfy`, module `InsertionOrder`,
  and `Shapes.Circle.ComputeQuarters`). The four bounding-box corners are
  classified by the shared quarter classifier and added to a JavaScript `Set`.
  The set is then spread into an array. `Dedup` is that insertion-ordered
  deduplication.
- **Hit-testing** (`Shapes.Circle.InEvent`). A cursor hits the closed disk of
  the circle's own radius. The animation's extra radius is not part of it.
- **Clicking** (`Shapes.Circle.OnClick`). A circle holds at most one curve. A
  click deletes that curve. Then it either ends the diagram's open curve at this
  circle, or starts a new curve here and registers it with the diagram.

The root controller and the curve figure are collaborators whose code is not
part of this model. `Shapes.Root` keeps only the list of figures that
`addFigure` appends to, and answers `findOpenCurve` with some figure that is an
open curve (started, not ended, not deleted), or with none when there is none.
`Shapes.CurveLineFigure` keeps its start circle, its optional end circle, and
whether it has been deleted. The classifier `computeQuarter` is a parameter: any
total function from a query (point plus reference centre) to one of four
quarters.

Behaviour of the code that the model makes explicit:

- `onHoverOut` clears `isGrowing`. So a hover-out during growth never leaves
  both flags set: the next frame only shrinks (`HoverOutMidGrowth`).
- Both flags are set only when the pointer hovers again while a shrink is still
  running, because `onHover` does not clear `isDecreasing`. Below the cap, each
  frame's increment is undone by the same frame's decrement. Two re-renders are
  requested, and neither flag ever clears (`BothFlagsStall`,
  `RehoverWhileShrinkingStalls`). The circle stays at its current size until
  the next hover-out.

## Model

| member | source | states |
|---|---|---|
| `Animation.Step` | src/components/features/ConnectionMap/shapes/Circle.ts:105-117 | one frame (`GrowPhase`, lines 105-110, then `ShrinkPhase` on its result, lines 112-117) keeps the counter in [0,6] when it starts there and moves it by at most one; `isGrowing` survives exactly when it was set below 6; no frame sets a flag; at most two re-renders are requested |
| `Animation.GrowOnlyBelowCap` | src/components/features/ConnectionMap/shapes/Circle.ts:105-107 | growing only, counter v < 6: the counter becomes v+1 and one re-render is requested |
| `Animation.GrowOnlyAtCap` | src/components/features/ConnectionMap/shapes/Circle.ts:108-110 | growing only, counter 6: `isGrowing` clears, the counter stays 6, nothing is requested |
| `Animation.ShrinkOnlyAboveZero` | src/components/features/ConnectionMap/shapes/Circle.ts:112-114 | shrinking only, counter v > 0: the counter becomes v-1 and one re-render is requested |
| `Animation.ShrinkOnlyAtZero` | src/components/features/ConnectionMap/shapes/Circle.ts:115-117 | shrinking only, counter 0: `isDecreasing` clears and nothing is requested |
| `Animation.BothFlagsBelowCap` | src/components/features/ConnectionMap/shapes/Circle.ts:105-117 | both flags set, counter below 6: the frame leaves the state unchanged and requests two re-renders |
| `Animation.BothFlagsAtCap` | src/components/features/ConnectionMap/shapes/Circle.ts:105-117 | both flags set, counter 6: `isGrowing` clears and the counter drops to 5 |
| `Animation.DecreasingSurvives` | src/components/features/ConnectionMap/shapes/Circle.ts:112-117 | `isDecreasing` survives a frame exactly when it was set and the counter after the growth phase is above 0 |
| `Animation.RunKeepsBounds` | src/components/features/ConnectionMap/shapes/Circle.ts:105-117 | any number of frames keeps the counter in [0,6] |
| `Animation.IdleIsStable` | src/components/features/ConnectionMap/shapes/Circle.ts:105-117 | with neither flag set, frames change nothing |
| `Animation.GrowingClimbs` | src/components/features/ConnectionMap/shapes/Circle.ts:105-107 | sustained growth from v is at v+k after k frames, up to 6 |
| `Animation.GrowthFinishes` | src/components/features/ConnectionMap/shapes/Circle.ts:105-110 | from any v in [0,6], growth reaches 6 after 6-v frames; one more frame clears `isGrowing`; any later frames leave the state unchanged |
| `Animation.ShrinkingDescends` | src/components/features/ConnectionMap/shapes/Circle.ts:112-114 | sustained shrinking from v is at v-k after k frames, down to 0 |
| `Animation.ShrinkFinishes` | src/components/features/ConnectionMap/shapes/Circle.ts:112-117 | from any v in [0,6], shrinking reaches 0 after v frames; the next frame clears `isDecreasing`, giving the initial state; later frames leave it unchanged |
| `Animation.BothFlagsStall` | src/components/features/ConnectionMap/shapes/Circle.ts:105-117 | with both flags set below 6, every number of frames leaves the state unchanged |
| `Animation.RehoverWhileShrinkingStalls` | src/components/features/ConnectionMap/shapes/Circle.ts:41-50 | hovering again while a shrink is below 6 leaves both flags set and the counter fixed for every later frame |
| `Animation.HoverOutMidGrowth` | src/components/features/ConnectionMap/shapes/Circle.ts:46-50 | hover, two frames (counter 2), hover-out: the next frame gives 1, not 3, and two frames later the state is back to the initial one |
| `Animation.ReplayKeepsBounds` | src/components/features/ConnectionMap/shapes/Circle.ts:41-117 | any sequence of hovers (`Hover`), hover-outs (`HoverOut`) and frames (`Step`), applied by `Replay`, keeps the counter in [0,6] when it starts there |
| `Animation.InitialStaysInRange` | src/components/features/ConnectionMap/shapes/Circle.ts:8-10 | from the initial state (flags off, counter 0), no sequence of events takes the counter out of [0,6] |
| `InsertionOrder.Insert` | src/components/features/ConnectionMap/shapes/Circle.ts:55-62 | adding to the set adds exactly that value; the values already there keep their places; the value is appended only when new; no duplicates arise |
| `InsertionOrder.Dedup` | src/components/features/ConnectionMap/shapes/Circle.ts:52-87 | the spread set has no duplicates, holds exactly the values added, and is no longer than the input |
| `InsertionOrder.DedupOrder` | src/components/features/ConnectionMap/shapes/Circle.ts:87 | the spread set lists values by first occurrence: an earlier value was first added earlier |
| `InsertionOrder.DedupOfDistinct` | src/components/features/ConnectionMap/shapes/Circle.ts:52-87 | when no value repeats, the result is the input itself, in the same order |
| `Shapes.Circle.constructor` | src/components/features/ConnectionMap/shapes/Circle.ts:7-23 | a new circle stores its centre and radius, holds no curve, has both flags off and counter 0 |
| `Shapes.Circle.OnHover` | src/components/features/ConnectionMap/shapes/Circle.ts:41-44 | the new animation state is `Animation.Hover` of the old one: sets `isGrowing`; `isDecreasing` and the counter are unchanged; one re-render is requested when a callback is installed; the [0,6] invariant is kept |
| `Shapes.Circle.OnHoverOut` | src/components/features/ConnectionMap/shapes/Circle.ts:46-50 | the new animation state is `Animation.HoverOut` of the old one: clears `isGrowing` and sets `isDecreasing`; the counter is unchanged; one re-render is requested when a callback is installed; the [0,6] invariant is kept |
| `Shapes.Circle.RequestReRender` | src/components/features/ConnectionMap/shapes/Circle.ts:43 | a re-render is requested only when a callback is installed |
| `Shapes.Circle.OwnRender` | src/components/features/ConnectionMap/shapes/Circle.ts:105-117 | the new animation state is `Step` of the old one; the re-render requests grow by the frame's count when a callback is installed; the [0,6] invariant is kept |
| `Shapes.Circle.ComputeQuarters` | src/components/features/ConnectionMap/shapes/Circle.ts:52-87 | `quarters` becomes the dedup of `CornerQuarters`, the four corner quarters in the order top-left, top-right, bottom-left, bottom-right (lines 55-86); it has no duplicates, 1 to 4 entries, and exactly the corners' quarters |
| `Shapes.Circle.InEvent` | src/components/features/ConnectionMap/shapes/Circle.ts:90-96 | a hit needs a non-negative radius and lies in the bounding square of the disk; the centre is hit exactly when the radius is non-negative |
| `Shapes.InEventIsDistanceTest` | src/components/features/ConnectionMap/shapes/Circle.ts:93-95 | for d the square root of the squared distance to the centre, the cursor hits exactly when radius >= d |
| `Shapes.InEventIgnoresAnimation` | src/components/features/ConnectionMap/shapes/Circle.ts:90-96 | the hit-test depends only on the centre and radius, never on the animation state |
| `Shapes.InEventExample` | src/components/features/ConnectionMap/shapes/Circle.ts:90-96 | radius 10 at the origin: (6,8) hits, (7,8) does not |
| `Shapes.Circle.OnClick` | src/components/features/ConnectionMap/shapes/Circle.ts:25-38 | a curve held before is marked deleted; when another figure is an open curve, `curve` becomes one of them, its end point is this circle, and the figures are unchanged; otherwise `curve` is a fresh open curve started here, appended to the figures when there is a diagram; no other curve's end point, start or deleted mark changes |
| `Shapes.ConnectByTwoClicks` | src/components/features/ConnectionMap/shapes/Circle.ts:25-38 | on a diagram with no open curve, clicking circle a and then circle b leaves both holding one curve from a to b, and exactly that curve is added to the figures |
| `Shapes.Root.FindOpenCurve` | src/components/features/ConnectionMap/shapes/Circle.ts:30 | reports a figure that is an open curve, or none exactly when no figure is open |
| `Shapes.Root.AddFigure` | src/components/features/ConnectionMap/shapes/Circle.ts:37 | appends exactly the given figure to the diagram's figures |
| `Shapes.CurveLineFigure.constructor` | src/components/features/ConnectionMap/shapes/Circle.ts:36 | a new curve starts at the given circle, has no end point and is not deleted |
| `Shapes.CurveLineFigure.Delete` | src/components/features/ConnectionMap/shapes/Circle.ts:27 | the curve is marked deleted |
| `Shapes.CurveLineFigure.SetEndPoint` | src/components/features/ConnectionMap/shapes/Circle.ts:34 | the curve's end point becomes the given circle |

## Left out

- Drawing: the canvas calls `beginPath`, `arc`, `fill`, `closePath` and the `fillStyle` assignment in `ownRender`. They have no state a circle reads back. `OwnRender` is only the animation step that follows them.
- `fill`, the colour string, and the optional property bag passed to the constructor (`setupProps`). They are presentation only.
- Floating point: `inEvent` uses `Math.sqrt` and `Math.pow` on doubles. The model compares the exact squared distance with the squared radius over the reals. Rounding and NaN inputs are not modelled.
- The shape base class: how `relativeX`/`relativeY` are derived from `x`/`y`, and who installs the re-render callback and the diagram reference. They are plain fields here.
- The re-render callback is a flag plus a ghost count of requests. The browser's animation-frame loop that answers those requests is not modelled. `Run` and `Replay` stand for "the frames the loop renders".
- `computeQuarter` and the values of the `Quarter` type are not part of this model. The classifier is a parameter and the type has four abstract values.
- `CurveLineFigure.delete`, `setEndPoint` and the root's `findOpenCurve`/`addFigure` are not part of this model beyond their visible effect. Deletion only marks the curve; whether it also removes the curve from the figure list is not modelled.
- Shapes.Root: `findOpenCurve` is modelled as "some figure that is started, not ended and not deleted". Which open curve it picks when there are several, and any other rule the root uses, are not part of this model.
- Shapes.Circle.InEvent: its contract states necessary conditions and the centre case; the full iff with the Euclidean distance is `Shapes.InEventIsDistanceTest`, because the model has no square root.
