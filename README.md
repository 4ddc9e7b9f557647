# openrndr-js-tree: the branching tree generator in Dafny

The program draws an animated fractal tree on a browser canvas, one frame at a
time. Each frame `draw` clears the canvas and calls `tree`. `tree` is a recursive
procedure. It strokes one branch from `start` in the direction `angle`, with
length `growth` and line width `growth * 5`. When `growth` exceeds the branching
threshold, it calls itself `branchCount` times from the end of that branch. For
each child it:

- draws the child's heading from its own `Random` stream, uniformly in
  `[angle - variation, angle + variation)`, and adds the wind twist;
- shrinks the growth to `(growth - threshold) * 0.7`;
- passes the next generation number;
- builds a fresh stream seeded `generation * 10 + branchCount`.

`toScreenCoord` maps the normalized coordinates the tree is drawn in to canvas
pixels. The normalized range -1..1 spans the shorter side, and y points up.

The model has four modules:

- `Vectors`: the `Vector2` value type and the arithmetic on it that the program uses.
- `Screen`: `FLIP_Y`, `resolution`, `minDimension` and `toScreenCoord`, as pure
  functions of the canvas size, with lemmas about where points land.
- `Branching`: the specification of `tree`.
  - `Generate` gives everything one call draws, as a pre-order sequence of
    segments, together with whether the call ended by an exception and how many
    values it took from its stream.
  - `Branches` gives the first `n` runs of the `forEach` loop.
  - `Iteration` gives one run of the loop body.
  - `Generate` is proved pre-order and connected, with shrinking widths, a
    segment count that follows a recurrence, and headings within range.
- `Client`: the imperative program.
  - `Canvas` holds the strokes drawn since the last clear.
  - `Random` is a seeded stream that counts its draws.
  - `Tree`, `ForEachChild` and `ChildBranch` are the recursive method, its loop
    and the loop body. They are proved to draw exactly `Generate`'s segments and
    to take exactly `Generate`'s draws.
  - `Draw` is the frame.

Foreign code is passed in as function-valued parameters.

- `polar` stands for openrndr's `Polar(angle, radius).cartesian` and is uninterpreted.
- `prng(seed, i, lo, hi)` is the `i`-th value that `Random(seed).nextDouble(lo, hi)`
  returns.
  - The only property assumed of it is `HonoursRange`: the value lies in
    `[lo, hi)`.
  - That property is used only where a lemma says so in its `requires`.

`nextDouble(from, until)` throws when `from < until` fails. That happens when
the angle variation is not positive. The model follows the exception:

- the call ends after its own segment;
- `tree` ends;
- the exception reaches every caller (`thrown`).

Kotlin `Int` arithmetic on `generation + 1` and `generation * 10 + branchCount`
wraps at 32 bits (`Int32`).

Facts about the code that shape the model:

- All children of one call get equally seeded streams, because the seed is
  `generation * 10 + branchCount` and does not use the loop index. Sibling
  subtrees therefore see the same sequence of random values.
- The branch count, 9, the growth decay, 0.7, and the width factor, 5, are
  constants. None of them is drawn at random.
- The growth formula is `mod(time * .05, .6)`. It is left out, as is the
  wind formula.

## Model

| member | source | states |
|---|---|---|
| Branching.OwnSegment | src/main/kotlin/client.kt:48-49 | definition: the segment a call strokes for itself; its properties are stated by `Generate`, `StartsWhereCalled` and `WidthsShrink` |
| Branching.ChildGrowth | src/main/kotlin/client.kt:58 | definition of the child's growth; its properties are stated by `ChildGrowthShrinks`, `HeightDecreases` and `NonPositiveThresholdNeverBottomsOut` |
| Branching.NextGeneration | src/main/kotlin/client.kt:62 | definition of the child's generation, wrapped to 32 bits; stated by `ChildInherits` |
| Branching.Seed | src/main/kotlin/client.kt:63 | definition of the children's seed, wrapped to 32 bits; stated by `ChildInherits`, `SiblingsShareStream` and `SeedsDistinctAcrossGenerations` |
| Branching.ChildCall | src/main/kotlin/client.kt:52-64 | definition of the k-th recursive call's arguments; stated by `ChildInherits`, `ChildHeadingInRange` and `SiblingsShareStream` |
| Branching.Branches | src/main/kotlin/client.kt:51-65 | definition of the first n runs of the `forEach` loop; stated by `BranchesOutcome`, `BranchesCount`, `BranchesStep`, `BranchesPrefix`, `BranchesOnTree` and `BranchesWidths` |
| Branching.Iteration | src/main/kotlin/client.kt:52-64 | definition of one run of the loop body; stated by `LoopStep`, `BranchesSegmentsStep` and `ChildBranch` |
| Branching.RootCall | src/main/kotlin/client.kt:73-83 | definition of the arguments `draw` passes to `tree`; stated by `DemoTree` |
| Screen.MapPoint | src/main/kotlin/client.kt:94 | definition of the mapping for a given scale and resolution; stated by the `Screen` lemmas below |
| Screen.ToScreenCoord | src/main/kotlin/client.kt:88-94 | definition of `toScreenCoord` with `resolution` (width, height) and `minDimension`; stated by `FlipIsTimesFlipY`, `CentreMapsToCanvasCentre`, `UniformScale`, `FlipsYKeepsX` and `UnitSquareInsideCanvas` |
| Branching.Int32 | src/main/kotlin/client.kt:62-63 | Kotlin `Int` results lie in [-2^31, 2^31), equal the mathematical value when it is in range, and otherwise wrap: they differ from it by a multiple of 2^32 (two's complement, not saturation) |
| Branching.Generate | src/main/kotlin/client.kt:37-67 | every call draws at least one segment, and the first one drawn is its own branch from `start`, of length `growth` in direction `angle` and width `growth * 5` (pre-order, parent before children; the base case is one segment) |
| Branching.GenerateShape | src/main/kotlin/client.kt:48-66 | a call at or below the threshold draws only its own segment, takes no draw and does not throw; above it, it draws its own segment and then exactly what its loop draws, and ends as the loop ends |
| Branching.GenerateOutcome | src/main/kotlin/client.kt:50-65 | a call throws iff it branches, its loop is non-empty and the angle variation is not positive; it takes `branchCount` draws when it branches with positive variation and none otherwise; it draws a single segment iff it does not branch, its loop is empty, or the variation is not positive |
| Branching.BranchesOutcome | src/main/kotlin/client.kt:51-65 | the first n loop runs throw iff n > 0 and the variation is not positive, and then have drawn nothing; otherwise they have taken exactly n draws and drawn at least n segments |
| Branching.ChildGrowthShrinks | src/main/kotlin/client.kt:58 | the child's growth lies strictly between 0 and the parent's, and is smaller by more than 0.7 * threshold |
| Branching.HeightDecreases | src/main/kotlin/client.kt:50-58 | the termination measure (growth / threshold, floored) strictly drops from a call to each child, so recursion is finite for a positive threshold |
| Branching.NonPositiveThresholdNeverBottomsOut | src/main/kotlin/client.kt:50-58 | with a threshold at or below 0 and growth above it, the child's growth is again positive and above the threshold, so a branching call with a non-empty loop and a positive angle variation would recurse forever |
| Branching.LevelsBound | src/main/kotlin/client.kt:50-58 | the number of generations from a call to a leaf is at least 1 and at most the termination measure plus one |
| Branching.ChildInherits | src/main/kotlin/client.kt:52-64 | the k-th child starts at the parent's end, keeps wind twist, branch count, threshold and variation, is generation + 1, and gets a fresh stream seeded generation * 10 + branchCount (no overflow) |
| Branching.SiblingsShareStream | src/main/kotlin/client.kt:63 | all children of one call receive streams with the same seed, with nothing drawn yet |
| Branching.SeedsDistinctAcrossGenerations | src/main/kotlin/client.kt:62-63 | without overflow, a later generation hands its children a strictly larger seed, and a positive branch count keeps every child seed apart from the root's seed 0 |
| Branching.ChildHeadingInRange | src/main/kotlin/client.kt:54-56 | each child's heading lies in [angle - variation + windTwist, angle + variation + windTwist) whenever the stream honours its range |
| Branching.GenerateCount | src/main/kotlin/client.kt:37-67 | with positive variation, a call draws exactly N(growth) segments, where N(g) = 1 if g <= threshold else 1 + branchCount * N((g - threshold) * .7) |
| Branching.BranchesCount | src/main/kotlin/client.kt:51-65 | the first n loop runs draw n subtrees of N(child growth) segments each |
| Branching.CountIndependentOfHeadings | src/main/kotlin/client.kt:37-67 | two calls with positive angle variation and equal growth, threshold and branch count draw equally many segments whatever their start, heading, wind twist or random streams |
| Branching.SegmentCountClosedForm | src/main/kotlin/client.kt:50-65 | the segment count is that of a complete branchCount-ary tree: (n - 1) * N + 1 == n ^ Levels, and with one branch per call N == Levels, one segment per generation |
| Branching.BranchesStep | src/main/kotlin/client.kt:51-65 | with positive variation, loop run k appends exactly the subtree of the k-th child |
| Branching.BranchesSegmentsStep | src/main/kotlin/client.kt:51-65 | loop run k appends the k-th child's subtree when the variation is positive, and nothing otherwise |
| Branching.BranchesPrefix | src/main/kotlin/client.kt:51-65 | what the first k loop runs draw is a prefix of what any later run has drawn |
| Branching.LoopPrefix | src/main/kotlin/client.kt:51-65 | the first k + 1 runs' segments begin the whole loop's segments |
| Branching.ChildBlock | src/main/kotlin/client.kt:51-65 | the k-th child's subtree sits in the loop's output directly after the first k subtrees |
| Branching.ChildBlockAt | src/main/kotlin/client.kt:51-65 | the k-th child's subtree is the contiguous block of N(child growth) segments at offset k * N of the loop's output |
| Branching.ChildStartsAtParentEnd | src/main/kotlin/client.kt:48-53 | the segment at offset k * N of the loop's output, the k-th child's first, starts at the parent branch's end |
| Branching.StartsWhereCalled | src/main/kotlin/client.kt:48-49 | a call's first segment starts at its `start` |
| Branching.GenerateConnected | src/main/kotlin/client.kt:48-65 | the drawing is one connected figure: the first stroke starts at `start`, and every later stroke starts where an earlier stroke ended |
| Branching.BranchesOnTree | src/main/kotlin/client.kt:51-65 | every stroke of a loop starts at the loop's end point or where an earlier stroke of the loop ended |
| Branching.WidthsShrink | src/main/kotlin/client.kt:49-58 | with positive growth, a call's own stroke has width growth * 5 > 0, and every later stroke in its output is positive and strictly thinner |
| Branching.BranchesWidths | src/main/kotlin/client.kt:51-65 | every stroke of a loop has positive width at most the child's own width (child growth * 5) |
| Branching.LoopStep | src/main/kotlin/client.kt:51-65 | while nothing has thrown, k loop runs have taken k draws, and run k appends what the loop body draws, takes its draws and ends as it ends |
| Branching.LoopDone | src/main/kotlin/client.kt:51-65 | once the loop has run `branchCount` times or thrown, its result is final |
| Branching.DemoTree | src/main/kotlin/client.kt:71-84 | the frame's tree (start (0,-1), heading 90, 9 branches, threshold .03, variation 60, generation 0, seed 0) never throws, takes 9 draws from the root stream when it branches and none otherwise, and has N(growth) segments |
| Client.Canvas.ClearScreen | src/main/kotlin/client.kt:98-101 | after clearing, no stroke remains |
| Client.Canvas.DrawBranch | src/main/kotlin/client.kt:25-35 | appends exactly one stroke from `start` to `end` of the given width |
| Client.Random.constructor | src/main/kotlin/client.kt:63 | a new stream has its seed and nothing drawn |
| Client.Random.NextDouble | src/main/kotlin/client.kt:54-56 | throws iff `from < until` fails, without drawing; otherwise returns the stream's next value, within [from, until) when the stream honours its range, and advances the stream by one |
| Client.Tree | src/main/kotlin/client.kt:37-67 | appends to the canvas exactly `Generate`'s segments for its arguments and stream position, throws exactly when `Generate` does, and advances the stream by exactly `Generate`'s draws |
| Client.ForEachChild | src/main/kotlin/client.kt:51-65 | the loop appends exactly the `Branches` output for all `branchCount` runs, stopping at the first exception, and takes its draws |
| Client.ChildBranch | src/main/kotlin/client.kt:52-64 | the loop body draws one heading, throwing when the range is empty, and otherwise recurses into the child `ChildCall` describes, appending exactly that child's subtree |
| Client.Draw | src/main/kotlin/client.kt:71-84 | a frame leaves on the canvas exactly the specified tree for the demo's constants, N(growth) strokes in all |
| Screen.MinDimension | src/main/kotlin/client.kt:92 | the minimum dimension is one of width and height, and no larger than either |
| Screen.FlipIsTimesFlipY | src/main/kotlin/client.kt:88-94 | the y flip used by the mapping is the component-wise product with FLIP_Y = (1, -1) |
| Screen.CentreMapsToCanvasCentre | src/main/kotlin/client.kt:94 | the normalized origin maps to the canvas centre (width / 2, height / 2) |
| Screen.UniformScale | src/main/kotlin/client.kt:94 | mapped displacements are normalized displacements scaled by minDimension / 2 on both axes, y negated, so the aspect ratio is kept |
| Screen.FlipsYKeepsX | src/main/kotlin/client.kt:88-94 | on a canvas with a positive shorter side, a higher normalized y gives a smaller pixel y and x order is kept (both directions) |
| Screen.UnitSquareInsideCanvas | src/main/kotlin/client.kt:90-94 | every point of the normalized square [-1, 1] x [-1, 1] maps inside the canvas [0, width] x [0, height] |

## Left out

- `main`, `Painter`, the animation frame loop, the global `painter` (whose field holds the canvas), `drawer`,
  `width`, `height` and `time`: browser I/O. The canvas size is a parameter of
  `Screen`.
- `growthFormula` and `windTwistFormula`, with `lifespan`, `growthSpeed` and
  `windTwistMaxAngle`: the growth and wind twist are parameters of `Draw`.
  Their time arithmetic is floating point and clock-driven.
- The stroke itself (`beginPath`, `moveTo`, `lineTo`, `stroke`, colours,
  `fillRect`): `Canvas` keeps the segments in normalized coordinates.
  - `toScreenCoord` is modelled separately. The strokes are not stored mapped.
- The trigonometry of `Polar.cartesian` and the pseudo-random generator inside
  `kotlin.random.Random`: foreign code.
  - They are uninterpreted function parameters.
  - Only the `[lo, hi)` range of `nextDouble` is assumed.
- IEEE double rounding: growth, angles and widths are exact reals.
- Client.Tree, Branching.Generate: require `Terminates`: a positive threshold,
  or a call that never reaches a recursive call. That is one that does not
  branch (growth at or below the threshold), has an empty loop (branch count at
  most 0), or throws on its first loop run (angle variation at most 0). The
  excluded case is a threshold at or below 0 with growth above it, a positive
  branch count and a positive variation. There the source recurses without end
  (see `Branching.NonPositiveThresholdNeverBottomsOut`), and that is not
  modelled.
- Branching.ChildInherits, Branching.SeedsDistinctAcrossGenerations: state the
  seed as `generation * 10 + branchCount` only when no 32-bit overflow occurs.
  The wrapped value is modelled by `Int32`, whose contract states the
  two's-complement wrap.
- The `IllegalArgumentException` from `nextDouble` is modelled as the `thrown`
  flag propagating to every caller. Its type and message are not modelled.
- The build files and the Gradle setup: not part of the program's behaviour.
