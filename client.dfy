/** The imperative core of the demo: `tree` walks the branch recursion, drawing
    each branch on a canvas as it goes and drawing headings from a mutable
    random stream, and `draw` clears the canvas and starts the tree from the
    bottom of the screen. Both are proved to produce exactly what
    `Branching.Generate` specifies. */
module Client {
  import opened Vectors
  import opened Branching

  /** The browser canvas, reduced to the branches stroked on it since it was last cleared. */
  class Canvas {
    var strokes: seq<Segment>

    constructor ()
      ensures strokes == []
    {
      strokes := [];
    }

    /** Paints the whole canvas black: nothing drawn remains. */
    method ClearScreen()
      modifies this
      ensures strokes == []
    {
      strokes := [];
    }

    /** Strokes one branch from `start` to `end` with line width `width`. */
    method DrawBranch(start: Vector2, end: Vector2, width: real)
      modifies this
      ensures strokes == old(strokes) + [Segment(start, end, width)]
    {
      strokes := strokes + [Segment(start, end, width)];
    }
  }

  /** A `kotlin.random.Random` built from `seed`; `draws` counts the values taken from it. */
  class Random {
    const seed: int
    const prng: Prng
    var draws: nat

    constructor (seed: int, prng: Prng)
      ensures this.seed == seed && this.prng == prng && draws == 0
    {
      this.seed := seed;
      this.prng := prng;
      draws := 0;
    }

    /** `nextDouble(from, until)`: throws (`thrown`) unless `from < until`, and
        otherwise takes the next value of the stream, which lies in
        [from, until) whenever the stream honours its range. */
    method NextDouble(from: real, until: real) returns (r: real, thrown: bool)
      modifies this
      ensures thrown <==> !(from < until)
      ensures thrown ==> draws == old(draws)
      ensures !thrown ==> r == prng(seed, old(draws), from, until) && draws == old(draws) + 1
      ensures !thrown && HonoursRange(prng) ==> from <= r < until
    {
      if !(from < until) {
        thrown := true;
        r := 0.0;
      } else {
        thrown := false;
        r := prng(seed, draws, from, until);
        draws := draws + 1;
      }
    }
  }

  /** `tree`: draws this branch, then, when `growth` exceeds the threshold,
      runs the `forEach` body `branchCount` times from the branch's end. An
      exception from `nextDouble` ends the call at once and propagates
      (`thrown`). */
  method Tree(
    start: Vector2,
    angle: real,
    windTwist: real,
    growth: real,
    branchCount: int,
    branchingThreshold: real,
    branchAngleVariation: real,
    generation: int,
    random: Random,
    canvas: Canvas,
    polar: PolarToCartesian)
    returns (thrown: bool)
    requires branchingThreshold > 0.0 || branchCount <= 0 || growth <= branchingThreshold
          || branchAngleVariation <= 0.0
    modifies random, canvas
    ensures var r := Generate(
      Call(start, angle, windTwist, growth, branchCount, branchingThreshold, branchAngleVariation,
           generation, Stream(random.seed, old(random.draws))),
      polar, random.prng);
      && canvas.strokes == old(canvas.strokes) + r.segments
      && thrown == r.thrown
      && random.draws == old(random.draws) + r.draws
    decreases Height(growth, branchingThreshold), 2
  {
    var call := Call(start, angle, windTwist, growth, branchCount, branchingThreshold,
                     branchAngleVariation, generation, Stream(random.seed, random.draws));
    var end := start.Plus(polar(angle, growth));
    canvas.DrawBranch(start, end, growth * WidthFactor);
    thrown := false;
    if growth > branchingThreshold {
      thrown := ForEachChild(call, end, random, canvas, polar);
    }
    GenerateShape(call, polar, random.prng);
  }

  /** The `forEach` loop of `tree` over `0 until branchCount`, for the
      arguments `call` of `tree`, which stops at the first exception. */
  method ForEachChild(call: Call, end: Vector2, random: Random, canvas: Canvas, polar: PolarToCartesian)
    returns (thrown: bool)
    requires Terminates(call) && call.growth > call.threshold
    requires random.seed == call.random.seed && random.draws == call.random.drawn
    modifies random, canvas
    ensures var r := Branches(call, end, Iterations(call), polar, random.prng);
      && canvas.strokes == old(canvas.strokes) + r.segments
      && thrown == r.thrown
      && random.draws == old(random.draws) + r.draws
    decreases Height(call.growth, call.threshold), 1
  {
    thrown := false;
    var k := 0;
    while k < call.branchCount && !thrown
      invariant k <= Iterations(call)
      invariant Drawn(call, end, k, polar, random.prng, old(canvas.strokes), canvas.strokes, thrown, random.draws)
    {
      BranchesOutcome(call, end, k, polar, random.prng);
      ghost var mid, drawsMid := canvas.strokes, random.draws;
      thrown := ChildBranch(call, end, k, random, canvas, polar);
      DrawnStep(call, end, k, k + 1, polar, random.prng, old(canvas.strokes), mid, canvas.strokes, thrown,
                drawsMid, random.draws);
      k := k + 1;
    }
    LoopDone(call, end, k, polar, random.prng);
  }

  /** The body of the `forEach` loop of `tree`, k-th run: draws the child's
      heading from `random`, turned by the wind, and recurses with shrunken
      growth, the next generation and a fresh stream seeded
      `generation * 10 + branchCount`. */
  method ChildBranch(call: Call, end: Vector2, ghost k: nat, random: Random, canvas: Canvas, polar: PolarToCartesian)
    returns (thrown: bool)
    requires Terminates(call) && call.growth > call.threshold && k < Iterations(call)
    requires random.seed == call.random.seed && random.draws == call.random.drawn + k
    modifies random, canvas
    ensures var r := Iteration(call, end, k, polar, random.prng);
      && canvas.strokes == old(canvas.strokes) + r.segments
      && thrown == r.thrown
      && random.draws == old(random.draws) + r.draws
    decreases Height(call.growth, call.threshold), 0
  {
    var heading, empty := random.NextDouble(call.angle - call.variation, call.angle + call.variation);
    if empty {
      thrown := true;
    } else {
      var childRandom := new Random(Seed(call.generation, call.branchCount), random.prng);
      HeightDecreases(call.growth, call.threshold);
      thrown := Tree(end, heading + call.windTwist, call.windTwist, ChildGrowth(call.growth, call.threshold),
                     call.branchCount, call.threshold, call.variation, NextGeneration(call.generation),
                     childRandom, canvas, polar);
    }
  }

  /** `draw`, once per frame: clears the canvas, then draws the whole tree from
      the bottom of the screen, pointing up, with the demo's constants and a
      stream seeded 0. The frame it leaves is exactly the specified tree,
      N(growth) branches in all. */
  method Draw(canvas: Canvas, growth: real, windTwist: real, polar: PolarToCartesian, prng: Prng)
    modifies canvas
    ensures canvas.strokes == Generate(RootCall(growth, windTwist), polar, prng).segments
    ensures |canvas.strokes| == SegmentCount(growth, BranchingThreshold, BranchCount)
  {
    canvas.ClearScreen();
    var random := new Random(0, prng);
    var thrown := Tree(StartPoint, StartAngle, windTwist, growth, BranchCount, BranchingThreshold,
                       BranchAngleVariation, 0, random, canvas, polar);
    DemoTree(growth, windTwist, polar, prng);
  }
}
