/** The recursive branch generator of the tree demo, as a specification: the
    segments one call of `tree` draws, in the order it draws them, given the
    foreign trigonometry (`polar`) and the foreign random stream (`prng`) as
    parameters. */
module Branching {
  import opened Vectors

  /** One stroke on the canvas. */
  datatype Segment = Segment(start: Vector2, end: Vector2, width: real)

  /** A `kotlin.random.Random` seen from outside: the seed it was built with
      and how many values have been drawn from it so far. */
  datatype Stream = Stream(seed: int, drawn: nat)

  /** The arguments of one call of `tree`. */
  datatype Call = Call(
    start: Vector2,
    angle: real,
    windTwist: real,
    growth: real,
    branchCount: int,
    threshold: real,
    variation: real,
    generation: int,
    random: Stream)

  /** What one call leaves behind: the segments it drew, in order, whether it
      ended by an exception (from `nextDouble`), and how many values it drew
      from the stream it was given. */
  datatype Trace = Trace(segments: seq<Segment>, thrown: bool, draws: nat)

  /** openrndr's `Polar(angle, radius).cartesian` (angle in degrees). */
  type PolarToCartesian = (real, real) -> Vector2

  /** `Random(seed).nextDouble(lo, hi)` as the `drawIndex`-th value drawn from that stream. */
  type Prng = (int, nat, real, real) -> real

  /** The only promise made about the random stream: `nextDouble(lo, hi)` lies in [lo, hi). */
  ghost predicate HonoursRange(prng: Prng) {
    forall seed: int, k: nat, lo: real, hi: real :: lo < hi ==> lo <= prng(seed, k, lo, hi) < hi
  }

  // The constants `draw` drives the tree with.
  const StartPoint: Vector2 := Vector2(0.0, -1.0)
  const StartAngle: real := 90.0
  const BranchCount: int := 9
  const BranchingThreshold: real := 0.03
  const BranchAngleVariation: real := 60.0

  // The constants inside `tree`.
  const WidthFactor: real := 5.0
  const GrowthDecay: real := 0.7
  const SeedStride: int := 10

  /** Kotlin `Int` arithmetic: the result reduced into [-2^31, 2^31). */
  function Int32(x: int): (r: int)
    ensures -0x8000_0000 <= r < 0x8000_0000
    ensures -0x8000_0000 <= x < 0x8000_0000 ==> r == x
    ensures (r - x) % 0x1_0000_0000 == 0
  {
    (x + 0x8000_0000) % 0x1_0000_0000 - 0x8000_0000
  }

  /** `generation * 10 + branchCount`, the seed every child of a node is given. */
  function Seed(generation: int, branchCount: int): int {
    Int32(Int32(generation * SeedStride) + branchCount)
  }

  /** `generation + 1`. */
  function NextGeneration(generation: int): int {
    Int32(generation + 1)
  }

  /** `(growth - branchingThreshold) * .7`. */
  function ChildGrowth(growth: real, threshold: real): real {
    (growth - threshold) * GrowthDecay
  }

  /** The size of `0 until branchCount`. */
  function Iterations(c: Call): nat {
    if c.branchCount > 0 then c.branchCount else 0
  }

  /** When recursion is finite: a positive threshold, or a call that never
      reaches a recursive call because it does not branch, its loop is empty,
      or `nextDouble` throws on the loop's first run. */
  predicate Terminates(c: Call) {
    c.threshold > 0.0 || c.branchCount <= 0 || c.growth <= c.threshold || c.variation <= 0.0
  }

  /** An upper bound on how many more generations a call can branch. */
  function Height(growth: real, threshold: real): nat {
    if 0.0 < threshold < growth then
      QuotientAboveOne(growth, threshold);
      (growth / threshold).Floor
    else 0
  }

  lemma QuotientAboveOne(growth: real, threshold: real)
    requires 0.0 < threshold < growth
    ensures growth / threshold > 1.0
  {
  }

  /** The segment a call draws for itself, before any of its children. */
  function OwnSegment(c: Call, polar: PolarToCartesian): Segment {
    Segment(c.start, c.start.Plus(polar(c.angle, c.growth)), c.growth * WidthFactor)
  }

  /** The arguments of the k-th recursive call made by `c`, whose own segment ends at `end`. */
  function ChildCall(c: Call, end: Vector2, k: nat, prng: Prng): Call {
    Call(
      end,
      prng(c.random.seed, c.random.drawn + k, c.angle - c.variation, c.angle + c.variation) + c.windTwist,
      c.windTwist,
      ChildGrowth(c.growth, c.threshold),
      c.branchCount,
      c.threshold,
      c.variation,
      NextGeneration(c.generation),
      Stream(Seed(c.generation, c.branchCount), 0))
  }

  /** Everything one call of `tree` draws, in drawing order. */
  function Generate(c: Call, polar: PolarToCartesian, prng: Prng): (r: Trace)
    requires Terminates(c)
    // pre-order: a call draws its own segment before anything else
    ensures |r.segments| >= 1 && r.segments[0] == OwnSegment(c, polar)
    decreases Height(c.growth, c.threshold), 1
  {
    var own := OwnSegment(c, polar);
    if c.growth <= c.threshold then
      Trace([own], false, 0)
    else
      var children := Branches(c, own.end, Iterations(c), polar, prng);
      Trace([own] + children.segments, children.thrown, children.draws)
  }

  /** What the first n iterations of the `forEach` loop of a branching call
      draw. The loop stops at the first iteration that throws. */
  function Branches(c: Call, end: Vector2, n: nat, polar: PolarToCartesian, prng: Prng): (r: Trace)
    requires Terminates(c) && c.growth > c.threshold && n <= Iterations(c)
    decreases Height(c.growth, c.threshold), 0, n
  {
    if n == 0 then
      Trace([], false, 0)
    else
      var before := Branches(c, end, n - 1, polar, prng);
      if before.thrown then
        before
      else
        var step := Iteration(c, end, n - 1, polar, prng);
        Trace(before.segments + step.segments, step.thrown, before.draws + step.draws)
  }

  /** The k-th run of the `forEach` body: draw a heading from the call's
      stream, which throws when the heading range is empty, then recurse. */
  function Iteration(c: Call, end: Vector2, k: nat, polar: PolarToCartesian, prng: Prng): (r: Trace)
    requires Terminates(c) && c.growth > c.threshold && k < Iterations(c)
    decreases Height(c.growth, c.threshold), 0, k
  {
    if !(c.angle - c.variation < c.angle + c.variation) then
      Trace([], true, 0)
    else
      HeightDecreases(c.growth, c.threshold);
      var sub := Generate(ChildCall(c, end, k, prng), polar, prng);
      Trace(sub.segments, sub.thrown, 1)
  }

  /** How a call ends. `nextDouble` throws exactly when a branching call with
      a non-empty loop has an empty heading range; the call then stops after
      its own segment. Otherwise it draws one heading per loop iteration from
      its own stream, and none in the base case; it stops at its own segment
      exactly when it does not branch or its loop is empty. */
  lemma {:induction false} GenerateOutcome(c: Call, polar: PolarToCartesian, prng: Prng)
    requires Terminates(c)
    ensures var r := Generate(c, polar, prng);
      && (r.thrown <==> c.growth > c.threshold && Iterations(c) > 0 && c.variation <= 0.0)
      && r.draws == (if c.growth > c.threshold && c.variation > 0.0 then Iterations(c) else 0)
      && (|r.segments| == 1 <==> c.growth <= c.threshold || Iterations(c) == 0 || c.variation <= 0.0)
    decreases Height(c.growth, c.threshold), 1
  {
    if c.growth > c.threshold {
      BranchesOutcome(c, OwnSegment(c, polar).end, Iterations(c), polar, prng);
    }
  }

  /** How the first n iterations of a loop end: the first one throws when the
      heading range is empty, and nothing is drawn; otherwise each iteration
      draws once and adds at least one segment. */
  lemma {:induction false} BranchesOutcome(c: Call, end: Vector2, n: nat, polar: PolarToCartesian, prng: Prng)
    requires Terminates(c) && c.growth > c.threshold && n <= Iterations(c)
    ensures var r := Branches(c, end, n, polar, prng);
      && (r.thrown <==> n > 0 && c.variation <= 0.0)
      && (r.thrown ==> r.segments == [] && r.draws == 0)
      && (!r.thrown ==> |r.segments| >= n && r.draws == n)
    decreases Height(c.growth, c.threshold), 0, n
  {
    if n > 0 {
      BranchesOutcome(c, end, n - 1, polar, prng);
      if c.variation > 0.0 {
        HeightDecreases(c.growth, c.threshold);
        GenerateOutcome(ChildCall(c, end, n - 1, prng), polar, prng);
      }
    }
  }

  /** The segment count of a call that does not throw, as a recurrence on growth alone:
      N(g) = 1 when g <= threshold, else 1 + branches * N((g - threshold) * .7). */
  function SegmentCount(growth: real, threshold: real, branches: nat): nat
    requires threshold > 0.0 || branches == 0 || growth <= threshold
    decreases Height(growth, threshold)
  {
    if growth <= threshold || branches == 0 then 1
    else
      HeightDecreases(growth, threshold);
      1 + branches * SegmentCount(ChildGrowth(growth, threshold), threshold, branches)
  }

  /** The number of generations along any path from a call to a leaf. */
  function Levels(growth: real, threshold: real): nat
    requires threshold > 0.0
    decreases Height(growth, threshold)
  {
    if growth <= threshold then 1
    else
      HeightDecreases(growth, threshold);
      1 + Levels(ChildGrowth(growth, threshold), threshold)
  }

  /** The call `draw` makes each frame. */
  function RootCall(growth: real, windTwist: real): Call {
    Call(StartPoint, StartAngle, windTwist, growth, BranchCount, BranchingThreshold,
         BranchAngleVariation, 0, Stream(0, 0))
  }

  /** Each branching step shrinks growth, by more than `.7 * threshold`, and keeps it positive. */
  lemma ChildGrowthShrinks(growth: real, threshold: real)
    requires 0.0 < threshold < growth
    ensures 0.0 < ChildGrowth(growth, threshold) < growth
    ensures growth - ChildGrowth(growth, threshold) > GrowthDecay * threshold
  {
  }

  /** The termination measure drops by at least one per generation. */
  lemma HeightDecreases(growth: real, threshold: real)
    requires 0.0 < threshold < growth
    ensures Height(ChildGrowth(growth, threshold), threshold) < Height(growth, threshold)
  {
    var q := growth / threshold;
    QuotientAboveOne(growth, threshold);
    assert (q.Floor as real) > q - 1.0;
    var child := ChildGrowth(growth, threshold);
    if child > threshold {
      var q' := child / threshold;
      assert q' == (q - 1.0) * GrowthDecay by {
        assert growth == q * threshold;
        assert child == (q - 1.0) * threshold * GrowthDecay;
      }
      assert q'.Floor as real <= q';
    }
  }

  /** Without a positive threshold growth above it never falls to it, so a call that
      branches, with a non-empty loop and a positive angle variation, recurses
      forever: the reason for `Terminates`. */
  lemma {:induction false} NonPositiveThresholdNeverBottomsOut(growth: real, threshold: real)
    requires threshold <= 0.0 && threshold < growth
    ensures ChildGrowth(growth, threshold) > threshold
    ensures ChildGrowth(growth, threshold) > 0.0
  {
    assert ChildGrowth(growth, threshold) == GrowthDecay * growth - GrowthDecay * threshold;
  }

  /** Every child of a call is drawn from the call's own end point, inherits
      everything but heading, growth, generation and stream, and is the next
      generation. */
  lemma ChildInherits(c: Call, end: Vector2, k: nat, prng: Prng)
    requires -0x8000_0000 <= c.generation < 0x7fff_ffff
    requires -0x8000_0000 <= c.generation * SeedStride < 0x8000_0000
    requires -0x8000_0000 <= c.generation * SeedStride + c.branchCount < 0x8000_0000
    ensures var child := ChildCall(c, end, k, prng);
      && child.start == end
      && child.windTwist == c.windTwist
      && child.branchCount == c.branchCount
      && child.threshold == c.threshold
      && child.variation == c.variation
      && child.generation == c.generation + 1
      && child.random == Stream(c.generation * SeedStride + c.branchCount, 0)
  {
  }

  /** When nothing throws, how many segments a call draws depends only on its
      growth, threshold and branch count: never on its start, heading, wind
      twist or random draws. */
  lemma {:induction false} GenerateCount(c: Call, polar: PolarToCartesian, prng: Prng)
    requires Terminates(c) && c.variation > 0.0
    ensures |Generate(c, polar, prng).segments| == SegmentCount(c.growth, c.threshold, Iterations(c))
    decreases Height(c.growth, c.threshold), 1
  {
    if c.growth > c.threshold && Iterations(c) > 0 {
      BranchesCount(c, OwnSegment(c, polar).end, Iterations(c), polar, prng);
    }
  }

  /** The first n loop iterations of a branching call draw n subtrees of equal size. */
  lemma {:induction false} BranchesCount(c: Call, end: Vector2, n: nat, polar: PolarToCartesian, prng: Prng)
    requires Terminates(c) && c.growth > c.threshold && n <= Iterations(c) && c.variation > 0.0
    ensures |Branches(c, end, n, polar, prng).segments|
         == n * SegmentCount(ChildGrowth(c.growth, c.threshold), c.threshold, Iterations(c))
    decreases Height(c.growth, c.threshold), 0, n
  {
    if n > 0 {
      var m := SegmentCount(ChildGrowth(c.growth, c.threshold), c.threshold, Iterations(c));
      BranchesCount(c, end, n - 1, polar, prng);
      HeightDecreases(c.growth, c.threshold);
      var child := ChildCall(c, end, n - 1, prng);
      GenerateCount(child, polar, prng);
      BranchesStep(c, end, n - 1, n, polar, prng);
      OneMoreMultiple(n, m);
    }
  }

  /** Two calls that differ only in where they start, where they point, how
      the wind twists them and what the random streams return draw the same
      number of segments. */
  lemma CountIndependentOfHeadings(c: Call, d: Call, polar: PolarToCartesian, prng: Prng, prng': Prng)
    requires Terminates(c) && c.variation > 0.0 && d.variation > 0.0
    requires c.growth == d.growth && c.threshold == d.threshold && c.branchCount == d.branchCount
    ensures |Generate(c, polar, prng).segments| == |Generate(d, polar, prng').segments|
  {
    GenerateCount(c, polar, prng);
    GenerateCount(d, polar, prng');
  }

  /** `n` raised to the power `e`. */
  function Pow(n: nat, e: nat): nat {
    if e == 0 then 1 else n * Pow(n, e - 1)
  }

  /** The segment count of a complete `n`-ary tree with `Levels` levels:
      (n - 1) * N + 1 == n ^ Levels, and for a single child per call (where
      that identity says nothing) one segment per level. */
  lemma {:induction false} SegmentCountClosedForm(growth: real, threshold: real, n: nat)
    requires threshold > 0.0
    ensures (n - 1) * SegmentCount(growth, threshold, n) + 1 == Pow(n, Levels(growth, threshold))
    ensures n == 1 ==> SegmentCount(growth, threshold, n) == Levels(growth, threshold)
    decreases Height(growth, threshold)
  {
    if growth > threshold {
      var child := ChildGrowth(growth, threshold);
      HeightDecreases(growth, threshold);
      SegmentCountClosedForm(child, threshold, n);
      if n > 0 {
        ClosedFormStep(n, SegmentCount(child, threshold, n), Pow(n, Levels(child, threshold)));
      }
    }
  }

  lemma ClosedFormStep(n: nat, sub: nat, p: nat)
    requires n > 0 && (n - 1) * sub + 1 == p
    ensures (n - 1) * (1 + n * sub) + 1 == n * p
  {
    calc {
      (n - 1) * (1 + n * sub) + 1;
      n + n * ((n - 1) * sub);
      n * ((n - 1) * sub + 1);
    }
  }

  /** A finite tree: no path is longer than the termination measure allows. */
  lemma {:induction false} LevelsBound(growth: real, threshold: real)
    requires threshold > 0.0
    ensures 1 <= Levels(growth, threshold) <= Height(growth, threshold) + 1
    decreases Height(growth, threshold)
  {
    if growth > threshold {
      HeightDecreases(growth, threshold);
      LevelsBound(ChildGrowth(growth, threshold), threshold);
    }
  }

  /** Iteration n of a loop that does not throw appends the subtree of the n-th child. */
  lemma BranchesStep(c: Call, end: Vector2, k: nat, n: nat, polar: PolarToCartesian, prng: Prng)
    requires Terminates(c) && c.growth > c.threshold && n == k + 1 <= Iterations(c) && c.variation > 0.0
    ensures Branches(c, end, n, polar, prng).segments
         == Branches(c, end, k, polar, prng).segments + Generate(ChildCall(c, end, k, prng), polar, prng).segments
  {
    BranchesOutcome(c, end, k, polar, prng);
    HeightDecreases(c.growth, c.threshold);
  }

  lemma OneMoreMultiple(n: nat, m: nat)
    requires n > 0
    ensures (n - 1) * m + m == n * m
  {
  }

  /** What the first k loop iterations draw is the start of what any later iteration has drawn. */
  lemma {:induction false} BranchesPrefix(c: Call, end: Vector2, k: nat, n: nat, polar: PolarToCartesian, prng: Prng)
    requires Terminates(c) && c.growth > c.threshold && k <= n <= Iterations(c) && c.variation > 0.0
    ensures var shorter := Branches(c, end, k, polar, prng).segments;
      var longer := Branches(c, end, n, polar, prng).segments;
      |shorter| <= |longer| && longer[..|shorter|] == shorter
    decreases n
  {
    if k < n {
      BranchesPrefix(c, end, k, n - 1, polar, prng);
      BranchesStep(c, end, n - 1, n, polar, prng);
      PrefixExtends(
        Branches(c, end, k, polar, prng).segments,
        Branches(c, end, n - 1, polar, prng).segments,
        Generate(ChildCall(c, end, n - 1, prng), polar, prng).segments);
    }
  }

  /** The first k + 1 iterations' segments begin the whole loop's segments. */
  lemma LoopPrefix(c: Call, end: Vector2, k: nat, polar: PolarToCartesian, prng: Prng)
    requires Terminates(c) && c.growth > c.threshold && c.variation > 0.0 && k < Iterations(c)
    ensures var all := Branches(c, end, Iterations(c), polar, prng).segments;
      var upto := Branches(c, end, k + 1, polar, prng).segments;
      |upto| <= |all| && all[..|upto|] == upto
  {
    BranchesPrefix(c, end, k + 1, Iterations(c), polar, prng);
  }

  /** Each child's subtree begins with a segment drawn from the end point the
      loop was given, which for a branching call is the end of its own segment. */
  lemma ChildStartsAtParentEnd(c: Call, end: Vector2, k: nat, polar: PolarToCartesian, prng: Prng)
    requires Terminates(c) && c.growth > c.threshold && c.variation > 0.0 && k < Iterations(c)
    ensures var all := Branches(c, end, Iterations(c), polar, prng).segments;
      var m := SegmentCount(ChildGrowth(c.growth, c.threshold), c.threshold, Iterations(c));
      0 <= k * m < |all| && all[k * m].start == end
  {
    ChildBlockAt(c, end, k, polar, prng);
    StartsWhereCalled(ChildCall(c, end, k, prng), polar, prng);
    FirstOfBlock(
      Branches(c, end, Iterations(c), polar, prng).segments,
      k * SegmentCount(ChildGrowth(c.growth, c.threshold), c.threshold, Iterations(c)),
      Generate(ChildCall(c, end, k, prng), polar, prng).segments);
  }

  /** A call's first segment starts at the call's start point. */
  lemma StartsWhereCalled(c: Call, polar: PolarToCartesian, prng: Prng)
    requires Terminates(c)
    ensures Generate(c, polar, prng).segments[0].start == c.start
  {
  }

  lemma FirstOfBlock(s: seq<Segment>, off: nat, block: seq<Segment>)
    requires 0 < |block| && off + |block| <= |s| && s[off .. off + |block|] == block
    ensures s[off] == block[0]
  {
    assert s[off .. off + |block|][0] == s[off];
  }

  /** Pre-order layout: the loop of a branching call draws the complete subtree
      of its k-th child as one contiguous block, at offset k * m where m is the
      (common) subtree size; with `GenerateShape`, the block sits at 1 + k * m
      in the call's own output. */
  lemma ChildBlockAt(c: Call, end: Vector2, k: nat, polar: PolarToCartesian, prng: Prng)
    requires Terminates(c) && c.growth > c.threshold && c.variation > 0.0 && k < Iterations(c)
    ensures var all := Branches(c, end, Iterations(c), polar, prng).segments;
      var m := SegmentCount(ChildGrowth(c.growth, c.threshold), c.threshold, Iterations(c));
      && |Generate(ChildCall(c, end, k, prng), polar, prng).segments| == m
      && 0 <= k * m && k * m + m <= |all|
      && all[k * m .. k * m + m] == Generate(ChildCall(c, end, k, prng), polar, prng).segments
  {
    ChildBlock(c, end, k, polar, prng);
    BranchesCount(c, end, k, polar, prng);
    GenerateCount(ChildCall(c, end, k, prng), polar, prng);
  }

  /** A call draws its own segment, then, if it branches, runs its loop and
      ends as the loop ends. */
  lemma GenerateShape(c: Call, polar: PolarToCartesian, prng: Prng)
    requires Terminates(c)
    ensures c.growth <= c.threshold ==> Generate(c, polar, prng) == Trace([OwnSegment(c, polar)], false, 0)
    ensures c.growth > c.threshold ==>
      var loop := Branches(c, OwnSegment(c, polar).end, Iterations(c), polar, prng);
      Generate(c, polar, prng) == Trace([OwnSegment(c, polar)] + loop.segments, loop.thrown, loop.draws)
  {
  }

  /** Within the loop, the k-th child's subtree follows the first k subtrees. */
  lemma ChildBlock(c: Call, end: Vector2, k: nat, polar: PolarToCartesian, prng: Prng)
    requires Terminates(c) && c.growth > c.threshold && c.variation > 0.0 && k < Iterations(c)
    ensures var all := Branches(c, end, Iterations(c), polar, prng).segments;
      var before := Branches(c, end, k, polar, prng).segments;
      var sub := Generate(ChildCall(c, end, k, prng), polar, prng).segments;
      |before| + |sub| <= |all| && all[|before| .. |before| + |sub|] == sub
  {
    BranchesStep(c, end, k, k + 1, polar, prng);
    LoopPrefix(c, end, k, polar, prng);
    BlockAfterPrefix(
      Branches(c, end, k, polar, prng).segments,
      Generate(ChildCall(c, end, k, prng), polar, prng).segments,
      Branches(c, end, k + 1, polar, prng).segments,
      Branches(c, end, Iterations(c), polar, prng).segments);
  }

  lemma BlockAfterPrefix(before: seq<Segment>, sub: seq<Segment>, upto: seq<Segment>, all: seq<Segment>)
    requires upto == before + sub && |upto| <= |all| && all[..|upto|] == upto
    ensures |before| + |sub| <= |all| && all[|before| .. |before| + |sub|] == sub
  {
    assert all[|before| .. |before| + |sub|] == upto[|before|..];
  }

  /** What the first k loop runs of `c` leave behind: the canvas holds
      `before` followed by their segments, `thrown` says whether the last one
      threw, and the stream has given their draws. */
  ghost predicate Drawn(c: Call, end: Vector2, k: nat, polar: PolarToCartesian, prng: Prng,
                        before: seq<Segment>, strokes: seq<Segment>, thrown: bool, draws: int)
    requires Terminates(c) && c.growth > c.threshold && k <= Iterations(c)
  {
    var done := Branches(c, end, k, polar, prng);
    strokes == before + done.segments && thrown == done.thrown && draws == c.random.drawn + done.draws
  }

  /** Loop run k, started where nothing has thrown, appends what the loop body draws. */
  lemma DrawnStep(c: Call, end: Vector2, k: nat, n: nat, polar: PolarToCartesian, prng: Prng,
                  before: seq<Segment>, mid: seq<Segment>, after: seq<Segment>, thrown: bool,
                  drawsMid: int, drawsAfter: int)
    requires Terminates(c) && c.growth > c.threshold && n == k + 1 <= Iterations(c)
    requires Drawn(c, end, k, polar, prng, before, mid, false, drawsMid)
    requires after == mid + Iteration(c, end, k, polar, prng).segments
    requires thrown == Iteration(c, end, k, polar, prng).thrown
    requires drawsAfter == drawsMid + Iteration(c, end, k, polar, prng).draws
    ensures Drawn(c, end, n, polar, prng, before, after, thrown, drawsAfter)
  {
    LoopStep(c, end, k, n, polar, prng);
    AppendAssociates(before, Branches(c, end, k, polar, prng).segments, Iteration(c, end, k, polar, prng).segments);
  }

  lemma AppendAssociates(a: seq<Segment>, b: seq<Segment>, c: seq<Segment>)
    ensures (a + b) + c == a + (b + c)
  {
  }

  lemma PrefixExtends(shorter: seq<Segment>, mid: seq<Segment>, tail: seq<Segment>)
    requires |shorter| <= |mid| && mid[..|shorter|] == shorter
    ensures (mid + tail)[..|shorter|] == shorter
  {
    assert (mid + tail)[..|shorter|] == mid[..|shorter|];
  }

  /** Segment i starts at the end of a segment drawn before it. */
  ghost predicate HangsOff(s: seq<Segment>, i: nat)
    requires i < |s|
  {
    exists j :: 0 <= j < i && s[j].end == s[i].start
  }

  /** Every segment starts at `root` or at the end of a segment drawn before it. */
  ghost predicate StartsOnTree(s: seq<Segment>, root: Vector2) {
    forall i :: 0 <= i < |s| ==> s[i].start == root || HangsOff(s, i)
  }

  /** Every segment after the first starts at the end of a segment drawn before it. */
  ghost predicate Connected(s: seq<Segment>) {
    forall i :: 0 < i < |s| ==> HangsOff(s, i)
  }

  /** One iteration of the loop, as long as nothing has thrown yet, appends
      what the `forEach` body draws; by then the stream has given k values. */
  lemma LoopStep(c: Call, end: Vector2, k: nat, n: nat, polar: PolarToCartesian, prng: Prng)
    requires Terminates(c) && c.growth > c.threshold && n == k + 1 <= Iterations(c)
    requires !Branches(c, end, k, polar, prng).thrown
    ensures Branches(c, end, k, polar, prng).draws == k
    ensures Branches(c, end, n, polar, prng) ==
      Trace(Branches(c, end, k, polar, prng).segments + Iteration(c, end, k, polar, prng).segments,
            Iteration(c, end, k, polar, prng).thrown,
            Branches(c, end, k, polar, prng).draws + Iteration(c, end, k, polar, prng).draws)
  {
    BranchesOutcome(c, end, k, polar, prng);
  }

  /** Once the loop has run to the end or thrown, nothing further changes. */
  lemma LoopDone(c: Call, end: Vector2, k: nat, polar: PolarToCartesian, prng: Prng)
    requires Terminates(c) && c.growth > c.threshold && k <= Iterations(c)
    requires k == Iterations(c) || Branches(c, end, k, polar, prng).thrown
    ensures Branches(c, end, Iterations(c), polar, prng) == Branches(c, end, k, polar, prng)
  {
    BranchesOutcome(c, end, k, polar, prng);
    BranchesOutcome(c, end, Iterations(c), polar, prng);
  }

  /** Whatever the loop does, iteration k either adds the k-th child's subtree or nothing. */
  lemma BranchesSegmentsStep(c: Call, end: Vector2, k: nat, n: nat, polar: PolarToCartesian, prng: Prng)
    requires Terminates(c) && c.growth > c.threshold && n == k + 1 <= Iterations(c)
    ensures Branches(c, end, n, polar, prng).segments
         == Branches(c, end, k, polar, prng).segments
          + (if c.variation > 0.0 then Generate(ChildCall(c, end, k, prng), polar, prng).segments else [])
  {
    BranchesOutcome(c, end, k, polar, prng);
    if c.variation > 0.0 {
      HeightDecreases(c.growth, c.threshold);
    }
  }

  /** The drawing is one connected figure: every stroke after the first begins
      where an earlier stroke ended, and the first begins at the start point. */
  lemma {:induction false} GenerateConnected(c: Call, polar: PolarToCartesian, prng: Prng)
    requires Terminates(c)
    ensures Connected(Generate(c, polar, prng).segments)
    ensures Generate(c, polar, prng).segments[0].start == c.start
    decreases Height(c.growth, c.threshold), 1
  {
    if c.growth > c.threshold {
      BranchesOnTree(c, OwnSegment(c, polar).end, Iterations(c), polar, prng);
      GenerateShape(c, polar, prng);
      HeadThenOnTree(OwnSegment(c, polar), Branches(c, OwnSegment(c, polar).end, Iterations(c), polar, prng).segments);
    }
  }

  /** Everything a loop draws hangs off the end point it was given. */
  lemma {:induction false} BranchesOnTree(c: Call, end: Vector2, n: nat, polar: PolarToCartesian, prng: Prng)
    requires Terminates(c) && c.growth > c.threshold && n <= Iterations(c)
    ensures StartsOnTree(Branches(c, end, n, polar, prng).segments, end)
    decreases Height(c.growth, c.threshold), 0, n
  {
    if n > 0 {
      BranchesOnTree(c, end, n - 1, polar, prng);
      BranchesSegmentsStep(c, end, n - 1, n, polar, prng);
      if c.variation > 0.0 {
        HeightDecreases(c.growth, c.threshold);
        GenerateConnected(ChildCall(c, end, n - 1, prng), polar, prng);
        RootedOnTree(Generate(ChildCall(c, end, n - 1, prng), polar, prng).segments, end);
        ConcatOnTree(
          Branches(c, end, n - 1, polar, prng).segments,
          Generate(ChildCall(c, end, n - 1, prng), polar, prng).segments,
          end);
      } else {
        assert Branches(c, end, n - 1, polar, prng).segments + [] == Branches(c, end, n - 1, polar, prng).segments;
      }
    }
  }

  lemma HeadThenOnTree(head: Segment, rest: seq<Segment>)
    requires StartsOnTree(rest, head.end)
    ensures Connected([head] + rest)
  {
    forall i | 0 < i < |[head] + rest|
      ensures HangsOff([head] + rest, i)
    {
      HeadThenHangs(head, rest, i);
    }
  }

  lemma HeadThenHangs(head: Segment, rest: seq<Segment>, i: nat)
    requires StartsOnTree(rest, head.end) && 0 < i <= |rest|
    ensures HangsOff([head] + rest, i)
  {
    var s := [head] + rest;
    assert s[i] == rest[i - 1];
    if rest[i - 1].start == head.end {
      assert s[0].end == s[i].start;
    } else {
      var j :| 0 <= j < i - 1 && rest[j].end == rest[i - 1].start;
      assert s[j + 1] == rest[j];
      assert s[j + 1].end == s[i].start;
    }
  }

  lemma RootedOnTree(s: seq<Segment>, root: Vector2)
    requires Connected(s) && |s| > 0 && s[0].start == root
    ensures StartsOnTree(s, root)
  {
  }

  lemma ConcatOnTree(a: seq<Segment>, b: seq<Segment>, root: Vector2)
    requires StartsOnTree(a, root) && StartsOnTree(b, root)
    ensures StartsOnTree(a + b, root)
  {
    var s := a + b;
    forall i | |a| <= i < |s| && s[i].start != root
      ensures HangsOff(s, i)
    {
      assert s[i] == b[i - |a|];
      assert HangsOff(b, i - |a|);
      var j :| 0 <= j < i - |a| && b[j].end == b[i - |a|].start;
      assert s[|a| + j] == b[j];
      assert 0 <= |a| + j < i && s[|a| + j].end == s[i].start;
    }
    forall i | 0 <= i < |a| && s[i].start != root
      ensures HangsOff(s, i)
    {
      assert s[i] == a[i];
      assert HangsOff(a, i);
      var j :| 0 <= j < i && a[j].end == a[i].start;
      assert s[j] == a[j];
      assert 0 <= j < i && s[j].end == s[i].start;
    }
  }

  /** Every segment's width lies in (0, hi]. */
  ghost predicate WidthsWithin(s: seq<Segment>, hi: real) {
    forall i :: 0 <= i < |s| ==> 0.0 < s[i].width <= hi
  }

  /** Strokes thin out: a call with positive growth draws its own segment with
      width `growth * 5`, and every segment of its subtrees strictly thinner
      but still of positive width. */
  lemma {:induction false} WidthsShrink(c: Call, polar: PolarToCartesian, prng: Prng)
    requires Terminates(c) && c.growth > 0.0
    ensures var s := Generate(c, polar, prng).segments;
      && s[0].width == c.growth * WidthFactor
      && 0.0 < s[0].width
      && forall i :: 0 < i < |s| ==> 0.0 < s[i].width < s[0].width
    decreases Height(c.growth, c.threshold), 1
  {
    WidthGrows(0.0, c.growth);
    if c.growth > c.threshold {
      GenerateShape(c, polar, prng);
      if c.threshold > 0.0 {
        ChildGrowthShrinks(c.growth, c.threshold);
        WidthGrows(ChildGrowth(c.growth, c.threshold), c.growth);
        BranchesWidths(c, OwnSegment(c, polar).end, Iterations(c), polar, prng);
        HeadThenThinner(
          OwnSegment(c, polar),
          Branches(c, OwnSegment(c, polar).end, Iterations(c), polar, prng).segments,
          ChildGrowth(c.growth, c.threshold) * WidthFactor);
      } else {
        // no loop run reaches a recursive call: the loop is empty or throws at once
        BranchesOutcome(c, OwnSegment(c, polar).end, Iterations(c), polar, prng);
        HeadThenThinner(
          OwnSegment(c, polar),
          Branches(c, OwnSegment(c, polar).end, Iterations(c), polar, prng).segments,
          0.0);
      }
    }
  }

  /** Every segment a loop draws is no wider than its children's own segments. */
  lemma {:induction false} BranchesWidths(c: Call, end: Vector2, n: nat, polar: PolarToCartesian, prng: Prng)
    requires Terminates(c) && c.growth > c.threshold && n <= Iterations(c)
    requires ChildGrowth(c.growth, c.threshold) > 0.0
    ensures WidthsWithin(Branches(c, end, n, polar, prng).segments, ChildGrowth(c.growth, c.threshold) * WidthFactor)
    decreases Height(c.growth, c.threshold), 0, n
  {
    if n > 0 {
      BranchesWidths(c, end, n - 1, polar, prng);
      BranchesSegmentsStep(c, end, n - 1, n, polar, prng);
      if c.variation > 0.0 {
        HeightDecreases(c.growth, c.threshold);
        WidthsShrink(ChildCall(c, end, n - 1, prng), polar, prng);
        ConcatWithin(
          Branches(c, end, n - 1, polar, prng).segments,
          Generate(ChildCall(c, end, n - 1, prng), polar, prng).segments,
          ChildGrowth(c.growth, c.threshold) * WidthFactor);
      } else {
        assert Branches(c, end, n - 1, polar, prng).segments + [] == Branches(c, end, n - 1, polar, prng).segments;
      }
    }
  }

  lemma WidthGrows(a: real, b: real)
    requires a < b
    ensures a * WidthFactor < b * WidthFactor
  {
  }

  lemma HeadThenThinner(head: Segment, rest: seq<Segment>, hi: real)
    requires WidthsWithin(rest, hi) && hi < head.width
    ensures var s := [head] + rest;
      forall i :: 0 < i < |s| ==> 0.0 < s[i].width < s[0].width
  {
    var s := [head] + rest;
    forall i | 0 < i < |s|
      ensures 0.0 < s[i].width < s[0].width
    {
      assert s[i] == rest[i - 1];
    }
  }

  lemma ConcatWithin(a: seq<Segment>, b: seq<Segment>, hi: real)
    requires WidthsWithin(a, hi)
    requires |b| > 0 && 0.0 < b[0].width <= hi && forall i :: 0 < i < |b| ==> 0.0 < b[i].width < b[0].width
    ensures WidthsWithin(a + b, hi)
  {
    var s := a + b;
    forall i | 0 <= i < |s|
      ensures 0.0 < s[i].width <= hi
    {
      if i < |a| {
        assert s[i] == a[i];
      } else {
        assert s[i] == b[i - |a|];
      }
    }
  }

  /** Each child's heading is drawn from [angle - variation, angle + variation)
      and then turned by the wind: it lies in
      [angle - variation + windTwist, angle + variation + windTwist). */
  lemma ChildHeadingInRange(c: Call, end: Vector2, k: nat, prng: Prng)
    requires HonoursRange(prng) && c.variation > 0.0
    ensures c.angle - c.variation + c.windTwist <= ChildCall(c, end, k, prng).angle
    ensures ChildCall(c, end, k, prng).angle < c.angle + c.variation + c.windTwist
  {
    var h := prng(c.random.seed, c.random.drawn + k, c.angle - c.variation, c.angle + c.variation);
    assert c.angle - c.variation <= h < c.angle + c.variation;
  }

  /** All children of one call get streams built from the same seed, each
      fresh (nothing drawn yet): siblings see the same sequence of values. */
  lemma SiblingsShareStream(c: Call, end: Vector2, j: nat, k: nat, prng: Prng)
    ensures ChildCall(c, end, j, prng).random == ChildCall(c, end, k, prng).random
    ensures ChildCall(c, end, k, prng).random == Stream(Seed(c.generation, c.branchCount), 0)
  {
  }

  /** Without Kotlin `Int` overflow, later generations hand their children
      strictly larger seeds, so children of different generations never share
      a stream; with a positive branch count no child shares the root's seed 0. */
  lemma SeedsDistinctAcrossGenerations(g1: int, g2: int, branchCount: int)
    requires 0 <= g1 < g2 && 0 <= branchCount
    requires g2 * SeedStride + branchCount < 0x8000_0000
    ensures Seed(g1, branchCount) < Seed(g2, branchCount)
    ensures branchCount > 0 ==> Seed(g1, branchCount) > 0
  {
    assert Int32(g1 * SeedStride) == g1 * SeedStride;
    assert Int32(g2 * SeedStride) == g2 * SeedStride;
  }

  /** The tree `draw` renders every frame: it never throws, every branching
      call draws nine headings, and it has N(growth) segments for the
      demo's threshold and branch count. */
  lemma DemoTree(growth: real, windTwist: real, polar: PolarToCartesian, prng: Prng)
    ensures var r := Generate(RootCall(growth, windTwist), polar, prng);
      && !r.thrown
      && r.draws == (if growth > BranchingThreshold then BranchCount else 0)
      && |r.segments| == SegmentCount(growth, BranchingThreshold, BranchCount)
  {
    GenerateOutcome(RootCall(growth, windTwist), polar, prng);
    GenerateCount(RootCall(growth, windTwist), polar, prng);
  }
}
