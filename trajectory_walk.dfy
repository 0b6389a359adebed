/**
 * Trajectory walker: for each pair of consecutive waypoints, emit one grid
 * snapshot per whole step, each the segment's anchor grid shifted by the
 * step's offset and time-stamped `stepDuration * p` later; then re-anchor a
 * fresh layout at the next waypoint, `stepDuration * steps` after the anchor.
 *
 * `Walk` follows the loop of `calculate` literally, including the exceptions it can
 * raise; `Expected` is the closed form the lemmas below prove it equal to.
 */
module TrajectoryWalk {
  import opened Nodes
  import opened GridLayout

  /**
   * What the floating-point geometry of one segment yields: the number of whole
   * steps, and the per-step displacement as the rational `(dx / den, dy / den)`.
   */
  datatype Motion = Motion(steps: nat, dx: int, dy: int, den: int)
  {
    predicate Valid()
    {
      den > 0
    }
  }

  /** How a run of the walker ends: normally, or by the exception `calculate` would throw. */
  datatype Outcome = Completed | IndexOutOfBounds | NullPointer

  /** The snapshots a run appends, and how it ends. */
  datatype Run = Run(snapshots: seq<Snapshot>, outcome: Outcome)

  /** The integer offset of step p: the displacement times p, each axis truncated toward zero. */
  function Offset(m: Motion, p: int): (off: Point)
    requires m.Valid()
  {
    Point(TruncDiv(m.dx * p, m.den), TruncDiv(m.dy * p, m.den))
  }

  /** A node moved by `off` and `dt` later. */
  function Moved(node: NodeState, off: Point, dt: int): NodeState
  {
    NodeState(Translate(node.coordinates, off), node.time + dt)
  }

  /** Every marina index below `n` has a node in `anchor`. */
  predicate Covers(anchor: Snapshot, n: int)
  {
    forall j :: 0 <= j < n ==> j in anchor
  }

  /** `s` holds exactly marinas `0 .. n - 1`, every one stamped t. */
  ghost predicate Stamped(s: Snapshot, n: int, t: int)
  {
    (forall j :: j in s <==> 0 <= j < n) && (forall j :: j in s ==> s[j].time == t)
  }

  /** The snapshot of one step: marinas `0 .. n - 1` of `anchor`, each moved alike. */
  function Shift(anchor: Snapshot, n: int, off: Point, dt: int): Snapshot
    requires Covers(anchor, n)
  {
    map j | 0 <= j < n :: j := Moved(anchor[j], off, dt)
  }

  /** The first `count` snapshots of a segment anchored at `anchor`. */
  function Steps(anchor: Snapshot, n: int, m: Motion, sd: int, count: nat): (s: seq<Snapshot>)
    requires m.Valid()
    requires count == 0 || Covers(anchor, n)
    ensures |s| == count
  {
    if count == 0 then []
    else Steps(anchor, n, m, sd, count - 1) + [Shift(anchor, n, Offset(m, count - 1), sd * (count - 1))]
  }

  predicate ValidMotions(motions: seq<Motion>)
  {
    forall k :: 0 <= k < |motions| ==> motions[k].Valid()
  }

  /**
   * The walk of `calculate` from segment i with anchor grid `anchor`: a missing speed
   * throws IndexOutOfBounds, a missing layout key (the per-marina lookup or the
   * lookup of node 0 for re-anchoring) throws NullPointer.
   */
  function Walk(cfg: Config, points: seq<Point>, motions: seq<Motion>, i: nat, anchor: Snapshot): Run
    requires ValidMotions(motions)
    decreases |points| - i
  {
    if i + 1 >= |points| then Run([], Completed)
    else if i >= |motions| then Run([], IndexOutOfBounds)
    else if motions[i].steps > 0 && !Covers(anchor, cfg.NbMarinas()) then Run([], NullPointer)
    else
      var emitted := Steps(anchor, cfg.NbMarinas(), motions[i], cfg.stepDuration, motions[i].steps);
      if 0 !in anchor then Run(emitted, NullPointer)
      else
        var next := Layout(cfg, points[i + 1], anchor[0].time + cfg.stepDuration * motions[i].steps);
        var rest := Walk(cfg, points, motions, i + 1, next);
        Run(emitted + rest.snapshots, rest.outcome)
  }

  /** What one call of `calculate` appends, and how it ends. */
  function Calculation(cfg: Config, points: seq<Point>, motions: seq<Motion>): Run
    requires ValidMotions(motions)
  {
    if |points| >= 2 then Walk(cfg, points, motions, 0, Layout(cfg, points[0], 0))
    else Run([], Completed)
  }

  // ---------------------------------------------------------------------------
  // Closed form

  /** The number of steps in segments 0 .. k - 1. */
  function Prefix(motions: seq<Motion>, k: nat): nat
    requires k <= |motions|
  {
    if k == 0 then 0 else Prefix(motions, k - 1) + motions[k - 1].steps
  }

  /** The number of segments the walk reaches before it runs out of waypoints or of speeds. */
  function Reach(points: seq<Point>, motions: seq<Motion>): (r: nat)
    ensures r <= |motions| && (r > 0 ==> r < |points|)
  {
    if |points| < 2 then 0
    else if |points| - 1 <= |motions| then |points| - 1
    else |motions|
  }

  /** The anchor grid of segment k: a layout at waypoint k, stamped with the time of all earlier steps. */
  function Anchor(cfg: Config, points: seq<Point>, motions: seq<Motion>, k: nat): Snapshot
    requires k < |points| && k <= |motions|
  {
    Layout(cfg, points[k], cfg.stepDuration * Prefix(motions, k))
  }

  /** Some segment in `i .. K - 1` has at least one step. */
  ghost predicate MovesFrom(motions: seq<Motion>, i: nat, K: nat)
    requires K <= |motions|
  {
    exists k :: i <= k < K && motions[k].steps > 0
  }

  /** The snapshots of segment k on its closed-form anchor. */
  function Segment(cfg: Config, points: seq<Point>, motions: seq<Motion>, k: nat): seq<Snapshot>
    requires cfg.Positive() && cfg.DenseKeys() && ValidMotions(motions)
    requires k < Reach(points, motions)
  {
    AnchorCovers(cfg, points[k], cfg.stepDuration * Prefix(motions, k));
    Steps(Anchor(cfg, points, motions, k), cfg.NbMarinas(), motions[k], cfg.stepDuration, motions[k].steps)
  }

  /** The snapshots of segments `i .. K - 1`, each on its closed-form anchor. */
  function Expected(cfg: Config, points: seq<Point>, motions: seq<Motion>, i: nat, K: nat): seq<Snapshot>
    requires cfg.Positive() && cfg.DenseKeys() && ValidMotions(motions)
    requires i <= K <= Reach(points, motions)
    decreases K - i
  {
    if i == K then [] else Segment(cfg, points, motions, i) + Expected(cfg, points, motions, i + 1, K)
  }

  /** How the walk from segment i ends. */
  ghost function OutcomeFrom(cfg: Config, points: seq<Point>, motions: seq<Motion>, i: nat): Outcome
  {
    if i + 1 >= |points| then Completed
    else if !cfg.DenseKeys() && MovesFrom(motions, i, Reach(points, motions)) then NullPointer
    else if |motions| < |points| - 1 then IndexOutOfBounds
    else Completed
  }

  // ---------------------------------------------------------------------------
  // Lemmas

  /** A layout holds every marina index below `NbMarinas()` exactly when the keys are dense. */
  lemma AnchorCovers(cfg: Config, ref: Point, t: int)
    requires cfg.Positive()
    ensures Covers(Layout(cfg, ref, t), cfg.NbMarinas()) <==> cfg.DenseKeys()
  {
    LayoutCoversIff(cfg, ref, t);
  }

  /** Step p of a segment is the anchor shifted by the offset of step p, `stepDuration * p` later. */
  lemma {:induction false} StepsAt(anchor: Snapshot, n: int, m: Motion, sd: int, count: nat, p: nat)
    requires m.Valid() && Covers(anchor, n) && p < count
    ensures Steps(anchor, n, m, sd, count)[p] == Shift(anchor, n, Offset(m, p), sd * p)
  {
    if p < count - 1 {
      StepsAt(anchor, n, m, sd, count - 1, p);
    }
  }

  lemma {:induction false} PrefixMonotone(motions: seq<Motion>, i: nat, k: nat)
    requires i <= k <= |motions|
    ensures Prefix(motions, i) <= Prefix(motions, k)
    decreases k
  {
    if i < k {
      PrefixMonotone(motions, i, k - 1);
    }
  }

  lemma {:induction false} PrefixStill(motions: seq<Motion>, K: nat)
    requires K <= |motions| && !MovesFrom(motions, 0, K)
    ensures Prefix(motions, K) == 0
  {
    if K > 0 {
      assert motions[K - 1].steps == 0;
      PrefixStill(motions, K - 1);
    }
  }

  /** The closed form emits exactly the steps of its segments. */
  lemma {:induction false} ExpectedLength(cfg: Config, points: seq<Point>, motions: seq<Motion>, i: nat, K: nat)
    requires cfg.Positive() && cfg.DenseKeys() && ValidMotions(motions)
    requires i <= K <= Reach(points, motions)
    ensures |Expected(cfg, points, motions, i, K)| == Prefix(motions, K) - Prefix(motions, i)
    decreases K - i
  {
    PrefixMonotone(motions, i, K);
    if i < K {
      ExpectedLength(cfg, points, motions, i + 1, K);
    }
  }

  /** Step p of segment k sits at position `Prefix(k) + p` of the closed form. */
  lemma {:induction false} ExpectedAt(cfg: Config, points: seq<Point>, motions: seq<Motion>, i: nat, K: nat, k: nat, p: nat)
    requires cfg.Positive() && cfg.DenseKeys() && ValidMotions(motions)
    requires i <= k < K <= Reach(points, motions) && p < motions[k].steps
    ensures Prefix(motions, i) <= Prefix(motions, k)
    ensures Prefix(motions, k) - Prefix(motions, i) + p < |Expected(cfg, points, motions, i, K)|
    ensures Covers(Anchor(cfg, points, motions, k), cfg.NbMarinas())
    ensures Expected(cfg, points, motions, i, K)[Prefix(motions, k) - Prefix(motions, i) + p] ==
            Shift(Anchor(cfg, points, motions, k), cfg.NbMarinas(), Offset(motions[k], p), cfg.stepDuration * p)
    decreases k - i
  {
    PrefixMonotone(motions, i, k);
    ExpectedLength(cfg, points, motions, i, K);
    AnchorCovers(cfg, points[k], cfg.stepDuration * Prefix(motions, k));
    var head := Segment(cfg, points, motions, i);
    var rest := Expected(cfg, points, motions, i + 1, K);
    assert Expected(cfg, points, motions, i, K) == head + rest;
    var n := Prefix(motions, k) - Prefix(motions, i) + p;
    if k == i {
      StepsAt(Anchor(cfg, points, motions, i), cfg.NbMarinas(), motions[i], cfg.stepDuration, motions[i].steps, p);
      assert n == p < |head|;
      assert (head + rest)[n] == head[p];
    } else {
      ExpectedAt(cfg, points, motions, i + 1, K, k, p);
      PrefixMonotone(motions, i + 1, k);
      assert |head| == motions[i].steps == Prefix(motions, i + 1) - Prefix(motions, i);
      var n' := Prefix(motions, k) - Prefix(motions, i + 1) + p;
      assert n == |head| + n';
      assert (head + rest)[n] == rest[n'];
    }
  }

  /** A step of a segment whose anchor is stamped t holds the same marinas, `sd * p` later. */
  lemma StepsTimes(anchor: Snapshot, n: int, m: Motion, sd: int, count: nat, p: nat, t: int, later: int)
    requires m.Valid() && p < count && later == t + sd * p
    requires Stamped(anchor, n, t)
    ensures Covers(anchor, n)
    ensures Stamped(Steps(anchor, n, m, sd, count)[p], n, later)
  {
    StepsAt(anchor, n, m, sd, count, p);
  }

  /** The anchor of segment i holds marinas `0 .. NbMarinas() - 1`, all at the anchor's time. */
  lemma AnchorShape(cfg: Config, points: seq<Point>, motions: seq<Motion>, i: nat)
    requires cfg.Positive() && cfg.DenseKeys()
    requires i < |points| && i <= |motions|
    ensures Stamped(Anchor(cfg, points, motions, i), cfg.NbMarinas(), cfg.stepDuration * Prefix(motions, i))
  {
    var t := cfg.stepDuration * Prefix(motions, i);
    LayoutTime(cfg, points[i], t);
    LayoutCoversIff(cfg, points[i], t);
  }

  /** Step n of segment i is stamped `stepDuration * (Prefix(i) + n)`. */
  lemma SegmentTimes(cfg: Config, points: seq<Point>, motions: seq<Motion>, i: nat, n: nat)
    requires cfg.Positive() && cfg.DenseKeys() && ValidMotions(motions)
    requires i < Reach(points, motions) && n < motions[i].steps
    ensures Stamped(Segment(cfg, points, motions, i)[n], cfg.NbMarinas(), cfg.stepDuration * (Prefix(motions, i) + n))
  {
    var t := cfg.stepDuration * Prefix(motions, i);
    MulAdd(cfg.stepDuration, Prefix(motions, i), n);
    AnchorShape(cfg, points, motions, i);
    StepsTimes(Anchor(cfg, points, motions, i), cfg.NbMarinas(), motions[i], cfg.stepDuration, motions[i].steps,
               n, t, cfg.stepDuration * (Prefix(motions, i) + n));
  }

  /**
   * Every snapshot of the closed form holds marinas `0 .. NbMarinas() - 1`, all
   * stamped `stepDuration` times the snapshot's global index.
   */
  lemma {:induction false} ExpectedTimes(cfg: Config, points: seq<Point>, motions: seq<Motion>, i: nat, K: nat, n: nat)
    requires cfg.Positive() && cfg.DenseKeys() && ValidMotions(motions)
    requires i <= K <= Reach(points, motions) && n < |Expected(cfg, points, motions, i, K)|
    ensures Stamped(Expected(cfg, points, motions, i, K)[n], cfg.NbMarinas(), cfg.stepDuration * (Prefix(motions, i) + n))
    decreases K - i
  {
    var head := Segment(cfg, points, motions, i);
    var rest := Expected(cfg, points, motions, i + 1, K);
    assert Expected(cfg, points, motions, i, K) == head + rest;
    var steps := motions[i].steps;
    if n < steps {
      SegmentTimes(cfg, points, motions, i, n);
      assert (head + rest)[n] == head[n];
    } else {
      ExpectedTimes(cfg, points, motions, i + 1, K, n - steps);
      assert (head + rest)[n] == rest[n - steps];
      assert Prefix(motions, i + 1) + (n - steps) == Prefix(motions, i) + n;
    }
  }

  /**
   * The walk of `calculate`, started on the closed-form anchor of segment i, emits
   * the closed form of segments `i .. Reach - 1` (nothing when the keys are not
   * dense) and ends as `OutcomeFrom` says. In particular each re-anchoring
   * produces exactly the closed-form anchor of the next segment.
   */
  lemma {:induction false} WalkFrom(cfg: Config, points: seq<Point>, motions: seq<Motion>, i: nat)
    requires cfg.Positive() && ValidMotions(motions)
    requires i <= Reach(points, motions) && i < |points|
    ensures Walk(cfg, points, motions, i, Anchor(cfg, points, motions, i)) ==
            Run(if cfg.DenseKeys() then Expected(cfg, points, motions, i, Reach(points, motions)) else [],
                OutcomeFrom(cfg, points, motions, i))
    decreases |points| - i
  {
    var K := Reach(points, motions);
    if i + 1 < |points| && i < |motions| {
      if motions[i].steps > 0 && !cfg.DenseKeys() {
        AnchorCovers(cfg, points[i], cfg.stepDuration * Prefix(motions, i));
        assert MovesFrom(motions, i, K);
      } else {
        WalkAdvances(cfg, points, motions, i);
        WalkFrom(cfg, points, motions, i + 1);
        if cfg.DenseKeys() {
          assert Expected(cfg, points, motions, i, K) ==
                 Segment(cfg, points, motions, i) + Expected(cfg, points, motions, i + 1, K);
        } else {
          assert MovesFrom(motions, i, K) <==> MovesFrom(motions, i + 1, K);
        }
      }
    }
  }

  /**
   * One segment of a walk that throws nothing there: the segment's steps, then
   * the walk from the grid laid out at the next waypoint. So whatever was
   * appended before, plus the steps, plus the rest of the walk, is unchanged.
   */
  lemma WalkUnfolds(cfg: Config, points: seq<Point>, motions: seq<Motion>, i: nat, anchor: Snapshot,
                    before: seq<Snapshot>, after: seq<Snapshot>, total: Run)
    requires ValidMotions(motions)
    requires i + 1 < |points| && i < |motions|
    requires (motions[i].steps == 0 || Covers(anchor, cfg.NbMarinas())) && 0 in anchor
    requires after == before + Steps(anchor, cfg.NbMarinas(), motions[i], cfg.stepDuration, motions[i].steps)
    requires before + Walk(cfg, points, motions, i, anchor).snapshots == total.snapshots
    requires Walk(cfg, points, motions, i, anchor).outcome == total.outcome
    ensures var next := Layout(cfg, points[i + 1], anchor[0].time + cfg.stepDuration * motions[i].steps);
            var rest := Walk(cfg, points, motions, i + 1, next);
            after + rest.snapshots == total.snapshots && rest.outcome == total.outcome
  {
    var next := Layout(cfg, points[i + 1], anchor[0].time + cfg.stepDuration * motions[i].steps);
    var rest := Walk(cfg, points, motions, i + 1, next);
    var segment := Steps(anchor, cfg.NbMarinas(), motions[i], cfg.stepDuration, motions[i].steps);
    WalkStep(cfg, points, motions, i, anchor);
    assert after + rest.snapshots == before + (segment + rest.snapshots);
  }

  lemma WalkStep(cfg: Config, points: seq<Point>, motions: seq<Motion>, i: nat, anchor: Snapshot)
    requires ValidMotions(motions)
    requires i + 1 < |points| && i < |motions|
    requires (motions[i].steps == 0 || Covers(anchor, cfg.NbMarinas())) && 0 in anchor
    ensures var next := Layout(cfg, points[i + 1], anchor[0].time + cfg.stepDuration * motions[i].steps);
            var rest := Walk(cfg, points, motions, i + 1, next);
            Walk(cfg, points, motions, i, anchor) ==
            Run(Steps(anchor, cfg.NbMarinas(), motions[i], cfg.stepDuration, motions[i].steps) + rest.snapshots,
                rest.outcome)
  {
  }

  /**
   * One segment of the walk on the closed-form anchor, when it does not throw
   * there: the segment's steps, then the walk from the next closed-form anchor.
   */
  lemma WalkAdvances(cfg: Config, points: seq<Point>, motions: seq<Motion>, i: nat)
    requires cfg.Positive() && ValidMotions(motions)
    requires i + 1 < |points| && i < |motions| && (motions[i].steps == 0 || cfg.DenseKeys())
    ensures motions[i].steps == 0 || Covers(Anchor(cfg, points, motions, i), cfg.NbMarinas())
    ensures var rest := Walk(cfg, points, motions, i + 1, Anchor(cfg, points, motions, i + 1));
            Walk(cfg, points, motions, i, Anchor(cfg, points, motions, i)) ==
            Run(Steps(Anchor(cfg, points, motions, i), cfg.NbMarinas(), motions[i], cfg.stepDuration, motions[i].steps)
                  + rest.snapshots, rest.outcome)
  {
    var t := cfg.stepDuration * Prefix(motions, i);
    AnchorCovers(cfg, points[i], t);
    LayoutFirstNode(cfg, points[i], t);
    var anchor := Anchor(cfg, points, motions, i);
    assert anchor[0].time == t;
    assert t + cfg.stepDuration * motions[i].steps == cfg.stepDuration * Prefix(motions, i + 1);
  }

  /**
   * What `calculate` appends and how it ends, in closed form: with dense keys,
   * the snapshots of every segment it reaches; otherwise nothing, and it throws
   * NullPointer as soon as a segment has a step. A trajectory of fewer than two
   * waypoints appends nothing and reads no speed; too few speeds throws
   * IndexOutOfBounds after the reachable segments.
   */
  lemma CalculationClosedForm(cfg: Config, points: seq<Point>, motions: seq<Motion>)
    requires cfg.Positive() && ValidMotions(motions)
    ensures Calculation(cfg, points, motions) ==
            Run(if cfg.DenseKeys() then Expected(cfg, points, motions, 0, Reach(points, motions)) else [],
                OutcomeFrom(cfg, points, motions, 0))
  {
    if |points| >= 2 {
      WalkFrom(cfg, points, motions, 0);
    }
  }

  /**
   * The number of snapshots `calculate` appends: the total of the step counts
   * of the segments it reaches, or none when it throws NullPointer.
   */
  lemma CalculationLength(cfg: Config, points: seq<Point>, motions: seq<Motion>)
    requires cfg.Positive() && ValidMotions(motions)
    ensures var r := Calculation(cfg, points, motions);
            |r.snapshots| == if r.outcome == NullPointer then 0 else Prefix(motions, Reach(points, motions))
  {
    CalculationClosedForm(cfg, points, motions);
    var K := Reach(points, motions);
    if cfg.DenseKeys() {
      ExpectedLength(cfg, points, motions, 0, K);
    } else if !MovesFrom(motions, 0, K) {
      PrefixStill(motions, K);
    }
  }

  /**
   * Step p of segment k is the snapshot at position `Prefix(k) + p`: every
   * marina of the segment's anchor (a fresh layout at waypoint k) moved by the
   * same offset and `stepDuration * p` later, so the grid moves rigidly.
   */
  lemma CalculationSnapshot(cfg: Config, points: seq<Point>, motions: seq<Motion>, k: nat, p: nat)
    requires cfg.Positive() && ValidMotions(motions)
    requires k < Reach(points, motions) && p < motions[k].steps
    requires Calculation(cfg, points, motions).outcome != NullPointer
    ensures Prefix(motions, k) + p < |Calculation(cfg, points, motions).snapshots|
    ensures Covers(Anchor(cfg, points, motions, k), cfg.NbMarinas())
    ensures var s := Calculation(cfg, points, motions).snapshots[Prefix(motions, k) + p];
            var anchor := Anchor(cfg, points, motions, k);
            (forall j :: j in s <==> 0 <= j < cfg.NbMarinas()) &&
            (forall j :: 0 <= j < cfg.NbMarinas() ==>
               s[j] == Moved(anchor[j], Offset(motions[k], p), cfg.stepDuration * p))
  {
    CalculationClosedForm(cfg, points, motions);
    var K := Reach(points, motions);
    if !cfg.DenseKeys() {
      assert MovesFrom(motions, 0, K);
      assert false;
    }
    ExpectedAt(cfg, points, motions, 0, K, k, p);
  }

  /** The first step of segment k is the segment's anchor itself, unmoved. */
  lemma CalculationSegmentStart(cfg: Config, points: seq<Point>, motions: seq<Motion>, k: nat)
    requires cfg.Positive() && ValidMotions(motions)
    requires k < Reach(points, motions) && 0 < motions[k].steps
    requires Calculation(cfg, points, motions).outcome != NullPointer
    ensures Prefix(motions, k) < |Calculation(cfg, points, motions).snapshots|
    ensures Calculation(cfg, points, motions).snapshots[Prefix(motions, k)] == Anchor(cfg, points, motions, k)
  {
    CalculationSnapshot(cfg, points, motions, k, 0);
    var anchor := Anchor(cfg, points, motions, k);
    var s := Calculation(cfg, points, motions).snapshots[Prefix(motions, k) + 0];
    AnchorCovers(cfg, points[k], cfg.stepDuration * Prefix(motions, k));
    AnchorShape(cfg, points, motions, k);
    assert Offset(motions[k], 0) == Point(0, 0) && cfg.stepDuration * 0 == 0;
    assert forall j :: j in anchor <==> 0 <= j < cfg.NbMarinas();
    assert forall j :: 0 <= j < cfg.NbMarinas() ==> s[j] == Moved(anchor[j], Point(0, 0), 0);
    MovedByNothing(anchor, s, cfg.NbMarinas());
  }

  /** Moving every marina of a grid by nothing gives back the grid. */
  lemma MovedByNothing(anchor: Snapshot, s: Snapshot, n: int)
    requires forall j :: j in anchor <==> 0 <= j < n
    requires forall j :: j in s <==> 0 <= j < n
    requires forall j :: 0 <= j < n ==> j in anchor && s[j] == Moved(anchor[j], Point(0, 0), 0)
    ensures s == anchor
  {
    forall j | j in s
      ensures j in anchor && s[j] == anchor[j]
    {
      var node := anchor[j];
      assert s[j] == Moved(node, Point(0, 0), 0) == NodeState(Point(node.coordinates.x, node.coordinates.y), node.time);
    }
    assert forall j :: j in s.Keys <==> j in anchor.Keys;
    assert s.Keys == anchor.Keys;
    assert forall j :: j in s ==> s[j] == anchor[j];
  }

  /**
   * Snapshot n of what `calculate` appends holds marinas `0 .. NbMarinas() - 1`,
   * every one stamped `stepDuration * n`: consecutive snapshots are exactly
   * `stepDuration` apart, across re-anchoring too, and a segment without steps
   * moves no time on.
   */
  lemma CalculationTimes(cfg: Config, points: seq<Point>, motions: seq<Motion>, n: nat)
    requires cfg.Positive() && ValidMotions(motions)
    requires n < |Calculation(cfg, points, motions).snapshots|
    ensures Stamped(Calculation(cfg, points, motions).snapshots[n], cfg.NbMarinas(), cfg.stepDuration * n)
  {
    CalculationClosedForm(cfg, points, motions);
    ExpectedTimes(cfg, points, motions, 0, Reach(points, motions), n);
  }

  /** With a non-negative step duration, times never decrease along the appended snapshots. */
  lemma CalculationTimesMonotone(cfg: Config, points: seq<Point>, motions: seq<Motion>, n1: nat, n2: nat, j1: int, j2: int)
    requires cfg.Positive() && ValidMotions(motions) && cfg.stepDuration >= 0
    requires n1 <= n2 < |Calculation(cfg, points, motions).snapshots|
    requires j1 in Calculation(cfg, points, motions).snapshots[n1]
    requires j2 in Calculation(cfg, points, motions).snapshots[n2]
    ensures Calculation(cfg, points, motions).snapshots[n1][j1].time <= Calculation(cfg, points, motions).snapshots[n2][j2].time
  {
    CalculationTimes(cfg, points, motions, n1);
    CalculationTimes(cfg, points, motions, n2);
    MulMonotone(n1, n2, cfg.stepDuration);
    assert cfg.stepDuration * n1 == n1 * cfg.stepDuration;
  }
}
