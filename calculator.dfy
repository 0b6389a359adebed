/**
 * The marinas positions calculator: holds a trajectory and a configuration,
 * and accumulates grid snapshots in `marinasPoints` each time it calculates.
 */
module Calculator {
  import opened Nodes
  import opened GridLayout
  import opened TrajectoryWalk

  /** Defaults the two-argument constructor copies. */
  const DistanceBetweenMarinas := 125
  const StepDuration := 10
  const NodePerGroup := 4
  const NodePerLine := 4

  class MarinasPositionsCalculator {
    /** Waypoints of the trajectory. */
    const trajectoryPoints: seq<Point>
    /** Per segment, what the speed and the two waypoints yield: step count and per-step displacement. */
    const segmentMotions: seq<Motion>
    /** Snapshots calculated so far, one map from marina index to node per step. */
    var marinasPoints: seq<Snapshot>
    const nbNodePerGroup: int
    const nbNodePerLine: int
    const stepDuration: int
    const marinasDistance: int

    function Settings(): Config
    {
      Config(nbNodePerGroup, nbNodePerLine, stepDuration, marinasDistance)
    }

    ghost predicate Valid()
    {
      ValidMotions(segmentMotions)
    }

    /** The calculator with the default grid: 4 by 4 marinas, 10 per step, 125 apart. */
    constructor WithDefaults(trajectoryPoints: seq<Point>, segmentMotions: seq<Motion>)
      requires ValidMotions(segmentMotions)
      ensures Valid()
      ensures this.trajectoryPoints == trajectoryPoints && this.segmentMotions == segmentMotions
      ensures Settings() == Config(4, 4, 10, 125)
      ensures marinasPoints == []
    {
      this.trajectoryPoints := trajectoryPoints;
      this.segmentMotions := segmentMotions;
      this.marinasPoints := [];
      this.nbNodePerGroup := NodePerGroup;
      this.nbNodePerLine := NodePerLine;
      this.stepDuration := StepDuration;
      this.marinasDistance := DistanceBetweenMarinas;
    }

    constructor (trajectoryPoints: seq<Point>, segmentMotions: seq<Motion>,
                 nbNodePerGroup: int, nbNodePerLine: int, stepDuration: int, marinasDistance: int)
      requires ValidMotions(segmentMotions)
      ensures Valid()
      ensures this.trajectoryPoints == trajectoryPoints && this.segmentMotions == segmentMotions
      ensures Settings() == Config(nbNodePerGroup, nbNodePerLine, stepDuration, marinasDistance)
      ensures marinasPoints == []
    {
      this.trajectoryPoints := trajectoryPoints;
      this.segmentMotions := segmentMotions;
      this.marinasPoints := [];
      this.nbNodePerGroup := nbNodePerGroup;
      this.nbNodePerLine := nbNodePerLine;
      this.stepDuration := stepDuration;
      this.marinasDistance := marinasDistance;
    }

    /** The number of marinas: nodes per group times nodes per line. */
    function GetNbMarinas(): (n: int)
      ensures n == nbNodePerGroup * nbNodePerLine
      ensures Settings().Positive() ==> n >= nbNodePerGroup && n >= nbNodePerLine
    {
      if Settings().Positive() then
        MulPositive(nbNodePerGroup, nbNodePerLine);
        Settings().NbMarinas()
      else
        Settings().NbMarinas()
    }

    /**
     * The grid centred on `refPoint`, every node stamped `firstTime`: node (i, j)
     * is written under key `i + j * nbNodePerLine`, in the order of the double loop.
     */
    method InitFirstPoints(refPoint: Point, firstTime: int) returns (firstPoints: Snapshot)
      ensures firstPoints == Layout(Settings(), refPoint, firstTime)
    {
      var cfg := Settings();
      firstPoints := map[];
      var referenceX := Origin(refPoint.x, nbNodePerGroup, marinasDistance);
      var referenceY := Origin(refPoint.y, nbNodePerLine, marinasDistance);
      var i := 0;
      while i < nbNodePerGroup
        invariant 0 <= i <= Bound(nbNodePerGroup)
        invariant firstPoints == FillRows(cfg, refPoint, firstTime, i)
      {
        ghost var before := firstPoints;
        var j := 0;
        while j < nbNodePerLine
          invariant 0 <= j <= Bound(nbNodePerLine)
          invariant firstPoints == FillRow(cfg, refPoint, firstTime, before, i, j)
        {
          var x := referenceX + i * marinasDistance;
          var y := referenceY + j * marinasDistance;
          firstPoints := firstPoints[i + j * nbNodePerLine := NodeState(Point(x, y), firstTime)];
          j := j + 1;
        }
        i := i + 1;
      }
    }

    /**
     * Marinas positions of one step: every marina index below `GetNbMarinas()`
     * looked up in `firstPoints` and moved by `offset`, `dt` later. `found` is
     * false when a lookup finds no node, where `MarinasPositionsCalculator.java` dereferences null.
     */
    method StepPositions(firstPoints: Snapshot, offset: Point, dt: int) returns (found: bool, newMarinasPositions: Snapshot)
      ensures found <==> Covers(firstPoints, Settings().NbMarinas())
      ensures found ==> newMarinasPositions == Shift(firstPoints, Settings().NbMarinas(), offset, dt)
    {
      newMarinasPositions := map[];
      var j := 0;
      while j < GetNbMarinas()
        invariant 0 <= j && (j <= GetNbMarinas() || j == 0)
        invariant forall k :: 0 <= k < j ==> k in firstPoints
        invariant newMarinasPositions == map k | 0 <= k < j :: k := Moved(firstPoints[k], offset, dt)
      {
        if j !in firstPoints {
          return false, newMarinasPositions;
        }
        var firstStepNode := firstPoints[j];
        var newPoint := Point(firstStepNode.coordinates.x + offset.x, firstStepNode.coordinates.y + offset.y);
        newMarinasPositions := newMarinasPositions[j := NodeState(newPoint, firstStepNode.time + dt)];
        j := j + 1;
      }
      found := true;
    }

    /**
     * Appends the snapshots of one segment: step p moves every marina of
     * `firstPoints` by the offset of step p, `stepDuration * p` later. `found`
     * is false when a marina index has no node; the first step then already
     * fails, so nothing is appended.
     */
    method AppendSegment(firstPoints: Snapshot, motion: Motion) returns (found: bool)
      requires motion.Valid()
      modifies this
      ensures found <==> motion.steps == 0 || Covers(firstPoints, Settings().NbMarinas())
      ensures found ==> marinasPoints == old(marinasPoints) +
                          Steps(firstPoints, Settings().NbMarinas(), motion, stepDuration, motion.steps)
      ensures !found ==> marinasPoints == old(marinasPoints)
    {
      var p := 0;
      while p < motion.steps
        invariant 0 <= p <= motion.steps
        invariant p > 0 ==> Covers(firstPoints, Settings().NbMarinas())
        invariant marinasPoints == old(marinasPoints) + Steps(firstPoints, Settings().NbMarinas(), motion, stepDuration, p)
      {
        var newMarinasPositions;
        found, newMarinasPositions := StepPositions(firstPoints, Offset(motion, p), stepDuration * p);
        if !found {
          return;
        }
        marinasPoints := marinasPoints + [newMarinasPositions];
        p := p + 1;
      }
      found := true;
    }

    /**
     * Walks the trajectory segment by segment and appends the snapshots of every
     * step to `marinasPoints`, which it never clears. Returns how the walk ends:
     * normally, or with the exception `MarinasPositionsCalculator.java` would throw (a missing speed,
     * or a marina index the layout has no node for).
     */
    method Calculate() returns (outcome: Outcome)
      requires Valid()
      modifies this
      ensures marinasPoints == old(marinasPoints) + Calculation(Settings(), trajectoryPoints, segmentMotions).snapshots
      ensures outcome == Calculation(Settings(), trajectoryPoints, segmentMotions).outcome
    {
      var cfg := Settings();
      ghost var total := Calculation(cfg, trajectoryPoints, segmentMotions);
      if |trajectoryPoints| >= 2 {
        var i := 0;
        var firstPoints := InitFirstPoints(trajectoryPoints[0], 0);
        while i + 1 < |trajectoryPoints|
          invariant 0 <= i < |trajectoryPoints|
          invariant marinasPoints + Walk(cfg, trajectoryPoints, segmentMotions, i, firstPoints).snapshots
                    == old(marinasPoints) + total.snapshots
          invariant Walk(cfg, trajectoryPoints, segmentMotions, i, firstPoints).outcome == total.outcome
        {
          if i >= |segmentMotions| {
            return IndexOutOfBounds;
          }
          var motion := segmentMotions[i];
          ghost var base := marinasPoints;
          var found := AppendSegment(firstPoints, motion);
          if !found {
            return NullPointer;
          }
          if 0 !in firstPoints {
            return NullPointer;
          }
          WalkUnfolds(cfg, trajectoryPoints, segmentMotions, i, firstPoints, base, marinasPoints,
                      Run(old(marinasPoints) + total.snapshots, total.outcome));
          firstPoints := InitFirstPoints(trajectoryPoints[i + 1], firstPoints[0].time + stepDuration * motion.steps);
          i := i + 1;
        }
      }
      return Completed;
    }

    /** The waypoints, unchanged. */
    function GetTrajectoryPoints(): (points: seq<Point>)
      ensures points == trajectoryPoints
    {
      trajectoryPoints
    }

    /**
     * Recalculates and returns every snapshot accumulated so far: each call
     * appends one more batch, so two calls do not return the same list.
     */
    method GetMarinasPoints() returns (outcome: Outcome, points: seq<Snapshot>)
      requires Valid()
      modifies this
      ensures marinasPoints == old(marinasPoints) + Calculation(Settings(), trajectoryPoints, segmentMotions).snapshots
      ensures outcome == Calculation(Settings(), trajectoryPoints, segmentMotions).outcome
      ensures points == marinasPoints
    {
      outcome := Calculate();
      points := marinasPoints;
    }
  }

  /**
   * Reading the snapshots twice from a fresh calculator returns one batch, then
   * that batch twice over: results accumulate, so the second read returns twice
   * as many snapshots as the first read returned.
   */
  method ReadTwice(c: MarinasPositionsCalculator) returns (first: seq<Snapshot>, second: seq<Snapshot>)
    requires c.Valid() && c.marinasPoints == []
    modifies c
    ensures var batch := Calculation(c.Settings(), c.trajectoryPoints, c.segmentMotions).snapshots;
            first == batch && second == batch + batch && (batch != [] ==> first != second)
  {
    var o1, o2;
    o1, first := c.GetMarinasPoints();
    o2, second := c.GetMarinasPoints();
    assert |second| == 2 * |first|;
  }
}
