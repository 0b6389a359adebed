# Marinas positions calculator, modelled in Dafny

The calculator computes time-stamped positions for a rigid rectangular grid of
marinas (nodes). The grid moves along a piecewise-linear trajectory. It has two
parts:

- **Grid layout** (`initFirstPoints`). It places `nbNodePerGroup × nbNodePerLine`
  nodes `marinasDistance` apart, centred on a reference point, all with the same
  time. Node (i, j) is stored under the key `i + j * nbNodePerLine`.
- **Trajectory walker** (`calculate`). For each pair of consecutive waypoints it
  appends one snapshot per whole step to `marinasPoints`. A snapshot maps each
  marina index to a node. Each one is the segment's anchor grid shifted by the
  step's offset, `stepDuration * p` later. After each segment the walker builds
  a fresh grid at the next waypoint, `stepDuration * steps` after the anchor.
  `getMarinasPoints` calls `calculate` every time and never clears the list, so
  results pile up.

Files:

- `nodes.dfy`: module `Nodes`. It holds `Point`, the value type `NodeState` and
  the mutable class `Node`, which is `Node.java`.
- `grid_layout.dfy`: module `GridLayout`. It holds the configuration, the
  truncating division, `Layout` (the double loop of `initFirstPoints`, in loop
  order, so later writes win) and the lemmas about the layout's shape and keys.
- `trajectory_walk.dfy`: module `TrajectoryWalk`. `Walk` is the loop of
  `calculate` as written, including where it throws. `Expected` is a closed form
  built on anchors computed directly. The lemmas prove the two agree and
  describe what gets appended.
- `calculator.dfy`: module `Calculator`. It holds the class
  `MarinasPositionsCalculator`. Its methods have the loops of `MarinasPositionsCalculator.java` and are
  proved against the functions above. The step loop of `calculate` (lines
  158-175) and its inner per-marina loop (lines 166-172) are methods of their
  own, `AppendSegment` and `StepPositions`, called where the loops stand.

Some facts about the code that its own surroundings do not suggest. The model
follows the code:

- `main` (`MarinasPositionsCalculator.java:281-286`) reads `m.get(i)` for every
  `i < getNbMarinas()` of every snapshot, so it treats snapshots as dense maps
  over `0 .. nbMarinas-1`. The keys `i + j * nbNodePerLine` cover exactly that
  range only when `nbNodePerGroup == nbNodePerLine` or `nbNodePerLine == 1`.
  Otherwise the last marina's key is missing. With more groups than lines, two
  cells also share a key (see `LayoutCoversIff` and `LayoutCollision`).
- `initFirstPoints` has no failure path of its own, but a grid of at least one
  group and one line with a missing key makes `calculate` dereference null at
  its first segment that has a step.
- The constructor's Javadoc (line 64) calls the list "Speeds between trajectory
  points", one per segment. `calculate` only needs at least that many; with
  fewer it throws after appending the segments it could reach.

The two exceptions `calculate` can raise are modelled as an `Outcome`:
`IndexOutOfBounds` for a missing speed, and `NullPointer` for a missing layout
key. That key lookup happens at `MarinasPositionsCalculator.java:167-168`, or at
line 177 for node 0. Snapshots appended before the exception stay in
`marinasPoints`.

## Model

| member | source | states |
|---|---|---|
| `Nodes.Node.constructor` | src/MarinasPositionsCalculator/Node.java:26-29 | the new node holds the given coordinates and time |
| `Nodes.Node.GetCoordinates` | src/MarinasPositionsCalculator/Node.java:35-37 | returns the stored coordinates; as a function it changes nothing |
| `Nodes.Node.GetTime` | src/MarinasPositionsCalculator/Node.java:43-45 | returns the stored time; as a function it changes nothing |
| `Nodes.Node.SetCoordinates` | src/MarinasPositionsCalculator/Node.java:51-53 | afterwards the getter returns the new coordinates and the time is unchanged |
| `Nodes.Node.SetTime` | src/MarinasPositionsCalculator/Node.java:59-61 | afterwards the getter returns the new time and the coordinates are unchanged |
| `GridLayout.TruncDiv` | src/MarinasPositionsCalculator/MarinasPositionsCalculator.java:116-117 | `intValue` rounds toward zero: the quotient has the dividend's sign and its multiple lies within one divisor of the dividend, on the zero side |
| `GridLayout.LayoutKeys` | src/MarinasPositionsCalculator/MarinasPositionsCalculator.java:114-120 | the keys of the layout are exactly `i + j * nbNodePerLine` for the cells in range |
| `GridLayout.LayoutAt` | src/MarinasPositionsCalculator/MarinasPositionsCalculator.java:114-120 | last write wins: a cell whose key no later row writes is stored under that key |
| `GridLayout.LayoutTime` | src/MarinasPositionsCalculator/MarinasPositionsCalculator.java:119 | every node of a layout carries the layout's time |
| `GridLayout.LayoutStoresEachCell` | src/MarinasPositionsCalculator/MarinasPositionsCalculator.java:114-120 | for at least one group and one line (`Positive()`), when no two cells collide (`G <= L` or `L == 1`), every cell is stored under its own key |
| `GridLayout.LayoutCollision` | src/MarinasPositionsCalculator/MarinasPositionsCalculator.java:114-120 | when `G > L >= 2`, cells (0, 1) and (L, 0) share key L; the later cell (L, 0) wins, and cell (0, 1) is lost when the spacing is non-zero |
| `GridLayout.LastKeyMissing` | src/MarinasPositionsCalculator/MarinasPositionsCalculator.java:120 | for at least one group and one line (`Positive()`), unless `G == L` or `L == 1`, no cell is written under the last marina's key `G*L - 1` |
| `GridLayout.DenseKeysCover` | src/MarinasPositionsCalculator/MarinasPositionsCalculator.java:120 | for at least one group and one line (`Positive()`), when `G == L` or `L == 1`, the cells' keys are exactly `0 .. G*L - 1` |
| `GridLayout.LayoutCoversIff` | src/MarinasPositionsCalculator/MarinasPositionsCalculator.java:114-120 | for at least one group and one line (`Positive()`), the layout's keys are exactly `0 .. nbMarinas-1` if and only if `G == L` or `L == 1`; otherwise key `nbMarinas-1` is absent |
| `GridLayout.LayoutFirstNode` | src/MarinasPositionsCalculator/MarinasPositionsCalculator.java:114-120 | for at least one group and one line (`Positive()`), key 0 always holds cell (0, 0), the node whose time re-anchoring reads |
| `GridLayout.GridSpacing` | src/MarinasPositionsCalculator/MarinasPositionsCalculator.java:110-120 | for at least one group and one line (`Positive()`), when no two cells collide (`G <= L` or `L == 1`), stored nodes adjacent in i are `marinasDistance` apart in x with equal y; adjacent in j, `marinasDistance` apart in y with equal x |
| `GridLayout.GridCentred` | src/MarinasPositionsCalculator/MarinasPositionsCalculator.java:110-120 | for at least one group and one line (`Positive()`), the first and last nodes span `(G-1)·d` by `(L-1)·d`, and their midpoint is within half a unit of the reference point on each axis |
| `TrajectoryWalk.AnchorCovers` | src/MarinasPositionsCalculator/MarinasPositionsCalculator.java:166-167 | for at least one group and one line (`Positive()`), the per-marina lookup finds a node for every index below `nbMarinas` if and only if `G == L` or `L == 1` |
| `TrajectoryWalk.StepsAt` | src/MarinasPositionsCalculator/MarinasPositionsCalculator.java:158-174 | step p of a segment is the anchor shifted by the offset of step p, `stepDuration * p` later |
| `TrajectoryWalk.ExpectedLength` | src/MarinasPositionsCalculator/MarinasPositionsCalculator.java:158-174 | for at least one group and one line (`Positive()`), the closed form holds exactly as many snapshots as its segments have steps |
| `TrajectoryWalk.ExpectedAt` | src/MarinasPositionsCalculator/MarinasPositionsCalculator.java:158-174 | for at least one group and one line (`Positive()`), step p of segment k sits at index `Prefix(k) + p` of the closed form |
| `TrajectoryWalk.ExpectedTimes` | src/MarinasPositionsCalculator/MarinasPositionsCalculator.java:169 | for at least one group and one line (`Positive()`), every snapshot of the closed form holds marinas `0 .. nbMarinas-1`, all stamped `stepDuration` times the snapshot's global index |
| `TrajectoryWalk.WalkFrom` | src/MarinasPositionsCalculator/MarinasPositionsCalculator.java:136-179 | for at least one group and one line (`Positive()`), the loop, started at segment i on the grid at waypoint i timed `stepDuration · Σ_{m<i} steps_m`, re-anchors onto exactly that grid for every later segment; it emits the closed form (nothing if the keys are not dense) and ends as predicted |
| `TrajectoryWalk.CalculationClosedForm` | src/MarinasPositionsCalculator/MarinasPositionsCalculator.java:130-182 | for at least one group and one line (`Positive()`), what `calculate` appends and how it ends. Fewer than two waypoints: nothing, no speed read. Dense keys: every reachable segment's snapshots. Otherwise: nothing, with a null dereference at the first segment that has a step. Too few speeds: an index error after the reachable segments |
| `TrajectoryWalk.CalculationLength` | src/MarinasPositionsCalculator/MarinasPositionsCalculator.java:158-175 | for at least one group and one line (`Positive()`), `calculate` appends exactly the sum of the step counts of the segments it reaches (none when it dereferences null) |
| `TrajectoryWalk.CalculationSnapshot` | src/MarinasPositionsCalculator/MarinasPositionsCalculator.java:158-177 | for at least one group and one line (`Positive()`), snapshot `Prefix(k) + p` holds marinas `0 .. nbMarinas-1`, each the node of segment k's anchor (the grid at waypoint k) moved by the same offset and `stepDuration * p` later |
| `TrajectoryWalk.CalculationSegmentStart` | src/MarinasPositionsCalculator/MarinasPositionsCalculator.java:158-172 | for at least one group and one line (`Positive()`), the first step of every segment that has steps is the grid laid out at its waypoint, unmoved |
| `TrajectoryWalk.CalculationTimes` | src/MarinasPositionsCalculator/MarinasPositionsCalculator.java:169-177 | for at least one group and one line (`Positive()`), every node of appended snapshot n has time `stepDuration * n`. So consecutive snapshots are `stepDuration` apart, even across re-anchoring, and a zero-step segment re-anchors at the same time |
| `TrajectoryWalk.CalculationTimesMonotone` | src/MarinasPositionsCalculator/MarinasPositionsCalculator.java:169-177 | for at least one group and one line (`Positive()`), with `stepDuration >= 0`, times never decrease along the appended snapshots |
| `Calculator.MarinasPositionsCalculator.WithDefaults` | src/MarinasPositionsCalculator/MarinasPositionsCalculator.java:66-74 | stores the trajectory, uses defaults 4, 4, 10, 125, and starts with no snapshots |
| `Calculator.MarinasPositionsCalculator.constructor` | src/MarinasPositionsCalculator/MarinasPositionsCalculator.java:86-94 | stores the trajectory and the given configuration, and starts with no snapshots |
| `Calculator.MarinasPositionsCalculator.GetNbMarinas` | src/MarinasPositionsCalculator/MarinasPositionsCalculator.java:100-102 | the number of marinas is `nbNodePerGroup * nbNodePerLine`, at least each factor when both are positive |
| `Calculator.MarinasPositionsCalculator.InitFirstPoints` | src/MarinasPositionsCalculator/MarinasPositionsCalculator.java:106-125 | the double loop builds exactly `Layout`, the grid the layout lemmas describe |
| `Calculator.MarinasPositionsCalculator.StepPositions` | src/MarinasPositionsCalculator/MarinasPositionsCalculator.java:164-172 | the per-marina loop finds every index below `nbMarinas` exactly when the anchor covers them, and then builds the anchor shifted by the step's offset and time |
| `Calculator.MarinasPositionsCalculator.AppendSegment` | src/MarinasPositionsCalculator/MarinasPositionsCalculator.java:158-175 | the step loop of one segment appends exactly that segment's snapshots, step p being the anchor shifted by the offset of step p; when a marina index has no node it appends nothing and reports the null dereference |
| `Calculator.MarinasPositionsCalculator.Calculate` | src/MarinasPositionsCalculator/MarinasPositionsCalculator.java:130-182 | appends exactly `Calculation`'s snapshots to `marinasPoints` and keeps all earlier entries; returns how the walk ends |
| `Calculator.MarinasPositionsCalculator.GetTrajectoryPoints` | src/MarinasPositionsCalculator/MarinasPositionsCalculator.java:188-190 | returns the waypoints unchanged |
| `Calculator.MarinasPositionsCalculator.GetMarinasPoints` | src/MarinasPositionsCalculator/MarinasPositionsCalculator.java:196-199 | recalculates, appends one more batch, and returns the whole accumulated list |
| `Calculator.ReadTwice` | src/MarinasPositionsCalculator/MarinasPositionsCalculator.java:196-199 | on a fresh calculator, the first read returns one batch and the second read returns that batch twice over, i.e. twice as many snapshots as the first read returned: reads are not idempotent |

## Left out

- `main` (demo wiring and console output) is not modelled.
- The floating-point geometry of `calculate` (lines 144-155) is not modelled:
  `atan2`, `sqrt`, `pow`, `cos`/`sin`, the `Float` speed, the `/1000`
  conversion and `Math.floor(distance / step_distance)`. Each segment instead
  comes with a `Motion`: a natural step count, and the per-step displacement as
  a rational `dx/den`, `dy/den`. The calculator takes these motions where the
  source takes speeds. The offset of step p is that displacement times p,
  truncated toward zero as `intValue` does (line 168).
- The layout and walk lemmas (`LayoutCoversIff`, `LayoutFirstNode`,
  `GridCentred`, `AnchorCovers`, `CalculationClosedForm`, `CalculationLength` and
  the others that require `Positive()`) assume `nbNodePerGroup >= 1` and
  `nbNodePerLine >= 1`. `Walk`, `Calculation` and `Calculate` themselves cover
  every integer. Otherwise the Java's layout is empty. Every step of the first
  segment is still appended: empty maps when `G*L <= 0`, where the per-marina
  loop at line 166 runs zero times. Then `calculate` dereferences null at line
  177, or already at lines 167-168 when `G*L > 0`. No lemma describes that case.
- A zero speed or zero step duration (an infinite or NaN step count) is not
  modelled: step counts are finite naturals.
- A negative speed or negative `stepDuration` is not modelled either. It makes
  `Math.floor(distance / step_distance)` negative (line 155): the segment then
  emits nothing, yet line 177 still moves the re-anchoring time by
  `stepDuration` times that negative count. `Motion.steps` is a natural number,
  so this time shift cannot occur in the model.
- Calculator.ReadTwice / GetMarinasPoints: the Java lists are shared by
  reference. `getMarinasPoints` returns the live `marinasPoints` list (line
  198), so a result obtained earlier grows with every later read; in Java both
  reads of `ReadTwice` are the same object. The constructors keep the caller's
  waypoint and speed lists (lines 67-68 and 87-88) and `getTrajectoryPoints`
  hands out the internal list (line 189), so a caller changing those lists
  changes the next `calculate`. The model returns `seq` values: each read is a
  snapshot of the list at that moment, and the inputs cannot change afterwards.
- Java `int`/`long` overflow, the saturation of `intValue` and the precision of
  `double` are not modelled. Integers are unbounded, so the double arithmetic
  of `initFirstPoints` is treated as exact.
- `initFirstPoints` takes a `Double` time and applies `longValue`. The model
  takes a whole number, because both callers only pass whole values (`0.0`, and
  a `long` plus `stepDuration` times a floored count).
- Object identity is not modelled. Snapshots hold node values (`NodeState`),
  not `Node` objects: `calculate` creates each node fresh and never changes it.
  The mutability and aliasing of `java.awt.Point` and the internals of
  `HashMap` are not modelled either.
- The public static defaults (lines 18-34) are constants. Their mutability is
  not modelled.
- An exception is returned as an `Outcome` value instead of unwinding out of
  `getMarinasPoints`.
