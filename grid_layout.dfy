/**
 * Grid layout: the initial positions of the marinas, a rectangular lattice of
 * `nodesPerGroup` columns by `nodesPerLine` rows, `marinasDistance` apart and
 * centred on a reference point. Every node carries the same time.
 *
 * The lattice origin is `ref - (count - 1) * 0.5 * distance`, truncated toward
 * zero once; the per-node offsets are then added as whole integers. Node (i, j)
 * is stored under the key `i + j * nodesPerLine`, written in the order of the
 * double loop of `initFirstPoints` (i outer, j inner), so a later cell overwrites an earlier
 * one on the same key.
 */
module GridLayout {
  import opened Nodes

  /** The calculator's configuration; every field may be any integer. */
  datatype Config = Config(nodesPerGroup: int, nodesPerLine: int, stepDuration: int, marinasDistance: int)
  {
    /** The number of marinas the walker visits per snapshot. */
    function NbMarinas(): int
    {
      nodesPerGroup * nodesPerLine
    }

    /** Both lattice dimensions are at least one. */
    predicate Positive()
    {
      nodesPerGroup >= 1 && nodesPerLine >= 1
    }

    /** The configurations whose keys `i + j * nodesPerLine` are exactly `0 .. NbMarinas() - 1`. */
    predicate DenseKeys()
    {
      nodesPerGroup == nodesPerLine || nodesPerLine == 1
    }

    /** The configurations in which no two lattice cells share a key. */
    predicate DistinctKeys()
    {
      nodesPerGroup <= nodesPerLine || nodesPerLine == 1
    }
  }

  type Snapshot = map<int, NodeState>

  /** Division rounded toward zero, as a double-to-int conversion truncates. */
  function TruncDiv(a: int, b: int): (q: int)
    requires b > 0
    ensures 0 <= a ==> 0 <= q && q * b <= a < q * b + b
    ensures a < 0 ==> q <= 0 && q * b - b < a <= q * b
  {
    if 0 <= a then a / b else -((-a) / b)
  }

  /** A loop bound: the number of iterations of `for (k = 0; k < n; k++)`. */
  function Bound(n: int): nat
  {
    if n > 0 then n else 0
  }

  /** The truncated lattice origin along one axis: `trunc(ref - (count - 1) * 0.5 * distance)`. */
  function Origin(ref: int, count: int, distance: int): int
  {
    TruncDiv(2 * ref - (count - 1) * distance, 2)
  }

  /** The key lattice cell (i, j) is stored under. */
  function Key(cfg: Config, i: int, j: int): int
  {
    i + j * cfg.nodesPerLine
  }

  /** The node of lattice cell (i, j) for a grid anchored at `ref` at time `t`. */
  function Cell(cfg: Config, ref: Point, t: int, i: int, j: int): NodeState
  {
    NodeState(
      Point(Origin(ref.x, cfg.nodesPerGroup, cfg.marinasDistance) + i * cfg.marinasDistance,
            Origin(ref.y, cfg.nodesPerLine, cfg.marinasDistance) + j * cfg.marinasDistance),
      t)
  }

  /** `m` after the inner loop has written cells (i, 0) .. (i, n - 1). */
  function FillRow(cfg: Config, ref: Point, t: int, m: Snapshot, i: int, n: nat): Snapshot
  {
    if n == 0 then m
    else FillRow(cfg, ref, t, m, i, n - 1)[Key(cfg, i, n - 1) := Cell(cfg, ref, t, i, n - 1)]
  }

  /** The map after the outer loop has completed rows 0 .. n - 1. */
  function FillRows(cfg: Config, ref: Point, t: int, n: nat): Snapshot
  {
    if n == 0 then map[]
    else FillRow(cfg, ref, t, FillRows(cfg, ref, t, n - 1), n - 1, Bound(cfg.nodesPerLine))
  }

  /** The grid `initFirstPoints` builds around `ref` at time `t`. */
  function Layout(cfg: Config, ref: Point, t: int): Snapshot
  {
    FillRows(cfg, ref, t, Bound(cfg.nodesPerGroup))
  }

  /** The keys the lattice cells are written under. */
  ghost predicate IsCellKey(cfg: Config, k: int)
  {
    exists i, j :: 0 <= i < cfg.nodesPerGroup && 0 <= j < cfg.nodesPerLine && Key(cfg, i, j) == k
  }

  // ---------------------------------------------------------------------------
  // Arithmetic helpers

  lemma MulPositive(a: int, b: int)
    requires a >= 1 && b >= 1
    ensures a * b >= b && a * b >= a
  {
  }

  lemma MulMonotone(a: int, b: int, c: int)
    requires a <= b && c >= 0
    ensures a * c <= b * c
  {
  }

  lemma MulAdd(a: int, b: int, c: int)
    ensures a * (b + c) == a * b + a * c
  {
  }

  /** Two keys of the same column that differ are on different rows. */
  lemma KeysOfOneColumnDiffer(cfg: Config, i: int, j: int, j': int)
    requires cfg.nodesPerLine >= 1 && j != j'
    ensures Key(cfg, i, j) != Key(cfg, i, j')
  {
    var L := cfg.nodesPerLine;
    if j < j' {
      MulPositive(j' - j, L);
      assert j' * L - j * L == (j' - j) * L;
    } else {
      MulPositive(j - j', L);
      assert j * L - j' * L == (j - j') * L;
    }
  }

  // ---------------------------------------------------------------------------
  // Which keys are written

  lemma {:induction false} FillRowKeys(cfg: Config, ref: Point, t: int, m: Snapshot, i: int, n: nat, k: int)
    ensures k in FillRow(cfg, ref, t, m, i, n) <==> k in m || exists j :: 0 <= j < n && Key(cfg, i, j) == k
  {
    if n > 0 {
      FillRowKeys(cfg, ref, t, m, i, n - 1, k);
    }
  }

  lemma {:induction false} FillRowsKeys(cfg: Config, ref: Point, t: int, n: nat, k: int)
    ensures k in FillRows(cfg, ref, t, n) <==>
            exists i, j :: 0 <= i < n && 0 <= j < cfg.nodesPerLine && Key(cfg, i, j) == k
  {
    if n > 0 {
      FillRowsKeys(cfg, ref, t, n - 1, k);
      FillRowKeys(cfg, ref, t, FillRows(cfg, ref, t, n - 1), n - 1, Bound(cfg.nodesPerLine), k);
      if k in FillRows(cfg, ref, t, n) && k !in FillRows(cfg, ref, t, n - 1) {
        var j :| 0 <= j < Bound(cfg.nodesPerLine) && Key(cfg, n - 1, j) == k;
        assert 0 <= n - 1 < n && 0 <= j < cfg.nodesPerLine && Key(cfg, n - 1, j) == k;
      }
      if exists i, j :: 0 <= i < n && 0 <= j < cfg.nodesPerLine && Key(cfg, i, j) == k {
        var i, j :| 0 <= i < n && 0 <= j < cfg.nodesPerLine && Key(cfg, i, j) == k;
        if i == n - 1 {
          assert 0 <= j < Bound(cfg.nodesPerLine);
        }
      }
    }
  }

  /** The layout's keys are exactly the keys of the lattice cells. */
  lemma LayoutKeys(cfg: Config, ref: Point, t: int)
    ensures forall k :: k in Layout(cfg, ref, t) <==> IsCellKey(cfg, k)
  {
    forall k
      ensures k in Layout(cfg, ref, t) <==> IsCellKey(cfg, k)
    {
      FillRowsKeys(cfg, ref, t, Bound(cfg.nodesPerGroup), k);
      if IsCellKey(cfg, k) {
        var i, j :| 0 <= i < cfg.nodesPerGroup && 0 <= j < cfg.nodesPerLine && Key(cfg, i, j) == k;
        assert 0 <= i < Bound(cfg.nodesPerGroup);
      }
    }
  }

  // ---------------------------------------------------------------------------
  // Which value each key ends up with

  lemma {:induction false} FillRowKeeps(cfg: Config, ref: Point, t: int, m: Snapshot, i: int, n: nat, k: int)
    requires k in m
    requires forall j :: 0 <= j < n ==> Key(cfg, i, j) != k
    ensures k in FillRow(cfg, ref, t, m, i, n) && FillRow(cfg, ref, t, m, i, n)[k] == m[k]
  {
    if n > 0 {
      FillRowKeeps(cfg, ref, t, m, i, n - 1, k);
    }
  }

  lemma {:induction false} FillRowAt(cfg: Config, ref: Point, t: int, m: Snapshot, i: int, n: nat, j: int)
    requires cfg.nodesPerLine >= 1 && 0 <= j < n
    ensures Key(cfg, i, j) in FillRow(cfg, ref, t, m, i, n)
    ensures FillRow(cfg, ref, t, m, i, n)[Key(cfg, i, j)] == Cell(cfg, ref, t, i, j)
  {
    if j < n - 1 {
      FillRowAt(cfg, ref, t, m, i, n - 1, j);
      KeysOfOneColumnDiffer(cfg, i, j, n - 1);
    }
  }

  lemma {:induction false} FillRowsAt(cfg: Config, ref: Point, t: int, n: nat, i: int, j: int)
    requires 0 <= i < n && 0 <= j < cfg.nodesPerLine
    requires forall i', j' :: i < i' < n && 0 <= j' < cfg.nodesPerLine ==> Key(cfg, i', j') != Key(cfg, i, j)
    ensures Key(cfg, i, j) in FillRows(cfg, ref, t, n)
    ensures FillRows(cfg, ref, t, n)[Key(cfg, i, j)] == Cell(cfg, ref, t, i, j)
  {
    var prev := FillRows(cfg, ref, t, n - 1);
    if i == n - 1 {
      FillRowAt(cfg, ref, t, prev, n - 1, Bound(cfg.nodesPerLine), j);
    } else {
      FillRowsAt(cfg, ref, t, n - 1, i, j);
      var row := n - 1;
      forall j' | 0 <= j' < Bound(cfg.nodesPerLine)
        ensures Key(cfg, row, j') != Key(cfg, i, j)
      {
        assert i < row < n && 0 <= j' < cfg.nodesPerLine;
      }
      FillRowKeeps(cfg, ref, t, prev, row, Bound(cfg.nodesPerLine), Key(cfg, i, j));
    }
  }

  /**
   * Last write wins: a cell that no later row overwrites is found under its key.
   */
  lemma LayoutAt(cfg: Config, ref: Point, t: int, i: int, j: int)
    requires 0 <= i < cfg.nodesPerGroup && 0 <= j < cfg.nodesPerLine
    requires forall i', j' :: i < i' < cfg.nodesPerGroup && 0 <= j' < cfg.nodesPerLine ==> Key(cfg, i', j') != Key(cfg, i, j)
    ensures Key(cfg, i, j) in Layout(cfg, ref, t)
    ensures Layout(cfg, ref, t)[Key(cfg, i, j)] == Cell(cfg, ref, t, i, j)
  {
    FillRowsAt(cfg, ref, t, Bound(cfg.nodesPerGroup), i, j);
  }

  /** Every node of a layout carries the layout's time. */
  lemma {:induction false} LayoutTime(cfg: Config, ref: Point, t: int)
    ensures forall k :: k in Layout(cfg, ref, t) ==> Layout(cfg, ref, t)[k].time == t
  {
    FillRowsTime(cfg, ref, t, Bound(cfg.nodesPerGroup));
  }

  lemma {:induction false} FillRowTime(cfg: Config, ref: Point, t: int, m: Snapshot, i: int, n: nat)
    requires forall k :: k in m ==> m[k].time == t
    ensures forall k :: k in FillRow(cfg, ref, t, m, i, n) ==> FillRow(cfg, ref, t, m, i, n)[k].time == t
  {
    if n > 0 {
      FillRowTime(cfg, ref, t, m, i, n - 1);
    }
  }

  lemma {:induction false} FillRowsTime(cfg: Config, ref: Point, t: int, n: nat)
    ensures forall k :: k in FillRows(cfg, ref, t, n) ==> FillRows(cfg, ref, t, n)[k].time == t
  {
    if n > 0 {
      FillRowsTime(cfg, ref, t, n - 1);
      FillRowTime(cfg, ref, t, FillRows(cfg, ref, t, n - 1), n - 1, Bound(cfg.nodesPerLine));
    }
  }

  // ---------------------------------------------------------------------------
  // Key encoding: distinctness and coverage

  /** When no two cells collide, every cell is stored under its own key. */
  lemma DistinctKeysInjective(cfg: Config, i: int, j: int, i': int, j': int)
    requires cfg.Positive() && cfg.DistinctKeys()
    requires 0 <= i < cfg.nodesPerGroup && 0 <= j < cfg.nodesPerLine
    requires 0 <= i' < cfg.nodesPerGroup && 0 <= j' < cfg.nodesPerLine
    requires (i, j) != (i', j')
    ensures Key(cfg, i, j) != Key(cfg, i', j')
  {
    var L := cfg.nodesPerLine;
    if L == 1 {
    } else if j == j' {
    } else if j < j' {
      MulPositive(j' - j, L);
      assert j' * L - j * L == (j' - j) * L;
    } else {
      MulPositive(j - j', L);
      assert j * L - j' * L == (j - j') * L;
    }
  }

  /** In a collision-free configuration the layout holds every lattice cell under its key. */
  lemma LayoutStoresEachCell(cfg: Config, ref: Point, t: int, i: int, j: int)
    requires cfg.Positive() && cfg.DistinctKeys()
    requires 0 <= i < cfg.nodesPerGroup && 0 <= j < cfg.nodesPerLine
    ensures Key(cfg, i, j) in Layout(cfg, ref, t)
    ensures Layout(cfg, ref, t)[Key(cfg, i, j)] == Cell(cfg, ref, t, i, j)
  {
    forall i', j' | i < i' < cfg.nodesPerGroup && 0 <= j' < cfg.nodesPerLine
      ensures Key(cfg, i', j') != Key(cfg, i, j)
    {
      DistinctKeysInjective(cfg, i', j', i, j);
    }
    LayoutAt(cfg, ref, t, i, j);
  }

  /**
   * With more groups than lines (and at least two lines), cells (0, 1) and
   * (nodesPerLine, 0) share a key; the later write, cell (nodesPerLine, 0), is
   * what the layout holds, so cell (0, 1) is lost when the spacing is not zero.
   */
  lemma LayoutCollision(cfg: Config, ref: Point, t: int)
    requires cfg.nodesPerGroup > cfg.nodesPerLine >= 2
    ensures Key(cfg, 0, 1) == Key(cfg, cfg.nodesPerLine, 0)
    ensures Key(cfg, 0, 1) in Layout(cfg, ref, t)
    ensures Layout(cfg, ref, t)[Key(cfg, 0, 1)] == Cell(cfg, ref, t, cfg.nodesPerLine, 0)
    ensures cfg.marinasDistance != 0 ==> Layout(cfg, ref, t)[Key(cfg, 0, 1)] != Cell(cfg, ref, t, 0, 1)
  {
    var L := cfg.nodesPerLine;
    forall i', j' | L < i' < cfg.nodesPerGroup && 0 <= j' < L
      ensures Key(cfg, i', j') != Key(cfg, L, 0)
    {
      MulMonotone(0, j', L);
    }
    LayoutAt(cfg, ref, t, L, 0);
    if cfg.marinasDistance != 0 {
      MulPositive(L, if cfg.marinasDistance > 0 then cfg.marinasDistance else -cfg.marinasDistance);
      assert L * cfg.marinasDistance != 0 * cfg.marinasDistance;
    }
  }

  /** Without dense keys, every cell's key lies off the last marina's key `G * L - 1`. */
  lemma CellKeyNotLast(G: int, L: int, i: int, j: int)
    requires G >= 1 && L >= 1 && G != L && L != 1
    requires 0 <= i < G && 0 <= j < L
    ensures i + j * L != G * L - 1
  {
    if G < L {
      if j < G {
        // i + j * L <= (G - 1) + (G - 1) * L < G * L - 1
        MulMonotone(j, G - 1, L);
        assert (G - 1) * L == G * L - L;
      } else {
        MulMonotone(G, j, L);
      }
    } else {
      // i + j * L <= (G - 1) + (L - 1) * L = G * L - 1 - (G - L) * (L - 1) < G * L - 1
      MulMonotone(j, L - 1, L);
      MulPositive(G - L, L - 1);
      assert (G - L) * (L - 1) == G * L - G - L * L + L;
      assert (L - 1) * L == L * L - L;
    }
  }

  /** The key of the last marina, `NbMarinas() - 1`, is written only by dense configurations. */
  lemma LastKeyMissing(cfg: Config)
    requires cfg.Positive() && !cfg.DenseKeys()
    ensures !IsCellKey(cfg, cfg.NbMarinas() - 1)
  {
    forall i, j | 0 <= i < cfg.nodesPerGroup && 0 <= j < cfg.nodesPerLine
      ensures Key(cfg, i, j) != cfg.NbMarinas() - 1
    {
      CellKeyNotLast(cfg.nodesPerGroup, cfg.nodesPerLine, i, j);
    }
  }

  /** In a dense configuration every key below `NbMarinas()` is a cell's key. */
  lemma DenseKeysReach(cfg: Config, k: int)
    requires cfg.Positive() && cfg.DenseKeys() && 0 <= k < cfg.NbMarinas()
    ensures IsCellKey(cfg, k)
  {
    var L := cfg.nodesPerLine;
    if L == 1 {
      assert Key(cfg, k, 0) == k;
    } else {
      var i, j := k % L, k / L;
      assert k == j * L + i;
      if j >= L {
        MulMonotone(L, j, L);
        assert false;
      }
      assert Key(cfg, i, j) == k;
    }
  }

  /** In a dense configuration every cell's key is below `NbMarinas()`. */
  lemma DenseKeysBounded(cfg: Config, i: int, j: int)
    requires cfg.Positive() && cfg.DenseKeys()
    requires 0 <= i < cfg.nodesPerGroup && 0 <= j < cfg.nodesPerLine
    ensures 0 <= Key(cfg, i, j) < cfg.NbMarinas()
  {
    var L := cfg.nodesPerLine;
    MulMonotone(0, j, L);
    if L != 1 {
      MulMonotone(j, L - 1, L);
      assert (L - 1) * L == L * L - L;
    }
  }

  /** In a dense configuration the cells' keys are exactly `0 .. NbMarinas() - 1`. */
  lemma DenseKeysCover(cfg: Config, k: int)
    requires cfg.Positive() && cfg.DenseKeys()
    ensures IsCellKey(cfg, k) <==> 0 <= k < cfg.NbMarinas()
  {
    if 0 <= k < cfg.NbMarinas() {
      DenseKeysReach(cfg, k);
    }
    if IsCellKey(cfg, k) {
      var i, j :| 0 <= i < cfg.nodesPerGroup && 0 <= j < cfg.nodesPerLine && Key(cfg, i, j) == k;
      DenseKeysBounded(cfg, i, j);
    }
  }

  /**
   * The keys a layout holds are exactly `0 .. NbMarinas() - 1` if and only if
   * the configuration is dense (`nodesPerGroup == nodesPerLine` or one line);
   * otherwise the last marina's key is absent.
   */
  lemma LayoutCoversIff(cfg: Config, ref: Point, t: int)
    requires cfg.Positive()
    ensures (forall k :: k in Layout(cfg, ref, t) <==> 0 <= k < cfg.NbMarinas()) <==> cfg.DenseKeys()
    ensures !cfg.DenseKeys() ==> cfg.NbMarinas() - 1 !in Layout(cfg, ref, t)
    ensures 0 <= cfg.NbMarinas() - 1
  {
    LayoutKeys(cfg, ref, t);
    MulPositive(cfg.nodesPerGroup, cfg.nodesPerLine);
    if cfg.DenseKeys() {
      forall k
        ensures k in Layout(cfg, ref, t) <==> 0 <= k < cfg.NbMarinas()
      {
        DenseKeysCover(cfg, k);
      }
    } else {
      LastKeyMissing(cfg);
    }
  }

  /** Node 0 is always cell (0, 0): no later cell is written under key 0. */
  lemma LayoutFirstNode(cfg: Config, ref: Point, t: int)
    requires cfg.Positive()
    ensures 0 in Layout(cfg, ref, t) && Layout(cfg, ref, t)[0] == Cell(cfg, ref, t, 0, 0)
  {
    forall i', j' | 0 < i' < cfg.nodesPerGroup && 0 <= j' < cfg.nodesPerLine
      ensures Key(cfg, i', j') != Key(cfg, 0, 0)
    {
      MulMonotone(0, j', cfg.nodesPerLine);
    }
    LayoutAt(cfg, ref, t, 0, 0);
  }

  // ---------------------------------------------------------------------------
  // Shape of the lattice

  /**
   * Nodes adjacent along i are `marinasDistance` apart in x on the same y, and
   * nodes adjacent along j are `marinasDistance` apart in y on the same x.
   */
  lemma GridSpacing(cfg: Config, ref: Point, t: int, i: int, j: int)
    requires cfg.Positive() && cfg.DistinctKeys()
    requires 0 <= i < cfg.nodesPerGroup && 0 <= j < cfg.nodesPerLine
    ensures var m := Layout(cfg, ref, t);
            Key(cfg, i, j) in m &&
            (i + 1 < cfg.nodesPerGroup ==>
               Key(cfg, i + 1, j) in m &&
               m[Key(cfg, i + 1, j)].coordinates.x == m[Key(cfg, i, j)].coordinates.x + cfg.marinasDistance &&
               m[Key(cfg, i + 1, j)].coordinates.y == m[Key(cfg, i, j)].coordinates.y) &&
            (j + 1 < cfg.nodesPerLine ==>
               Key(cfg, i, j + 1) in m &&
               m[Key(cfg, i, j + 1)].coordinates.y == m[Key(cfg, i, j)].coordinates.y + cfg.marinasDistance &&
               m[Key(cfg, i, j + 1)].coordinates.x == m[Key(cfg, i, j)].coordinates.x)
  {
    var d := cfg.marinasDistance;
    LayoutStoresEachCell(cfg, ref, t, i, j);
    if i + 1 < cfg.nodesPerGroup {
      LayoutStoresEachCell(cfg, ref, t, i + 1, j);
      assert (i + 1) * d == i * d + d;
    }
    if j + 1 < cfg.nodesPerLine {
      LayoutStoresEachCell(cfg, ref, t, i, j + 1);
      assert (j + 1) * d == j * d + d;
    }
  }

  /**
   * The grid is centred on the reference point to within one unit: node 0 and
   * the last-written node (cell (G-1, L-1), which no write follows) are
   * `(G-1) * distance` and `(L-1) * distance` apart, and their midpoint is at
   * most half a unit from `ref` on each axis.
   */
  lemma GridCentred(cfg: Config, ref: Point, t: int)
    requires cfg.Positive()
    ensures var m := Layout(cfg, ref, t);
            var last := Key(cfg, cfg.nodesPerGroup - 1, cfg.nodesPerLine - 1);
            0 in m && last in m &&
            m[last].coordinates.x - m[0].coordinates.x == (cfg.nodesPerGroup - 1) * cfg.marinasDistance &&
            m[last].coordinates.y - m[0].coordinates.y == (cfg.nodesPerLine - 1) * cfg.marinasDistance &&
            -1 <= m[0].coordinates.x + m[last].coordinates.x - 2 * ref.x <= 1 &&
            -1 <= m[0].coordinates.y + m[last].coordinates.y - 2 * ref.y <= 1
  {
    LayoutFirstNode(cfg, ref, t);
    LayoutAt(cfg, ref, t, cfg.nodesPerGroup - 1, cfg.nodesPerLine - 1);
  }
}
