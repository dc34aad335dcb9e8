/** The earlier bot's hard-coded edge geometry and its Euclidean range test. */
module OldEdges {
  import opened Game

  /** `my_edges`: `(x, 13 - x)` for x in 0..13, then `(14 + x, x)` for x in 0..13. */
  function MyEdges(): seq<Pos>
  {
    seq(14, x => Pos(x, 13 - x)) + seq(14, x => Pos(14 + x, x))
  }

  /** `enemy_edges`, the literal list at module level: its first fourteen cells climb
      the upper-left diagonal, the last fourteen descend the upper-right one. */
  const EnemyEdges: seq<Pos> := EnemyEdgesLeft + EnemyEdgesRight

  const EnemyEdgesLeft: seq<Pos> := [
    Pos(0, 14), Pos(1, 15), Pos(2, 16), Pos(3, 17), Pos(4, 18), Pos(5, 19), Pos(6, 20), Pos(7, 21),
    Pos(8, 22), Pos(9, 23), Pos(10, 24), Pos(11, 25), Pos(12, 26), Pos(13, 27)]

  const EnemyEdgesRight: seq<Pos> := [
    Pos(14, 27), Pos(15, 26), Pos(16, 25), Pos(17, 24), Pos(18, 23), Pos(19, 22), Pos(20, 21),
    Pos(21, 20), Pos(22, 19), Pos(23, 18), Pos(24, 17), Pos(25, 16), Pos(26, 15), Pos(27, 14)]

  /** Cell `i` of the opponent's edge by formula: `(i, 14 + i)` then `(i, 41 - i)`. */
  function EnemyEdgeCell(i: int): Pos
  {
    if i < 14 then Pos(i, 14 + i) else Pos(i, 41 - i)
  }

  /** The formula cells `lo`, ..., `lo + n - 1`. */
  function EnemyEdgeRun(lo: nat, n: nat): (r: seq<Pos>)
    ensures |r| == n
    ensures forall i :: 0 <= i < n ==> r[i] == EnemyEdgeCell(lo + i)
  {
    if n == 0 then [] else EnemyEdgeRun(lo, n - 1) + [EnemyEdgeCell(lo + n - 1)]
  }

  /** The cell opposite `p` under the half-turn of the board. */
  function Mirror(p: Pos): Pos
  {
    Pos(27 - p.x, 27 - p.y)
  }

  /** `my_edges` holds 28 distinct cells, all in our half, on the two lower diagonals. */
  lemma MyEdgesShape()
    ensures |MyEdges()| == 28
    ensures forall i :: 0 <= i < 28 ==> 0 <= MyEdges()[i].y <= 13 && 0 <= MyEdges()[i].x <= 27
    ensures forall i :: 0 <= i < 14 ==> MyEdges()[i].x + MyEdges()[i].y == 13
    ensures forall i :: 14 <= i < 28 ==> MyEdges()[i].x - MyEdges()[i].y == 14
    ensures forall i, j :: 0 <= i < j < 28 ==> MyEdges()[i] != MyEdges()[j]
  {
  }

  /** The literal list agrees with the formula, cell by cell. */
  lemma EnemyEdgesFormula()
    ensures |EnemyEdges| == 28
    ensures forall i :: 0 <= i < 28 ==> EnemyEdges[i] == EnemyEdgeCell(i)
  {
    assert EnemyEdgesLeft == EnemyEdgeRun(0, 14);
    assert EnemyEdgesRight == EnemyEdgeRun(14, 14);
  }

  /** `enemy_edges` is `my_edges` turned half-way round, in reverse order. */
  lemma EnemyEdgesMirrorMine()
    ensures |EnemyEdges| == 28
    ensures forall i :: 0 <= i < 28 ==> EnemyEdges[i] == Mirror(MyEdges()[27 - i])
  {
    EnemyEdgesFormula();
  }

  /** Consequently `enemy_edges` holds 28 distinct cells, all in the opponent's half,
      and no cell is on both lists. */
  lemma EnemyEdgesShape()
    ensures forall i :: 0 <= i < 28 ==> 14 <= EnemyEdges[i].y <= 27
    ensures forall i, j :: 0 <= i < j < 28 ==> EnemyEdges[i] != EnemyEdges[j]
    ensures forall p :: p in EnemyEdges ==> p !in MyEdges()
  {
    MyEdgesShape();
    EnemyEdgesMirrorMine();
    forall i, j | 0 <= i < j < 28 ensures EnemyEdges[i] != EnemyEdges[j] {
      assert MyEdges()[27 - i] != MyEdges()[27 - j];
    }
  }

  function SqDist(a: Pos, b: Pos): nat
  {
    (a.x - b.x) * (a.x - b.x) + (a.y - b.y) * (a.y - b.y)
  }

  /** `is_in_range(l1, l2, rang)`: `sqrt(dx*dx + dy*dy) < rang`. A square root is never
      negative, so no range at or below zero holds; above zero the test is the same
      as comparing the squared distance with the squared range. */
  predicate IsInRange(a: Pos, b: Pos, rang: real)
  {
    rang > 0.0 && (SqDist(a, b) as real) < rang * rang
  }

  /** The range test is symmetric in its two cells, and admits nothing at a range at
      or below zero. */
  lemma IsInRangeSymmetric(a: Pos, b: Pos, rang: real)
    ensures IsInRange(a, b, rang) <==> IsInRange(b, a, rang)
    ensures rang <= 0.0 ==> !IsInRange(a, b, rang)
  {
    var dx, dy := a.x - b.x, a.y - b.y;
    assert (-dx) * (-dx) == dx * dx;
    assert (-dy) * (-dy) == dy * dy;
    assert SqDist(b, a) == (-dx) * (-dx) + (-dy) * (-dy);
  }

  /** At range 2.5 the test admits exactly the squared distances up to 6; in
      particular every cell is in range of itself. */
  lemma IsInRangeTwoAndAHalf(a: Pos, b: Pos)
    ensures IsInRange(a, b, 2.5) <==> SqDist(a, b) <= 6
    ensures IsInRange(a, a, 2.5)
  {
    var d := SqDist(a, b);
    assert 2.5 * 2.5 == 6.25;
    assert SqDist(a, a) == 0;
    if d <= 6 {
      assert (d as real) <= 6.0;
    } else {
      assert (d as real) >= 7.0;
    }
  }
}
