/** The game library as this bot sees it: board geometry, unit kinds, and the
    queries and commands of the (unseen) game engine as uninterpreted functions
    over an opaque game state `S`. */
module Game {
  import opened Seqs

  /** A board cell. */
  datatype Pos = Pos(x: int, y: int)

  /** The arena is ArenaSize cells wide; each player owns HalfArena rows. */
  const ArenaSize: int := 28
  const HalfArena: int := 14

  datatype Kind = Wall | Support | Turret | Scout | Demolisher | Interceptor

  /** The two resource pools: structure points and mobile points. */
  datatype Resource = SP | MP

  /** A stationary unit that threatens a cell; only its attack range matters here.
      Ranges are exact reals, so `2.5` compares as the source's float literal does. */
  datatype Attacker = Attacker(attackRange: real)

  /** The exceptions the Python code can raise on the paths modelled here. */
  datatype Error =
    | NoUnoccupiedEdge   // indexing an empty list of possible starts
    | EmptyPath          // `path[-1]` on a path with no cells
    | UpgradeRaises      // the upgrade branch: `.upgrade()` on the map entry, then a three-argument `append`
    | EmptyMax           // `max` of an empty list
    | PopOutOfRange      // `list.pop(i)` past the end

  datatype Result<T> = Ok(value: T) | Err(error: Error)

  /** Python passes a bool where a player index is expected: False is 0, True is 1. */
  function PlayerIndex(b: bool): int
  {
    if b then 1 else 0
  }

  /** The game library, as functions of a game state `S`.
      - `edges(myself)`: own bottom edges when true, opponent's top edges when false
      - `findPathToEdge(s, start)`: the pathfinder's route from `start`
      - `getAttackers(s, p, i)`: the stationary units that threaten player `i` at `p`
      - `canSpawn`, `containsStationaryUnit`: placement queries
      - `turretAt(s, p)`: the value of the comparison `TURRET == game_map[x, y]`
      - `addUnit(s, k, p)`: a hypothetical copy of `s` with a unit added
      - `getResource`, `attemptSpawn`: the resource ledger and the committing spawn */
  datatype Engine<!S> = Engine(
    edges: bool -> seq<Pos>,
    findPathToEdge: (S, Pos) -> seq<Pos>,
    getAttackers: (S, Pos, int) -> seq<Attacker>,
    canSpawn: (S, Kind, Pos) -> bool,
    containsStationaryUnit: (S, Pos) -> bool,
    turretAt: (S, Pos) -> bool,
    addUnit: (S, Kind, Pos) -> S,
    getResource: (S, Resource) -> real,
    attemptSpawn: (S, Kind, Pos) -> S)

  /** The cells of `range(w)` x `range(h)`, column by column, in the order of the
      nested Python loops `for x in range(w): for y in range(h)`. */
  function GridCells(w: nat, h: nat): (r: seq<Pos>)
    ensures |r| == w * h
    ensures forall p: Pos :: p in r <==> 0 <= p.x < w && 0 <= p.y < h
  {
    if w == 0 then []
    else
      var column := seq(h, y => Pos(w - 1, y));
      var r := GridCells(w - 1, h) + column;
      assert (w - 1) * h + h == w * h;
      assert forall p: Pos :: p.x == w - 1 && 0 <= p.y < h ==> p in r by {
        forall p: Pos | p.x == w - 1 && 0 <= p.y < h ensures p in r {
          assert column[p.y] == p;
        }
      }
      r
  }

  /** A cell of our half of the board. */
  predicate InOwnHalf(p: Pos)
  {
    0 <= p.x < ArenaSize && 0 <= p.y < HalfArena
  }

  /** Every cell of our half of the board, `x in range(ARENA_SIZE)`, `y in range(HALF_ARENA)`,
      in the order of the nested loops. */
  function OwnHalf(): (r: seq<Pos>)
    ensures forall p: Pos :: p in r <==> InOwnHalf(p)
  {
    GridCells(ArenaSize, HalfArena)
  }

  /** The cells of `cells`, in order, that hold no stationary unit. */
  function Unoccupied<S>(eng: Engine<S>, s: S, cells: seq<Pos>): (r: seq<Pos>)
    ensures forall p :: p in r <==> p in cells && !eng.containsStationaryUnit(s, p)
    ensures IsSubsequence(r, cells)
  {
    var r := Filter(cells, p => !eng.containsStationaryUnit(s, p));
    forall p ensures p in r <==> p in cells && !eng.containsStationaryUnit(s, p) {
      FilterMember(cells, p => !eng.containsStationaryUnit(s, p), p);
    }
    r
  }

  /** The cells of `cells`, in order, where a scout can be placed; all of them when
      a scout can be placed on each. */
  function ScoutSpawnable<S>(eng: Engine<S>, s: S, cells: seq<Pos>): (r: seq<Pos>)
    ensures |r| <= |cells|
    ensures forall p :: p in r <==> p in cells && eng.canSpawn(s, Scout, p)
    ensures IsSubsequence(r, cells)
    ensures (forall i :: 0 <= i < |cells| ==> eng.canSpawn(s, Scout, cells[i])) ==> r == cells
  {
    var r := Filter(cells, p => eng.canSpawn(s, Scout, p));
    forall p ensures p in r <==> p in cells && eng.canSpawn(s, Scout, p) {
      FilterMember(cells, p => eng.canSpawn(s, Scout, p), p);
    }
    assert (forall i :: 0 <= i < |cells| ==> eng.canSpawn(s, Scout, cells[i])) ==> r == cells by {
      if forall i :: 0 <= i < |cells| ==> eng.canSpawn(s, Scout, cells[i]) {
        AllKept(cells, p => eng.canSpawn(s, Scout, p));
      }
    }
    r
  }
}
