/** The first-turn opening of the greedy bot: walls on our edge cells, except the
    two cells `opening` pops from the list first. */
module GreedOpening {
  import opened Game
  import opened Seqs

  /** The list left after `pop(0)` and then `pop(HALF_ARENA - 1)`. Since the second pop
      runs on the shortened list, it removes the cell at original index HALF_ARENA.
      Either pop raises when the list is too short. */
  function OpeningCells(edges: seq<Pos>): (r: Result<seq<Pos>>)
    ensures r.Ok? <==> |edges| > HalfArena
    ensures r.Err? ==> r.error == PopOutOfRange
    ensures r.Ok? ==> |r.value| == |edges| - 2
    ensures r.Ok? ==> r.value == edges[1..HalfArena] + edges[HalfArena + 1..]
    ensures r.Ok? ==> forall i :: 0 <= i < |r.value| ==>
      r.value[i] == (if i < HalfArena - 1 then edges[i + 1] else edges[i + 2])
  {
    if |edges| == 0 then Err(PopOutOfRange)
    else
      var once := RemoveAt(edges, 0);
      if |once| <= HalfArena - 1 then Err(PopOutOfRange)
      else
        var twice := RemoveAt(once, HalfArena - 1);
        assert twice == edges[1..HalfArena] + edges[HalfArena + 1..];
        Ok(twice)
  }

  /** `for edge_location in cells: game_state.attempt_spawn(kind, edge_location)`. */
  function SpawnAll<S>(eng: Engine<S>, s: S, kind: Kind, cells: seq<Pos>): S
    decreases |cells|
  {
    if |cells| == 0 then s else SpawnAll(eng, eng.attemptSpawn(s, kind, cells[0]), kind, cells[1..])
  }

  /** `opening(game_state, game_map)`: the state after the walls are attempted. */
  function Opening<S>(eng: Engine<S>, s: S): (r: Result<S>)
    ensures r.Ok? <==> |eng.edges(true)| > HalfArena
  {
    match OpeningCells(eng.edges(true))
    case Err(e) => Err(e)
    case Ok(cells) => Ok(SpawnAll(eng, s, Wall, cells))
  }
}
