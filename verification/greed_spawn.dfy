/** Least-damage spawn selection of the greedy bot: score the unoccupied edge cells
    whose path ends on the wanted half and keep every start tied at the minimum. */
module GreedSpawn {
  import opened Game
  import opened Seqs
  import opened Threat

  /** One scored start: the pair `(particular_damage, location)` of the source. */
  datatype Scored = Scored(damage: int, start: Pos)

  /** The result of `least_damage_spawn`: the tied best starts and their damage. */
  datatype Spawn = Spawn(best: seq<Pos>, damage: int)

  /** The edge cells of the side `myself` that hold no stationary unit, in edge order. */
  function PossibleStarts<S>(eng: Engine<S>, s: S, myself: bool): (r: seq<Pos>)
    ensures forall i :: 0 <= i < |r| ==> !eng.containsStationaryUnit(s, r[i])
    ensures forall p :: p in eng.edges(myself) && !eng.containsStationaryUnit(s, p) ==> p in r
    ensures IsSubsequence(r, eng.edges(myself))
  {
    Unoccupied(eng, s, eng.edges(myself))
  }

  /** The half a path must end on to be scored: row 14 or above for our own units,
      below row 14 for the opponent's. */
  predicate EndsOnSide(last: Pos, myself: bool)
  {
    (last.y >= 14 && myself) || (last.y < 14 && !myself)
  }

  /** A start is scored when its path is non-empty and ends on the wanted half. */
  predicate Qualifies<S>(eng: Engine<S>, s: S, p: Pos, myself: bool)
  {
    var path := eng.findPathToEdge(s, p);
    |path| > 0 && EndsOnSide(path[|path| - 1], myself)
  }

  /** Damage along the path from `p`. */
  function StartDamage<S>(eng: Engine<S>, s: S, p: Pos, myself: bool): nat
  {
    PathDamage(eng, s, eng.findPathToEdge(s, p), myself)
  }

  function StartsOf(scored: seq<Scored>): (r: seq<Pos>)
    ensures |r| == |scored|
    ensures forall k :: 0 <= k < |r| ==> r[k] == scored[k].start
  {
    if |scored| == 0 then [] else [scored[0].start] + StartsOf(scored[1..])
  }

  function DamagesOf(scored: seq<Scored>): (r: seq<int>)
    ensures |r| == |scored|
    ensures forall k :: 0 <= k < |r| ==> r[k] == scored[k].damage
  {
    if |scored| == 0 then [] else [scored[0].damage] + DamagesOf(scored[1..])
  }

  /** Every path from a start has at least one cell (otherwise `path[-1]` raises). */
  predicate PathsNonEmpty<S>(eng: Engine<S>, s: S, starts: seq<Pos>)
  {
    forall i :: 0 <= i < |starts| ==> |eng.findPathToEdge(s, starts[i])| > 0
  }

  /** The scoring loop: the starts whose path ends on the wanted half, in order,
      each paired with its path damage. */
  function ScoreStarts<S>(eng: Engine<S>, s: S, starts: seq<Pos>, myself: bool): (r: Result<seq<Scored>>)
    ensures r.Ok? <==> PathsNonEmpty(eng, s, starts)
    ensures r.Err? ==> r.error == EmptyPath
  {
    if |starts| == 0 then Ok([])
    else
      var path := eng.findPathToEdge(s, starts[0]);
      var rest := ScoreStarts(eng, s, starts[1..], myself);
      assert PathsNonEmpty(eng, s, starts) <==> |path| > 0 && PathsNonEmpty(eng, s, starts[1..]) by {
        assert forall i :: 1 <= i < |starts| ==> starts[i] == starts[1..][i - 1];
      }
      if |path| == 0 then Err(EmptyPath)
      else if rest.Err? then rest
      else if EndsOnSide(path[|path| - 1], myself) then
        Ok([Scored(PathDamage(eng, s, path, myself), starts[0])] + rest.value)
      else rest
  }

  /** The tail of a list whose paths are non-empty has non-empty paths too. */
  lemma PathsNonEmptyTail<S>(eng: Engine<S>, s: S, starts: seq<Pos>)
    requires |starts| > 0 && PathsNonEmpty(eng, s, starts)
    ensures PathsNonEmpty(eng, s, starts[1..])
  {
    assert forall i :: 1 <= i < |starts| ==> starts[i] == starts[1..][i - 1];
  }

  /** One round of the scoring loop on a list whose paths are non-empty. */
  lemma ScoreStartsStep<S>(eng: Engine<S>, s: S, starts: seq<Pos>, myself: bool)
    requires |starts| > 0 && PathsNonEmpty(eng, s, starts)
    ensures PathsNonEmpty(eng, s, starts[1..])
    ensures ScoreStarts(eng, s, starts, myself).value ==
      (if Qualifies(eng, s, starts[0], myself) then [Scored(StartDamage(eng, s, starts[0], myself), starts[0])] else [])
      + ScoreStarts(eng, s, starts[1..], myself).value
  {
    PathsNonEmptyTail(eng, s, starts);
  }

  /** The scored starts are exactly the qualifying ones, in order. */
  lemma {:induction false} ScoreStartsKeepsQualifying<S>(eng: Engine<S>, s: S, starts: seq<Pos>, myself: bool)
    requires PathsNonEmpty(eng, s, starts)
    ensures StartsOf(ScoreStarts(eng, s, starts, myself).value) == Filter(starts, p => Qualifies(eng, s, p, myself))
    decreases |starts|
  {
    if |starts| > 0 {
      ScoreStartsStep(eng, s, starts, myself);
      ScoreStartsKeepsQualifying(eng, s, starts[1..], myself);
      var scored := ScoreStarts(eng, s, starts, myself).value;
      var rest := ScoreStarts(eng, s, starts[1..], myself).value;
      if Qualifies(eng, s, starts[0], myself) {
        assert StartsOf(scored) == [starts[0]] + StartsOf(rest);
      }
    }
  }

  /** Each scored pair carries its own start's path damage. */
  lemma {:induction false} ScoreStartsDamages<S>(eng: Engine<S>, s: S, starts: seq<Pos>, myself: bool)
    requires PathsNonEmpty(eng, s, starts)
    ensures var scored := ScoreStarts(eng, s, starts, myself).value;
      forall k :: 0 <= k < |scored| ==> scored[k].damage == StartDamage(eng, s, scored[k].start, myself)
    decreases |starts|
  {
    if |starts| > 0 {
      ScoreStartsStep(eng, s, starts, myself);
      ScoreStartsDamages(eng, s, starts[1..], myself);
    }
  }

  /** The scored starts are exactly the qualifying ones, in order, each with its
      own path damage. */
  lemma ScoreStartsSpec<S>(eng: Engine<S>, s: S, starts: seq<Pos>, myself: bool)
    requires PathsNonEmpty(eng, s, starts)
    ensures var scored := ScoreStarts(eng, s, starts, myself).value;
      && StartsOf(scored) == Filter(starts, p => Qualifies(eng, s, p, myself))
      && forall k :: 0 <= k < |scored| ==> scored[k].damage == StartDamage(eng, s, scored[k].start, myself)
  {
    ScoreStartsKeepsQualifying(eng, s, starts, myself);
    ScoreStartsDamages(eng, s, starts, myself);
  }

  /** `min(damages)[0]`: the least damage among the scored starts. */
  function MinDamage(scored: seq<Scored>): (m: int)
    requires |scored| > 0
    ensures forall k :: 0 <= k < |scored| ==> m <= scored[k].damage
    ensures exists k :: 0 <= k < |scored| && scored[k].damage == m
  {
    var ds := DamagesOf(scored);
    var m := MinOf(ds);
    var k :| 0 <= k < |ds| && ds[k] == m;
    m
  }

  /** The starts of the scored pairs whose damage is `m`, in order. */
  function BestStarts(scored: seq<Scored>, m: int): seq<Pos>
  {
    if |scored| == 0 then []
    else (if scored[0].damage == m then [scored[0].start] else []) + BestStarts(scored[1..], m)
  }

  /** `least_damage_spawn(game_state, myself)`. */
  function LeastDamageSpawn<S>(eng: Engine<S>, s: S, myself: bool): (r: Result<Spawn>)
    ensures r.Ok? ==> |r.value.best| > 0
  {
    var possible := PossibleStarts(eng, s, myself);
    match ScoreStarts(eng, s, possible, myself)
    case Err(e) => Err(e)
    case Ok(scored) =>
      if |scored| == 0 then
        if |possible| == 0 then Err(NoUnoccupiedEdge) else Ok(Spawn([possible[0]], -1))
      else
        var m := MinDamage(scored);
        BestStartsNonEmpty(scored, m);
        Ok(Spawn(BestStarts(scored, m), m))
  }

  lemma {:induction false} BestStartsNonEmpty(scored: seq<Scored>, m: int)
    requires exists k :: 0 <= k < |scored| && scored[k].damage == m
    ensures |BestStarts(scored, m)| > 0
    decreases |scored|
  {
    if scored[0].damage != m {
      var k :| 0 <= k < |scored| && scored[k].damage == m;
      assert scored[1..][k - 1].damage == m;
      BestStartsNonEmpty(scored[1..], m);
    }
  }

  /** When every pair carries its start's damage, the best starts are the scored
      starts filtered by that damage. */
  lemma {:induction false} BestStartsFilter<S>(eng: Engine<S>, s: S, scored: seq<Scored>, m: int, myself: bool)
    requires forall k :: 0 <= k < |scored| ==> scored[k].damage == StartDamage(eng, s, scored[k].start, myself)
    ensures BestStarts(scored, m) == Filter(StartsOf(scored), p => StartDamage(eng, s, p, myself) == m)
    decreases |scored|
  {
    if |scored| > 0 {
      assert StartsOf(scored)[1..] == StartsOf(scored[1..]);
      BestStartsFilter(eng, s, scored[1..], m, myself);
    }
  }

  /** The two crash cases: no unoccupied edge cell (`possible_starts[0]` on an empty
      list), or an empty path (`path[-1]`). Nothing else fails. */
  lemma LeastDamageSpawnErrors<S>(eng: Engine<S>, s: S, myself: bool)
    ensures var possible := PossibleStarts(eng, s, myself);
      && (LeastDamageSpawn(eng, s, myself) == Err(NoUnoccupiedEdge) <==> |possible| == 0)
      && (LeastDamageSpawn(eng, s, myself) == Err(EmptyPath) <==> !PathsNonEmpty(eng, s, possible))
      && (LeastDamageSpawn(eng, s, myself).Ok? <==> |possible| > 0 && PathsNonEmpty(eng, s, possible))
  {
  }

  /** Every returned start is an unoccupied edge cell of the queried side whose path
      has at least one cell. */
  lemma LeastDamageSpawnStarts<S>(eng: Engine<S>, s: S, myself: bool)
    ensures var r := LeastDamageSpawn(eng, s, myself);
      r.Ok? ==> forall i :: 0 <= i < |r.value.best| ==>
        && r.value.best[i] in eng.edges(myself)
        && !eng.containsStationaryUnit(s, r.value.best[i])
        && |eng.findPathToEdge(s, r.value.best[i])| > 0
  {
    var possible := PossibleStarts(eng, s, myself);
    var r := LeastDamageSpawn(eng, s, myself);
    if r.Ok? {
      var scored := ScoreStarts(eng, s, possible, myself).value;
      ScoreStartsSpec(eng, s, possible, myself);
      var qualifying := Filter(possible, p => Qualifies(eng, s, p, myself));
      forall i | 0 <= i < |r.value.best|
        ensures r.value.best[i] in possible
      {
        if |scored| > 0 {
          var m := MinDamage(scored);
          BestStartsFilter(eng, s, scored, m, myself);
          FilterMember(qualifying, p => StartDamage(eng, s, p, myself) == m, r.value.best[i]);
          FilterMember(possible, p => Qualifies(eng, s, p, myself), r.value.best[i]);
        }
      }
    }
  }

  /** When no path ends on the wanted half, the result is the first unoccupied edge
      cell with damage -1. */
  lemma LeastDamageSpawnFallback<S>(eng: Engine<S>, s: S, myself: bool)
    requires var possible := PossibleStarts(eng, s, myself);
      |possible| > 0 && PathsNonEmpty(eng, s, possible)
      && forall i :: 0 <= i < |possible| ==> !Qualifies(eng, s, possible[i], myself)
    ensures LeastDamageSpawn(eng, s, myself) == Ok(Spawn([PossibleStarts(eng, s, myself)[0]], -1))
  {
    var possible := PossibleStarts(eng, s, myself);
    ScoreStartsSpec(eng, s, possible, myself);
    var scored := ScoreStarts(eng, s, possible, myself).value;
    NoneQualify(eng, s, possible, myself);
  }

  lemma {:induction false} NoneQualify<S>(eng: Engine<S>, s: S, starts: seq<Pos>, myself: bool)
    requires forall i :: 0 <= i < |starts| ==> !Qualifies(eng, s, starts[i], myself)
    ensures Filter(starts, p => Qualifies(eng, s, p, myself)) == []
    decreases |starts|
  {
    if |starts| > 0 {
      assert forall i :: 1 <= i < |starts| ==> starts[i] == starts[1..][i - 1];
      NoneQualify(eng, s, starts[1..], myself);
    }
  }

  /** Once some start qualifies, the scoring loop yields at least one pair. */
  lemma SomeScored<S>(eng: Engine<S>, s: S, myself: bool, q: Pos)
    requires PathsNonEmpty(eng, s, PossibleStarts(eng, s, myself))
    requires q in PossibleStarts(eng, s, myself) && Qualifies(eng, s, q, myself)
    ensures |ScoreStarts(eng, s, PossibleStarts(eng, s, myself), myself).value| > 0
  {
    var possible := PossibleStarts(eng, s, myself);
    ScoreStartsSpec(eng, s, possible, myself);
    FilterMember(possible, p => Qualifies(eng, s, p, myself), q);
  }

  /** With pairs scored, the result is the best starts at the least scored damage. */
  lemma ScoredSpawn<S>(eng: Engine<S>, s: S, myself: bool, scored: seq<Scored>)
    requires ScoreStarts(eng, s, PossibleStarts(eng, s, myself), myself) == Ok(scored)
    requires |scored| > 0
    ensures LeastDamageSpawn(eng, s, myself) == Ok(Spawn(BestStarts(scored, MinDamage(scored)), MinDamage(scored)))
  {
  }

  /** The shape of a successful selection once some start qualifies: the best starts
      are the qualifying starts filtered by the least scored damage. */
  lemma MinimalShape<S>(eng: Engine<S>, s: S, myself: bool, q: Pos)
    requires PathsNonEmpty(eng, s, PossibleStarts(eng, s, myself))
    requires q in PossibleStarts(eng, s, myself) && Qualifies(eng, s, q, myself)
    ensures var possible := PossibleStarts(eng, s, myself);
      var qualifying := Filter(possible, p => Qualifies(eng, s, p, myself));
      var r := LeastDamageSpawn(eng, s, myself);
      && r.Ok?
      && r.value.best == Filter(qualifying, p => StartDamage(eng, s, p, myself) == r.value.damage)
      && (forall j :: 0 <= j < |qualifying| ==> r.value.damage <= StartDamage(eng, s, qualifying[j], myself))
  {
    var possible := PossibleStarts(eng, s, myself);
    var scored := ScoreStarts(eng, s, possible, myself).value;
    var qualifying := Filter(possible, p => Qualifies(eng, s, p, myself));
    SomeScored(eng, s, myself, q);
    ScoredSpawn(eng, s, myself, scored);
    ScoreStartsSpec(eng, s, possible, myself);
    var m := MinDamage(scored);
    var r := LeastDamageSpawn(eng, s, myself);
    assert r.value.best == BestStarts(scored, m) && r.value.damage == m;
    BestStartsFilter(eng, s, scored, m, myself);
    assert StartsOf(scored) == qualifying;
    forall j | 0 <= j < |qualifying|
      ensures m <= StartDamage(eng, s, qualifying[j], myself)
    {
      assert StartsOf(scored)[j] == scored[j].start;
    }
  }

  /** When some path ends on the wanted half, the result holds exactly the unoccupied
      edge cells whose path ends there with the least damage, in edge order, and that
      damage is at most every scored damage. */
  lemma LeastDamageSpawnMinimal<S>(eng: Engine<S>, s: S, myself: bool, q: Pos)
    requires PathsNonEmpty(eng, s, PossibleStarts(eng, s, myself))
    requires q in PossibleStarts(eng, s, myself) && Qualifies(eng, s, q, myself)
    ensures var r := LeastDamageSpawn(eng, s, myself);
      && r.Ok?
      && r.value.damage >= 0
      && IsSubsequence(r.value.best, eng.edges(myself))
      && (forall p :: p in r.value.best <==>
            p in PossibleStarts(eng, s, myself) && Qualifies(eng, s, p, myself)
            && StartDamage(eng, s, p, myself) == r.value.damage)
      && (forall p :: p in PossibleStarts(eng, s, myself) && Qualifies(eng, s, p, myself)
            ==> r.value.damage <= StartDamage(eng, s, p, myself))
  {
    var possible := PossibleStarts(eng, s, myself);
    var qualifying := Filter(possible, p => Qualifies(eng, s, p, myself));
    MinimalShape(eng, s, myself, q);
    var r := LeastDamageSpawn(eng, s, myself);
    var m := r.value.damage;
    var best := r.value.best;
    assert best == Filter(qualifying, p => StartDamage(eng, s, p, myself) == m);
    SubsequenceTrans(best, qualifying, possible);
    SubsequenceTrans(best, possible, eng.edges(myself));
    assert best[0] in best;
    FilterMember(qualifying, p => StartDamage(eng, s, p, myself) == m, best[0]);
    forall p
      ensures p in best <==> p in possible && Qualifies(eng, s, p, myself) && StartDamage(eng, s, p, myself) == m
    {
      FilterMember(qualifying, p => StartDamage(eng, s, p, myself) == m, p);
      FilterMember(possible, p => Qualifies(eng, s, p, myself), p);
    }
    forall p | p in possible && Qualifies(eng, s, p, myself)
      ensures m <= StartDamage(eng, s, p, myself)
    {
      FilterMember(possible, p => Qualifies(eng, s, p, myself), p);
      var j :| 0 <= j < |qualifying| && qualifying[j] == p;
    }
  }
}
