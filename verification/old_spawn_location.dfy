/** `least_damage_spawn_location` of the earlier bot: score the options a scout can
    spawn on by the damage along their path, then pick one. */
module OldSpawnLocation {
  import opened Game
  import opened Seqs
  import opened OldEdges
  import opened Threat

  /** The value bound to `chosen`: the initial `[[0, 2]]` or a cell taken from the options. */
  datatype Chosen = Sentinel | Cell(p: Pos)

  /** What the function hands back, `[chosen, damage_taken]`, together with the
      caller's option list as the function leaves it (the loop pops from it). */
  datatype SpawnLocation = SpawnLocation(chosen: Chosen, damageTaken: int, remaining: seq<Pos>)

  /** The loop test `chosen[-1] in enemy_edges`. For the sentinel the last element is
      the cell `[0, 2]`; for a cell `[x, y]` it is the integer `y`, which is equal to
      no coordinate pair of the list. */
  predicate LastInEnemyEdges(c: Chosen)
  {
    match c
    case Sentinel => Pos(0, 2) in EnemyEdges
    case Cell(_) => false
  }

  /** The loop test never holds: the sentinel cell `[0, 2]` is in our half, and an
      integer is no cell. */
  lemma LastNeverInEnemyEdges(c: Chosen)
    ensures !LastInEnemyEdges(c)
  {
    EnemyEdgesFormula();
  }

  /** Damage along `path` as this function estimates it: every unit returned by
      `get_attackers(p, 0)` at a path cell counts the turret damage once. */
  function OwnPathDamage<S>(eng: Engine<S>, s: S, path: seq<Pos>, turretDamage: int): int
  {
    if |path| == 0 then 0
    else |eng.getAttackers(s, path[0], 0)| * turretDamage + OwnPathDamage(eng, s, path[1..], turretDamage)
  }

  /** The estimate is the turret damage once per (path cell, attacker) pair. */
  lemma {:induction false} OwnPathDamageCounts<S>(eng: Engine<S>, s: S, path: seq<Pos>, turretDamage: int)
    ensures OwnPathDamage(eng, s, path, turretDamage) == turretDamage * PathAttackerCount(eng, s, path, true)
    decreases |path|
  {
    if |path| > 0 {
      OwnPathDamageCounts(eng, s, path[1..], turretDamage);
      var a := |eng.getAttackers(s, path[0], 0)|;
      var c := PathAttackerCount(eng, s, path[1..], true);
      assert a * turretDamage + turretDamage * c == turretDamage * (a + c);
    }
  }

  function OptionDamage<S>(eng: Engine<S>, s: S, p: Pos, turretDamage: int): int
  {
    OwnPathDamage(eng, s, eng.findPathToEdge(s, p), turretDamage)
  }

  /** The `damages` list: one entry per scout-spawnable option. It is not aligned with
      `location_options` when some option cannot spawn. */
  function ScoredDamages<S>(eng: Engine<S>, s: S, options: seq<Pos>, turretDamage: int): (r: seq<int>)
    ensures |r| == |ScoutSpawnable(eng, s, options)| <= |options|
    ensures forall i :: 0 <= i < |r| ==> r[i] == OptionDamage(eng, s, ScoutSpawnable(eng, s, options)[i], turretDamage)
    ensures forall i :: 0 <= i < |r| ==>
      var c := ScoutSpawnable(eng, s, options);
      c[i] in options && eng.canSpawn(s, Scout, c[i]) &&
      r[i] == turretDamage * PathAttackerCount(eng, s, eng.findPathToEdge(s, c[i]), true)
  {
    var c := ScoutSpawnable(eng, s, options);
    var r := seq(|c|, i requires 0 <= i < |c| => OptionDamage(eng, s, c[i], turretDamage));
    forall i | 0 <= i < |c|
      ensures c[i] in options && eng.canSpawn(s, Scout, c[i])
      ensures r[i] == turretDamage * PathAttackerCount(eng, s, eng.findPathToEdge(s, c[i]), true)
    {
      OwnPathDamageCounts(eng, s, eng.findPathToEdge(s, c[i]), turretDamage);
    }
    r
  }

  /** The selection loop: while the test above fails and damages remain, take the
      option at the index of the first minimum and pop that index from both lists. */
  function Drain(chosen: Chosen, options: seq<Pos>, damages: seq<int>): (r: (Chosen, seq<Pos>))
    requires |damages| <= |options|
    ensures |r.1| == |options| - |damages|
    ensures |damages| == 0 ==> r == (chosen, options)
    ensures |damages| > 0 ==> r.0.Cell?
    decreases |damages|
  {
    LastNeverInEnemyEdges(chosen);
    if LastInEnemyEdges(chosen) || |damages| == 0 then (chosen, options)
    else
      var i := IndexOfMin(damages);
      Drain(Cell(options[i]), RemoveAt(options, i), RemoveAt(damages, i))
  }

  /** Popping a minimum `i` of two or more damages keeps a maximum: the maximum of
      what is left, at its original index. */
  lemma RemoveMinKeepsMax(damages: seq<int>, i: nat, j': nat) returns (j: nat)
    requires |damages| >= 2 && i < |damages|
    requires forall k :: 0 <= k < |damages| ==> damages[i] <= damages[k]
    requires j' < |damages| - 1
    requires forall k :: 0 <= k < |damages| - 1 ==> RemoveAt(damages, i)[k] <= RemoveAt(damages, i)[j']
    ensures j == if j' < i then j' else j' + 1
    ensures j < |damages| && forall k :: 0 <= k < |damages| ==> damages[k] <= damages[j]
  {
    var rest := RemoveAt(damages, i);
    j := if j' < i then j' else j' + 1;
    assert rest[j'] == damages[j];
    forall k | 0 <= k < |damages| ensures damages[k] <= damages[j] {
      if k < i {
        assert rest[k] == damages[k];
      } else if k > i {
        assert rest[k - 1] == damages[k];
      } else {
        assert damages[i] <= rest[0];
      }
    }
  }

  /** When every option was scored, the loop runs until the lists are empty, and the
      option it ends on carries the greatest damage: it removes the smallest first. */
  lemma {:induction false} DrainEndsOnMax(chosen: Chosen, options: seq<Pos>, damages: seq<int>) returns (j: nat)
    requires |options| == |damages| > 0
    ensures j < |options| && Drain(chosen, options, damages).0 == Cell(options[j])
    ensures forall k :: 0 <= k < |damages| ==> damages[k] <= damages[j]
    decreases |damages|
  {
    LastNeverInEnemyEdges(chosen);
    var i := IndexOfMin(damages);
    var options', damages' := RemoveAt(options, i), RemoveAt(damages, i);
    assert Drain(chosen, options, damages) == Drain(Cell(options[i]), options', damages');
    if |damages| == 1 {
      assert i == 0 && |damages'| == 0;
      assert Drain(Cell(options[i]), options', damages').0 == Cell(options[0]);
      j := 0;
    } else {
      var j' := DrainEndsOnMax(Cell(options[i]), options', damages');
      j := RemoveMinKeepsMax(damages, i, j');
      assert options'[j'] == options[j];
    }
  }

  /** `least_damage_spawn_location(game_state, location_options)`, as written. The
      unit-config turret damage `damage_i` is the parameter `turretDamage`. */
  function LeastDamageSpawnLocationAsWritten<S>(eng: Engine<S>, s: S, options: seq<Pos>, turretDamage: int): (r: SpawnLocation)
    ensures r.damageTaken == 0
    ensures |r.remaining| == |options| - |ScoutSpawnable(eng, s, options)|
    ensures r.chosen == Sentinel <==> |ScoutSpawnable(eng, s, options)| == 0
    ensures r.chosen == Sentinel ==> r.remaining == options
  {
    var d := Drain(Sentinel, options, ScoredDamages(eng, s, options, turretDamage));
    SpawnLocation(d.0, 0, d.1)
  }

  /** As written, when a scout can spawn on every option the function returns an
      option of the GREATEST damage. */
  lemma LeastDamageSpawnLocationPicksMax<S>(eng: Engine<S>, s: S, options: seq<Pos>, turretDamage: int) returns (j: nat)
    requires |options| > 0
    requires forall i :: 0 <= i < |options| ==> eng.canSpawn(s, Scout, options[i])
    ensures j < |options|
    ensures LeastDamageSpawnLocationAsWritten(eng, s, options, turretDamage).chosen == Cell(options[j])
    ensures forall k :: 0 <= k < |options| ==>
      OptionDamage(eng, s, options[k], turretDamage) <= OptionDamage(eng, s, options[j], turretDamage)
  {
    j := DrainEndsOnMax(Sentinel, options, ScoredDamages(eng, s, options, turretDamage));
  }

  /** Two options of damage 0 and 15: the function returns the one of damage 15. */
  lemma LeastDamageSpawnLocationCounterexample<S>(eng: Engine<S>, s: S, a: Pos, b: Pos)
    requires eng.canSpawn(s, Scout, a) && eng.canSpawn(s, Scout, b)
    requires OptionDamage(eng, s, a, 1) == 0 && OptionDamage(eng, s, b, 1) == 15
    ensures LeastDamageSpawnLocationAsWritten(eng, s, [a, b], 1).chosen == Cell(b)
    ensures LeastDamageSpawnLocation(eng, s, [a, b], 1).chosen == Cell(a)
  {
    var j := LeastDamageSpawnLocationPicksMax(eng, s, [a, b], 1);
    assert OptionDamage(eng, s, [a, b][j], 1) >= OptionDamage(eng, s, [a, b][1], 1);
    assert j == 1;
  }

  /** The evidently intended function: the scout-spawnable option of least damage (the
      first among ties), the sentinel when there is none, and the caller's list untouched. */
  function LeastDamageSpawnLocation<S>(eng: Engine<S>, s: S, options: seq<Pos>, turretDamage: int): (r: SpawnLocation)
    ensures r.damageTaken == 0 && r.remaining == options
    ensures r.chosen == Sentinel <==> |ScoutSpawnable(eng, s, options)| == 0
    ensures r.chosen.Cell? ==> r.chosen.p in options && eng.canSpawn(s, Scout, r.chosen.p)
    ensures r.chosen.Cell? ==> forall q :: q in options && eng.canSpawn(s, Scout, q) ==>
      OptionDamage(eng, s, r.chosen.p, turretDamage) <= OptionDamage(eng, s, q, turretDamage)
  {
    var c := ScoutSpawnable(eng, s, options);
    var d := ScoredDamages(eng, s, options, turretDamage);
    if |d| == 0 then SpawnLocation(Sentinel, 0, options)
    else
      var i := IndexOfMin(d);
      assert forall q :: q in options && eng.canSpawn(s, Scout, q) ==> d[i] <= OptionDamage(eng, s, q, turretDamage) by {
        forall q | q in options && eng.canSpawn(s, Scout, q)
          ensures d[i] <= OptionDamage(eng, s, q, turretDamage)
        {
          var k :| 0 <= k < |options| && options[k] == q;
          var m :| 0 <= m < |c| && c[m] == q;
          assert d[i] <= d[m];
        }
      }
      SpawnLocation(Cell(c[i]), 0, options)
  }
}
