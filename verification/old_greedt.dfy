/** `GREEDt` of the earlier bot: collect the cells on the opponent's likely paths,
    rank every open cell of our half by how many of them a turret there would cover,
    and place turrets greedily while SP lasts. */
module OldGreedt {
  import opened Game
  import opened Seqs
  import opened OldEdges
  import opened OldEnemy
  import opened OldSpawnLocation

  /** An entry of the `necessary` list. The source appends the builtin `locals`
      (a function object, never equal to a coordinate pair); the intended entries
      are path cells. */
  datatype Entry = LocalsBuiltin | Coord(c: Pos)

  /** `vuln_locations`: the cells of the paths from the given starts, concatenated
      in start order (duplicates kept). */
  function VulnLocations<S>(eng: Engine<S>, s: S, starts: seq<Pos>): (r: seq<Pos>)
    ensures |starts| == 0 ==> r == []
  {
    if |starts| == 0 then [] else eng.findPathToEdge(s, starts[0]) + VulnLocations(eng, s, starts[1..])
  }

  /** A cell is vulnerable iff it lies on the path of one of the starts. */
  lemma {:induction false} VulnLocationsMember<S>(eng: Engine<S>, s: S, starts: seq<Pos>, t: Pos)
    ensures t in VulnLocations(eng, s, starts) <==>
      exists i :: 0 <= i < |starts| && t in eng.findPathToEdge(s, starts[i])
    decreases |starts|
  {
    if |starts| > 0 {
      VulnLocationsMember(eng, s, starts[1..], t);
      if exists i :: 0 <= i < |starts| && t in eng.findPathToEdge(s, starts[i]) {
        var i :| 0 <= i < |starts| && t in eng.findPathToEdge(s, starts[i]);
        if i > 0 {
          assert starts[1..][i - 1] == starts[i];
        }
      }
      if t in VulnLocations(eng, s, starts[1..]) {
        var i :| 0 <= i < |starts[1..]| && t in eng.findPathToEdge(s, starts[1..][i]);
        assert starts[i + 1] == starts[1..][i];
      }
    }
  }

  /** `necessary` as written: every entry is `locals`, however many path cells were visited. */
  function NecessaryAsWritten(n: nat): (r: seq<Entry>)
    ensures |r| == n
    ensures forall p :: Count(r, Coord(p)) == 0
  {
    var r := seq(n, _ => LocalsBuiltin);
    assert forall p :: Coord(p) !in r;
    r
  }

  /** `necessary` as intended: the cells of the path our own attack will take. */
  function Necessary(path: seq<Pos>): (r: seq<Entry>)
    ensures forall p :: Coord(p) in r <==> p in path
  {
    var r := seq(|path|, i requires 0 <= i < |path| => Coord(path[i]));
    assert forall p :: p in path ==> Coord(p) in r by {
      forall p | p in path ensures Coord(p) in r {
        var i :| 0 <= i < |path| && path[i] == p;
        assert r[i] == Coord(p);
      }
    }
    r
  }

  /** `open_locations` (lines 98-102): the cells of our half, column by column, where
      a turret can spawn and which `necessary` does not list. */
  function OpenLocations<S>(eng: Engine<S>, s: S, necessary: seq<Entry>): seq<Pos>
  {
    Filter(OwnHalf(), p => eng.canSpawn(s, Turret, p) && Count(necessary, Coord(p)) == 0)
  }

  /** As written, `necessary` excludes nothing: the open locations are every cell of
      our half where a turret can spawn, including the cells of our own attack path. */
  lemma OpenLocationsAsWritten<S>(eng: Engine<S>, s: S, n: nat, p: Pos)
    ensures p in OpenLocations(eng, s, NecessaryAsWritten(n)) <==>
      InOwnHalf(p) && eng.canSpawn(s, Turret, p)
  {
    FilterMember(OwnHalf(), q => eng.canSpawn(s, Turret, q) && Count(NecessaryAsWritten(n), Coord(q)) == 0, p);
    assert Coord(p) !in NecessaryAsWritten(n);
  }

  /** A cell on our own attack path is still offered for a turret, which can block the path. */
  lemma OpenLocationsKeepPath<S>(eng: Engine<S>, s: S, n: nat, path: seq<Pos>, p: Pos)
    requires p in path && InOwnHalf(p) && eng.canSpawn(s, Turret, p)
    ensures p in OpenLocations(eng, s, NecessaryAsWritten(n))
    ensures p !in OpenLocations(eng, s, Necessary(path))
  {
    OpenLocationsAsWritten(eng, s, n, p);
    FilterMember(OwnHalf(), q => eng.canSpawn(s, Turret, q) && Count(Necessary(path), Coord(q)) == 0, p);
  }

  /** With the intended `necessary`, the open locations are exactly the turret-spawnable
      cells of our half that are not on the reserved path. */
  lemma OpenLocationsAvoidPath<S>(eng: Engine<S>, s: S, path: seq<Pos>, p: Pos)
    ensures p in OpenLocations(eng, s, Necessary(path)) <==>
      InOwnHalf(p) && eng.canSpawn(s, Turret, p) && p !in path
  {
    FilterMember(OwnHalf(), q => eng.canSpawn(s, Turret, q) && Count(Necessary(path), Coord(q)) == 0, p);
  }

  /** The vulnerable entries a turret at `loc` would cover: `is_in_range(loc, t, 2.5)`. */
  function Covered(loc: Pos, vuln: seq<Pos>): seq<Pos>
  {
    Filter(vuln, t => IsInRange(loc, t, 2.5))
  }

  lemma CoveredSnoc(loc: Pos, vuln: seq<Pos>, t: Pos)
    ensures |Covered(loc, vuln + [t])| == |Covered(loc, vuln)| + (if IsInRange(loc, t, 2.5) then 1 else 0)
  {
    FilterSnoc(vuln, t, t => IsInRange(loc, t, 2.5));
  }

  /** The inner loop of lines 107-109: 5 for each vulnerable entry in range of `loc`. */
  method ScoreLocation(loc: Pos, vuln: seq<Pos>) returns (score: int)
    ensures score == 5 * |Covered(loc, vuln)|
  {
    score := 0;
    var j := 0;
    while j < |vuln|
      invariant 0 <= j <= |vuln|
      invariant score == 5 * |Covered(loc, vuln[..j])|
    {
      CoveredSnoc(loc, vuln[..j], vuln[j]);
      assert vuln[..j + 1] == vuln[..j] + [vuln[j]];
      if IsInRange(loc, vuln[j], 2.5) {
        score := score + 5;
      }
      j := j + 1;
    }
    assert vuln[..|vuln|] == vuln;
  }

  /** `damage_outputs` (lines 103-109): for each open location, 5 per vulnerable entry
      in range 2.5, counted with repeats. */
  method ScoreLocations(open: seq<Pos>, vuln: seq<Pos>) returns (outputs: seq<int>)
    ensures |outputs| == |open|
    ensures forall i :: 0 <= i < |open| ==> outputs[i] == 5 * |Covered(open[i], vuln)|
  {
    outputs := [];
    var n := 0;
    while n < |open|
      invariant 0 <= n <= |open| && |outputs| == n
      invariant forall i :: 0 <= i < n ==> outputs[i] == 5 * |Covered(open[i], vuln)|
    {
      var score := ScoreLocation(open[n], vuln);
      outputs := outputs + [score];
      n := n + 1;
    }
  }

  /** What each score means: 5 per vulnerable entry within squared distance 6 of the
      location, so at most 5 per entry, and at least 5 when the location is itself
      vulnerable. */
  lemma {:induction false} CoveredBySquaredDistance(loc: Pos, vuln: seq<Pos>)
    ensures |Covered(loc, vuln)| == |Filter(vuln, t => SqDist(loc, t) <= 6)|
    ensures |Covered(loc, vuln)| <= |vuln|
    ensures loc in vuln ==> |Covered(loc, vuln)| >= 1
    decreases |vuln|
  {
    if |vuln| > 0 {
      IsInRangeTwoAndAHalf(loc, vuln[0]);
      CoveredBySquaredDistance(loc, vuln[1..]);
      if loc == vuln[0] {
        IsInRangeTwoAndAHalf(loc, loc);
      }
    }
  }

  /** The placement loop as the source runs it, with the attempted spawns it made. */
  datatype Placing<S> = Finished(state: S, placed: seq<Pos>) | Crashed(state: S, placed: seq<Pos>, error: Error)

  function Prepend<S>(p: Pos, r: Placing<S>): (r': Placing<S>)
    ensures r'.Finished? == r.Finished? && r'.state == r.state && r'.placed == [p] + r.placed
    ensures r'.Crashed? ==> r'.error == r.error
  {
    match r
    case Finished(t, ps) => Finished(t, [p] + ps)
    case Crashed(t, ps, e) => Crashed(t, [p] + ps, e)
  }

  /** Lines 111-114 as written: spawn at the arg-max of the scores, remove the max
      score, then pop `open_locations` at the arg-max of the SHORTENED scores
      (`max([])` raises once the last score is gone). */
  function PlaceTowersAsWritten<S>(eng: Engine<S>, s: S, open: seq<Pos>, dmg: seq<int>): (r: Placing<S>)
    requires |open| == |dmg|
    ensures |r.placed| <= |open|
    ensures r.Finished? ==> |open| == 0 || eng.getResource(r.state, SP) <= 1.0
    ensures r.Crashed? ==> r.error == EmptyMax && |r.placed| == |open|
    ensures forall k :: 0 <= k < |r.placed| ==> r.placed[k] in open
    decreases |open|
  {
    if !(eng.getResource(s, SP) > 1.0 && |open| > 0) then Finished(s, [])
    else
      var i := IndexOfMax(dmg);
      var s' := eng.attemptSpawn(s, Turret, open[i]);
      var dmg' := RemoveAt(dmg, i);
      if |dmg'| == 0 then Crashed(s', [open[i]], EmptyMax)
      else
        var j := IndexOfMax(dmg');
        var rest := PlaceTowersAsWritten(eng, s', RemoveAt(open, j), dmg');
        assert forall k :: 0 <= k < |rest.placed| ==> rest.placed[k] in open by {
          forall k | 0 <= k < |rest.placed| ensures rest.placed[k] in open {
            RemoveAtMember(open, j, rest.placed[k]);
          }
        }
        Prepend(open[i], rest)
  }

  /** As written, the loop never ends normally while SP lasts: with SP above 1 in every
      state it spawns once per open location and then raises on `max([])`. */
  lemma {:induction false} PlaceTowersAsWrittenCrashes<S>(eng: Engine<S>, s: S, open: seq<Pos>, dmg: seq<int>)
    requires |open| == |dmg| > 0
    requires forall t :: eng.getResource(t, SP) > 1.0
    ensures PlaceTowersAsWritten(eng, s, open, dmg).Crashed?
    decreases |open|
  {
    var i := IndexOfMax(dmg);
    var dmg' := RemoveAt(dmg, i);
    if |dmg'| > 0 {
      PlaceTowersAsWrittenCrashes(eng, eng.attemptSpawn(s, Turret, open[i]), RemoveAt(open, IndexOfMax(dmg')), dmg');
    }
  }

  /** The first turret goes on an open location of the greatest score. */
  lemma PlaceTowersAsWrittenFirstIsMax<S>(eng: Engine<S>, s: S, open: seq<Pos>, dmg: seq<int>) returns (j: nat)
    requires |open| == |dmg| > 0 && eng.getResource(s, SP) > 1.0
    ensures j < |open| && |PlaceTowersAsWritten(eng, s, open, dmg).placed| > 0
    ensures PlaceTowersAsWritten(eng, s, open, dmg).placed[0] == open[j]
    ensures forall k :: 0 <= k < |dmg| ==> dmg[k] <= dmg[j]
  {
    j := IndexOfMax(dmg);
  }

  /** One round of the loop as written, with two or more scores left: spawn at `i`,
      drop score `i`, pop the open list at `j`. */
  lemma AsWrittenRound<S>(eng: Engine<S>, s: S, open: seq<Pos>, dmg: seq<int>, i: nat, j: nat, open': seq<Pos>, dmg': seq<int>)
    requires |open| == |dmg| >= 2 && eng.getResource(s, SP) > 1.0
    requires i == IndexOfMax(dmg) && dmg' == RemoveAt(dmg, i)
    requires j == IndexOfMax(dmg') && open' == RemoveAt(open, j)
    ensures PlaceTowersAsWritten(eng, s, open, dmg) ==
      Prepend(open[i], PlaceTowersAsWritten(eng, eng.attemptSpawn(s, Turret, open[i]), open', dmg'))
  {
  }

  /** The last round of the example below: one cell left, spawned on, then `max([])`. */
  lemma RepeatsLastRound<S>(eng: Engine<S>, t: S, c: Pos)
    requires eng.getResource(t, SP) > 1.0
    ensures PlaceTowersAsWritten(eng, t, [c], [0]).Crashed?
    ensures PlaceTowersAsWritten(eng, t, [c], [0]).placed == [c]
  {
    assert IndexOfMax([0]) == 0;
    assert RemoveAt([0], 0) == [];
  }

  /** The middle round: scores 5, 0 on b, c; b is spawned on, and c is popped. */
  lemma RepeatsMiddleRound<S>(eng: Engine<S>, t: S, b: Pos, c: Pos)
    requires eng.getResource(t, SP) > 1.0
    requires eng.getResource(eng.attemptSpawn(t, Turret, b), SP) > 1.0
    ensures PlaceTowersAsWritten(eng, t, [b, c], [5, 0]).Crashed?
    ensures PlaceTowersAsWritten(eng, t, [b, c], [5, 0]).placed == [b, c]
  {
    assert RemoveAt([5, 0], 0) == [0];
    assert RemoveAt([b, c], 0) == [c];
    AsWrittenRound(eng, t, [b, c], [5, 0], 0, 0, [c], [0]);
    RepeatsLastRound(eng, eng.attemptSpawn(t, Turret, b), c);
  }

  /** Scores 5, 10, 0 on cells a, b, c, with SP above 1 before each of the three
      spawns: the source spawns at b twice, then at c, then raises. */
  lemma PlaceTowersAsWrittenRepeats<S>(eng: Engine<S>, s: S, a: Pos, b: Pos, c: Pos)
    requires eng.getResource(s, SP) > 1.0
    requires eng.getResource(eng.attemptSpawn(s, Turret, b), SP) > 1.0
    requires eng.getResource(eng.attemptSpawn(eng.attemptSpawn(s, Turret, b), Turret, b), SP) > 1.0
    ensures PlaceTowersAsWritten(eng, s, [a, b, c], [5, 10, 0]).Crashed?
    ensures PlaceTowersAsWritten(eng, s, [a, b, c], [5, 10, 0]).placed == [b, b, c]
  {
    assert RemoveAt([5, 10, 0], 1) == [5, 0];
    assert RemoveAt([a, b, c], 0) == [b, c];
    AsWrittenRound(eng, s, [a, b, c], [5, 10, 0], 1, 0, [b, c], [5, 0]);
    RepeatsMiddleRound(eng, eng.attemptSpawn(s, Turret, b), b, c);
  }

  /** The last round of the intended loop on the example: c alone. */
  lemma InOrderLastRound<S>(eng: Engine<S>, t: S, c: Pos)
    requires eng.getResource(t, SP) > 1.0
    ensures PlaceTowers(eng, t, [c], [0]).placed == [c]
  {
    assert IndexOfMax([0]) == 0;
    assert RemoveAt([c], 0) == [];
  }

  /** The middle round of the intended loop: a then c. */
  lemma InOrderMiddleRound<S>(eng: Engine<S>, t: S, a: Pos, c: Pos)
    requires eng.getResource(t, SP) > 1.0
    requires eng.getResource(eng.attemptSpawn(t, Turret, a), SP) > 1.0
    ensures PlaceTowers(eng, t, [a, c], [5, 0]).placed == [a, c]
  {
    assert IndexOfMax([5, 0]) == 0;
    assert RemoveAt([5, 0], 0) == [0];
    assert RemoveAt([a, c], 0) == [c];
    InOrderLastRound(eng, eng.attemptSpawn(t, Turret, a), c);
  }

  /** The same scores under the intended loop, with SP above 1 before each spawn:
      it spawns at b, a, c, best first. */
  lemma PlaceTowersInOrder<S>(eng: Engine<S>, s: S, a: Pos, b: Pos, c: Pos)
    requires eng.getResource(s, SP) > 1.0
    requires eng.getResource(eng.attemptSpawn(s, Turret, b), SP) > 1.0
    requires eng.getResource(eng.attemptSpawn(eng.attemptSpawn(s, Turret, b), Turret, a), SP) > 1.0
    ensures PlaceTowers(eng, s, [a, b, c], [5, 10, 0]).placed == [b, a, c]
  {
    assert IndexOfMax([5, 10, 0]) == 1;
    assert RemoveAt([5, 10, 0], 1) == [5, 0];
    assert RemoveAt([a, b, c], 1) == [a, c];
    InOrderMiddleRound(eng, eng.attemptSpawn(s, Turret, b), a, c);
  }

  /** The loop with its evident intent, and the score of each placed cell. */
  datatype Placement<S> = Placement(state: S, placed: seq<Pos>, scores: seq<int>)

  /** Lines 111-114 as intended: spawn at the arg-max and pop that same index from
      both lists. */
  function PlaceTowers<S>(eng: Engine<S>, s: S, open: seq<Pos>, dmg: seq<int>): (r: Placement<S>)
    requires |open| == |dmg|
    ensures |r.placed| == |r.scores| <= |open|
    ensures |r.placed| < |open| ==> eng.getResource(r.state, SP) <= 1.0
    ensures |r.scores| > 0 ==> forall j :: 0 <= j < |dmg| ==> dmg[j] <= r.scores[0]
    decreases |open|
  {
    if !(eng.getResource(s, SP) > 1.0 && |open| > 0) then Placement(s, [], [])
    else
      var i := IndexOfMax(dmg);
      var rest := PlaceTowers(eng, eng.attemptSpawn(s, Turret, open[i]), RemoveAt(open, i), RemoveAt(dmg, i));
      Placement(rest.state, [open[i]] + rest.placed, [dmg[i]] + rest.scores)
  }

  /** The placed scores never increase: each round takes the best that is left. */
  lemma {:induction false} PlaceTowersSorted<S>(eng: Engine<S>, s: S, open: seq<Pos>, dmg: seq<int>)
    requires |open| == |dmg|
    ensures forall k, l :: 0 <= k < l < |PlaceTowers(eng, s, open, dmg).scores| ==>
      PlaceTowers(eng, s, open, dmg).scores[l] <= PlaceTowers(eng, s, open, dmg).scores[k]
    decreases |open|
  {
    if eng.getResource(s, SP) > 1.0 && |open| > 0 {
      var i := IndexOfMax(dmg);
      var dmg' := RemoveAt(dmg, i);
      var s' := eng.attemptSpawn(s, Turret, open[i]);
      PlaceTowersSorted(eng, s', RemoveAt(open, i), dmg');
      var rest := PlaceTowers(eng, s', RemoveAt(open, i), dmg');
      var r := PlaceTowers(eng, s, open, dmg);
      assert r.scores == [dmg[i]] + rest.scores;
      if |rest.scores| > 0 {
        assert rest.scores[0] <= dmg[i] by {
          assert dmg'[0] <= rest.scores[0];
          assert dmg'[0] <= dmg[i];
          if i == 0 {
            assert dmg'[0] == dmg[1];
          }
        }
      }
      forall k, l | 0 <= k < l < |r.scores| ensures r.scores[l] <= r.scores[k] {
        if k == 0 {
          assert r.scores[l] == rest.scores[l - 1];
          assert rest.scores[l - 1] <= rest.scores[0];
        } else {
          assert r.scores[l] == rest.scores[l - 1] && r.scores[k] == rest.scores[k - 1];
        }
      }
    }
  }

  /** The original positions of entries after the entry at `i` was popped. */
  function Unshift(idx: seq<nat>, i: nat): (r: seq<nat>)
    ensures |r| == |idx|
    ensures forall k :: 0 <= k < |idx| ==> r[k] == if idx[k] < i then idx[k] else idx[k] + 1
  {
    seq(|idx|, k requires 0 <= k < |idx| => if idx[k] < i then idx[k] else idx[k] + 1)
  }

  /** Each placed cell is the open entry `idx[k]`, placed with that entry's score. */
  predicate PickedOrigins(open: seq<Pos>, dmg: seq<int>, placed: seq<Pos>, scores: seq<int>, idx: seq<nat>)
    requires |open| == |dmg| && |idx| == |placed| == |scores|
  {
    forall k :: 0 <= k < |idx| ==> idx[k] < |open| && open[idx[k]] == placed[k] && dmg[idx[k]] == scores[k]
  }

  /** No open entry is placed twice. */
  predicate PickedDistinct(idx: seq<nat>)
  {
    forall k, l :: 0 <= k < l < |idx| ==> idx[k] != idx[l]
  }

  /** Every entry left unplaced scores at most the last placed one. */
  predicate PickedRest(dmg: seq<int>, scores: seq<int>, idx: seq<nat>)
    requires |idx| == |scores|
  {
    |idx| > 0 ==> forall j :: 0 <= j < |dmg| && j !in idx ==> dmg[j] <= scores[|idx| - 1]
  }

  /** `idx` gives, for each placed cell, the entry of the open list it came from:
      distinct entries, each placed with its own score, and every entry left unplaced
      scoring at most the last placed one. */
  predicate Picked(open: seq<Pos>, dmg: seq<int>, placed: seq<Pos>, scores: seq<int>, idx: seq<nat>)
  {
    && |open| == |dmg|
    && |idx| == |placed| == |scores|
    && PickedOrigins(open, dmg, placed, scores, idx)
    && PickedDistinct(idx)
    && PickedRest(dmg, scores, idx)
  }

  /** Placing the maximum entry `i` first and then the picks of the shortened lists
      is a pick of the whole lists. */
  lemma PickedStep(open: seq<Pos>, dmg: seq<int>, i: nat, placed: seq<Pos>, scores: seq<int>, idx: seq<nat>)
    requires |open| == |dmg| && i < |dmg|
    requires forall j :: 0 <= j < |dmg| ==> dmg[j] <= dmg[i]
    requires Picked(RemoveAt(open, i), RemoveAt(dmg, i), placed, scores, idx)
    ensures Picked(open, dmg, [open[i]] + placed, [dmg[i]] + scores, [i] + Unshift(idx, i))
  {
    var idx2 := [i] + Unshift(idx, i);
    StepOrigins(open, dmg, i, placed, scores, idx, idx2);
    StepDistinct(i, idx, idx2);
    StepRest(open, dmg, i, placed, scores, idx, idx2);
  }

  lemma StepOrigins(open: seq<Pos>, dmg: seq<int>, i: nat, placed: seq<Pos>, scores: seq<int>, idx: seq<nat>, idx2: seq<nat>)
    requires |open| == |dmg| && i < |dmg|
    requires |idx| == |placed| == |scores|
    requires PickedOrigins(RemoveAt(open, i), RemoveAt(dmg, i), placed, scores, idx)
    requires idx2 == [i] + Unshift(idx, i)
    ensures PickedOrigins(open, dmg, [open[i]] + placed, [dmg[i]] + scores, idx2)
  {
    var open', dmg' := RemoveAt(open, i), RemoveAt(dmg, i);
    var shifted := Unshift(idx, i);
    var placed2, scores2 := [open[i]] + placed, [dmg[i]] + scores;
    forall k | 0 <= k < |idx2|
      ensures idx2[k] < |open| && open[idx2[k]] == placed2[k] && dmg[idx2[k]] == scores2[k]
    {
      if k > 0 {
        assert idx2[k] == shifted[k - 1] && placed2[k] == placed[k - 1] && scores2[k] == scores[k - 1];
        assert idx[k - 1] < |open'| && open'[idx[k - 1]] == placed[k - 1] && dmg'[idx[k - 1]] == scores[k - 1];
      }
    }
  }

  lemma StepDistinct(i: nat, idx: seq<nat>, idx2: seq<nat>)
    requires PickedDistinct(idx)
    requires idx2 == [i] + Unshift(idx, i)
    ensures PickedDistinct(idx2)
  {
    var shifted := Unshift(idx, i);
    forall k, l | 0 <= k < l < |idx2| ensures idx2[k] != idx2[l] {
      assert idx2[l] == shifted[l - 1];
      if k > 0 {
        assert idx2[k] == shifted[k - 1];
      }
    }
  }

  lemma StepRest(open: seq<Pos>, dmg: seq<int>, i: nat, placed: seq<Pos>, scores: seq<int>, idx: seq<nat>, idx2: seq<nat>)
    requires |open| == |dmg| && i < |dmg| && |idx| == |scores|
    requires forall j :: 0 <= j < |dmg| ==> dmg[j] <= dmg[i]
    requires PickedRest(RemoveAt(dmg, i), scores, idx)
    requires idx2 == [i] + Unshift(idx, i)
    ensures PickedRest(dmg, [dmg[i]] + scores, idx2)
  {
    var dmg' := RemoveAt(dmg, i);
    var scores2 := [dmg[i]] + scores;
    forall j | 0 <= j < |dmg| && j !in idx2 ensures dmg[j] <= scores2[|idx|] {
      if |idx| > 0 {
        var j' := UnshiftMiss(idx, i, j, idx2);
        assert dmg'[j'] == dmg[j];
        assert scores2[|idx|] == scores[|idx| - 1];
      }
    }
  }

  /** An index `j` that no shifted entry (nor `i`) reaches was not picked in the
      shortened lists either, where it sat at `j` or `j - 1`. */
  lemma UnshiftMiss(idx: seq<nat>, i: nat, j: nat, idx2: seq<nat>) returns (j': nat)
    requires idx2 == [i] + Unshift(idx, i) && j !in idx2
    ensures j' == if j < i then j else j - 1
    ensures j' !in idx
  {
    assert idx2[0] == i;
    j' := if j < i then j else j - 1;
    forall k | 0 <= k < |idx| ensures idx[k] != j' {
      assert idx2[k + 1] == Unshift(idx, i)[k];
    }
  }

  /** The loop places distinct entries of the open list, each with its own score, and
      leaves unplaced only entries scoring at most the last placed one: it places the
      best-scoring entries, best first. */
  lemma {:induction false} PlaceTowersPicks<S>(eng: Engine<S>, s: S, open: seq<Pos>, dmg: seq<int>) returns (idx: seq<nat>)
    requires |open| == |dmg|
    ensures Picked(open, dmg, PlaceTowers(eng, s, open, dmg).placed, PlaceTowers(eng, s, open, dmg).scores, idx)
    decreases |open|
  {
    if !(eng.getResource(s, SP) > 1.0 && |open| > 0) {
      idx := [];
    } else {
      var i := IndexOfMax(dmg);
      var s' := eng.attemptSpawn(s, Turret, open[i]);
      var idx' := PlaceTowersPicks(eng, s', RemoveAt(open, i), RemoveAt(dmg, i));
      var rest := PlaceTowers(eng, s', RemoveAt(open, i), RemoveAt(dmg, i));
      PickedStep(open, dmg, i, rest.placed, rest.scores, idx');
      idx := [i] + Unshift(idx', i);
    }
  }

  /** An unoccupied opponent edge cell whose path takes the least damage. */
  predicate LikelyStart<S>(eng: Engine<S>, s: S, p: Pos)
  {
    p in EnemyStarts(eng, s) && IsLeast(eng, s, EnemyStarts(eng, s), p)
  }

  /** Lines 80-85: the cells the opponent's likely starts walk through. */
  method Vulnerable<S>(eng: Engine<S>, s: S) returns (vuln: seq<Pos>)
    ensures forall t :: t in vuln <==> (exists p :: LikelyStart(eng, s, p) && t in eng.findPathToEdge(s, p))
  {
    var starts := EnemyLeastDamage(eng, s);
    vuln := VulnLocations(eng, s, starts);
    forall t ensures t in vuln <==> (exists p :: LikelyStart(eng, s, p) && t in eng.findPathToEdge(s, p)) {
      VulnLocationsMember(eng, s, starts, t);
      if t in vuln {
        var i :| 0 <= i < |starts| && t in eng.findPathToEdge(s, starts[i]);
        assert LikelyStart(eng, s, starts[i]);
      }
      if exists p :: LikelyStart(eng, s, p) && t in eng.findPathToEdge(s, p) {
        var p :| LikelyStart(eng, s, p) && t in eng.findPathToEdge(s, p);
        var i :| 0 <= i < |starts| && starts[i] == p;
      }
    }
  }

  /** `open_edges` (lines 88-92): the cells of `my_edges` a scout can spawn on. */
  function OpenMyEdges<S>(eng: Engine<S>, s: S): seq<Pos>
  {
    ScoutSpawnable(eng, s, MyEdges())
  }

  /** `GREEDt(game_state)` as written. The `necessary` list holds `n` copies of
      `locals` (how many depends on the pathfinder's answer for the pair
      `[chosen, 0]`), so it reserves nothing; the placement loop pops at the wrong
      index. Every turret it places is on a spawnable cell of our half. */
  method GreedtAsWritten<S>(eng: Engine<S>, s: S, n: nat) returns (r: Placing<S>)
    ensures forall k :: 0 <= k < |r.placed| ==> InOwnHalf(r.placed[k]) && eng.canSpawn(s, Turret, r.placed[k])
    ensures r.Crashed? ==> r.error == EmptyMax
    ensures r.Finished? ==> eng.getResource(r.state, SP) <= 1.0 || |OpenLocations(eng, s, NecessaryAsWritten(n))| == 0
  {
    var vuln := Vulnerable(eng, s);
    var open := OpenLocations(eng, s, NecessaryAsWritten(n));
    var dmg := ScoreLocations(open, vuln);
    r := PlaceTowersAsWritten(eng, s, open, dmg);
    forall k | 0 <= k < |r.placed| ensures InOwnHalf(r.placed[k]) && eng.canSpawn(s, Turret, r.placed[k]) {
      OpenLocationsAsWritten(eng, s, n, r.placed[k]);
    }
  }

  /** The path reserved for our own attack as intended: the path from the chosen
      open edge, and nothing when no edge is open (the loop over `open_edges` does
      not run). */
  function ReservedPath<S>(eng: Engine<S>, s: S, turretDamage: int): seq<Pos>
  {
    match LeastDamageSpawnLocation(eng, s, OpenMyEdges(eng, s), turretDamage).chosen
    case Sentinel => []
    case Cell(p) => eng.findPathToEdge(s, p)
  }

  /** `GREEDt(game_state)` with the three defects corrected: `necessary` holds the cells
      of the reserved path, the attack start is the open edge of least damage, and each
      round pops the entry it spawned on. Every turret lands on a spawnable cell of our
      half off the reserved path, best-covering cells first, and the loop stops early
      only when SP runs out. */
  method Greedt<S>(eng: Engine<S>, s: S, turretDamage: int) returns (r: Placement<S>)
    ensures forall k :: 0 <= k < |r.placed| ==>
      InOwnHalf(r.placed[k]) && eng.canSpawn(s, Turret, r.placed[k]) && r.placed[k] !in ReservedPath(eng, s, turretDamage)
    ensures |r.scores| == |r.placed|
    ensures forall k, l :: 0 <= k < l < |r.scores| ==> r.scores[l] <= r.scores[k]
    ensures |r.placed| < |OpenLocations(eng, s, Necessary(ReservedPath(eng, s, turretDamage)))| ==>
      eng.getResource(r.state, SP) <= 1.0
  {
    var vuln := Vulnerable(eng, s);
    var reserved := ReservedPath(eng, s, turretDamage);
    var open := OpenLocations(eng, s, Necessary(reserved));
    var dmg := ScoreLocations(open, vuln);
    r := PlaceTowers(eng, s, open, dmg);
    PlaceTowersSorted(eng, s, open, dmg);
    var idx := PlaceTowersPicks(eng, s, open, dmg);
    forall k | 0 <= k < |r.placed|
      ensures InOwnHalf(r.placed[k]) && eng.canSpawn(s, Turret, r.placed[k]) && r.placed[k] !in reserved
    {
      assert open[idx[k]] == r.placed[k];
      OpenLocationsAvoidPath(eng, s, reserved, r.placed[k]);
    }
  }
}
