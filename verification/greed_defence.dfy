/** Defensive placement of the greedy bot: enumerate wall and turret placements off
    our best attack path, score each on a hypothetical board, and commit the best
    option (in Python's tuple order) while at least 2 SP remain. */
module GreedDefence {
  import opened Game
  import opened Threat
  import opened GreedSpawn

  /** One entry of `defensive_options`: `(damage_added, tower, [x, y])`. */
  datatype DefOption = DefOption(score: int, kind: Kind, pos: Pos)

  /** Python's `<` on two strings: code point by code point, a proper prefix first. */
  predicate StrLess(a: string, b: string)
    decreases |a|
  {
    if |b| == 0 then false
    else if |a| == 0 then true
    else if a[0] != b[0] then a[0] < b[0]
    else StrLess(a[1..], b[1..])
  }

  lemma {:induction false} StrLessTrans(a: string, b: string, c: string)
    requires StrLess(a, b) && StrLess(b, c)
    ensures StrLess(a, c)
    decreases |a|
  {
    if |a| > 0 && a[0] == b[0] && b[0] == c[0] {
      StrLessTrans(a[1..], b[1..], c[1..]);
    }
  }

  lemma {:induction false} StrLessIrrefl(a: string)
    ensures !StrLess(a, a)
    decreases |a|
  {
    if |a| > 0 {
      StrLessIrrefl(a[1..]);
    }
  }

  /** Python's `<` on two `[x, y]` lists. */
  predicate PosLess(a: Pos, b: Pos)
  {
    a.x < b.x || (a.x == b.x && a.y < b.y)
  }

  /** Python's `<` on two option tuples; a unit kind compares by its config shorthand `tag`. */
  predicate OptionLess(a: DefOption, b: DefOption, tag: Kind -> string)
  {
    || a.score < b.score
    || (a.score == b.score && StrLess(tag(a.kind), tag(b.kind)))
    || (a.score == b.score && tag(a.kind) == tag(b.kind) && PosLess(a.pos, b.pos))
  }

  lemma OptionLessIrrefl(a: DefOption, tag: Kind -> string)
    ensures !OptionLess(a, a, tag)
  {
    StrLessIrrefl(tag(a.kind));
  }

  lemma OptionLessTrans(a: DefOption, b: DefOption, c: DefOption, tag: Kind -> string)
    requires OptionLess(a, b, tag) && OptionLess(b, c, tag)
    ensures OptionLess(a, c, tag)
  {
    if a.score == b.score && b.score == c.score {
      if StrLess(tag(a.kind), tag(b.kind)) && StrLess(tag(b.kind), tag(c.kind)) {
        StrLessTrans(tag(a.kind), tag(b.kind), tag(c.kind));
      }
    }
  }

  /** `max(defensive_options)`: the first option no later option exceeds. */
  function MaxOption(opts: seq<DefOption>, tag: Kind -> string): (r: DefOption)
    requires |opts| > 0
    ensures r in opts
    ensures forall i :: 0 <= i < |opts| ==> !OptionLess(r, opts[i], tag)
  {
    OptionLessIrrefl(opts[0], tag);
    assert forall i :: 1 <= i < |opts| ==> opts[i] == opts[1..][i - 1];
    var r := MaxFrom(opts[0], opts[1..], tag);
    assert !OptionLess(r, opts[0], tag) by {
      if r != opts[0] && OptionLess(r, opts[0], tag) {
        OptionLessTrans(opts[0], r, opts[0], tag);
      }
    }
    r
  }

  /** The scan of `max`: `best` is the running maximum, `rest` the unseen options;
      the running maximum only changes to a strictly greater option. */
  function MaxFrom(best: DefOption, rest: seq<DefOption>, tag: Kind -> string): (r: DefOption)
    ensures r == best || (r in rest && OptionLess(best, r, tag))
    ensures forall i :: 0 <= i < |rest| ==> !OptionLess(r, rest[i], tag)
    decreases |rest|
  {
    if |rest| == 0 then best
    else
      var next := if OptionLess(best, rest[0], tag) then rest[0] else best;
      var r := MaxFrom(next, rest[1..], tag);
      OptionLessIrrefl(rest[0], tag);
      assert r == best || (r in rest && OptionLess(best, r, tag)) by {
        if r != best && OptionLess(next, r, tag) && next != best {
          OptionLessTrans(best, next, r, tag);
        }
      }
      assert !OptionLess(r, rest[0], tag) by {
        if OptionLess(r, rest[0], tag) {
          if next == best {
            if r != best {
              OptionLessTrans(best, r, rest[0], tag);
            }
          } else if r != next {
            OptionLessTrans(rest[0], r, rest[0], tag);
          }
        }
      }
      assert forall i :: 1 <= i < |rest| ==> rest[i] == rest[1..][i - 1];
      r
  }

  /** `damage_added` before the wall weighting: the opponent-side damage along the
      path from `p` on a hypothetical board with `kind` added at `p`, less the
      opponent's unaltered least damage. */
  function Marginal<S>(eng: Engine<S>, s: S, kind: Kind, p: Pos, unaltered: int): int
  {
    PathDamage(eng, eng.addUnit(s, kind, p), eng.findPathToEdge(s, p), false) - unaltered
  }

  /** A placement option as the source builds it: a wall or turret at a spawnable
      cell off the reference path, with walls' marginal damage doubled. */
  predicate IsCandidate<S>(eng: Engine<S>, s: S, refPath: seq<Pos>, unaltered: int, o: DefOption)
  {
    && o.pos !in refPath
    && (o.kind == Wall || o.kind == Turret)
    && eng.canSpawn(s, o.kind, o.pos)
    && o.score == (if o.kind == Wall then 2 else 1) * Marginal(eng, s, o.kind, o.pos, unaltered)
  }

  /** The options one cell adds. The upgrade branch, taken when `TURRET == game_map[x, y]`
      holds, raises: it upgrades the map entry of a copy and then calls `append` with
      three arguments, and neither yields an option. */
  function CellOptions<S>(eng: Engine<S>, s: S, p: Pos, refPath: seq<Pos>, unaltered: int): Result<seq<DefOption>>
  {
    if p in refPath then Ok([])
    else
      var walls := if eng.canSpawn(s, Wall, p) then [DefOption(2 * Marginal(eng, s, Wall, p, unaltered), Wall, p)] else [];
      var turrets := if eng.canSpawn(s, Turret, p) then [DefOption(Marginal(eng, s, Turret, p, unaltered), Turret, p)] else [];
      if eng.turretAt(s, p) then Err(UpgradeRaises) else Ok(walls + turrets)
  }

  lemma CellOptionsSpec<S>(eng: Engine<S>, s: S, p: Pos, refPath: seq<Pos>, unaltered: int)
    ensures var r := CellOptions(eng, s, p, refPath, unaltered);
      && (r.Ok? <==> !UpgradeBranch(eng, s, p, refPath))
      && (r.Err? ==> r.error == UpgradeRaises)
      && (r.Ok? ==> forall o :: o in r.value <==> o.pos == p && IsCandidate(eng, s, refPath, unaltered, o))
  {
  }

  /** A cell on which the upgrade branch runs. */
  predicate UpgradeBranch<S>(eng: Engine<S>, s: S, p: Pos, refPath: seq<Pos>)
  {
    p !in refPath && eng.turretAt(s, p)
  }

  /** `defensive_options` built over `cells` in order. */
  function Candidates<S>(eng: Engine<S>, s: S, cells: seq<Pos>, refPath: seq<Pos>, unaltered: int): Result<seq<DefOption>>
  {
    if |cells| == 0 then Ok([])
    else
      match CellOptions(eng, s, cells[0], refPath, unaltered)
      case Err(e) => Err(e)
      case Ok(here) =>
        match Candidates(eng, s, cells[1..], refPath, unaltered)
        case Err(e) => Err(e)
        case Ok(rest) => Ok(here + rest)
  }

  /** The candidate list is built unless some off-path cell takes the upgrade branch;
      when built it holds exactly the candidate options at the listed cells. */
  lemma {:induction false} CandidatesSpec<S>(eng: Engine<S>, s: S, cells: seq<Pos>, refPath: seq<Pos>, unaltered: int)
    ensures var r := Candidates(eng, s, cells, refPath, unaltered);
      && (r.Ok? <==> forall i :: 0 <= i < |cells| ==> !UpgradeBranch(eng, s, cells[i], refPath))
      && (r.Err? ==> r.error == UpgradeRaises)
      && (r.Ok? ==> forall o :: o in r.value <==> o.pos in cells && IsCandidate(eng, s, refPath, unaltered, o))
    decreases |cells|
  {
    if |cells| > 0 {
      CandidatesSpec(eng, s, cells[1..], refPath, unaltered);
      assert forall i :: 1 <= i < |cells| ==> cells[i] == cells[1..][i - 1];
      var r := Candidates(eng, s, cells, refPath, unaltered);
      CellOptionsSpec(eng, s, cells[0], refPath, unaltered);
      if r.Ok? {
        var here := CellOptions(eng, s, cells[0], refPath, unaltered).value;
        var rest := Candidates(eng, s, cells[1..], refPath, unaltered).value;
        assert r.value == here + rest;
        CellOptionsSpec(eng, s, cells[0], refPath, unaltered);
        forall o
          ensures o in r.value <==> o.pos in cells && IsCandidate(eng, s, refPath, unaltered, o)
        {
          assert o.pos in cells <==> o.pos == cells[0] || o.pos in cells[1..];
        }
      }
    }
  }

  /** The result of the defence loop: the final state and the committed options in
      order, or `DefenceOutOfFuel` when the ledger kept SP at 2 or more for more rounds
      than the fuel allows. */
  datatype Defence<S> = Defended(state: S, placed: seq<DefOption>) | DefenceOutOfFuel

  /** What one round of the loop does: stop, or commit an option. */
  datatype Round = Stop | Commit(option: DefOption)

  /** One round of `while game_state.get_resource(SP) >= 2:`: stop when SP is below 2
      or no option exists (`if not defensive_options: break`), otherwise commit the
      maximum option. */
  function DefenceRound<S>(eng: Engine<S>, s: S, cells: seq<Pos>, refPath: seq<Pos>, unaltered: int, tag: Kind -> string): (r: Result<Round>)
    ensures r.Ok? && r.value == Stop <==>
      eng.getResource(s, SP) < 2.0 || Candidates(eng, s, cells, refPath, unaltered) == Ok([])
    ensures r.Ok? && r.value.Commit? ==>
      && eng.getResource(s, SP) >= 2.0
      && Candidates(eng, s, cells, refPath, unaltered).Ok?
      && var opts := Candidates(eng, s, cells, refPath, unaltered).value;
         && r.value.option in opts
         && forall i :: 0 <= i < |opts| ==> !OptionLess(r.value.option, opts[i], tag)
    ensures r.Err? ==> eng.getResource(s, SP) >= 2.0 && Candidates(eng, s, cells, refPath, unaltered) == Err(r.error)
  {
    if eng.getResource(s, SP) < 2.0 then Ok(Stop)
    else
      match Candidates(eng, s, cells, refPath, unaltered)
      case Err(e) => Err(e)
      case Ok(opts) => if |opts| == 0 then Ok(Stop) else Ok(Commit(MaxOption(opts, tag)))
  }

  /** The state after committing `placed` in order, each by `attempt_spawn(kind, pos)`. */
  function StateAfter<S>(eng: Engine<S>, s: S, placed: seq<DefOption>): S
    decreases |placed|
  {
    if |placed| == 0 then s
    else StateAfter(eng, eng.attemptSpawn(s, placed[0].kind, placed[0].pos), placed[1..])
  }

  /** The loop. The reference path and `unaltered_damage` stay those computed before
      it. The test `best_option == "upgrade"` compares a tuple with a string and is
      never true, so every round commits `attempt_spawn(kind, pos)`. */
  function DefenceLoop<S>(eng: Engine<S>, s: S, cells: seq<Pos>, refPath: seq<Pos>, unaltered: int, tag: Kind -> string, fuel: nat): (r: Result<Defence<S>>)
    ensures r.Ok? && r.value.Defended? ==> DefenceRound(eng, r.value.state, cells, refPath, unaltered, tag) == Ok(Stop)
    ensures r.Ok? && r.value.Defended? ==> r.value.state == StateAfter(eng, s, r.value.placed)
    ensures r.Ok? && r.value.Defended? ==> RoundsCommit(eng, s, cells, refPath, unaltered, tag, r.value.placed)
    decreases fuel
  {
    match DefenceRound(eng, s, cells, refPath, unaltered, tag)
    case Err(e) => Err(e)
    case Ok(Stop) => Ok(Defended(s, []))
    case Ok(Commit(best)) =>
      if fuel == 0 then Ok(DefenceOutOfFuel)
      else
        match DefenceLoop(eng, eng.attemptSpawn(s, best.kind, best.pos), cells, refPath, unaltered, tag, fuel - 1)
        case Err(e) => Err(e)
        case Ok(DefenceOutOfFuel) => Ok(DefenceOutOfFuel)
        case Ok(Defended(t, placed)) => Ok(Defended(t, [best] + placed))
  }

  /** What a round in state `t` commits: with at least 2 SP, a candidate at one of
      the enumerated cells that no option of that round's list exceeds. */
  predicate ChosenIn<S>(eng: Engine<S>, t: S, cells: seq<Pos>, refPath: seq<Pos>, unaltered: int, tag: Kind -> string, o: DefOption)
  {
    && eng.getResource(t, SP) >= 2.0
    && o.pos in cells
    && IsCandidate(eng, t, refPath, unaltered, o)
    && Candidates(eng, t, cells, refPath, unaltered).Ok?
    && forall q :: q in Candidates(eng, t, cells, refPath, unaltered).value ==> !OptionLess(o, q, tag)
  }

  /** The option a round commits is a candidate at one of the enumerated cells, spawnable
      in that round's state, scored by its marginal damage, and maximal among that
      round's options. */
  lemma RoundCommitsCandidate<S>(eng: Engine<S>, s: S, cells: seq<Pos>, refPath: seq<Pos>, unaltered: int, tag: Kind -> string)
    ensures var round := DefenceRound(eng, s, cells, refPath, unaltered, tag);
      round.Ok? && round.value.Commit? ==> ChosenIn(eng, s, cells, refPath, unaltered, tag, round.value.option)
  {
    CandidatesSpec(eng, s, cells, refPath, unaltered);
    var round := DefenceRound(eng, s, cells, refPath, unaltered, tag);
    if round.Ok? && round.value.Commit? {
      var opts := Candidates(eng, s, cells, refPath, unaltered).value;
      forall q | q in opts ensures !OptionLess(round.value.option, q, tag) {
        var i :| 0 <= i < |opts| && opts[i] == q;
      }
    }
  }

  /** Each committed option is what the round commits in the state after the earlier
      commits, stated spawn by spawn. */
  predicate RoundsCommit<S>(eng: Engine<S>, s: S, cells: seq<Pos>, refPath: seq<Pos>, unaltered: int, tag: Kind -> string, placed: seq<DefOption>)
    decreases |placed|
  {
    |placed| == 0 ||
      (&& DefenceRound(eng, s, cells, refPath, unaltered, tag) == Ok(Commit(placed[0]))
       && RoundsCommit(eng, eng.attemptSpawn(s, placed[0].kind, placed[0].pos), cells, refPath, unaltered, tag, placed[1..]))
  }

  /** Read by position: placement `k` is what the round commits in the state after the
      first `k` spawns. */
  lemma {:induction false} RoundsCommitAt<S>(eng: Engine<S>, s: S, cells: seq<Pos>, refPath: seq<Pos>, unaltered: int, tag: Kind -> string, placed: seq<DefOption>, k: nat)
    requires RoundsCommit(eng, s, cells, refPath, unaltered, tag, placed)
    requires k < |placed|
    ensures DefenceRound(eng, StateAfter(eng, s, placed[..k]), cells, refPath, unaltered, tag) == Ok(Commit(placed[k]))
    decreases k
  {
    if k == 0 {
      assert placed[..0] == [];
    } else {
      var s1 := eng.attemptSpawn(s, placed[0].kind, placed[0].pos);
      RoundsCommitAt(eng, s1, cells, refPath, unaltered, tag, placed[1..], k - 1);
      assert placed[..k][1..] == placed[1..][..k - 1];
      assert StateAfter(eng, s, placed[..k]) == StateAfter(eng, s1, placed[1..][..k - 1]);
    }
  }

  /** Every committed option was, in the state it was committed in, a spawnable wall or
      turret at one of the enumerated cells off the reference path, scored by its
      marginal damage (doubled for walls), and maximal among that round's options. */
  lemma DefenceLoopPlacesCandidates<S>(eng: Engine<S>, s: S, cells: seq<Pos>, refPath: seq<Pos>, unaltered: int, tag: Kind -> string, fuel: nat)
    ensures var r := DefenceLoop(eng, s, cells, refPath, unaltered, tag, fuel);
      r.Ok? && r.value.Defended? ==>
        forall k :: 0 <= k < |r.value.placed| ==>
          ChosenIn(eng, StateAfter(eng, s, r.value.placed[..k]), cells, refPath, unaltered, tag, r.value.placed[k])
  {
    var r := DefenceLoop(eng, s, cells, refPath, unaltered, tag, fuel);
    if r.Ok? && r.value.Defended? {
      var placed := r.value.placed;
      forall k | 0 <= k < |placed|
        ensures ChosenIn(eng, StateAfter(eng, s, placed[..k]), cells, refPath, unaltered, tag, placed[k])
      {
        RoundsCommitAt(eng, s, cells, refPath, unaltered, tag, placed, k);
        RoundCommitsCandidate(eng, StateAfter(eng, s, placed[..k]), cells, refPath, unaltered, tag);
      }
    }
  }

  /** If every spawn the engine allows lowers SP by at least `cost > 0`, the loop ends
      within `fuel` rounds once SP starts below `2 + fuel * cost`. */
  lemma {:induction false} DefenceLoopTerminates<S>(eng: Engine<S>, s: S, cells: seq<Pos>, refPath: seq<Pos>, unaltered: int, tag: Kind -> string, fuel: nat, cost: real)
    requires cost > 0.0
    requires forall t, k, p :: eng.canSpawn(t, k, p) ==> eng.getResource(eng.attemptSpawn(t, k, p), SP) <= eng.getResource(t, SP) - cost
    requires eng.getResource(s, SP) < 2.0 + fuel as real * cost
    ensures DefenceLoop(eng, s, cells, refPath, unaltered, tag, fuel) != Ok(DefenceOutOfFuel)
    decreases fuel
  {
    var round := DefenceRound(eng, s, cells, refPath, unaltered, tag);
    if round.Ok? && round.value.Commit? {
      var best := round.value.option;
      RoundCommitsCandidate(eng, s, cells, refPath, unaltered, tag);
      assert fuel > 0;
      DefenceLoopTerminates(eng, eng.attemptSpawn(s, best.kind, best.pos), cells, refPath, unaltered, tag, fuel - 1, cost);
    }
  }

  /** `build_defences(game_state, game_map)`: the opponent's least damage is the
      baseline and the path from our first best start is the reference path. The
      `vulnerable_locations` list the source builds is never read and is not modelled. */
  function BuildDefences<S>(eng: Engine<S>, s: S, tag: Kind -> string, fuel: nat): (r: Result<Defence<S>>)
    ensures LeastDamageSpawn(eng, s, false).Err? ==> r == Err(LeastDamageSpawn(eng, s, false).error)
    ensures LeastDamageSpawn(eng, s, false).Ok? && LeastDamageSpawn(eng, s, true).Err? ==> r == Err(LeastDamageSpawn(eng, s, true).error)
    ensures eng.getResource(s, SP) < 2.0 && LeastDamageSpawn(eng, s, false).Ok? && LeastDamageSpawn(eng, s, true).Ok?
      ==> r == Ok(Defended(s, []))
  {
    match LeastDamageSpawn(eng, s, false)
    case Err(e) => Err(e)
    case Ok(enemy) =>
      match LeastDamageSpawn(eng, s, true)
      case Err(e) => Err(e)
      case Ok(own) =>
        DefenceLoop(eng, s, OwnHalf(), eng.findPathToEdge(s, own.best[0]), enemy.damage, tag, fuel)
  }

  /** Every option `build_defences` commits is, in the state it was committed in, a
      spawnable wall or turret on a cell of our half off the path from our best attack
      start, scored against the opponent's least damage, and maximal among that round's
      options; the final state is the start state with every placement spawned. */
  lemma BuildDefencesPlacesCandidates<S>(eng: Engine<S>, s: S, tag: Kind -> string, fuel: nat)
    ensures var r := BuildDefences(eng, s, tag, fuel);
      r.Ok? && r.value.Defended? ==>
        var refPath := eng.findPathToEdge(s, LeastDamageSpawn(eng, s, true).value.best[0]);
        var unaltered := LeastDamageSpawn(eng, s, false).value.damage;
        && r.value.state == StateAfter(eng, s, r.value.placed)
        && forall k :: 0 <= k < |r.value.placed| ==>
          && InOwnHalf(r.value.placed[k].pos)
          && ChosenIn(eng, StateAfter(eng, s, r.value.placed[..k]), OwnHalf(), refPath, unaltered, tag, r.value.placed[k])
  {
    var r := BuildDefences(eng, s, tag, fuel);
    if r.Ok? && r.value.Defended? {
      var enemy := LeastDamageSpawn(eng, s, false).value;
      var refPath := eng.findPathToEdge(s, LeastDamageSpawn(eng, s, true).value.best[0]);
      DefenceLoopPlacesCandidates(eng, s, OwnHalf(), refPath, enemy.damage, tag, fuel);
    }
  }
}
