/** The attack rule of the greedy bot: pick the least-damage own start, then send
    scouts, demolishers or nothing depending on whether the path breaches and on
    the scouts' combined health. */
module GreedAttack {
  import opened Game
  import opened Seqs
  import opened GreedSpawn

  /** Health the source budgets per scout. */
  const ScoutHp: int := 15

  /** Python's `int(x)` on a float: truncation toward zero. */
  function Trunc(r: real): (n: int)
    ensures r >= 0.0 ==> n as real <= r < n as real + 1.0
    ensures r < 0.0 ==> n as real - 1.0 < r <= n as real
  {
    if r >= 0.0 then r.Floor else -((-r).Floor)
  }

  /** Own edge cells where a scout can be placed (`open_edges`). */
  function OpenEdges<S>(eng: Engine<S>, s: S): seq<Pos>
  {
    ScoutSpawnable(eng, s, eng.edges(true))
  }

  datatype Decision = SendScouts | SendDemolishers | Hold

  /** The outcome of a spending loop `while get_resource(MP) >= threshold: attempt_spawn(...)`:
      the final state and the number of spawn attempts, or `OutOfFuel` when the
      ledger did not drop below the threshold within the given number of rounds. */
  datatype Spend<S> = Spent(state: S, count: nat) | OutOfFuel

  /** The attack as committed: where, which unit, and the spending loop's outcome; or
      no attack at all because no own edge cell can take a scout. */
  datatype Attack<S> = Attack(loc: Pos, decision: Decision, spend: Spend<S>) | NoOpenEdge

  function SpendWhile<S>(eng: Engine<S>, s: S, kind: Kind, loc: Pos, threshold: real, fuel: nat): (r: Spend<S>)
    ensures r.Spent? ==> eng.getResource(r.state, MP) < threshold
    ensures r.Spent? ==> r.count <= fuel
    ensures r.Spent? && r.count == 0 ==> r.state == s
    decreases fuel
  {
    if eng.getResource(s, MP) < threshold then Spent(s, 0)
    else if fuel == 0 then OutOfFuel
    else
      match SpendWhile(eng, eng.attemptSpawn(s, kind, loc), kind, loc, threshold, fuel - 1)
      case OutOfFuel => OutOfFuel
      case Spent(t, n) => Spent(t, n + 1)
  }

  /** If every attempt lowers MP by at least one, a loop that starts below
      `threshold + fuel` finishes within `fuel` rounds. */
  lemma {:induction false} SpendWhileTerminates<S>(eng: Engine<S>, s: S, kind: Kind, loc: Pos, threshold: real, fuel: nat)
    requires forall t :: eng.getResource(eng.attemptSpawn(t, kind, loc), MP) <= eng.getResource(t, MP) - 1.0
    requires eng.getResource(s, MP) < threshold + fuel as real
    ensures SpendWhile(eng, s, kind, loc, threshold, fuel).Spent?
    decreases fuel
  {
    if eng.getResource(s, MP) >= threshold {
      SpendWhileTerminates(eng, eng.attemptSpawn(s, kind, loc), kind, loc, threshold, fuel - 1);
    }
  }

  /** If an attempt at `loc` never changes MP, a loop that starts at or above
      `threshold` runs out of every fuel bound: it never ends. */
  lemma {:induction false} SpendWhileStalls<S>(eng: Engine<S>, s: S, kind: Kind, loc: Pos, threshold: real, fuel: nat)
    requires forall t :: eng.getResource(eng.attemptSpawn(t, kind, loc), MP) == eng.getResource(t, MP)
    requires eng.getResource(s, MP) >= threshold
    ensures SpendWhile(eng, s, kind, loc, threshold, fuel) == OutOfFuel
    decreases fuel
  {
    if fuel > 0 {
      SpendWhileStalls(eng, eng.attemptSpawn(s, kind, loc), kind, loc, threshold, fuel - 1);
    }
  }

  /** The rule of `build_attack`: scouts when the path breaches and `int(MP) * 15`
      exceeds the predicted damage; demolishers when it does not breach; nothing when
      it breaches but the scouts would not survive. */
  function Decide(breach: bool, mp: real, damage: int): Decision
  {
    if breach then (if Trunc(mp) * ScoutHp > damage then SendScouts else Hold)
    else SendDemolishers
  }

  /** Whether the path from `loc` ends on one of the opponent's edges. */
  predicate Breaches<S>(eng: Engine<S>, s: S, loc: Pos)
  {
    var path := eng.findPathToEdge(s, loc);
    |path| > 0 && path[|path| - 1] in eng.edges(false)
  }

  /** The attack from `loc` once the predicted damage is known: decide, then spend. */
  function AttackFrom<S>(eng: Engine<S>, s: S, loc: Pos, damage: int, fuel: nat): (a: Attack<S>)
    requires |eng.findPathToEdge(s, loc)| > 0
    ensures a.Attack? && a.loc == loc
    ensures a.decision == SendScouts <==> Breaches(eng, s, loc) && Trunc(eng.getResource(s, MP)) * ScoutHp > damage
    ensures a.decision == SendDemolishers <==> !Breaches(eng, s, loc)
    ensures a.decision == Hold ==> a.spend == Spent(s, 0)
    ensures a.spend.Spent? && a.decision == SendScouts ==> eng.getResource(a.spend.state, MP) < 1.0
    ensures a.spend.Spent? && a.decision == SendDemolishers ==> eng.getResource(a.spend.state, MP) < 3.0
  {
    var path := eng.findPathToEdge(s, loc);
    var breach := path[|path| - 1] in eng.edges(false);
    match Decide(breach, eng.getResource(s, MP), damage)
    case SendScouts => Attack(loc, SendScouts, SpendWhile(eng, s, Scout, loc, 1.0, fuel))
    case SendDemolishers => Attack(loc, SendDemolishers, SpendWhile(eng, s, Demolisher, loc, 3.0, fuel))
    case Hold => Attack(loc, Hold, Spent(s, 0))
  }

  /** `build_attack(game_state)` as written. The source passes the list `open_edges`
      where `least_damage_spawn` expects the flag `myself`; Python reads a non-empty
      list as true and an empty one as false, which is what is modelled here. */
  function BuildAttackAsWritten<S>(eng: Engine<S>, s: S, fuel: nat): (r: Result<Attack<S>>)
    ensures var myself := |OpenEdges(eng, s)| > 0;
      r.Ok? <==> LeastDamageSpawn(eng, s, myself).Ok?
    ensures var myself := |OpenEdges(eng, s)| > 0;
      r.Ok? ==>
        var sp := LeastDamageSpawn(eng, s, myself).value;
        r.value.Attack? &&
        var loc := r.value.loc;
        && loc == sp.best[0]
        && loc in eng.edges(myself)
        && !eng.containsStationaryUnit(s, loc)
        && (r.value.decision == SendScouts <==> Breaches(eng, s, loc) && Trunc(eng.getResource(s, MP)) * ScoutHp > sp.damage)
        && (r.value.decision == SendDemolishers <==> !Breaches(eng, s, loc))
        && (r.value.decision == Hold ==> r.value.spend == Spent(s, 0))
        && (r.value.spend.Spent? && r.value.decision == SendScouts ==> eng.getResource(r.value.spend.state, MP) < 1.0)
        && (r.value.spend.Spent? && r.value.decision == SendDemolishers ==> eng.getResource(r.value.spend.state, MP) < 3.0)
  {
    var myself := |OpenEdges(eng, s)| > 0;
    match LeastDamageSpawn(eng, s, myself)
    case Err(e) => Err(e)
    case Ok(sp) =>
      LeastDamageSpawnStarts(eng, s, myself);
      Ok(AttackFrom(eng, s, sp.best[0], sp.damage, fuel))
  }

  /** As written, with no open own edge the attack starts from an opponent edge cell.
      When the engine refuses spawns there and leaves MP unchanged, the scout loop
      with at least 1 MP, and the demolisher loop with at least 3, never end. */
  lemma BuildAttackAsWrittenStalls<S>(eng: Engine<S>, s: S, fuel: nat)
    requires |OpenEdges(eng, s)| == 0
    requires forall t, k, p :: p in eng.edges(false) ==> eng.getResource(eng.attemptSpawn(t, k, p), MP) == eng.getResource(t, MP)
    ensures var r := BuildAttackAsWritten(eng, s, fuel);
      r.Ok? ==>
        && r.value.loc in eng.edges(false)
        && (r.value.decision == SendScouts && eng.getResource(s, MP) >= 1.0 ==> r.value.spend == OutOfFuel)
        && (r.value.decision == SendDemolishers && eng.getResource(s, MP) >= 3.0 ==> r.value.spend == OutOfFuel)
  {
    var r := BuildAttackAsWritten(eng, s, fuel);
    if r.Ok? {
      var loc := r.value.loc;
      if r.value.decision == SendScouts && eng.getResource(s, MP) >= 1.0 {
        SpendWhileStalls(eng, s, Scout, loc, 1.0, fuel);
      }
      if r.value.decision == SendDemolishers && eng.getResource(s, MP) >= 3.0 {
        SpendWhileStalls(eng, s, Demolisher, loc, 3.0, fuel);
      }
    }
  }

  /** A board on which that happens: our one edge cell cannot take a scout, the
      opponent's one edge cell is free and is its own path, and MP stays at 3. */
  function StallEngine(): Engine<int>
  {
    Engine(
      (b: bool) => if b then [Pos(13, 0)] else [Pos(13, 27)],
      (t: int, p: Pos) => [p],
      (t: int, p: Pos, i: int) => [],
      (t: int, k: Kind, p: Pos) => false,
      (t: int, p: Pos) => false,
      (t: int, p: Pos) => false,
      (t: int, k: Kind, p: Pos) => t,
      (t: int, r: Resource) => 3.0,
      (t: int, k: Kind, p: Pos) => t)
  }

  /** On that board the scouts are sent from the opponent's edge and the loop never ends. */
  lemma BuildAttackAsWrittenStallsExample(fuel: nat)
    ensures BuildAttackAsWritten(StallEngine(), 0, fuel) == Ok(Attack(Pos(13, 27), SendScouts, OutOfFuel))
  {
    var eng := StallEngine();
    assert OpenEdges(eng, 0) == [] by {
      assert eng.edges(true) == [Pos(13, 0)];
      assert Pos(13, 0) !in OpenEdges(eng, 0);
    }
    LeastDamageSpawnFallback(eng, 0, false);
    BuildAttackAsWrittenStalls(eng, 0, fuel);
  }

  /** `build_attack` with the evident intent: no attack when no own edge cell can take a
      scout, otherwise the attack from our least-damage start. */
  function BuildAttack<S>(eng: Engine<S>, s: S, fuel: nat): (r: Result<Attack<S>>)
    ensures |OpenEdges(eng, s)| == 0 ==> r == Ok(NoOpenEdge)
    ensures r.Ok? && r.value.Attack? ==>
      && |OpenEdges(eng, s)| > 0
      && LeastDamageSpawn(eng, s, true).Ok?
      && r.value.loc == LeastDamageSpawn(eng, s, true).value.best[0]
      && r.value.loc in eng.edges(true)
      && !eng.containsStationaryUnit(s, r.value.loc)
    ensures |OpenEdges(eng, s)| > 0 ==> (r.Ok? <==> LeastDamageSpawn(eng, s, true).Ok?)
  {
    if |OpenEdges(eng, s)| == 0 then Ok(NoOpenEdge) else BuildAttackAsWritten(eng, s, fuel)
  }

  /** Corrected, the attack always starts from one of our own edge cells, so when each
      spawn there lowers MP by at least one and MP starts below `1 + fuel`, the
      spending loop ends within the fuel bound. */
  lemma BuildAttackFinishes<S>(eng: Engine<S>, s: S, fuel: nat)
    requires forall t, k, p :: p in eng.edges(true) ==> eng.getResource(eng.attemptSpawn(t, k, p), MP) <= eng.getResource(t, MP) - 1.0
    requires eng.getResource(s, MP) < 1.0 + fuel as real
    ensures var r := BuildAttack(eng, s, fuel);
      r.Ok? && r.value.Attack? ==> r.value.spend.Spent?
  {
    var r := BuildAttack(eng, s, fuel);
    if r.Ok? && r.value.Attack? {
      var loc := r.value.loc;
      if r.value.decision == SendScouts {
        SpendWhileTerminates(eng, s, Scout, loc, 1.0, fuel);
      }
      if r.value.decision == SendDemolishers {
        SpendWhileTerminates(eng, s, Demolisher, loc, 3.0, fuel);
      }
    }
  }
}
