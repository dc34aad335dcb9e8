/** Path-damage estimate: the damage a unit walking a path would take, scored from
    the attack ranges of the stationary units that threaten each cell. */
module Threat {
  import opened Game

  /** Damage one attacker adds at one cell: 5 for range 2.5, 15 for range 3.5,
      nothing for any other range (the source makes the two tests one after the other). */
  function Contribution(a: Attacker): nat
  {
    (if a.attackRange == 2.5 then 5 else 0) + (if a.attackRange == 3.5 then 15 else 0)
  }

  /** Sum of the contributions of the attackers threatening one cell. */
  function CellDamage(attackers: seq<Attacker>): nat
  {
    if |attackers| == 0 then 0 else Contribution(attackers[0]) + CellDamage(attackers[1..])
  }

  /** The attackers the source queries at `p`: `get_attackers(p, not myself)`. */
  function AttackersAt<S>(eng: Engine<S>, s: S, p: Pos, myself: bool): seq<Attacker>
  {
    eng.getAttackers(s, p, PlayerIndex(!myself))
  }

  /** `get_path_damage(game_state, path, myself)`. */
  function PathDamage<S>(eng: Engine<S>, s: S, path: seq<Pos>, myself: bool): (d: nat)
    ensures |path| == 0 ==> d == 0
  {
    if |path| == 0 then 0
    else CellDamage(AttackersAt(eng, s, path[0], myself)) + PathDamage(eng, s, path[1..], myself)
  }

  /** An attacker that scores: its range is exactly 2.5 or 3.5. */
  predicate Scores(a: Attacker)
  {
    a.attackRange == 2.5 || a.attackRange == 3.5
  }

  /** Number of attackers with range exactly `r`. */
  function RangeCount(attackers: seq<Attacker>, r: real): nat
  {
    if |attackers| == 0 then 0
    else (if attackers[0].attackRange == r then 1 else 0) + RangeCount(attackers[1..], r)
  }

  /** Number of (path cell, attacker) pairs in which the attacker has range exactly `r`. */
  function PathRangeCount<S>(eng: Engine<S>, s: S, path: seq<Pos>, myself: bool, r: real): nat
  {
    if |path| == 0 then 0
    else RangeCount(AttackersAt(eng, s, path[0], myself), r) + PathRangeCount(eng, s, path[1..], myself, r)
  }

  /** Number of (path cell, attacker) pairs, whatever the attackers' ranges. */
  function PathAttackerCount<S>(eng: Engine<S>, s: S, path: seq<Pos>, myself: bool): nat
  {
    if |path| == 0 then 0
    else |AttackersAt(eng, s, path[0], myself)| + PathAttackerCount(eng, s, path[1..], myself)
  }

  lemma {:induction false} CellDamageCounts(attackers: seq<Attacker>)
    ensures CellDamage(attackers) == 5 * RangeCount(attackers, 2.5) + 15 * RangeCount(attackers, 3.5)
    decreases |attackers|
  {
    if |attackers| > 0 {
      CellDamageCounts(attackers[1..]);
    }
  }

  /** The path damage is 5 per (cell, range-2.5 attacker) pair plus 15 per
      (cell, range-3.5 attacker) pair. */
  lemma {:induction false} PathDamageCounts<S>(eng: Engine<S>, s: S, path: seq<Pos>, myself: bool)
    ensures PathDamage(eng, s, path, myself)
         == 5 * PathRangeCount(eng, s, path, myself, 2.5) + 15 * PathRangeCount(eng, s, path, myself, 3.5)
    decreases |path|
  {
    if |path| > 0 {
      CellDamageCounts(AttackersAt(eng, s, path[0], myself));
      PathDamageCounts(eng, s, path[1..], myself);
    }
  }

  /** Path damage is additive over concatenation of paths. */
  lemma {:induction false} PathDamageAppend<S>(eng: Engine<S>, s: S, p: seq<Pos>, q: seq<Pos>, myself: bool)
    ensures PathDamage(eng, s, p + q, myself) == PathDamage(eng, s, p, myself) + PathDamage(eng, s, q, myself)
    decreases |p|
  {
    if |p| == 0 {
      assert p + q == q;
    } else {
      assert (p + q)[1..] == p[1..] + q;
      PathDamageAppend(eng, s, p[1..], q, myself);
    }
  }

  lemma {:induction false} CellDamageZero(attackers: seq<Attacker>)
    ensures CellDamage(attackers) == 0 <==> forall j :: 0 <= j < |attackers| ==> !Scores(attackers[j])
    decreases |attackers|
  {
    if |attackers| > 0 {
      CellDamageZero(attackers[1..]);
      assert forall j :: 1 <= j < |attackers| ==> attackers[j] == attackers[1..][j - 1];
    }
  }

  /** A path takes no damage exactly when no cell of it is threatened by an attacker of
      range 2.5 or 3.5. */
  lemma {:induction false} PathDamageZero<S>(eng: Engine<S>, s: S, path: seq<Pos>, myself: bool)
    ensures PathDamage(eng, s, path, myself) == 0
        <==> forall i, j :: 0 <= i < |path| && 0 <= j < |AttackersAt(eng, s, path[i], myself)|
               ==> !Scores(AttackersAt(eng, s, path[i], myself)[j])
    decreases |path|
  {
    if |path| > 0 {
      CellDamageZero(AttackersAt(eng, s, path[0], myself));
      PathDamageZero(eng, s, path[1..], myself);
      assert forall i :: 1 <= i < |path| ==> path[i] == path[1..][i - 1];
    }
  }

  /** The `myself` flag only chooses whose attackers are queried: two engines whose
      attacker queries agree on the queried sides give the same damage. */
  lemma {:induction false} MyselfSelectsSide<S>(e1: Engine<S>, e2: Engine<S>, s: S, path: seq<Pos>, m1: bool, m2: bool)
    requires forall p :: AttackersAt(e1, s, p, m1) == AttackersAt(e2, s, p, m2)
    ensures PathDamage(e1, s, path, m1) == PathDamage(e2, s, path, m2)
    decreases |path|
  {
    if |path| > 0 {
      assert AttackersAt(e1, s, path[0], m1) == AttackersAt(e2, s, path[0], m2);
      MyselfSelectsSide(e1, e2, s, path[1..], m1, m2);
    }
  }
}
