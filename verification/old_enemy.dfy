/** `enemy_least_damage` of the earlier bot: the unoccupied opponent edge cells
    whose path takes the least damage from our defenders. */
module OldEnemy {
  import opened Game
  import opened Seqs
  import opened Threat
  import opened OldEdges

  /** A value in `xs` that no element undercuts is `min(xs)`. */
  lemma MinOfUnique(xs: seq<int>, m: int)
    requires m in xs && forall j :: 0 <= j < |xs| ==> m <= xs[j]
    ensures MinOf(xs) == m
  {
  }

  /** `m` is the least element of `xs`. */
  predicate IsMin(xs: seq<int>, m: int)
  {
    m in xs && forall j :: 0 <= j < |xs| ==> m <= xs[j]
  }

  /** Popping an entry other than the minimum keeps the minimum. */
  lemma RemoveKeepsMin(xs: seq<int>, i: nat, m: int)
    requires i < |xs| && IsMin(xs, m) && xs[i] != m
    ensures |RemoveAt(xs, i)| > 0 && IsMin(RemoveAt(xs, i), m)
  {
    var r := RemoveAt(xs, i);
    var k :| 0 <= k < |xs| && xs[k] == m;
    if k < i {
      assert r[k] == m;
    } else {
      assert r[k - 1] == m;
    }
    forall j | 0 <= j < |r| ensures m <= r[j] {
      if j < i {
        assert r[j] == xs[j];
      } else {
        assert r[j] == xs[j + 1];
      }
    }
  }

  /** The starts whose damage equals `m`, in order (the reference selection). */
  function AtValue(starts: seq<Pos>, damages: seq<int>, m: int): seq<Pos>
    requires |starts| == |damages|
  {
    if |starts| == 0 then []
    else (if damages[0] == m then [starts[0]] else []) + AtValue(starts[1..], damages[1..], m)
  }

  lemma AtValueStep(starts: seq<Pos>, damages: seq<int>, m: int, done: nat)
    requires |starts| == |damages| && done < |starts|
    ensures AtValue(starts[done..], damages[done..], m)
         == (if damages[done] == m then [starts[done]] else []) + AtValue(starts[done + 1..], damages[done + 1..], m)
  {
    assert starts[done..][1..] == starts[done + 1..];
    assert damages[done..][1..] == damages[done + 1..];
  }

  /** One step of the walk: the entry at `done` is kept iff it is paired with `m`. */
  lemma AtValueWalk(starts: seq<Pos>, damages: seq<int>, m: int, done: nat, prefix: seq<Pos>)
    requires |starts| == |damages| && done < |starts|
    requires prefix + AtValue(starts[done..], damages[done..], m) == AtValue(starts, damages, m)
    ensures damages[done] == m ==>
      (prefix + [starts[done]]) + AtValue(starts[done + 1..], damages[done + 1..], m) == AtValue(starts, damages, m)
    ensures damages[done] != m ==>
      prefix + AtValue(starts[done + 1..], damages[done + 1..], m) == AtValue(starts, damages, m)
  {
    AtValueStep(starts, damages, m, done);
    var tail := AtValue(starts[done + 1..], damages[done + 1..], m);
    if damages[done] == m {
      assert prefix + ([starts[done]] + tail) == (prefix + [starts[done]]) + tail;
    }
  }

  /** Every start the reference selection keeps is paired with `m`. */
  lemma {:induction false} AtValueOrigin(starts: seq<Pos>, damages: seq<int>, m: int, k: nat) returns (i: nat)
    requires |starts| == |damages| && k < |AtValue(starts, damages, m)|
    ensures i < |starts| && starts[i] == AtValue(starts, damages, m)[k] && damages[i] == m
    decreases |starts|
  {
    var rest := AtValue(starts[1..], damages[1..], m);
    if damages[0] == m && k == 0 {
      i := 0;
    } else if damages[0] == m {
      var j := AtValueOrigin(starts[1..], damages[1..], m, k - 1);
      i := j + 1;
    } else {
      var j := AtValueOrigin(starts[1..], damages[1..], m, k);
      i := j + 1;
    }
  }

  /** Every start paired with `m` is kept by the reference selection. */
  lemma {:induction false} AtValueComplete(starts: seq<Pos>, damages: seq<int>, m: int, i: nat)
    requires |starts| == |damages| && i < |starts| && damages[i] == m
    ensures starts[i] in AtValue(starts, damages, m)
    decreases |starts|
  {
    if i > 0 {
      AtValueComplete(starts[1..], damages[1..], m, i - 1);
    }
  }

  /** The reference selection keeps the order of `starts`. */
  lemma {:induction false} AtValueSubsequence(starts: seq<Pos>, damages: seq<int>, m: int)
    requires |starts| == |damages|
    ensures IsSubsequence(AtValue(starts, damages, m), starts)
    decreases |starts|
  {
    if |starts| > 0 {
      var rest := AtValue(starts[1..], damages[1..], m);
      AtValueSubsequence(starts[1..], damages[1..], m);
      var r := AtValue(starts, damages, m);
      if damages[0] == m {
        assert r[1..] == rest;
      } else {
        assert r == rest;
        SubsequenceOfTail(rest, starts);
      }
    }
  }

  /** The walk's invariant: after `done` entries of the original lists, `ps`/`ds` hold
      the kept entries before `start` and the untouched rest from `start` on. */
  ghost predicate Walk(starts: seq<Pos>, damages: seq<int>, m: int, ps: seq<Pos>, ds: seq<int>, start: int, done: int)
  {
    && |starts| == |damages|
    && 0 <= start <= |ps| == |ds|
    && 0 <= done <= |starts|
    && |ps| - start == |starts| - done
    && ps[start..] == starts[done..] && ds[start..] == damages[done..]
    && ps[..start] + AtValue(starts[done..], damages[done..], m) == AtValue(starts, damages, m)
  }

  /** An entry paired with `m` stays, and the walk moves on. */
  lemma WalkKeep(starts: seq<Pos>, damages: seq<int>, m: int, ps: seq<Pos>, ds: seq<int>, start: int, done: int)
    requires Walk(starts, damages, m, ps, ds, start, done) && start < |ps| && ds[start] == m
    ensures Walk(starts, damages, m, ps, ds, start + 1, done + 1)
  {
    assert ps[start] == starts[done] && ds[start] == damages[done] by {
      assert ps[start..][0] == starts[done..][0];
      assert ds[start..][0] == damages[done..][0];
    }
    AtValueWalk(starts, damages, m, done, ps[..start]);
    assert ps[..start + 1] == ps[..start] + [starts[done]];
    assert ps[start + 1..] == ps[start..][1..] && ds[start + 1..] == ds[start..][1..];
    assert starts[done..][1..] == starts[done + 1..] && damages[done..][1..] == damages[done + 1..];
  }

  /** An entry not paired with `m` is popped; `start` comes back to the same index. */
  lemma WalkDrop(starts: seq<Pos>, damages: seq<int>, m: int, ps: seq<Pos>, ds: seq<int>, start: int, done: int)
    requires Walk(starts, damages, m, ps, ds, start, done) && start < |ps| && ds[start] != m
    ensures Walk(starts, damages, m, RemoveAt(ps, start), RemoveAt(ds, start), start, done + 1)
  {
    assert ps[start] == starts[done] && ds[start] == damages[done] by {
      assert ps[start..][0] == starts[done..][0];
      assert ds[start..][0] == damages[done..][0];
    }
    AtValueWalk(starts, damages, m, done, ps[..start]);
    var ps', ds' := RemoveAt(ps, start), RemoveAt(ds, start);
    assert ps'[..start] == ps[..start];
    assert ps'[start..] == ps[start..][1..] && ds'[start..] == ds[start..][1..];
    assert starts[done..][1..] == starts[done + 1..] && damages[done..][1..] == damages[done + 1..];
  }

  /** The selection loop of `enemy_least_damage`: walk `start` along the list and pop
      every entry whose damage is not the (recomputed) minimum, stepping back one so
      that the next entry is not skipped. */
  method KeepMinimal(starts: seq<Pos>, damages: seq<int>) returns (kept: seq<Pos>)
    requires |starts| == |damages|
    ensures |damages| == 0 ==> kept == []
    ensures |damages| > 0 ==> kept == AtValue(starts, damages, MinOf(damages))
  {
    var ps := starts;
    var ds := damages;
    var start: int := 0;
    ghost var m := if |damages| > 0 then MinOf(damages) else 0;
    ghost var done := 0;
    assert ps[..0] == [] && ps[0..] == starts && ds[0..] == damages;
    while start < |ps|
      invariant Walk(starts, damages, m, ps, ds, start, done)
      invariant |damages| > 0 ==> IsMin(ds, m)
      decreases |ps| - start
    {
      MinOfUnique(ds, m);
      if ds[start] != MinOf(ds) {
        WalkDrop(starts, damages, m, ps, ds, start, done);
        RemoveKeepsMin(ds, start, m);
        ps, ds := RemoveAt(ps, start), RemoveAt(ds, start);
        start := start - 1;
      } else {
        WalkKeep(starts, damages, m, ps, ds, start, done);
      }
      start := start + 1;
      done := done + 1;
    }
    assert ps[..start] == ps;
    assert starts[done..] == [] && damages[done..] == [];
    kept := ps;
  }

  /** Damage our defenders deal along the path from `p` (`get_attackers(p, 1)`). */
  function EnemyDamage<S>(eng: Engine<S>, s: S, p: Pos): nat
  {
    PathDamage(eng, s, eng.findPathToEdge(s, p), false)
  }

  /** The `damages` list: one entry per cell, in cell order. */
  function EnemyDamages<S>(eng: Engine<S>, s: S, cells: seq<Pos>): (r: seq<int>)
    ensures |r| == |cells|
    ensures forall i :: 0 <= i < |cells| ==> r[i] == EnemyDamage(eng, s, cells[i]) as int
    ensures forall i :: 0 <= i < |cells| ==>
      var path := eng.findPathToEdge(s, cells[i]);
      r[i] == 5 * PathRangeCount(eng, s, path, false, 2.5) + 15 * PathRangeCount(eng, s, path, false, 3.5)
  {
    var r := seq(|cells|, i requires 0 <= i < |cells| => EnemyDamage(eng, s, cells[i]) as int);
    forall i | 0 <= i < |cells|
      ensures var path := eng.findPathToEdge(s, cells[i]);
        r[i] == 5 * PathRangeCount(eng, s, path, false, 2.5) + 15 * PathRangeCount(eng, s, path, false, 3.5)
    {
      PathDamageCounts(eng, s, eng.findPathToEdge(s, cells[i]), false);
    }
    r
  }

  /** No cell of `cells` has a path with less damage than `p`'s. */
  predicate IsLeast<S>(eng: Engine<S>, s: S, cells: seq<Pos>, p: Pos)
  {
    forall j :: 0 <= j < |cells| ==> EnemyDamage(eng, s, p) <= EnemyDamage(eng, s, cells[j])
  }

  /** Every kept cell is a cell of least damage. */
  lemma KeptIsLeast<S>(eng: Engine<S>, s: S, cells: seq<Pos>, c: nat)
    requires |cells| > 0
    requires c < |AtValue(cells, EnemyDamages(eng, s, cells), MinOf(EnemyDamages(eng, s, cells)))|
    ensures AtValue(cells, EnemyDamages(eng, s, cells), MinOf(EnemyDamages(eng, s, cells)))[c] in cells
    ensures IsLeast(eng, s, cells, AtValue(cells, EnemyDamages(eng, s, cells), MinOf(EnemyDamages(eng, s, cells)))[c])
  {
    var damages := EnemyDamages(eng, s, cells);
    var m := MinOf(damages);
    var i := AtValueOrigin(cells, damages, m, c);
    var p := cells[i];
    forall j | 0 <= j < |cells| ensures EnemyDamage(eng, s, p) <= EnemyDamage(eng, s, cells[j]) {
      assert damages[i] <= damages[j];
    }
  }

  /** Every cell of least damage is kept. */
  lemma LeastIsKept<S>(eng: Engine<S>, s: S, cells: seq<Pos>, p: Pos)
    requires |cells| > 0 && p in cells && IsLeast(eng, s, cells, p)
    ensures p in AtValue(cells, EnemyDamages(eng, s, cells), MinOf(EnemyDamages(eng, s, cells)))
  {
    var damages := EnemyDamages(eng, s, cells);
    var m := MinOf(damages);
    var k :| 0 <= k < |damages| && damages[k] == m;
    var i :| 0 <= i < |cells| && cells[i] == p;
    assert damages[i] <= damages[k];
    AtValueComplete(cells, damages, m, i);
  }

  /** A cell is kept exactly when it is a cell of least damage. */
  lemma KeptIffLeast<S>(eng: Engine<S>, s: S, cells: seq<Pos>, p: Pos)
    requires |cells| > 0
    ensures p in AtValue(cells, EnemyDamages(eng, s, cells), MinOf(EnemyDamages(eng, s, cells))) <==> p in cells && IsLeast(eng, s, cells, p)
  {
    var kept := AtValue(cells, EnemyDamages(eng, s, cells), MinOf(EnemyDamages(eng, s, cells)));
    if p in kept {
      var c :| 0 <= c < |kept| && kept[c] == p;
      KeptIsLeast(eng, s, cells, c);
    }
    if p in cells && IsLeast(eng, s, cells, p) {
      LeastIsKept(eng, s, cells, p);
    }
  }

  /** Something is kept, in the order of `cells`. */
  lemma KeptOrdered<S>(eng: Engine<S>, s: S, cells: seq<Pos>)
    requires |cells| > 0
    ensures |AtValue(cells, EnemyDamages(eng, s, cells), MinOf(EnemyDamages(eng, s, cells)))| > 0
    ensures IsSubsequence(AtValue(cells, EnemyDamages(eng, s, cells), MinOf(EnemyDamages(eng, s, cells))), cells)
  {
    var damages := EnemyDamages(eng, s, cells);
    var m := MinOf(damages);
    AtValueSubsequence(cells, damages, m);
    var k :| 0 <= k < |damages| && damages[k] == m;
    AtValueComplete(cells, damages, m, k);
  }

  /** The opponent's edge cells without a stationary unit, in edge order. */
  function EnemyStarts<S>(eng: Engine<S>, s: S): seq<Pos>
  {
    Unoccupied(eng, s, EnemyEdges)
  }

  /** `enemy_least_damage(game_state)`. */
  method EnemyLeastDamage<S>(eng: Engine<S>, s: S) returns (kept: seq<Pos>)
    ensures |kept| == 0 <==> |EnemyStarts(eng, s)| == 0
    ensures IsSubsequence(kept, EnemyStarts(eng, s))
    ensures forall p :: p in kept <==> p in EnemyStarts(eng, s) && IsLeast(eng, s, EnemyStarts(eng, s), p)
  {
    var possible := EnemyStarts(eng, s);
    var damages := EnemyDamages(eng, s, possible);
    kept := KeepMinimal(possible, damages);
    if |possible| > 0 {
      KeptOrdered(eng, s, possible);
      forall p ensures p in kept <==> p in possible && IsLeast(eng, s, possible, p) {
        KeptIffLeast(eng, s, possible, p);
      }
    }
  }
}
