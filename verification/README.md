# Greedy tower-defence bot: decision core

A model of the turn logic of two bots for a two-player tower-defence game on a
28 x 28 diamond arena. Each player owns 14 rows. Stationary units (walls,
turrets) are bought with structure points (SP), and mobile units (scouts,
demolishers) with mobile points (MP).

- **The greedy bot** (`Python-Greed-Algo/algo_strategy.py`):
  - scores every path from an unoccupied edge cell by the damage it takes (5 per
    range-2.5 attacker, 15 per range-3.5 attacker, per cell);
  - picks the least-damage starts;
  - while at least 2 SP remain, commits the wall or turret whose hypothetical
    placement adds the most damage to the opponent;
  - attacks with scouts, demolishers or nothing, depending on whether the
    chosen path breaches and whether `int(MP) * 15` exceeds the predicted damage.
- **The earlier bot** (`python-algo/old_algo.py`):
  - hard-codes both edge lists;
  - collects the cells on the opponent's least-damage paths;
  - ranks every open cell of its half by how many of those cells a turret there
    would cover (Euclidean range 2.5);
  - places turrets greedily (`GREEDt`);
  - chooses an attack start with `least_damage_spawn_location`.

The game library is abstracted away. `Game.Engine` is a record of functions over
an opaque game state, and every query and command the bots make goes through it:
the pathfinder, the attacker query, spawn tests, a hypothetical `add_unit`, the
resource ledger and the committing spawn. A Python exception on a modelled path
(an empty list indexed, `max([])`, `append` with three arguments, `pop` past the
end) is an `Err` value of `Game.Result`, never a precondition. Loops that run
until the ledger drops below a threshold take a `fuel` bound. Termination lemmas
show that the bound suffices once every spawn lowers the pool.

Where the source evidently means something other than what it does, the model
keeps both versions: the code as written with a lemma exhibiting the discrepancy,
and a corrected definition with the intended property proved (see Findings).

## Model

| member | source | states |
|---|---|---|
| Seqs.RemoveAt | python-algo/old_algo.py:173-174 | `pop(i)` leaves one element fewer: the elements before `i` unchanged, those after it shifted down by one |
| Seqs.IndexOfMin | python-algo/old_algo.py:142 | `index(min(xs))` is a position of a least element, and no earlier position holds that value |
| Seqs.IndexOfMax | python-algo/old_algo.py:112 | `index(max(xs))` is a position of a greatest element, and every earlier element is strictly smaller |
| Seqs.Count | python-algo/old_algo.py:101 | `count(x)` is 0 exactly when `x` is absent, and never more than the length |
| Seqs.MinOf | python-algo/old_algo.py:172 | `min(xs)` is an element of `xs` and at most every element |
| Game.GridCells | Python-Greed-Algo/algo_strategy.py:105-106 | the nested `range(w)`/`range(h)` loops visit `w*h` cells, and a cell is visited iff both coordinates are in range |
| Game.OwnHalf | python-algo/old_algo.py:98-99 | the 28 x 14 loops visit exactly the cells of our half |
| Game.Unoccupied | Python-Greed-Algo/algo_strategy.py:157-160 | the filtered list holds exactly the given cells without a stationary unit, in their order |
| Game.ScoutSpawnable | python-algo/old_algo.py:90-92 | the filtered list holds exactly the given cells a scout can spawn on, in their order, and is the whole list when every cell can take a scout |
| Threat.CellDamageCounts | Python-Greed-Algo/algo_strategy.py:182-186 | one cell's damage is 5 per range-2.5 attacker plus 15 per range-3.5 attacker; any other range adds nothing |
| Threat.PathDamage | Python-Greed-Algo/algo_strategy.py:179-187 | an empty path takes no damage, and no path takes negative damage; the weighted count is stated by `Threat.PathDamageCounts` |
| Threat.PathDamageCounts | Python-Greed-Algo/algo_strategy.py:179-187 | a path's damage is 5 per (cell, range-2.5 attacker) pair plus 15 per (cell, range-3.5 attacker) pair, hence never negative |
| Threat.PathDamageAppend | Python-Greed-Algo/algo_strategy.py:180-187 | path damage is additive over concatenation of paths |
| Threat.PathDamageZero | Python-Greed-Algo/algo_strategy.py:181-186 | a path takes no damage iff no attacker of range 2.5 or 3.5 threatens any of its cells |
| Threat.MyselfSelectsSide | Python-Greed-Algo/algo_strategy.py:182 | the `myself` flag only selects whose attackers are queried: equal attacker answers give equal damage |
| GreedSpawn.PossibleStarts | Python-Greed-Algo/algo_strategy.py:157-160 | the possible starts are exactly the unoccupied edge cells of the queried side, in edge order |
| GreedSpawn.ScoreStarts | Python-Greed-Algo/algo_strategy.py:162-167 | the scoring loop raises (`path[-1]`) iff some start has an empty path |
| GreedSpawn.ScoreStartsSpec | Python-Greed-Algo/algo_strategy.py:163-167 | the scored starts are exactly the starts whose path ends on the wanted half, in order, each paired with its own path damage |
| GreedSpawn.MinDamage | Python-Greed-Algo/algo_strategy.py:171 | `min(damages)[0]` is at most every scored damage and is attained by one of them |
| GreedSpawn.BestStartsFilter | Python-Greed-Algo/algo_strategy.py:172-175 | the best starts are the scored starts whose damage equals the minimum, in scoring order |
| GreedSpawn.LeastDamageSpawnErrors | Python-Greed-Algo/algo_strategy.py:156-170 | the selection fails with no unoccupied edge iff there is no unoccupied edge cell, and with an empty path iff some possible start has an empty path; otherwise it succeeds |
| GreedSpawn.LeastDamageSpawnStarts | Python-Greed-Algo/algo_strategy.py:156-177 | every returned start is an unoccupied edge cell of the queried side with a non-empty path |
| GreedSpawn.LeastDamageSpawnFallback | Python-Greed-Algo/algo_strategy.py:169-170 | when no path ends on the wanted half, the result is the first unoccupied edge cell with damage -1 |
| GreedSpawn.LeastDamageSpawnMinimal | Python-Greed-Algo/algo_strategy.py:169-177 | once some path qualifies, the result holds exactly the qualifying unoccupied edge cells of least damage, in edge order, and that damage is non-negative and at most every qualifying damage |
| GreedSpawn.LeastDamageSpawn | Python-Greed-Algo/algo_strategy.py:156-177 | a successful selection returns at least one start, so the callers' `best_spawns[0]` and `chosen_locations[0]` never raise |
| GreedAttack.Trunc | Python-Greed-Algo/algo_strategy.py:149 | `int(x)` truncates toward zero: within one below a non-negative `x` and within one above a negative `x` |
| GreedAttack.SpendWhile | Python-Greed-Algo/algo_strategy.py:150-154 | a finished spending loop leaves MP below its threshold after at most `fuel` attempts, and changes nothing when it made none |
| GreedAttack.SpendWhileTerminates | Python-Greed-Algo/algo_strategy.py:150-154 | if every spawn lowers MP by at least 1, a loop starting below `threshold + fuel` finishes within the fuel |
| GreedAttack.SpendWhileStalls | Python-Greed-Algo/algo_strategy.py:150-154 | if an attempt never changes MP, a loop that starts at or above its threshold runs out of every fuel bound, so it never ends |
| GreedAttack.AttackFrom | Python-Greed-Algo/algo_strategy.py:146-154 | scouts iff the path breaches and `int(MP) * 15` exceeds the damage; demolishers iff it does not breach; otherwise nothing is spawned; each loop ends below its threshold |
| GreedAttack.BuildAttackAsWritten | Python-Greed-Algo/algo_strategy.py:138-154 | as written, the attack fails iff the spawn selection for the side named by the truthiness of `open_edges` fails; otherwise it starts from that side's first best start, an unoccupied edge cell, with the decision rule above |
| GreedAttack.BuildAttackAsWrittenStalls | Python-Greed-Algo/algo_strategy.py:139-154 | as written, with no open own edge the attack starts on an opponent edge cell; if spawns there leave MP unchanged, the scout loop with at least 1 MP and the demolisher loop with at least 3 MP never end |
| GreedAttack.BuildAttackAsWrittenStallsExample | Python-Greed-Algo/algo_strategy.py:139-154 | on a board whose one own edge cell cannot take a scout, with 3 MP, scouts are sent from the opponent's edge and the loop outlasts every fuel bound |
| GreedAttack.BuildAttack | Python-Greed-Algo/algo_strategy.py:138-154 | corrected: no attack when no own edge cell can take a scout; otherwise it fails iff our own spawn selection fails and starts from our first best start, an unoccupied own edge cell |
| GreedAttack.BuildAttackFinishes | Python-Greed-Algo/algo_strategy.py:145-154 | corrected: when each spawn on our own edge cells lowers MP by at least 1 and MP starts below `1 + fuel`, the spending loop finishes within the fuel |
| GreedDefence.MaxOption | Python-Greed-Algo/algo_strategy.py:129 | `max` of the option tuples is one of them, and no option is greater in Python's tuple order |
| GreedDefence.CellOptionsSpec | Python-Greed-Algo/algo_strategy.py:107-125 | a cell raises iff it is off the path and the comparison `TURRET == game_map[x, y]` holds (the upgrade branch); otherwise its options are exactly the spawnable wall/turret options there, walls scored double |
| GreedDefence.CandidatesSpec | Python-Greed-Algo/algo_strategy.py:104-126 | the option list is built iff no off-path cell takes the upgrade branch, and then holds exactly the candidate options at the enumerated cells |
| GreedDefence.DefenceRound | Python-Greed-Algo/algo_strategy.py:103-129 | a round stops iff SP is below 2 or no option exists; otherwise it commits a maximal option of the list, or passes on its error |
| GreedDefence.DefenceLoop | Python-Greed-Algo/algo_strategy.py:103-136 | a finished loop ends in a state where the round stops; that state is the start state with every placement spawned in order; and each placement is what the round commits in the state after the spawns before it |
| GreedDefence.RoundCommitsCandidate | Python-Greed-Algo/algo_strategy.py:103-136 | a committed option is, in that round's state with at least 2 SP, a spawnable wall or turret at an enumerated cell off the reference path, scored by its marginal damage (doubled for walls), and no option of that round's list exceeds it |
| GreedDefence.RoundsCommitAt | Python-Greed-Algo/algo_strategy.py:103-136 | when each placement is its round's commit spawn by spawn, placement `k` is exactly what the round commits in the state after the first `k` spawns |
| GreedDefence.DefenceLoopPlacesCandidates | Python-Greed-Algo/algo_strategy.py:103-136 | every placement, in the state it was committed in, had at least 2 SP, was a spawnable wall or turret at an enumerated cell off the reference path with its marginal score, and was maximal among that round's options |
| GreedDefence.DefenceLoopTerminates | Python-Greed-Algo/algo_strategy.py:103 | if every allowed spawn lowers SP by a positive cost, the loop ends within the fuel once SP starts below `2 + fuel * cost` |
| GreedDefence.BuildDefences | Python-Greed-Algo/algo_strategy.py:88-103 | the two spawn selections' errors propagate, and with under 2 SP nothing is placed |
| GreedDefence.BuildDefencesPlacesCandidates | Python-Greed-Algo/algo_strategy.py:94-136 | every placement is on a cell of our half and, in the state it was committed in, is a spawnable wall or turret off the path from our first best start, scored against the opponent's least damage, and maximal among that round's options; the final state is the start state with every placement spawned |
| GreedOpening.OpeningCells | Python-Greed-Algo/algo_strategy.py:64-67 | the two pops succeed iff the list has more than 14 cells; they remove original indices 0 and 14, keeping the rest in order |
| GreedOpening.Opening | Python-Greed-Algo/algo_strategy.py:64-69 | the opening raises iff our edge list has at most 14 cells |
| OldEdges.MyEdgesShape | python-algo/old_algo.py:30-35 | `my_edges` has 28 distinct cells of our half, on the diagonals x + y = 13 and x - y = 14 |
| OldEdges.EnemyEdgesFormula | python-algo/old_algo.py:188-190 | the literal `enemy_edges` is cell `i` = `(i, 14 + i)` for i < 14 and `(i, 41 - i)` after |
| OldEdges.EnemyEdgesMirrorMine | python-algo/old_algo.py:188-190 | `enemy_edges` is `my_edges` turned half-way round the board, in reverse order |
| OldEdges.EnemyEdgesShape | python-algo/old_algo.py:188-190 | `enemy_edges` has 28 distinct cells in the opponent's half, none of them in `my_edges` |
| OldEdges.IsInRangeSymmetric | python-algo/old_algo.py:148-151 | the range test is symmetric, and no range at or below zero admits anything |
| OldEdges.IsInRangeTwoAndAHalf | python-algo/old_algo.py:148-151 | at range 2.5 the test admits exactly squared distances up to 6, a cell against itself included |
| OldEnemy.KeepMinimal | python-algo/old_algo.py:169-176 | the pop-and-step-back walk keeps exactly the starts paired with the minimum damage, in order |
| OldEnemy.EnemyDamages | python-algo/old_algo.py:159-168 | one damage entry per possible start, in order, each 5 per (path cell, range-2.5 defender) pair plus 15 per (path cell, range-3.5 defender) pair |
| OldEnemy.KeptIffLeast | python-algo/old_algo.py:169-177 | a start is kept iff it is a start of least damage |
| OldEnemy.KeptOrdered | python-algo/old_algo.py:169-177 | when a start exists something is kept, in start order |
| OldEnemy.EnemyLeastDamage | python-algo/old_algo.py:153-177 | the result is empty iff no enemy edge cell is unoccupied, keeps edge order, and holds exactly the unoccupied enemy edge cells of least damage |
| OldSpawnLocation.LastNeverInEnemyEdges | python-algo/old_algo.py:140-141 | the test `chosen[-1] in enemy_edges` never holds, neither for the sentinel `[[0, 2]]` nor for a chosen cell |
| OldSpawnLocation.OwnPathDamageCounts | python-algo/old_algo.py:135-138 | a path's estimate is the turret damage once per (path cell, attacker) pair, whatever the attacker |
| OldSpawnLocation.ScoredDamages | python-algo/old_algo.py:128-139 | one damage entry per scout-spawnable option, in option order, each the turret damage times the number of attackers along that option's path |
| OldSpawnLocation.Drain | python-algo/old_algo.py:140-144 | the loop pops one option per damage entry, and chooses a cell iff some entry existed |
| OldSpawnLocation.DrainEndsOnMax | python-algo/old_algo.py:140-144 | when every option was scored, the loop ends on an option of the greatest damage |
| OldSpawnLocation.LeastDamageSpawnLocationAsWritten | python-algo/old_algo.py:127-146 | the damage returned is always 0; the caller's list loses one entry per scored option; the sentinel is returned iff nothing was scored, and then the list is untouched |
| OldSpawnLocation.LeastDamageSpawnLocationPicksMax | python-algo/old_algo.py:140-144 | as written, with every option spawnable, the chosen option has the greatest damage |
| OldSpawnLocation.LeastDamageSpawnLocationCounterexample | python-algo/old_algo.py:140-144 | for options of damage 0 and 15, the code returns the 15 one and the corrected version the 0 one |
| OldSpawnLocation.LeastDamageSpawnLocation | python-algo/old_algo.py:127-146 | corrected: the scout-spawnable option of least damage, the sentinel iff none is spawnable, the caller's list untouched |
| OldGreedt.VulnLocationsMember | python-algo/old_algo.py:83-85 | a cell is vulnerable iff it lies on the path of one of the likely starts |
| OldGreedt.Vulnerable | python-algo/old_algo.py:80-85 | the vulnerable cells are exactly the cells on paths from unoccupied enemy edge cells of least damage |
| OldGreedt.NecessaryAsWritten | python-algo/old_algo.py:94-96 | as written, `necessary` has one entry per visited path cell, yet `necessary.count([x, y])` is 0 for every cell, so line 101 excludes nothing |
| OldGreedt.Necessary | python-algo/old_algo.py:94-96 | corrected: `necessary` lists exactly the cells of the reserved path |
| OldGreedt.OpenLocationsAsWritten | python-algo/old_algo.py:96-102 | as written, the open locations are every turret-spawnable cell of our half |
| OldGreedt.OpenLocationsKeepPath | python-algo/old_algo.py:94-102 | a spawnable cell on our own attack path is open as written, and not open when corrected |
| OldGreedt.OpenLocationsAvoidPath | python-algo/old_algo.py:98-102 | corrected: the open locations are exactly the turret-spawnable cells of our half off the reserved path |
| OldGreedt.ScoreLocation | python-algo/old_algo.py:106-109 | a location scores 5 per vulnerable entry in range 2.5 of it, counted with repeats |
| OldGreedt.CoveredSnoc | python-algo/old_algo.py:107-109 | one more vulnerable entry adds one covered entry iff it is within range 2.5 of the location |
| OldGreedt.ScoreLocations | python-algo/old_algo.py:103-109 | one score per open location, in order, each 5 per vulnerable entry it covers |
| OldGreedt.CoveredBySquaredDistance | python-algo/old_algo.py:108-109 | a location covers exactly the entries within squared distance 6, at most all of them, and at least one when it is itself vulnerable |
| OldGreedt.PlaceTowersAsWritten | python-algo/old_algo.py:111-114 | as written, every placed cell is open; it never places more turrets than there are open locations; it ends normally only when SP is at most 1 or nothing is open; a crash is `max([])` after one spawn per location |
| OldGreedt.PlaceTowersAsWrittenCrashes | python-algo/old_algo.py:111-114 | with SP above 1 throughout, the loop as written always raises |
| OldGreedt.PlaceTowersAsWrittenFirstIsMax | python-algo/old_algo.py:112 | the first turret goes on a location of the greatest score |
| OldGreedt.PlaceTowersAsWrittenRepeats | python-algo/old_algo.py:111-114 | scores 5, 10, 0 on a, b, c: as written it spawns at b, b, c and raises |
| OldGreedt.PlaceTowers | python-algo/old_algo.py:111-114 | corrected: one score per placed cell, the first at least every score, and it stops early only when SP is at most 1 |
| OldGreedt.PlaceTowersSorted | python-algo/old_algo.py:111-114 | corrected: the placed scores never increase |
| OldGreedt.PlaceTowersPicks | python-algo/old_algo.py:111-114 | corrected: it places distinct open entries, each with its own score, and leaves unplaced only entries scoring at most the last placed one |
| OldGreedt.PlaceTowersInOrder | python-algo/old_algo.py:111-114 | corrected, on scores 5, 10, 0 on a, b, c: it spawns at b, a, c |
| OldGreedt.GreedtAsWritten | python-algo/old_algo.py:79-115 | as written, every turret lands on a spawnable cell of our half; the loop raises only on `max([])` and ends normally only when SP runs out or nothing is open |
| OldGreedt.Greedt | python-algo/old_algo.py:79-115 | corrected: every turret lands on a spawnable cell of our half off the reserved path, best scores first, and fewer placements than open locations means SP ran out |

## Left out

- The game library (`gamelib`) is not part of this model. The game state, pathfinding, attacker queries, spawn tests, edge lists and the SP/MP ledger are fields of `Game.Engine`, with no assumed behaviour beyond what a lemma's requires state.
- `copy.deepcopy` and `add_unit` on the copy: the hypothetical board is the value `addUnit(s, kind, p)`, and the caller's state is never changed because states are immutable.
- Turret upgrade on a hypothetical copy (`Python-Greed-Algo/algo_strategy.py:118-124`): the branch raises before its result is used, so only the raise is modelled.
- `attempt_upgrade` (line 132) is unreachable because the tuple-to-string comparison at line 131 is always false, so it is not modelled.
- Turn plumbing (`on_game_start`, `on_turn`, `submit_turn`, `debug_write`, random seeding) and the turn-0 dispatch of `greedy_strategy`/`starter_strategy`: these are sequencing only.
- `python-algo/algo_strategy.py` is not part of this model.
- The earlier bot's hard-coded opening lists (`python-algo/old_algo.py:179-185`) and its commented-out random placement (lines 70-77): these are constants and dead code.
- The earlier bot's `build_attack` (lines 117-125): a `while MP > 0` spawn loop at the chosen location, of the same shape as `GreedAttack.SpendWhile`.
- Floating-point equality on ranges and `math.sqrt`: ranges are exact reals, and `is_in_range` compares squared distances.
- Loops bounded by the ledger take a `fuel` parameter. A run that exhausts it is `OutOfFuel`, which says nothing about the game. The termination lemmas give a sufficient fuel.
- OldGreedt.GreedtAsWritten: the count `n` of `locals` entries in `necessary` is a parameter. It depends on the pathfinder's answer for the list `[chosen, 0]` that line 95 passes, which the model does not evaluate; the result holds for every `n`.
- OldGreedt.Greedt: `necessary` holds one copy of the reserved path, not one copy per open edge, because only membership is read.
- OldGreedt.Greedt: it does not restate each score's coverage meaning. That is the contract of `OldGreedt.ScoreLocations`, whose output it places.
- OldSpawnLocation.LeastDamageSpawnLocationAsWritten: when some option cannot spawn, the damage list is shorter than the option list and the two are misaligned. The model keeps that misalignment but states no property of which cell results.
- OldEdges.IsInRangeTwoAndAHalf: a cell is proved in range of itself only at range 2.5, the one range the source passes, not at every positive range.
- Greedy defence compared with its design notes, where the code is followed:
  - the marginal damage is measured along the candidate cell's own path, not a fixed reference path;
  - the baseline is the opponent's least damage computed once, before the loop;
  - there is no "no improvement" exit, so an option with zero or negative score is still committed while SP lasts;
  - ties are not "first found wins": `max` on `(score, shorthand, [x, y])` breaks a score tie by the unit's shorthand string and then by the greater `[x, y]`, that is the later column and then the higher row. `GreedDefence.MaxOption` follows that order.
- GreedAttack.BuildAttackAsWritten: the source passes the list `open_edges` where `least_damage_spawn` expects the flag `myself`. Python reads it as true iff non-empty, and that is what is modelled.

## Findings

| source | as written | input that shows it | evidently intended | confidence | as-written member | corrected member |
|---|---|---|---|---|---|---|
| python-algo/old_algo.py:96 | appends the builtin `locals`, so `necessary` never lists a cell and turrets may be placed on our own attack path | any spawnable cell of our half on the path from the chosen edge | append the path cell `local` | not executed | OldGreedt.OpenLocationsKeepPath | OldGreedt.OpenLocationsAvoidPath |
| python-algo/old_algo.py:112-114 | pops `open_locations` at the arg-max of the already shortened scores, so cells and scores drift apart; cells are spawned on twice, and `max([])` raises at the end | scores 5, 10, 0 on cells a, b, c with SP above 1: spawns b, b, c, then raises | pop the index that was spawned on from both lists | not executed | OldGreedt.PlaceTowersAsWrittenRepeats | OldGreedt.PlaceTowersInOrder |
| python-algo/old_algo.py:140-144 | the loop test never holds, so the loop drains every scored option, smallest first, and returns the option of greatest damage | two spawnable options of damage 0 and 15: returns the 15 one | return the option of least damage | not executed | OldSpawnLocation.LeastDamageSpawnLocationCounterexample | OldSpawnLocation.LeastDamageSpawnLocation |
| Python-Greed-Algo/algo_strategy.py:139-154 | when no own edge cell can take a scout, `open_edges` is empty and reads as `myself=False`, so the attack is planned from an opponent edge cell; spawns there fail and MP never drops, so the `while` loop never ends | every own edge cell blocked for scouts, an unoccupied opponent edge cell, 3 MP: scouts are chosen and the loop runs forever | no attack when no own edge is open | not executed; relies on the game library refusing a spawn on an opponent edge | GreedAttack.BuildAttackAsWrittenStallsExample | GreedAttack.BuildAttackFinishes |
