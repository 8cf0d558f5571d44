# Mobility engine of the PDL simulator, in Dafny

This project models the mobility code of a delay-tolerant network simulator
(`rml/prgms/simulateur_pdl/farid/code/mobilite.c`) and proves what it does.

- `deplacer_noeud` moves one node by one tick, in one of two modes.
  - Waypoint pursuit: the node steps at most one unit per axis toward its target. It draws a new
    target only when it stands on the old one.
  - Inertial random walk: the node keeps its last compass code when a percentage draw is below 67,
    and otherwise draws a fresh code 1..8. It then takes a unit step. When a step would leave the
    grid `[1, taille]²`, that axis is clamped to the bound and the code turns clockwise
    (`d mod 8 + 1`). The exception is the y axis of direction 5 (see Findings).
- `mobilite` runs one epoch.
  - It ages the routing rows once.
  - Then, when `proba_mobilite` is non-zero, it runs `vitesse_noeud_max` sub-steps.
  - Each sub-step first moves every node and writes its position to the table `noeuds`.
  - Only after that, each node in list order resets the `routage` rows of the neighbours found
    within `portee` (`maj_tab_routage`).

Modules:

- `Alea` (alea.dfy): the random source. Draws come from a stream of raw 32-bit words, read
  through a cursor that every operation threads and returns.
- `Mobility` (mobility.dfy):
  - the pure step function `Step` and its parts;
  - the class `Node`, whose `Move` updates the node's fields in place as the C code does and is
    proved equal to `Step`;
  - the compass table `Delta` and a reference policy `Intended`;
  - lemmas about one tick.
- `Store` (store.dfy): the tables `noeuds` and `routage` as maps, the effect of each SQL
  statement as a function, and the class `Database`, an in-memory database with one method per
  statement.
- `Simulation` (simulation.dfy):
  - the epoch on values: `MovePass`, `ContactPass`, `SubStep`, `SubSteps` and `Epoch`;
  - the C procedures as methods over the node objects and a `Database`: `UpdatePosNoeud`,
    `MajTabRoutage`, the two list walks, and `Mobilite`. Each method is proved equal to its
    function.
- `SimulationProperties` (simulation_properties.dfy): what an epoch guarantees. The moves
  precede the resets, contacts are reset exactly as the neighbour query says, the ages go up
  once, and the grid bounds the nodes keep.

The linked list `topologie` is a sequence of distinct `Node` objects in `next` order.

## Model

| member | source | states |
|---|---|---|
| Alea.Draw | rml/prgms/simulateur_pdl/farid/code/generateur2.c:20 | `gener_alea(n)` on its success path is the raw word reduced modulo `n`, so it lies in `[0, n)` |
| Mobility.Rotate | rml/prgms/simulateur_pdl/farid/code/mobilite.c:87-177 | the code written on a clamp is the next code clockwise: `d + 1`, and 8 wraps to 1; it stays in 1..8 |
| Mobility.Pursue | rml/prgms/simulateur_pdl/farid/code/mobilite.c:60-64 | one axis of pursuit moves by at most one, lands between the old value and the target, and gets exactly one closer unless it is already there |
| Mobility.WaypointMove | rml/prgms/simulateur_pdl/farid/code/mobilite.c:54-64 | the waypoint branch keeps the id and direction, and reads two draws exactly when the node stands on its target |
| Mobility.Decrease | rml/prgms/simulateur_pdl/farid/code/mobilite.c:87-91 | the `pos - 1 < 1` check fires exactly when `pos <= 1` and yields `max(pos - 1, 1)` |
| Mobility.Increase | rml/prgms/simulateur_pdl/farid/code/mobilite.c:93-97 | the `pos + 1 > taille` check fires exactly when `pos >= taille` and yields `min(pos + 1, taille)` |
| Mobility.DecreaseSouthEast | rml/prgms/simulateur_pdl/farid/code/mobilite.c:140-144 | the y check of direction 5 as written never fires from a row up to `taille + 1`, so y always drops by one |
| Mobility.CheckX | rml/prgms/simulateur_pdl/farid/code/mobilite.c:87-91 | the x check of a case (lines 87-91 in case 1, the same shape in every case) writes the new x, writes the case's code into the direction when its clamp fires, changes the direction only then, and changes nothing else |
| Mobility.CheckY | rml/prgms/simulateur_pdl/farid/code/mobilite.c:93-97 | the y check of a case (lines 93-97 in case 1) writes the new y, writes the case's code when its clamp fires, changes the direction only then, and changes nothing else |
| Mobility.Turn | rml/prgms/simulateur_pdl/farid/code/mobilite.c:87-177 | one case of the switch, x check then y check: both coordinates take their checked values, and the direction becomes the case's code exactly when either check clamps |
| Mobility.Walk | rml/prgms/simulateur_pdl/farid/code/mobilite.c:84-183 | the switch keeps the id and target, keeps x inside the grid, keeps y inside the grid for every code but 5 and never above `taille`, leaves the code unchanged or rotated, and changes nothing for a code outside 1..8 |
| Mobility.WalkCorrected | rml/prgms/simulateur_pdl/farid/code/mobilite.c:140-144 | with the direction-5 check testing `< 1`, every direction keeps a node inside the grid |
| Mobility.RandomWalkMove | rml/prgms/simulateur_pdl/farid/code/mobilite.c:75-79 | the random-walk branch keeps the id and reads one draw when it keeps the direction, two when it redraws |
| Mobility.Step | rml/prgms/simulateur_pdl/farid/code/mobilite.c:43-187 | one tick keeps the id and reads one to three draws |
| Mobility.Node.Move | rml/prgms/simulateur_pdl/farid/code/mobilite.c:43-187 | updating the fields in place leaves the node in the state `Step` computes and returns its draw cursor |
| Mobility.Node.SwitchDirection | rml/prgms/simulateur_pdl/farid/code/mobilite.c:84-183 | the sequential assignments of the switch leave the node in the state `Walk` computes |
| Mobility.StaysWhenNotChosen | rml/prgms/simulateur_pdl/farid/code/mobilite.c:47-50 | a move draw at or above `proba_mobilite` leaves every field unchanged and reads only that draw |
| Mobility.WaypointRetargetsOnArrival | rml/prgms/simulateur_pdl/farid/code/mobilite.c:54-57 | the target is replaced only when the node stands on it, by `draw + 1` per axis, inside `[1, taille]`; otherwise it is kept |
| Mobility.WaypointStepsToward | rml/prgms/simulateur_pdl/farid/code/mobilite.c:59-64 | each axis moves by at most one, strictly toward the current target, and not at all when it matches; the direction is untouched |
| Mobility.WaypointStaysInGrid | rml/prgms/simulateur_pdl/farid/code/mobilite.c:54-64 | a node and a target inside the grid stay inside the grid |
| Mobility.DirectionMemory | rml/prgms/simulateur_pdl/farid/code/mobilite.c:75-79 | below 67 the node walks in its last direction without rewriting it; otherwise its last direction becomes a drawn code in 1..8 and it walks in that one |
| Mobility.UnknownDirectionStays | rml/prgms/simulateur_pdl/farid/code/mobilite.c:180-182 | a kept code outside 1..8 reaches `default`, and the node does not move |
| Mobility.WalkFollowsCompass | rml/prgms/simulateur_pdl/farid/code/mobilite.c:84-178 | inside the grid, except for direction 5 from the bottom row, the switch moves by the compass table, clamps each axis that leaves onto the bound it crossed, and turns clockwise exactly when a clamp fires |
| Mobility.SouthEastLeavesGrid | rml/prgms/simulateur_pdl/farid/code/mobilite.c:140-144 | direction 5 from the bottom row takes y to 0, where the clamp to 1 and the turn to 6 were intended; the direction becomes 6 only when the x check fires on the last column, and stays 5 otherwise |
| Mobility.WalkCorrectedFollowsCompass | rml/prgms/simulateur_pdl/farid/code/mobilite.c:132-145 | the corrected switch agrees with the compass-table policy everywhere inside the grid |
| Mobility.CheckOrderIrrelevant | rml/prgms/simulateur_pdl/farid/code/mobilite.c:87-168 | in a diagonal case both checks write the same code, so their order does not change the result |
| Mobility.RandomWalkBounds | rml/prgms/simulateur_pdl/farid/code/mobilite.c:84-183 | from inside the grid a random-walk tick keeps x inside and y at most `taille`; y drops below 1 only from row 1, to exactly 0 |
| Mobility.RandomWalkKeepsCode | rml/prgms/simulateur_pdl/farid/code/mobilite.c:75-177 | a last direction in 1..8 stays in 1..8 |
| Store.Aging | rml/prgms/simulateur_pdl/farid/code/mobilite.c:194 | the age statement raises both ages of exactly the rows with `id <= nb_noeud` and `id != id_noeud` by one, and changes nothing else |
| Store.Relocate | rml/prgms/simulateur_pdl/farid/code/mobilite.c:7 | the position update rewrites the row of that id, if there is one, and no other row |
| Store.Neighbours | rml/prgms/simulateur_pdl/farid/code/mobilite.c:21 | the neighbour select returns exactly the stored ids at most `nb_noeud` within squared distance `portee²` |
| Store.ResetEntry | rml/prgms/simulateur_pdl/farid/code/mobilite.c:36 | a reset row holds the given position in both column groups and both ages are 0 |
| Store.ResetRows | rml/prgms/simulateur_pdl/farid/code/mobilite.c:29-38 | resetting a set of neighbours keeps the table's rows |
| Store.ResetRowsAddOne | rml/prgms/simulateur_pdl/farid/code/mobilite.c:29-38 | one more fetched row is one more single-row update, so the fetched rows can be applied in any order |
| Store.Database.IncrementAges | rml/prgms/simulateur_pdl/farid/code/mobilite.c:194-195 | the in-memory statement leaves `routage` as `Aging` says and `noeuds` alone |
| Store.Database.UpdatePosition | rml/prgms/simulateur_pdl/farid/code/mobilite.c:7-9 | the in-memory statement leaves `noeuds` as `Relocate` says and `routage` alone |
| Store.Database.SelectNeighbours | rml/prgms/simulateur_pdl/farid/code/mobilite.c:21-28 | scanning the rows of `noeuds` one at a time, in no set order, and keeping each row that meets the `where` clause collects exactly `Neighbours` of the current table |
| Store.Database.ResetContact | rml/prgms/simulateur_pdl/farid/code/mobilite.c:36-37 | the in-memory update resets the row `(owner, neighbour)` if it exists, and changes nothing else |
| Simulation.ContactReset | rml/prgms/simulateur_pdl/farid/code/mobilite.c:21-38 | `maj_tab_routage` for one node keeps every row of `routage` and adds none |
| Simulation.ContactResetRows | rml/prgms/simulateur_pdl/farid/code/mobilite.c:21-38 | after `maj_tab_routage` for node a, a row `(a.id, b)` is reset to a's position exactly when b is stored in `noeuds`, numbered at most `nb_noeud` and within squared distance `portee²` of a; every other row is as before |
| Simulation.MovePass | rml/prgms/simulateur_pdl/farid/code/mobilite.c:202-207 | the first list walk keeps the length, the ids in order and the table's ids, and reads one to three draws per node |
| Simulation.ContactPass | rml/prgms/simulateur_pdl/farid/code/mobilite.c:210-214 | the second list walk keeps the table's rows |
| Simulation.SubStep | rml/prgms/simulateur_pdl/farid/code/mobilite.c:201-214 | one iteration of the `for` loop keeps the nodes' ids in order and the rows of both tables |
| Simulation.SubSteps | rml/prgms/simulateur_pdl/farid/code/mobilite.c:201-218 | any number of iterations keeps the nodes' ids in order and the rows of both tables |
| Simulation.SubStepCount | rml/prgms/simulateur_pdl/farid/code/mobilite.c:201 | the number of iterations of the `for` on `vitesse_noeud_max`: its guard `i < vitesse_noeud_max` fails at `i = r` and held at every earlier `i`, so a non-positive bound gives no iteration |
| Simulation.Epoch | rml/prgms/simulateur_pdl/farid/code/mobilite.c:189-221 | an epoch keeps the nodes' ids in order and the rows of both tables |
| Simulation.UpdatePosNoeud | rml/prgms/simulateur_pdl/farid/code/mobilite.c:4-10 | writes the node's position to its row of `noeuds` and leaves `routage` alone |
| Simulation.MajTabRoutage | rml/prgms/simulateur_pdl/farid/code/mobilite.c:13-41 | the select followed by the per-row updates, in whatever order the rows arrive, leaves `routage` reset for exactly the neighbours the select returns |
| Simulation.MoveAll | rml/prgms/simulateur_pdl/farid/code/mobilite.c:202-207 | the first `while (aux)` leaves the nodes, `noeuds` and the cursor as `MovePass` computes, and `routage` alone |
| Simulation.MoveNode | rml/prgms/simulateur_pdl/farid/code/mobilite.c:203-206 | one iteration of the first walk extends the move pass by one node |
| Simulation.MoveOne | rml/prgms/simulateur_pdl/farid/code/mobilite.c:204-205 | `deplacer_noeud` then `update_pos_noeud_BDD` on a node is one `Step` and one `Relocate` |
| Simulation.ResetAllContacts | rml/prgms/simulateur_pdl/farid/code/mobilite.c:210-214 | the second `while (aux)` leaves `routage` as `ContactPass` computes, and `noeuds` alone |
| Simulation.ResetNode | rml/prgms/simulateur_pdl/farid/code/mobilite.c:211-213 | one iteration of the second walk extends the contact pass by one node |
| Simulation.SubStepInPlace | rml/prgms/simulateur_pdl/farid/code/mobilite.c:201-214 | one iteration of the `for` loop, first walk then second, leaves the state `SubStep` computes |
| Simulation.Mobilite | rml/prgms/simulateur_pdl/farid/code/mobilite.c:189-221 | the procedure leaves the nodes, both tables and the cursor as `Epoch` computes |
| SimulationProperties.MovePassWritesPositions | rml/prgms/simulateur_pdl/farid/code/mobilite.c:202-207 | after the first walk, the row of every listed node holds the position that node ended at, and other rows are untouched, so the second walk sees every move |
| SimulationProperties.MovePassKeepsPlaced | rml/prgms/simulateur_pdl/farid/code/mobilite.c:202-207 | the first walk keeps every node placed (x in the grid, y at most `taille`, and in waypoint mode node and target in the grid) |
| SimulationProperties.StepKeepsPlaced | rml/prgms/simulateur_pdl/farid/code/mobilite.c:43-187 | one tick keeps a node placed |
| SimulationProperties.ContactPassEffect | rml/prgms/simulateur_pdl/farid/code/mobilite.c:210-214 | for distinct ids, a row `(A, B)` of a listed node A is reset to A's position exactly when B is among A's neighbours, and is otherwise unchanged; rows of unlisted owners are unchanged |
| SimulationProperties.ContactPassShape | rml/prgms/simulateur_pdl/farid/code/mobilite.c:210-214 | the second walk leaves every row unchanged or reset, and rows of unlisted owners unchanged |
| SimulationProperties.SubStepResetsContacts | rml/prgms/simulateur_pdl/farid/code/mobilite.c:201-214 | after a sub-step, the row `(A, B)` of two listed nodes is reset to A's new position exactly when `B <= nb_noeud` and B's new position lies within `portee` of A's (B = A included), and is otherwise as before |
| SimulationProperties.SubStepShape | rml/prgms/simulateur_pdl/farid/code/mobilite.c:201-214 | a sub-step leaves every row unchanged or reset, and rows of unlisted owners unchanged |
| SimulationProperties.SubStepsShape | rml/prgms/simulateur_pdl/farid/code/mobilite.c:201-218 | any number of sub-steps leaves every row unchanged or reset, and rows of unlisted owners unchanged |
| SimulationProperties.SubStepKeepsPlaced | rml/prgms/simulateur_pdl/farid/code/mobilite.c:201-214 | a sub-step keeps every node placed |
| SimulationProperties.SubStepsKeepPlaced | rml/prgms/simulateur_pdl/farid/code/mobilite.c:201-218 | any number of sub-steps keeps every node placed |
| SimulationProperties.EpochWithoutMobility | rml/prgms/simulateur_pdl/farid/code/mobilite.c:194-200 | with `proba_mobilite` zero, the epoch only ages the rows: no node moves, no position is written, no contact is reset, no draw is read |
| SimulationProperties.EpochAgesOnce | rml/prgms/simulateur_pdl/farid/code/mobilite.c:194-218 | whatever `vitesse_noeud_max` is, every row ends as the single age statement left it or reset, and a row owned by no listed node ends exactly as the age statement left it |
| SimulationProperties.SubStepsKeepApartRow | rml/prgms/simulateur_pdl/farid/code/mobilite.c:201-218 | when b is never a neighbour of a (numbered at most `nb_noeud` and within `portee`) after any of the sub-steps, a's row for b ends exactly as it was before them |
| SimulationProperties.EpochApartAgesOnce | rml/prgms/simulateur_pdl/farid/code/mobilite.c:194-218 | when b is never a neighbour of a after any sub-step, a's row for b ends exactly as the single age statement left it: with `age` and `age_pdl` one higher for a row it ages, and with both remembered positions unchanged |
| SimulationProperties.EpochEndsInContact | rml/prgms/simulateur_pdl/farid/code/mobilite.c:194-218 | two listed nodes in contact at the end of an epoch with mobility on end with their row reset to the owner's final position and both ages 0, so the age increment never follows a reset |
| SimulationProperties.EpochKeepsPlaced | rml/prgms/simulateur_pdl/farid/code/mobilite.c:189-221 | every node placed before an epoch is placed after it |

## Left out

- The SQL text and the MySQL client calls (`sprintf`, `mysql_query`, `mysql_store_result`,
  `mysql_fetch_row`, `mysql_fetch_lengths`, `mysql_free_result`). They are foreign I/O. Each
  statement is modelled by its effect on the maps.
- The results of `mysql_query` at mobilite.c:9 and mobilite.c:37 are ignored by the code. The
  model treats those writes as always taking effect.
- The `exit(1)` paths at mobilite.c:25 and mobilite.c:198. They end the process; the model's
  queries always succeed.
- `(int) pow(portee, 2)` at mobilite.c:21 is computed in floating point. The model uses
  `portee * portee`, which agrees for the integer `portee` the code passes.
- The id of a fetched row is the stored integer. A null `Id` (the `"NULL"` text at
  mobilite.c:33) and the 10-byte buffer `Id_noeud` are not modelled: the table `noeuds` maps
  integer ids to positions.
- `printf` diagnostics (mobilite.c:24, 181, 197) and all commented-out code (the wrap-around
  variants, the variable distance, the plain random direction, `impr_topo`).
- The fallback paths of `gener_alea` (generateur2.c:9-17) read no entropy device. They return
  the unreduced `(rand() ^ getpid()) << 5`, and line 10 assigns a comparison to `fd` because of
  operator precedence. `rand`, `getpid` and the device are outside the model. Only the success
  path of generateur2.c:20 is modelled, as the stream `rng` handed to every operation.
- Alea.Draw: requires a bound of at least 1. In generateur2.c:20 the usual arithmetic
  conversions turn a negative `taille` into the unsigned `taille + 2³²`. The C code then does
  not divide by zero; it returns a value outside `[0, taille)`, which the model does not
  reproduce. Only `taille == 0` divides by zero. Of the modelled calls, that happens only on the
  retarget path of waypoint mode (mobilite.c:54-57), when the node stands on its target.
  `Simulation.Drawable` still demands `taille >= 1` for every waypoint-mode call, including one
  where no node would retarget. The random walk draws only modulo the constants 100 and 8.
- The age statement overflows its buffer. mobilite.c:191 declares `char requete[80]`, and the
  `sprintf` at mobilite.c:194 writes the 79 fixed characters of its format, at least one digit
  of `nb_noeud` and the terminating NUL: 81 bytes or more, one byte or more past the end. That
  is undefined behaviour in C for every `nb_noeud`. The model assumes the statement reaches the
  database intact, as formatted. `Store.Aging`, `Store.Database.IncrementAges` and every lemma
  about the ages rest on that assumption.
- C `int` overflow is not modelled: coordinates, ages and `portee * portee` are unbounded
  integers.
- The `noeud` struct and the construction of the linked list live in files that are not part of
  this model. The list is a sequence of distinct `Node` objects in `next` order, and only the
  fields the mobility code uses are modelled.
- `Mobility.Walk` is the switch as written, defect included. The stepping model and the epoch
  use it, not `Mobility.WalkCorrected`, because they describe what the program does.

## Findings

| source | as written | input that shows it | evidently intended | confidence | as-written member | corrected member |
|---|---|---|---|---|---|---|
| rml/prgms/simulateur_pdl/farid/code/mobilite.c:140 | the y check of direction 5 (south-east) tests `posY - dist > taille`, the upper bound, so it never fires on a downward step | a node inside the grid at `y = 1` walking in direction 5 ends at `y = 0`, outside the grid; the y check does not turn it, so below the last column it keeps direction 5 | test `posY - dist < 1`, as directions 6 and 7 do: clamp to `y = 1` and turn to direction 6 | not executed | Mobility.SouthEastLeavesGrid | Mobility.WalkCorrected |

`Mobility.WalkCorrectedFollowsCompass` proves that the corrected switch agrees with the
compass-table policy everywhere inside the grid. `Mobility.WalkFollowsCompass` proves that the
switch as written agrees with that policy everywhere else.
