# Missionaries and cannibals: the rule engine

This project models the rule engine of a missionaries-and-cannibals game (`gameFunctions.py`).

Three missionaries, three cannibals and a boat start on one bank of a river. The player clicks a group of one or two people together with the boat. The boat then ferries them to the other bank. The game is lost when, on either bank, cannibals outnumber missionaries who are present there. It is won when everybody is on the far bank.

The engine consists of four parts:

- a transition table from world states to moves (`create_gamegraph`);
- a catalog of the 21 boarding groups (`passengers`);
- the composition tag of each group (`passengersCombination`);
- the part of the game loop that turns a click into a move and reads the table's terminal markers.

The project has four modules:

- `Puzzle` (`puzzle.dfy`) holds the puzzle itself:
  - the world state `(m, c, b)`: missionaries and cannibals on the start bank, and the boat bit;
  - the five composition tags `m`, `c`, `2m`, `2c` and `mc`;
  - the arithmetic of one crossing (`Next`);
  - the bank-safety rule (`Safe`).
- `GameGraph` (`gamegraph.dfy`) holds the transition table. `AsWritten` is the table exactly as the game writes it. `Fixed` is the same table with its three arithmetic slips corrected (see Findings).
  - It states what the game loop relies on of such a table: closure and classification by bank safety.
  - It also states two properties the loop does not rely on: tag availability, and a descent bound on the distance to the goal, which serves to prove the 11-crossing minimum.
  - It proves all of these for both tables.
  - It also proves:
    - the known 11-crossing solution;
    - that no shorter winning path exists;
    - which moves follow the crossing arithmetic and which do not.
- `Passengers` (`passengers.dfy`) holds the catalog and the tags. It proves:
  - every entry is one or two people plus the boat, within the boat's capacity;
  - every tag is the composition of its group;
  - the tag counts;
  - a clicked set is found in the catalog exactly when it is a legal boarding.
- `Session` (`session.dfy`) holds the game loop's arbitration, as a class whose fields the loop updates:
  - the current state, the action (`listen`, `ferry`, `failure`, `success`) and the move count;
  - a ghost record of the tags taken so far.

  `Select` is one listening step. It is the double scan over the two dictionaries, written as the two nested loops of the source. `FerryDone` is the ferry's landing.

  Their contracts have the following effect:
  - every lookup finds its key;
  - the state is always where the recorded moves lead in the table;
  - the move count counts departures;
  - a game only ends in failure on an unsafe state;
  - a game only ends in success at the goal, after at least 11 moves of the table.

  The session is generic over the table it consults. Any table satisfying `IsPuzzleGraph` will do: a non-terminal start, closure and classification, plus the descent bound that yields the 11-crossing minimum, and both `AsWritten` and `Fixed` are proved to be one.

## Model

| member | source | states |
|---|---|---|
| Passengers.WellFormedIsLegal | gameFunctions.py:379-401 | the members of a well-formed entry (at most `BOAT_MAX_CAPACITY` = 2 people plus the boat) form a legal boarding |
| Puzzle.Missionaries | gameFunctions.py:416-438 | a tag puts at most two missionaries in the boat |
| Puzzle.Cannibals | gameFunctions.py:416-438 | a tag puts at most two cannibals in the boat |
| Puzzle.TagHeadcount | gameFunctions.py:416-438 | every composition tag carries one or two people, never more than the boat's capacity |
| Puzzle.UnsafeMeansOutnumbered | gameFunctions.py:352-362 | for in-range states, a state is unsafe exactly when, on some bank, 0 < missionaries < cannibals |
| Puzzle.Next | gameFunctions.py:331-351 | a crossing flips the boat bit; it takes the composition off the start bank when the boat is there, and off the far bank otherwise |
| Puzzle.NextInRange | gameFunctions.py:331-351 | an available crossing keeps every count within 0..3 and the boat bit in {0, 1} |
| Puzzle.NextRoundTrip | gameFunctions.py:331-351 | after a crossing, the same composition is available to cross back, and crossing back restores the state |
| GameGraph.AsWrittenClosed | gameFunctions.py:330-363 | every state the table moves to is a key of the table, so the loop's lookup never misses |
| GameGraph.AsWrittenClassified | gameFunctions.py:352-363 | every key is in range; an entry is "failure" exactly when the state is unsafe, and "success" exactly at (0,0,0) |
| GameGraph.AsWrittenKeysInRange | gameFunctions.py:330-363 | every key of the table has counts in 0..3 and a boat bit in {0, 1} |
| GameGraph.AsWrittenFailures | gameFunctions.py:352-362 | a key is marked "failure" exactly when some bank is unsafe |
| GameGraph.AsWrittenSuccess | gameFunctions.py:363 | (0,0,0) is the only key marked "success" |
| GameGraph.AsWrittenTagsAvailable | gameFunctions.py:331-351 | a non-terminal state offers a tag exactly when that composition can board at the boat's bank |
| GameGraph.AsWrittenTagsAt | gameFunctions.py:331-351 | the same, for one state and one tag, in both directions |
| GameGraph.AsWrittenArithmetic | gameFunctions.py:331-351 | every offered move other than the three anomalous ones is exactly one crossing (`Next`) |
| GameGraph.AsWrittenAnomalies | gameFunctions.py:341-344 | "c" from (2,2,1) goes to (2,2,0), which is not the crossing (2,1,0); the crossing would be unsafe, (2,2,0) is safe. "2m" and "2c" from (1,1,0) go to (3,1,0) and (1,3,0), leaving the boat bit at 0 |
| GameGraph.AsWrittenNoRoundTrip | gameFunctions.py:339-344 | "2m" takes (3,1,1) to (1,1,0), but "2m" back from (1,1,0) does not return to (3,1,1), so crossing back does not always undo a crossing in the written table |
| GameGraph.AsWrittenDescends | gameFunctions.py:330-363 | no move gets more than one step closer to the goal |
| GameGraph.AsWrittenIsPuzzleGraph | gameFunctions.py:330-363 | the table has what the game loop relies on (non-terminal start, closure, classification) and the descent bound behind the 11-move minimum |
| GameGraph.AsWrittenDeadEntry | gameFunctions.py:362 | no move of the table leads to (2,0,1), although it is listed as "failure" |
| GameGraph.AsWrittenEdges | gameFunctions.py:331-345 | "2c" from the start goes to (3,1,0), "c" from (3,1,0) goes to (3,2,1), and "mc" from (1,1,1) reaches the goal |
| GameGraph.AsWrittenSolutionEdges | gameFunctions.py:331-344 | the first six moves of the 11-crossing solution are offered and lead where the solution says |
| GameGraph.AsWrittenSolutionEdges2 | gameFunctions.py:341-351 | the last five moves of the solution are offered and lead where the solution says |
| GameGraph.AsWrittenSolution | gameFunctions.py:330-363 | the 11-crossing solution leads from (3,3,1) to (0,0,0), and no winning path is shorter |
| GameGraph.FixedAgrees | gameFunctions.py:330-363 | the corrected table has the same keys, markers and offered tags as the written one, and the same targets except for the three anomalous moves |
| GameGraph.FixedRepairs | gameFunctions.py:341-344 | in the corrected table "c" from (2,2,1) goes to (2,1,0), and "2m" and "2c" from (1,1,0) go to (3,1,1) and (1,3,1) |
| GameGraph.FixedClosed | gameFunctions.py:330-363 | the corrected table is closed |
| GameGraph.FixedClassified | gameFunctions.py:352-363 | the corrected table's markers agree with the bank-safety rule |
| GameGraph.FixedTagsAvailable | gameFunctions.py:331-351 | the corrected table offers a tag exactly when the composition can board |
| GameGraph.FixedArithmetic | gameFunctions.py:331-351 | every move of the corrected table is exactly one crossing |
| GameGraph.FixedRoundTrip | gameFunctions.py:330-363 | in the corrected table, crossing back with the same composition from a non-terminal state is offered and returns to where the crossing started |
| GameGraph.FixedDescends | gameFunctions.py:330-363 | no move of the corrected table gets more than one step closer to the goal |
| GameGraph.FixedDescendsAt | gameFunctions.py:341-344 | the same for a single move, the repaired ones included |
| GameGraph.FixedIsPuzzleGraph | gameFunctions.py:330-363 | the corrected table has what the game loop relies on and the descent bound |
| GameGraph.FixedSolutionWalk | gameFunctions.py:330-363 | the 11-crossing solution also wins in the corrected table |
| GameGraph.FixedSolution | gameFunctions.py:330-363 | no winning path through the corrected table is shorter than 11 crossings |
| GameGraph.RunStaysInGraph | gameFunctions.py:182-183 | in a closed table, following any offered sequence of tags from a key ends at a key |
| GameGraph.RunStopsAtTerminal | gameFunctions.py:193-198 | a terminal entry offers no move |
| GameGraph.NoShortcut | gameFunctions.py:182-183 | in a table where no move descends by more than one step, reaching the goal takes at least `Remaining(s)` moves |
| GameGraph.RunSnoc | gameFunctions.py:182-183 | taking one more offered move extends the followed path by that move's target |
| GameGraph.SolutionWalk | gameFunctions.py:182-183 | any table offering the solution's 11 moves takes the solution from (3,3,1) to (0,0,0) |
| Passengers.CatalogKeys | gameFunctions.py:379-401 | both dictionaries have the same 21 keys, those of the catalog order |
| Passengers.CatalogOrderDistinct | gameFunctions.py:379-401 | the 21 keys are pairwise distinct |
| Passengers.CatalogEntry | gameFunctions.py:379-401 | every entry lists one or two distinct people of the roster and then the boat, at most the boat's capacity. Its tag is the composition of its people, and its key is the code of its members |
| Passengers.CompositionCounts | gameFunctions.py:416-438 | a group has a tag exactly when it holds the missionaries and cannibals that tag names, so `Composition` inverts `Missionaries`/`Cannibals` |
| Passengers.EntryCounts | gameFunctions.py:379-438 | every catalog entry's tag names exactly the missionaries and cannibals the entry lists, so its crossing carries that group |
| Passengers.TagCounts | gameFunctions.py:416-438 | the tag dictionary maps 3 keys each to "m", "c", "2m" and "2c", and 9 keys to "mc" |
| Passengers.GroupsDistinct | gameFunctions.py:379-401 | no two keys list the same set of actors |
| Passengers.SingleInCatalog | gameFunctions.py:380-385 | each single person with the boat is an entry |
| Passengers.MissionaryPairInCatalog | gameFunctions.py:386-388 | each pair of missionaries with the boat is an entry |
| Passengers.CannibalPairInCatalog | gameFunctions.py:389-391 | each pair of cannibals with the boat is an entry |
| Passengers.MixedPairInCatalog | gameFunctions.py:392-400 | each missionary with a cannibal and the boat is an entry |
| Passengers.PairInCatalog | gameFunctions.py:386-400 | each pair of distinct people with the boat is an entry |
| Passengers.CatalogComplete | gameFunctions.py:379-401 | a set of actors is an entry exactly when it is the boat with one or two people of the roster |
| Passengers.FindGroup | gameFunctions.py:172-179 | the scan finds a key whose group is exactly the clicked set, or reports that none is |
| Passengers.Selected | gameFunctions.py:172-182 | a clicked set has a tag exactly when it is a legal boarding. The tag is the dictionary's tag for the set's key, and it is the composition of the set |
| Passengers.SelectedAt | gameFunctions.py:172-182 | when the group at some position of the catalog is the clicked set, the selected tag is the one at that position |
| Passengers.UnlistedUntagged | gameFunctions.py:172-179 | a clicked set that matches no catalog group has no tag |
| Session.Landing | gameFunctions.py:193-198 | the action after landing is "failure" exactly on a failure marker, "success" exactly on a success marker, and "listen" exactly on an entry with moves |
| Session.Session.constructor | gameFunctions.py:151-154 | a session starts at (3,3,1), listening, with no moves counted |
| Session.Session.Select | gameFunctions.py:161-189 | the listening step (see below) |
| Session.Session.TakeTag | gameFunctions.py:180-189 | the inner scan of the tag dictionary finds the key's tag and takes that move when the state offers it |
| Session.Session.FerryDone | gameFunctions.py:190-206 | on landing, the action becomes what the table's entry for the new state says, and the session ends exactly on a terminal marker; a "failure" ending is on an unsafe state, and a "success" ending is at the goal after at least 11 moves of the table (the recorded trail; the on-screen count equals it when every outcome is `Coherent`) |

What `Session.Session.Select` states:

- The step keeps the session valid.
- It moves only when:
  - something was clicked;
  - the click is on an actor;
  - the clicked set is a catalog group;
  - the state offers its tag.
- When it moves, it takes the table's move for that tag.
- It departs, and counts one move, only when the boat was clicked with somebody aboard.

## Left out

- Window, sprite, font and sound handling: `initialize_game`, `create_actors`, `welcomeScreen`, `gameExplanationScreen`, `failure`, `success`, `display_movement_count`, and the render/flip/tick part of `game_loop`. These are presentation only.
- `get_mouse_click` is modelled only by its outcome, passed to `Select`:
  - the clicked set;
  - the handler's second result: `true` or `false` after seating or unseating somebody, whether anybody is aboard after a click on the boat, and none when nothing was hit or the clicked person could not board (wrong bank, or the boat full);
  - how many people were aboard before the click.

  `Coherent` states what the handler guarantees of that outcome:
  - at most `BOAT_MAX_CAPACITY` people are aboard, because nobody boards a full boat;
  - seating or unseating somebody drops the boat from the selection;
  - so a selection that holds the boat comes from a click on the boat, which reports whether anybody is aboard;
  - every person such a selection keeps is aboard.

  `Select` does not require `Coherent`. Under it, every move `Select` takes also departs. Hit-testing and sprite repositioning are pixel geometry.
- `ferry` and `ferry_step` (the animation and its direction) are left out. Their completion is the single event `FerryDone`. `ferry_who` is assigned but never read.
- `sys.exit` after a terminal screen is modelled by the `Failure` and `Success` actions, after which nothing is called.
- Actors are the values `Missionary(n)`, `Cannibal(n)` and `Boat`, in place of the game's dictionaries. Comparing `(file, original_position)` pairs becomes set equality of actors. `passengers` has no list parameters: `missionaries[i]` is `Missionary(i + 1)`.
- Session.Session.Select: on a state whose entry is a terminal marker, the game's membership test `values2 in gamegraph[gamestate]` is a substring test on a string. The test "c" in "success" would succeed, and the following lookup would raise an error. The model treats a terminal entry as offering no tag. Such a state is only reached when the mouse handler's outcome moves the state without departing.
- main.py is not part of this model. It only wires the constructors to `game_loop`.

## Findings

| source | as written | input that shows it | evidently intended | confidence | as-written member | corrected member |
|---|---|---|---|---|---|---|
| gameFunctions.py:341 | "c" from (2,2,1) leads to (2,2,0) | one cannibal crossing from (2,2,1) | (2,1,0), a failure state, since one cannibal leaves the start bank | high; not executed | GameGraph.AsWrittenAnomalies | GameGraph.FixedArithmetic |
| gameFunctions.py:344 | "2m" from (1,1,0) leads to (3,1,0), with the boat still at the far bank | two missionaries crossing back from (1,1,0) | (3,1,1): the boat returns to the start bank | high; not executed | GameGraph.AsWrittenAnomalies | GameGraph.FixedArithmetic |
| gameFunctions.py:344 | "2c" from (1,1,0) leads to (1,3,0), with the boat still at the far bank | two cannibals crossing back from (1,1,0) | (1,3,1), a failure state with the boat at the start bank | high; not executed | GameGraph.AsWrittenAnomalies | GameGraph.FixedArithmetic |

Notes on the findings:

- The corrected table keeps everything else:
  - `GameGraph.FixedIsPuzzleGraph` proves closure and classification;
  - `GameGraph.FixedSolutionWalk` proves that the 11-crossing solution still wins;
  - `GameGraph.FixedSolution` proves that no winning path is shorter.
- The "2m" slip breaks the round trip on the solution's own fifth move (`GameGraph.AsWrittenNoRoundTrip`). In the corrected table, crossing back always undoes a crossing (`GameGraph.FixedRoundTrip`).
- The table's "failure" entry for (2,0,1) has no inbound move (`GameGraph.AsWrittenDeadEntry`). It is dead data, not an error.
