# CodeQuest 2023 tank bot: the `Game` object

This project models the `Game` class of the CodeQuest 2023 Python tank bot
(`src/game.py`). It covers three parts of the class.

- **Start-up (`__init__`).** The `updated_objects` of each init message are
  merged, in arrival order, into the object table. Then one pass over the
  table collects the boundaries and caches the walls and destructible walls.
  Finally the map `width` and `height` are set to the largest X and the
  largest Y over all boundary vertices.
- **Turn reading (`read_next_turn_data`).** On the end signal the method
  reports that the game is over. Otherwise it deletes the listed ids, skipping
  any that are absent, and then applies the `updated_objects` as full-record
  replacements.
- **Turn response (`respond_to_turn`).** The method counts the tick and runs
  a five-step cascade:
  1. escape the closing boundary;
  2. evade an approaching bullet;
  3. at low hp, head for the nearest powerup;
  4. engage the enemy;
  5. shoot when the enemy is close.

  It returns the payload to post and keeps the `last_path_requested` memo
  across turns.

The modules are:

- `GameObjects` (objects.dfy): object records and type tags.
- `Tables` (tables.dfy): the object table as a Python dict, meaning records
  plus key insertion order. It holds `update`, `del`, the merge of the init
  stream, and the filter over `objects.values()`.
- `Extent` (extent.dfy): the map size comprehension.
- `DecisionEngine` (decision.dfy): each cascade step as a function of a
  `Draft` (`to_post`, `path_updated` and the memo), the whole turn as
  `Decide`, and the lemmas about it.
- `Scans` (scans.dfy): the loops of the cascade, each proved against its step
  function.
- `Startup` (startup.dfy): the start-up work on values: the merge loop, the
  partition loop and the map size, and the state they leave.
- `Bot` (game.dfy): steps 1 to 3 of the cascade run on local variables, and
  the class `Game`. The
  class's fields are the table (`objects` plus `order`), the wall cache, the
  size, the memo, the tick and the current message. Its methods change those
  fields.

Python dict iteration order matters to the bot. The first threatening bullet
wins, and the earliest powerup wins a distance tie. So the table keeps the
order its keys were inserted in. Existing keys keep their place on `update`,
new ones go at the end, and `del` removes a key from the order.

Four behaviours of the code are reproduced as written:

- **Engage guard.** `not path_updated and last is None or last != enemy_pos`
  parses as `(not path_updated and last is None) or last != enemy_pos`. That
  is simply "the memo is not the enemy's position", so the guard ignores
  whether a path was already set.
- **Wall tests.** `en > w - 9 or en < w + 9` holds for every wall. So one
  cached wall clears both `noWallX` and `noWallY`, and the engage step never
  sets a path.
- **Zero walls.** With no wall cached, the guard still leads to `[en_x, ...]`,
  but `en_x` is bound only inside the wall loop. That turn dies with
  `UnboundLocalError`, which the model calls `Outcome.Crashed`.
- **Escape target.** It comes from `random.uniform` on the inset rectangle.
  It lies inside that rectangle only when the rectangle is not inverted.
  `random.uniform` can return its lower bound, so the target is not strictly
  inside.

## Model

| member | source | states |
|---|---|---|
| `Tables.Update` | src/game.py:99 | `dict.update`: every pushed id holds exactly the pushed record, other ids keep theirs, nothing else appears; old ids keep their order and new ids follow, each one new to the table |
| `Tables.UpdateKeepsOrder` | src/game.py:99 | two ids new to the table join it in the order the pushed dict lists them |
| `Tables.WithoutMembers` | src/game.py:92 | removing ids from the key order keeps exactly the ids not removed |
| `Tables.WithoutConcat` | src/game.py:92 | removing ids from a concatenation of key orders removes them from each part, so every kept id stays in place |
| `Tables.WithoutKeepsOrder` | src/game.py:92 | two kept ids stay in the relative order they had |
| `Tables.UpdateKeepsValid` | src/game.py:43 | an update of a well-formed table by a well-formed dict leaves every id listed exactly once |
| `Tables.DeleteOne` | src/game.py:91-94 | `del objects[id]`, with `KeyError` swallowed: the id is gone, every other record stays, and the order stays duplicate-free |
| `Tables.Delete` | src/game.py:90-94 | the deletion loop: exactly the listed ids leave the table, the other records are unchanged |
| `Tables.DeleteKeys` | src/game.py:90-94 | after the deletion loop the key order is the old one with the listed ids removed |
| `Tables.DeleteKeepsOrder` | src/game.py:90-94 | two ids that survive the deletion loop keep their relative order |
| `Tables.DeleteAbsent` | src/game.py:90-94 | deleting ids that are not in the table leaves the table, order included, exactly as it was |
| `Tables.ApplyTurn` | src/game.py:90-99 | one turn's delta: an updated id holds the pushed record even if it was also deleted; a deleted id that was not updated is absent; an id neither deleted nor updated keeps its record; no other id appears |
| `Tables.ApplyTurnKeepsValid` | src/game.py:90-99 | a turn's delta keeps every id listed exactly once |
| `Tables.AbsentDeletionsIgnored` | src/game.py:90-94 | deleting only absent ids makes the turn the same as the bare update |
| `Tables.MergeAll` | src/game.py:37-46 | the init stream merged into an empty dict in arrival order; its properties are `MergeAllLastWins`, `MergeAllOnlyInitIds` and `MergeAllKeepsValid` |
| `Tables.MergeAllLastWins` | src/game.py:37-46 | after the init stream, an id holds the record of the last init message that mentioned it |
| `Tables.MergeAllOnlyInitIds` | src/game.py:37-46 | the merged table holds only ids that some init message carried |
| `Tables.MergeAllKeepsValid` | src/game.py:37-46 | merging well-formed init messages gives a table whose ids are each listed exactly once |
| `Tables.Select` | src/game.py:53-61 | the loop over `objects.values()` collects only records of the chosen types, and records shaped as their type promises stay so |
| `Tables.SelectFrom` | src/game.py:53-61 | every collected record is the record of some id in the table |
| `Tables.SelectFinds` | src/game.py:53-61 | no record of a chosen type is missed |
| `Tables.SelectConcat` | src/game.py:53-61 | collecting over a concatenation of key orders is collecting over each part in turn, so each id contributes its own record once and in place |
| `Tables.SelectKeepsOrder` | src/game.py:53-61 | two records of a chosen type are collected in the order of their ids |
| `Extent.MaxOf` | src/game.py:69 | the inner `max` over one boundary's vertices is at least every vertex's coordinate and equals one of them |
| `Extent.MaxCoord` | src/game.py:68-71 | the largest coordinate on an axis over all boundary vertices; its property is `MaxCoordIsLargest` |
| `Extent.MaxCoordIsLargest` | src/game.py:68-71 | the size on an axis is at least every coordinate of every boundary vertex, and some vertex attains it |
| `DecisionEngine.SafeRect` | src/game.py:124-128 | the safe rectangle is the closing boundary one tick ahead, 100 narrower and 100 lower than its corner spans |
| `DecisionEngine.Uniform` | src/game.py:131-132 | `random.uniform(a, b)` lies between `a` and `b` when `a <= b` |
| `DecisionEngine.BoundaryStep` | src/game.py:130-136 | step 1 never touches `shoot`; it sets a path exactly when the tank is outside the safe rectangle, and the memo becomes that path |
| `DecisionEngine.FirstThreat` | src/game.py:139-150 | no bullet threatens when none is found; otherwise the found id is a threatening bullet and no earlier id threatens |
| `DecisionEngine.EvadeStep` | src/game.py:139-150 | step 2 never touches `shoot` or the memo; it changes the draft exactly when no path is set and some bullet threatens, and then the path is the dodge from the first threatening bullet; otherwise the draft stays as it was |
| `DecisionEngine.NearestIndex` | src/game.py:160-165 | the pick is at least as close as every powerup and strictly closer than every earlier one, so ties go to the earliest |
| `DecisionEngine.LowHpTarget` | src/game.py:154-167 | the low-hp target in table terms: with no type-7 record it is the enemy's position; otherwise it is the position of a type-7 record at least as close to the tank as every other one and strictly closer than every earlier one in iteration order |
| `DecisionEngine.PowerupStep` | src/game.py:154-179 | step 3 never touches the memo; it acts exactly when no path is set and `hp <= 3`, and then always sets a path |
| `DecisionEngine.EngageStep` | src/game.py:182-204 | the engage step never touches `shoot` |
| `DecisionEngine.EngageGuardIsMemoCheck` | src/game.py:182 | the engage guard holds exactly when the memo differs from the enemy's position |
| `DecisionEngine.NoWallOnlyWithoutWalls` | src/game.py:187-195 | `noWallX` and `noWallY` each survive the wall loop exactly when no wall is cached |
| `DecisionEngine.EngageNeverMoves` | src/game.py:182-204 | the engage step keeps the path and the memo; it dies exactly when no wall is cached and the memo is not the enemy's position |
| `DecisionEngine.ShootStep` | src/game.py:209-220 | step 5 never touches the path or the memo; afterwards `shoot` is set if it was before or the enemy is close |
| `DecisionEngine.Planned` | src/game.py:117-179 | after steps 1 to 3 a path is set exactly when `path_updated` is, and a memo that moved is the path |
| `DecisionEngine.Decide` | src/game.py:107-220 | the whole turn on values: its properties are `DecideFollowsPlan` and `ShootWhenClose` |
| `DecisionEngine.PlanPriority` | src/game.py:122-167 | outside the safe rectangle the escape target is the path and the new memo; otherwise the memo is kept, the first threatening bullet sets the dodge, then at `hp <= 3` the nearest powerup or the enemy's position is the path, and with none of these there is no path |
| `DecisionEngine.DecideFollowsPlan` | src/game.py:182-220 | the turn posts the path of the first three steps and keeps their memo; it dies exactly when no wall is cached and that memo is not the enemy's position |
| `DecisionEngine.ShootWhenClose` | src/game.py:209-220 | a posted `shoot` is the aim at the enemy exactly when the distance heuristic is under 500, and is absent otherwise, whatever step 3 set |
| `Scans.FindThreat` | src/game.py:139-150 | the bullet loop picks the first threatening bullet, and none once a path is set |
| `Scans.CollectPowerups` | src/game.py:155-158 | the powerup loop collects the type-7 positions in iteration order |
| `Scans.NearestPowerup` | src/game.py:160-165 | the argmin loop with `min_dist` starting at infinity ends on the nearest powerup, or on the enemy's position with none |
| `Scans.ScanWalls` | src/game.py:184-195 | the wall loop leaves `noWallX`/`noWallY` true exactly when no wall passed the X/Y test |
| `Scans.Engage` | src/game.py:182-204 | the engage code computes the engage step, crash included |
| `Startup.BoundariesOutlined` | src/game.py:53-71 | a table with a boundary, whose records have their shapes, gives a non-empty list of boundaries, each with a vertex, and walls that are points |
| `Startup.MergeInits` | src/game.py:37-46 | the init loop leaves the merge of the init stream in arrival order, each id listed once |
| `Startup.Partition` | src/game.py:53-61 | the partition loop collects exactly the boundaries and exactly the walls and destructible walls, in iteration order |
| `Startup.StartUp` | src/game.py:37-74 | start-up ends with the merged table, its wall cache, and the size of its boundaries (`StartedFrom`) |
| `Bot.PlanPath` | src/game.py:117-179 | the first three steps, run in place on `to_post` and `path_updated`, give the planned draft |
| `Bot.Game.constructor` | src/game.py:21-74 | a new game holds the merged init stream, its walls and its size, tick 0, no memo and no current message |
| `Bot.Game.UpdateObjects` | src/game.py:99 | `objects.update(d)` changes the table to the update, which keeps it well-formed |
| `Bot.Game.DeleteObjects` | src/game.py:90-94 | the `del` loop changes the table to the deletion of the listed ids |
| `Bot.Game.ReadNextTurnData` | src/game.py:82-101 | returns false on the end signal, leaving the table as it was; otherwise returns true with the turn's delta applied; the wall cache and the size never change |
| `Bot.Game.RespondToTurn` | src/game.py:103-227 | the tick goes up by one, and the outcome and the new memo are those of the cascade on the table, the walls and the old memo |

## Left out

- Message transport. `comms.read_message` and `comms.post_message` are not
  part of this model. The id message and the init stream are constructor
  parameters, a turn message is a `TurnMessage` parameter, and the posted
  payload is the `Outcome` that `RespondToTurn` returns.
- The stderr diagnostics (`print`) are left out; they are logging only.
- Floating point and randomness. `math.atan2`, `math.tan` and `round(., 1)`
  are uninterpreted functions in `Numerics`. The two `random()` draws of the
  boundary step are parameters. Coordinates are exact reals, and NaN and
  infinities are not modelled.
- `DecisionEngine.Uniform`: only the `a <= b` bound is stated. The escape
  target is rounded by an uninterpreted function, so no bound on it is
  claimed.
- The `object_types` module is not part of this model. The tags for wall,
  destructible wall and boundary are distinct constants of this model, and
  bullets and powerups use the literals 2 and 7 as the code does.
- Missing lookups. The fatal `KeyError`s on the tank, the enemy and
  `closing_boundary-1` are not modelled. Neither are a start-up with no
  boundary (`max` of an empty list) and records that lack the shape their
  type implies. These are preconditions (`TurnReady`, `StartReady`).
- `current_turn_message` holds the parsed `TurnMessage`, not the raw JSON.
- The key order of the posted `to_post` dict is not modelled. `Payload`
  keeps only which keys are present and their values.
- `Bot.Game.RespondToTurn` returns `Crashed` for the zero-wall engage turn.
  In Python that turn raises instead, leaving `tick` incremented and the memo
  as the boundary step left it. The model keeps that state too, but it does
  not model the exception escaping to the caller.
