/**
 * The bot object: its start-up (merging the init stream, caching walls,
 * deriving the map size), the per-turn delta application, and the per-turn
 * response with its tick counter and path memo.
 */
module Bot {
  import opened GameObjects
  import opened Tables
  import opened DecisionEngine
  import opened Scans
  import opened Startup

  /** A message read once the game runs: the end signal, or one turn's delta. */
  datatype TurnMessage = EndSignal | Delta(deletedObjects: seq<string>, updatedObjects: ObjectTable)

  /**
   * Steps 1 to 3 of `respond_to_turn`, the ones that may choose a path: escape
   * the closing boundary, evade an approaching bullet, or head for the nearest
   * powerup at low hp. `last` is the path memo as it enters the turn; the
   * draft carries it as the boundary step leaves it.
   */
  method PlanPath(t: ObjectTable, walls: seq<Obj>, tankId: string, enemyId: string,
                  last: Option<Vec>, u: real, v: real, num: Numerics) returns (d: Draft)
    requires TurnReady(t, walls, tankId, enemyId) && Draw(u) && Draw(v)
    ensures d == Planned(t, walls, tankId, enemyId, last, u, v, num)
  {
    var path: Option<Vec> := None;
    var shoot: Option<real> := None;
    var pathUpdated := false;
    var memo := last;
    var myTank := t.entries[tankId];
    var me := myTank.position.p;
    var enemy := t.entries[enemyId].position.p;

    // Stay inside the closing boundary.
    var bound := SafeRect(t.entries[ClosingBoundaryId]);
    if Outside(me, bound) {
      var target := EscapeTarget(bound, u, v, num);
      memo := Some(target);
      path := Some(target);
      pathUpdated := true;
    }
    ghost var d1 := BoundaryStep(Draft(None, None, false, last), me, bound, u, v, num);
    assert Draft(path, shoot, pathUpdated, memo) == d1;

    // Evade an approaching bullet.
    var threat := FindThreat(t.keys, t.entries, me, pathUpdated);
    if threat.Some? {
      path := Some(Dodge(me, t.entries[threat.value], num));
      pathUpdated := true;
    }
    assert Draft(path, shoot, pathUpdated, memo) == EvadeStep(d1, t.keys, t.entries, me, num);

    // Low on hp: head for the nearest powerup, and shoot if close.
    if !pathUpdated && myTank.hp.value <= 3 {
      var spots := CollectPowerups(t.keys, t.entries);
      var target := NearestPowerup(spots, me, enemy);
      path := Some(target);
      pathUpdated := true;
      if Coarse(me, enemy) < 500.0 {
        shoot := Some(Aim(me, enemy, num));
      }
    }
    d := Draft(path, shoot, pathUpdated, memo);
  }

  class Game {
    const tankId: string
    const enemyTankId: string
    var currentTurnMessage: Option<TurnMessage>
    /** The path memo: the last target the boundary or engage step asked for. */
    var lastPathRequested: Option<Vec>
    var tick: nat
    /** The object table: records by id, and the order the dict iterates its ids in. */
    var objects: map<string, Obj>
    var order: seq<string>
    /** The wall-like records known at the end of start-up, never refreshed. */
    var walls: seq<Obj>
    var width: real
    var height: real

    ghost function Table(): ObjectTable
      reads this`order, this`objects
    {
      ObjectTable(order, objects)
    }

    ghost predicate Valid()
      reads this`order, this`objects, this`walls
    {
      Table().Valid() && PointWalls(walls)
    }

    /**
     * Start-up: the init messages' `updated_objects` are merged in order; then
     * the walls and destructible walls are cached, and the map size is the
     * largest X and Y over all boundary vertices.
     */
    constructor (yourTankId: string, enemyId: string, inits: seq<ObjectTable>)
      requires forall i | 0 <= i < |inits| :: inits[i].Valid()
      requires StartReady(MergeAll(inits))
      ensures Valid() && StartedFrom(inits, Table(), walls, width, height)
      ensures tankId == yourTankId && enemyTankId == enemyId
      ensures tick == 0 && lastPathRequested.None? && currentTurnMessage.None?
    {
      var t, cached, w, h := StartUp(inits);
      tankId := yourTankId;
      enemyTankId := enemyId;
      currentTurnMessage := None;
      lastPathRequested := None;
      tick := 0;
      objects := t.entries;
      order := t.keys;
      walls := cached;
      width := w;
      height := h;
    }

    /** `objects.update(d)`: full-record replacement or insertion, per id. */
    method UpdateObjects(d: ObjectTable)
      requires Valid() && d.Valid()
      modifies this`objects, this`order
      ensures Valid() && Table() == Update(old(Table()), d)
    {
      UpdateKeepsValid(Table(), d);
      order := order + Without(d.keys, objects.Keys);
      objects := objects + d.entries;
    }

    /**
     * Reads one turn: on the end signal, reports that the game is over and
     * changes no record; otherwise deletes the listed ids (absent ones are
     * skipped), then applies the full-record updates.
     */
    method ReadNextTurnData(msg: TurnMessage) returns (continues: bool)
      requires Valid()
      requires msg.Delta? ==> msg.updatedObjects.Valid()
      modifies this`currentTurnMessage, this`objects, this`order
      ensures Valid() && currentTurnMessage == Some(msg)
      ensures continues <==> msg.Delta?
      ensures !continues ==> Table() == old(Table())
      ensures continues ==> Table() == ApplyTurn(old(Table()), msg.deletedObjects, msg.updatedObjects)
      ensures walls == old(walls) && width == old(width) && height == old(height)
    {
      currentTurnMessage := Some(msg);
      if msg.EndSignal? {
        return false;
      }
      DeleteObjects(msg.deletedObjects);
      UpdateObjects(msg.updatedObjects);
      return true;
    }

    /** The `del` loop of a turn: each listed id is removed if present and skipped if not. */
    method DeleteObjects(deleted: seq<string>)
      requires Valid()
      modifies this`objects, this`order
      ensures Valid() && Table() == Delete(old(Table()), deleted)
    {
      assert deleted[..0] == [];
      for i := 0 to |deleted|
        invariant Table() == Delete(old(Table()), deleted[..i])
      {
        assert deleted[..i + 1][..i] == deleted[..i];
        var id := deleted[i];
        if id in objects {
          objects := objects - {id};
          order := Without(order, {id});
        }
      }
      assert deleted[..|deleted|] == deleted;
    }

    /**
     * Responds to the current turn: counts the tick, runs the cascade and
     * returns the payload to post, keeping the path memo across turns.
     * `u` and `v` are the two `random()` draws of the boundary step, used only
     * when the tank is outside the safe rectangle.
     */
    method RespondToTurn(u: real, v: real, num: Numerics) returns (outcome: Outcome)
      requires Valid() && TurnReady(Table(), walls, tankId, enemyTankId) && Draw(u) && Draw(v)
      modifies this`tick, this`lastPathRequested
      ensures tick == old(tick) + 1
      ensures Decision(outcome, lastPathRequested) ==
              Decide(Table(), walls, tankId, enemyTankId, old(lastPathRequested), u, v, num)
    {
      tick := tick + 1;
      var me := objects[tankId].position.p;
      var enemy := objects[enemyTankId].position.p;
      var d := PlanPath(ObjectTable(order, objects), walls, tankId, enemyTankId, lastPathRequested, u, v, num);

      // Go for the enemy when no cached wall is in the way.
      var engaged := Engage(d, walls, me, enemy);
      if engaged.None? {
        outcome, lastPathRequested := Crashed, d.last;
        return;
      }
      var path, shoot := engaged.value.path, engaged.value.shoot;

      // Shoot whenever the enemy is close.
      if Coarse(me, enemy) < 500.0 {
        shoot := Some(Aim(me, enemy, num));
      }
      outcome, lastPathRequested := Posted(Payload(path, shoot)), engaged.value.last;
    }
  }
}
