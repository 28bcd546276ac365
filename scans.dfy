/**
 * The loops of `respond_to_turn`, each proved against the function of the
 * cascade that specifies it.
 */
module Scans {
  import opened GameObjects
  import opened DecisionEngine

  /**
   * The bullet loop: each type-2 record is extrapolated two ticks, and the
   * first one inside the tank's box is taken unless a path was already set.
   */
  method FindThreat(keys: seq<string>, entries: map<string, Obj>, me: Vec, pathUpdated: bool)
    returns (threat: Option<string>)
    requires Listed(keys, entries)
    ensures threat == if pathUpdated then None else FirstThreat(keys, entries, me)
  {
    threat := None;
    var updated := pathUpdated;
    for i := 0 to |keys|
      invariant updated == (pathUpdated || threat.Some?)
      invariant pathUpdated ==> threat.None?
      invariant !pathUpdated && threat.None? ==> forall j | 0 <= j < i :: !Threatens(entries[keys[j]], me)
      invariant threat.Some? ==> threat == FirstThreat(keys, entries, me)
    {
      var bullet := entries[keys[i]];
      if bullet.kind == BULLET {
        var ahead := Lookahead(bullet);
        if !updated && InDodgeBox(ahead, me) {
          threat := Some(keys[i]);
          updated := true;
        }
      }
    }
  }

  /** The loop collecting the positions of the type-7 records, in iteration order. */
  method CollectPowerups(keys: seq<string>, entries: map<string, Obj>) returns (spots: seq<Vec>)
    requires Listed(keys, entries)
    ensures spots == Powerups(keys, entries)
  {
    spots := [];
    for i := 0 to |keys|
      invariant Listed(keys[..i], entries)
      invariant spots == Powerups(keys[..i], entries)
    {
      var o := entries[keys[i]];
      assert keys[..i + 1][..i] == keys[..i];
      if o.kind == POWERUP {
        spots := spots + [o.position.p];
      }
    }
    assert keys[..|keys|] == keys;
  }

  /**
   * The nearest-powerup loop: `min_dist` starts at infinity (`None` here) and
   * only a strictly smaller squared distance replaces the current pick; with no
   * powerup the pick stays at the enemy's position.
   */
  method NearestPowerup(spots: seq<Vec>, me: Vec, enemy: Vec) returns (target: Vec)
    ensures target == Nearest(spots, me, enemy)
  {
    target := enemy;
    var minDist: Option<real> := None;
    for i := 0 to |spots|
      invariant i == 0 ==> minDist.None? && target == enemy
      invariant i > 0 ==> && target == spots[NearestIndex(spots[..i], me)]
                          && minDist == Some(SqDist(target, me))
    {
      var d := SqDist(spots[i], me);
      assert spots[..i + 1][..i] == spots[..i];
      if minDist.None? || d < minDist.value {
        minDist := Some(d);
        target := spots[i];
      }
    }
    assert spots[..|spots|] == spots;
  }

  /** The wall loop: each cached wall may clear `noWallX` and `noWallY`. */
  method ScanWalls(walls: seq<Obj>, enemy: Vec) returns (noWallX: bool, noWallY: bool)
    requires PointWalls(walls)
    ensures noWallX == NoWallX(walls, enemy) && noWallY == NoWallY(walls, enemy)
  {
    noWallX, noWallY := true, true;
    for i := 0 to |walls|
      invariant noWallX == forall j | 0 <= j < i :: !TestX(walls[j], enemy)
      invariant noWallY == forall j | 0 <= j < i :: !TestY(walls[j], enemy)
    {
      var w := walls[i].position.p;
      if enemy.x > w.x - 9.0 || enemy.x < w.x + 9.0 {
        noWallX := false;
      }
      if enemy.y > w.y - 9.0 || enemy.y < w.y + 9.0 {
        noWallY := false;
      }
    }
  }

  /**
   * The engage step on the draft so far: when the guard holds, the wall loop
   * runs and a clear line sets the path and the memo. `None` is the crash of a
   * guard that holds with no wall cached: `en_x` is bound only inside the loop.
   */
  method Engage(d: Draft, walls: seq<Obj>, me: Vec, enemy: Vec) returns (r: Option<Draft>)
    requires PointWalls(walls)
    ensures r == EngageStep(d, walls, me, enemy)
  {
    r := Some(d);
    if EngageGuard(d.pathUpdated, d.last, enemy) {
      var noWallX, noWallY := ScanWalls(walls, enemy);
      if noWallX {
        if walls == [] {
          return None;
        }
        var target := Vec(enemy.x, me.y);
        r := Some(d.(path := Some(target), last := Some(target), pathUpdated := true));
      } else if noWallY {
        var target := Vec(me.x, enemy.y);
        r := Some(d.(path := Some(target), last := Some(target), pathUpdated := true));
      }
    }
  }
}
