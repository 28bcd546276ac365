/**
 * The per-turn decision cascade of `respond_to_turn`, as functions of the
 * table, the cached walls and the path memo: boundary containment, bullet
 * evasion, low-hp powerup seeking, engaging the enemy, and the final shoot
 * refresh. The floating-point operations it calls (`math.atan2`, `math.tan`,
 * `round(., 1)`) are parameters, and `random.uniform` is computed from the
 * `random()` draws it would consume.
 */
module DecisionEngine {
  import opened GameObjects
  import opened Tables

  /** Python's `math.pi`. */
  const Pi: real := 3.141592653589793

  /** The id of the shrinking boundary the bot must stay inside. */
  const ClosingBoundaryId: string := "closing_boundary-1"

  /** The floating-point library calls of the cascade, left uninterpreted. */
  datatype Numerics = Numerics(atan2: (real, real) -> real, tan: real -> real, round1: real -> real)

  /** The posted message: `{"path": [x, y]}` and/or `{"shoot": angle}`. */
  datatype Payload = Payload(path: Option<Vec>, shoot: Option<real>)

  /**
   * How a turn ends: the payload is posted, or the engage step reads the
   * enemy coordinates `en_x`/`en_y`, which only the wall loop binds, with no
   * wall cached, and the turn dies with an `UnboundLocalError`.
   */
  datatype Outcome = Posted(payload: Payload) | Crashed

  /** The outcome of a turn and the value of `last_path_requested` after it. */
  datatype Decision = Decision(outcome: Outcome, last: Option<Vec>)

  /** What the cascade has built so far: `to_post`, `path_updated` and the path memo. */
  datatype Draft = Draft(path: Option<Vec>, shoot: Option<real>, pathUpdated: bool, last: Option<Vec>)

  function Abs(a: real): real
  {
    if a < 0.0 then -a else a
  }

  // ---------------------------------------------------------------------------
  // Step 1: stay inside the closing boundary

  /** Bounds of the safe rectangle: left, right, bottom, top. */
  datatype Rect = Rect(left: real, right: real, bottom: real, top: real)

  /** The closing boundary lists four corners and four corner velocities. */
  predicate Closing(o: Obj)
  {
    && o.position.Vertices? && |o.position.vs| >= 4
    && o.velocity.Vertices? && |o.velocity.vs| >= 4
  }

  /**
   * The closing boundary one tick ahead, inset by 50 on every side: left and
   * right from corners 0 and 2, bottom and top from corners 1 and 3.
   */
  function SafeRect(cb: Obj): (r: Rect)
    requires Closing(cb)
    ensures r.right - r.left == cb.position.vs[2].x + cb.velocity.vs[2].x
                                - (cb.position.vs[0].x + cb.velocity.vs[0].x) - 100.0
    ensures r.top - r.bottom == cb.position.vs[3].y + cb.velocity.vs[3].y
                                - (cb.position.vs[1].y + cb.velocity.vs[1].y) - 100.0
  {
    var p, v := cb.position.vs, cb.velocity.vs;
    Rect(p[0].x + v[0].x + 50.0, p[2].x + v[2].x - 50.0, p[1].y + v[1].y + 50.0, p[3].y + v[3].y - 50.0)
  }

  /** The tank is outside the rectangle on some axis. */
  predicate Outside(me: Vec, r: Rect)
  {
    me.x < r.left || me.x > r.right || me.y < r.bottom || me.y > r.top
  }

  /** A `random()` draw: in [0, 1). */
  predicate Draw(u: real)
  {
    0.0 <= u < 1.0
  }

  /**
   * `random.uniform(a, b)` as `a + (b - a) * random()`: for bounds in order,
   * a value between them.
   */
  function Uniform(a: real, b: real, u: real): (r: real)
    requires Draw(u)
    ensures a <= b ==> a <= r <= b
  {
    if a <= b then
      MulSign(b - a, u);
      MulSign(b - a, 1.0 - u);
      assert (b - a) * (1.0 - u) == (b - a) - (b - a) * u;
      a + (b - a) * u
    else a + (b - a) * u
  }

  lemma MulSign(x: real, y: real)
    requires x >= 0.0 && y >= 0.0
    ensures x * y >= 0.0
  {
  }

  /** The random target inside the rectangle, x drawn first, each rounded to one decimal. */
  function EscapeTarget(r: Rect, u: real, v: real, num: Numerics): Vec
    requires Draw(u) && Draw(v)
  {
    Vec(num.round1(Uniform(r.left, r.right, u)), num.round1(Uniform(r.bottom, r.top, v)))
  }

  /** Step 1 never touches `shoot`; it sets a path exactly when the tank is outside, and the memo becomes that path. */
  function BoundaryStep(d: Draft, me: Vec, r: Rect, u: real, v: real, num: Numerics): (e: Draft)
    requires Draw(u) && Draw(v)
    ensures e.shoot == d.shoot
    ensures e.pathUpdated == (d.pathUpdated || Outside(me, r))
    ensures Outside(me, r) ==> e.path.Some? && e.path == e.last
    ensures !Outside(me, r) ==> e == d
  {
    if Outside(me, r) then
      var p := EscapeTarget(r, u, v, num);
      d.(path := Some(p), pathUpdated := true, last := Some(p))
    else d
  }

  // ---------------------------------------------------------------------------
  // Step 2: evade a bullet about to hit

  /** Where a bullet will be two ticks ahead. */
  function Lookahead(b: Obj): Vec
    requires b.position.Point? && b.velocity.Point?
  {
    Vec(b.position.p.x + 2.0 * b.velocity.p.x, b.position.p.y + 2.0 * b.velocity.p.y)
  }

  /** Strictly inside the open box of half-width 10 around the tank. */
  predicate InDodgeBox(q: Vec, me: Vec)
  {
    me.x - 10.0 < q.x < me.x + 10.0 && me.y - 10.0 < q.y < me.y + 10.0
  }

  /** A type-2 object whose two-tick lookahead is inside the tank's box. */
  predicate Threatens(o: Obj, me: Vec)
    requires WellShaped(o)
  {
    o.kind == BULLET && InDodgeBox(Lookahead(o), me)
  }

  /** Every listed id is in the table with the shape its type promises. */
  ghost predicate Listed(keys: seq<string>, entries: map<string, Obj>)
  {
    forall k | k in keys :: k in entries && WellShaped(entries[k])
  }

  /** The id of the first threatening bullet in iteration order, if any. */
  function FirstThreat(keys: seq<string>, entries: map<string, Obj>, me: Vec): (r: Option<string>)
    requires Listed(keys, entries)
    ensures r.None? ==> forall i | 0 <= i < |keys| :: !Threatens(entries[keys[i]], me)
    ensures r.Some? ==> exists i | 0 <= i < |keys| ::
              && keys[i] == r.value && Threatens(entries[keys[i]], me)
              && forall j | 0 <= j < i :: !Threatens(entries[keys[j]], me)
  {
    if keys == [] then None
    else if Threatens(entries[keys[0]], me) then Some(keys[0])
    else
      var r := FirstThreat(keys[1..], entries, me);
      assert forall i | 1 <= i < |keys| :: keys[i] == keys[1..][i - 1];
      r
  }

  /**
   * The evasion target: 200 to the right, and `200 * tan(atan2(2 vx, 2 vy))`
   * up, with the arguments of `atan2` in the order the bot passes them.
   */
  function Dodge(me: Vec, b: Obj, num: Numerics): Vec
    requires b.velocity.Point?
  {
    var angle := num.atan2(2.0 * b.velocity.p.x, 2.0 * b.velocity.p.y);
    Vec(me.x + 200.0, me.y + 200.0 * num.tan(angle))
  }

  /**
   * Step 2 never touches `shoot` or the memo. It acts exactly when no path is
   * set and some bullet threatens, and then the path is the dodge from the
   * first threatening bullet.
   */
  function EvadeStep(d: Draft, keys: seq<string>, entries: map<string, Obj>, me: Vec, num: Numerics): (e: Draft)
    requires Listed(keys, entries)
    ensures e.shoot == d.shoot && e.last == d.last
    ensures e.pathUpdated == (d.pathUpdated || FirstThreat(keys, entries, me).Some?)
    ensures d.pathUpdated ==> e == d
    ensures e != d ==> e.path.Some?
    ensures !d.pathUpdated && FirstThreat(keys, entries, me).None? ==> e == d
    ensures !d.pathUpdated && FirstThreat(keys, entries, me).Some? ==>
              e.path == Some(Dodge(me, entries[FirstThreat(keys, entries, me).value], num))
  {
    if d.pathUpdated then d
    else match FirstThreat(keys, entries, me)
      case None => d
      case Some(k) => d.(path := Some(Dodge(me, entries[k], num)), pathUpdated := true)
  }

  // ---------------------------------------------------------------------------
  // Step 3: with hp <= 3, head for the nearest powerup

  /** Positions of point-shaped records, in order. */
  function Spots(objs: seq<Obj>): seq<Vec>
    requires forall i | 0 <= i < |objs| :: objs[i].position.Point?
  {
    seq(|objs|, i requires 0 <= i < |objs| => objs[i].position.p)
  }

  /** The positions of the powerups, in the table's iteration order. */
  function Powerups(keys: seq<string>, entries: map<string, Obj>): seq<Vec>
    requires Listed(keys, entries)
  {
    var ps := Select(keys, entries, {POWERUP});
    assert forall i | 0 <= i < |ps| :: WellShaped(ps[i]) && ps[i].kind == POWERUP;
    Spots(ps)
  }

  /** Squared Euclidean distance. */
  function SqDist(p: Vec, q: Vec): real
  {
    (p.x - q.x) * (p.x - q.x) + (p.y - q.y) * (p.y - q.y)
  }

  /**
   * The index a left-to-right scan with a strict `<` settles on: closest to
   * `me`, the earliest among equally close ones.
   */
  function NearestIndex(ps: seq<Vec>, me: Vec): (k: nat)
    requires |ps| > 0
    ensures k < |ps|
    ensures forall j | 0 <= j < |ps| :: SqDist(ps[k], me) <= SqDist(ps[j], me)
    ensures forall j | 0 <= j < k :: SqDist(ps[k], me) < SqDist(ps[j], me)
  {
    if |ps| == 1 then 0
    else
      var prefix := ps[..|ps| - 1];
      var k := NearestIndex(prefix, me);
      assert forall j | 0 <= j < |ps| - 1 :: ps[j] == prefix[j];
      if SqDist(ps[|ps| - 1], me) < SqDist(ps[k], me) then |ps| - 1 else k
  }

  /** The nearest powerup, or `fallback` (the enemy's position) when there is none. */
  function Nearest(ps: seq<Vec>, me: Vec, fallback: Vec): Vec
  {
    if ps == [] then fallback else ps[NearestIndex(ps, me)]
  }

  /** The powerup positions of a table grow by the last id's position when that id is a powerup. */
  lemma PowerupsSnoc(keys: seq<string>, entries: map<string, Obj>)
    requires Listed(keys, entries) && |keys| > 0
    ensures Listed(keys[..|keys| - 1], entries)
    ensures var o := entries[keys[|keys| - 1]];
            Powerups(keys, entries) ==
              Powerups(keys[..|keys| - 1], entries) + (if o.kind == POWERUP then [o.position.p] else [])
  {
    var prefix := keys[..|keys| - 1];
    assert forall k | k in prefix :: k in keys;
    var o := entries[keys[|keys| - 1]];
    var front := Select(prefix, entries, {POWERUP});
    if o.kind == POWERUP {
      assert Select(keys, entries, {POWERUP}) == front + [o];
      assert Spots(front + [o]) == Spots(front) + [o.position.p];
    }
  }

  /** The position the `i`-th id's record has, when that record is a powerup. */
  ghost predicate PowerupAt(keys: seq<string>, entries: map<string, Obj>, i: int, p: Vec)
    requires Listed(keys, entries)
  {
    0 <= i < |keys| && entries[keys[i]].kind == POWERUP && entries[keys[i]].position.p == p
  }

  /**
   * `p` is the position of the `i`-th id, a powerup at least as close to `me`
   * as every powerup of the table and strictly closer than every earlier one.
   */
  ghost predicate NearestPowerupAt(keys: seq<string>, entries: map<string, Obj>, me: Vec, i: int, p: Vec)
    requires Listed(keys, entries)
  {
    && PowerupAt(keys, entries, i, p)
    && (forall j, q | PowerupAt(keys, entries, j, q) :: SqDist(p, me) <= SqDist(q, me))
    && (forall j, q | j < i && PowerupAt(keys, entries, j, q) :: SqDist(p, me) < SqDist(q, me))
  }

  /** The bot's distance heuristic: `|mx - ex| + |my| - |ey|`. */
  function Coarse(me: Vec, enemy: Vec): real
  {
    Abs(me.x - enemy.x) + Abs(me.y) - Abs(enemy.y)
  }

  /** The angle from the tank to the enemy, in degrees. */
  function Aim(me: Vec, enemy: Vec, num: Numerics): real
  {
    num.atan2(enemy.y - me.y, enemy.x - me.x) * 180.0 / Pi
  }

  /** Step 3 never touches the memo; it acts exactly when no path is set and `hp <= 3`, and then always sets a path. */
  function PowerupStep(d: Draft, keys: seq<string>, entries: map<string, Obj>,
                       me: Vec, hp: int, enemy: Vec, num: Numerics): (e: Draft)
    requires Listed(keys, entries)
    ensures e.last == d.last
    ensures e.pathUpdated == (d.pathUpdated || hp <= 3)
    ensures d.pathUpdated || hp > 3 ==> e == d
    ensures !d.pathUpdated && hp <= 3 ==> e.path.Some?
  {
    if !d.pathUpdated && hp <= 3 then
      d.(path := Some(Nearest(Powerups(keys, entries), me, enemy)), pathUpdated := true,
         shoot := if Coarse(me, enemy) < 500.0 then Some(Aim(me, enemy, num)) else d.shoot)
    else d
  }

  // ---------------------------------------------------------------------------
  // Step 4: engage the enemy, unless a wall is in the way

  /**
   * The engage guard exactly as the bot parses it:
   * `(not path_updated and last is None) or last != enemy_pos`.
   */
  predicate EngageGuard(pathUpdated: bool, last: Option<Vec>, enemy: Vec)
  {
    (!pathUpdated && last.None?) || last != Some(enemy)
  }

  /** The per-wall X test that clears `noWallX`: `en_x > w_x - 9 or en_x < w_x + 9`. */
  predicate TestX(w: Obj, enemy: Vec)
    requires w.position.Point?
  {
    enemy.x > w.position.p.x - 9.0 || enemy.x < w.position.p.x + 9.0
  }

  /** The per-wall Y test that clears `noWallY`. */
  predicate TestY(w: Obj, enemy: Vec)
    requires w.position.Point?
  {
    enemy.y > w.position.p.y - 9.0 || enemy.y < w.position.p.y + 9.0
  }

  ghost predicate PointWalls(walls: seq<Obj>)
  {
    forall i | 0 <= i < |walls| :: walls[i].position.Point?
  }

  /** `noWallX` after the wall loop: no wall's X test passed. */
  predicate NoWallX(walls: seq<Obj>, enemy: Vec)
    requires PointWalls(walls)
  {
    forall i | 0 <= i < |walls| :: !TestX(walls[i], enemy)
  }

  /** `noWallY` after the wall loop: no wall's Y test passed. */
  predicate NoWallY(walls: seq<Obj>, enemy: Vec)
    requires PointWalls(walls)
  {
    forall i | 0 <= i < |walls| :: !TestY(walls[i], enemy)
  }

  /** The engage step; `None` when it dies on the unbound enemy coordinates. */
  function EngageStep(d: Draft, walls: seq<Obj>, me: Vec, enemy: Vec): (r: Option<Draft>)
    requires PointWalls(walls)
    ensures r.Some? ==> r.value.shoot == d.shoot
  {
    if !EngageGuard(d.pathUpdated, d.last, enemy) then Some(d)
    else if NoWallX(walls, enemy) then
      if walls == [] then None
      else
        var p := Vec(enemy.x, me.y);
        Some(d.(path := Some(p), last := Some(p), pathUpdated := true))
    else if NoWallY(walls, enemy) then
      // Some wall cleared `noWallX`, so the wall loop ran and bound `en_y`.
      var p := Vec(me.x, enemy.y);
      Some(d.(path := Some(p), last := Some(p), pathUpdated := true))
    else Some(d)
  }

  // ---------------------------------------------------------------------------
  // Step 5: shoot whenever the enemy is near enough

  /** Step 5 never touches the path or the memo; afterwards `shoot` is set if it was before or the enemy is close. */
  function ShootStep(d: Draft, me: Vec, enemy: Vec, num: Numerics): (e: Draft)
    ensures e.path == d.path && e.pathUpdated == d.pathUpdated && e.last == d.last
    ensures e.shoot.Some? <==> d.shoot.Some? || Coarse(me, enemy) < 500.0
  {
    if Coarse(me, enemy) < 500.0 then d.(shoot := Some(Aim(me, enemy, num))) else d
  }

  // ---------------------------------------------------------------------------
  // The whole turn

  /**
   * What a turn needs of the table: the own tank (a point with `hp`), the enemy
   * tank (a point), the closing boundary, and every record shaped as its type
   * promises; the cached walls are points.
   */
  ghost predicate TurnReady(t: ObjectTable, walls: seq<Obj>, tankId: string, enemyId: string)
  {
    && t.Valid() && AllWellShaped(t.entries) && PointWalls(walls)
    && tankId in t.entries && t.entries[tankId].position.Point? && t.entries[tankId].hp.Some?
    && enemyId in t.entries && t.entries[enemyId].position.Point?
    && ClosingBoundaryId in t.entries && Closing(t.entries[ClosingBoundaryId])
  }

  /**
   * The draft after the three steps that may choose a path (steps 1 to 3): a
   * path is set exactly when `path_updated` is, and a moved memo is the path.
   */
  function Planned(t: ObjectTable, walls: seq<Obj>, tankId: string, enemyId: string,
                   last: Option<Vec>, u: real, v: real, num: Numerics): (e: Draft)
    requires TurnReady(t, walls, tankId, enemyId) && Draw(u) && Draw(v)
    ensures e.pathUpdated <==> e.path.Some?
    ensures e.last != last ==> e.path == e.last
  {
    var tank := t.entries[tankId];
    var me := tank.position.p;
    var enemy := t.entries[enemyId].position.p;
    var d1 := BoundaryStep(Draft(None, None, false, last), me, SafeRect(t.entries[ClosingBoundaryId]), u, v, num);
    var d2 := EvadeStep(d1, t.keys, t.entries, me, num);
    PowerupStep(d2, t.keys, t.entries, me, tank.hp.value, enemy, num)
  }

  /** One call of `respond_to_turn`: the outcome and the new path memo. */
  function Decide(t: ObjectTable, walls: seq<Obj>, tankId: string, enemyId: string,
                  last: Option<Vec>, u: real, v: real, num: Numerics): Decision
    requires TurnReady(t, walls, tankId, enemyId) && Draw(u) && Draw(v)
  {
    var me := t.entries[tankId].position.p;
    var enemy := t.entries[enemyId].position.p;
    var d3 := Planned(t, walls, tankId, enemyId, last, u, v, num);
    match EngageStep(d3, walls, me, enemy)
    case None => Decision(Crashed, d3.last)
    case Some(d4) =>
      var d5 := ShootStep(d4, me, enemy, num);
      Decision(Posted(Payload(d5.path, d5.shoot)), d5.last)
  }

  // ---------------------------------------------------------------------------
  // What the cascade promises

  /**
   * The engage guard as the bot parses it only asks whether the memo differs
   * from the enemy's position; the `path_updated` flag plays no part.
   */
  lemma EngageGuardIsMemoCheck(pathUpdated: bool, last: Option<Vec>, enemy: Vec)
    ensures EngageGuard(pathUpdated, last, enemy) <==> last != Some(enemy)
  {
  }

  /** Every wall passes both tests, so a single cached wall clears both flags. */
  lemma NoWallOnlyWithoutWalls(walls: seq<Obj>, enemy: Vec)
    requires PointWalls(walls)
    ensures NoWallX(walls, enemy) <==> walls == []
    ensures NoWallY(walls, enemy) <==> walls == []
  {
    if walls != [] {
      assert TestX(walls[0], enemy) && TestY(walls[0], enemy);
    }
  }

  /**
   * The engage step never chooses a path: it leaves the draft as it is, or,
   * with no wall cached and the memo not at the enemy, dies.
   */
  lemma EngageNeverMoves(d: Draft, walls: seq<Obj>, me: Vec, enemy: Vec)
    requires PointWalls(walls)
    ensures EngageStep(d, walls, me, enemy) ==
            if walls == [] && d.last != Some(enemy) then None else Some(d)
  {
    NoWallOnlyWithoutWalls(walls, enemy);
  }

  /**
   * Path priority: escaping the closing boundary beats evading a bullet, which
   * beats seeking a powerup at low hp; only the escape moves the memo.
   */
  lemma PlanPriority(t: ObjectTable, walls: seq<Obj>, tankId: string, enemyId: string,
                     last: Option<Vec>, u: real, v: real, num: Numerics)
    requires TurnReady(t, walls, tankId, enemyId) && Draw(u) && Draw(v)
    ensures var plan := Planned(t, walls, tankId, enemyId, last, u, v, num);
            var me := t.entries[tankId].position.p;
            var rect := SafeRect(t.entries[ClosingBoundaryId]);
            var threat := FirstThreat(t.keys, t.entries, me);
            && (Outside(me, rect) ==>
                  plan.path == plan.last == Some(EscapeTarget(rect, u, v, num)))
            && (!Outside(me, rect) ==> plan.last == last)
            && (!Outside(me, rect) && threat.Some? ==>
                  plan.path == Some(Dodge(me, t.entries[threat.value], num)))
            && (!Outside(me, rect) && threat.None? && t.entries[tankId].hp.value <= 3 ==>
                  plan.path == Some(Nearest(Powerups(t.keys, t.entries), me, t.entries[enemyId].position.p)))
            && (!Outside(me, rect) && threat.None? && t.entries[tankId].hp.value > 3 ==>
                  plan.path == None)
  {
  }

  /** With no powerup in the table there is no powerup position. */
  lemma NoPowerups(keys: seq<string>, entries: map<string, Obj>)
    requires Listed(keys, entries)
    requires forall j | 0 <= j < |keys| :: entries[keys[j]].kind != POWERUP
    ensures Powerups(keys, entries) == []
  {
    if Powerups(keys, entries) != [] {
      SelectFrom(keys, entries, {POWERUP}, 0);
    }
  }

  /** A powerup of `prefix` nearest the tank stays nearest when a farther or non-powerup id follows. */
  lemma NearestKept(keys: seq<string>, entries: map<string, Obj>, me: Vec, i: int, p: Vec)
    requires Listed(keys, entries) && |keys| > 0
    requires Listed(keys[..|keys| - 1], entries)
    requires NearestPowerupAt(keys[..|keys| - 1], entries, me, i, p)
    requires var o := entries[keys[|keys| - 1]];
             o.kind == POWERUP ==> SqDist(p, me) <= SqDist(o.position.p, me)
    ensures NearestPowerupAt(keys, entries, me, i, p)
  {
    var prefix := keys[..|keys| - 1];
    assert forall j, q | PowerupAt(keys, entries, j, q) && j < |prefix| :: PowerupAt(prefix, entries, j, q);
  }

  /** The last id's powerup is the nearest when it is strictly nearer than every earlier powerup. */
  lemma NearestIsLast(keys: seq<string>, entries: map<string, Obj>, me: Vec, p: Vec)
    requires Listed(keys, entries) && |keys| > 0 && PowerupAt(keys, entries, |keys| - 1, p)
    requires forall j, q | j < |keys| - 1 && PowerupAt(keys, entries, j, q) :: SqDist(p, me) < SqDist(q, me)
    ensures NearestPowerupAt(keys, entries, me, |keys| - 1, p)
  {
  }

  /** When the last id is the only powerup, the low-hp target is its position. */
  lemma OnlyPowerupLast(keys: seq<string>, entries: map<string, Obj>, me: Vec, enemy: Vec)
    requires Listed(keys, entries) && |keys| > 0
    requires entries[keys[|keys| - 1]].kind == POWERUP
    requires forall j | 0 <= j < |keys| - 1 :: entries[keys[j]].kind != POWERUP
    ensures NearestPowerupAt(keys, entries, me, |keys| - 1, Nearest(Powerups(keys, entries), me, enemy))
  {
    var prefix := keys[..|keys| - 1];
    PowerupsSnoc(keys, entries);
    assert forall j | 0 <= j < |prefix| :: prefix[j] == keys[j];
    NoPowerups(prefix, entries);
    var q := entries[keys[|keys| - 1]].position.p;
    assert Powerups(keys, entries) == [q];
    NearestIsLast(keys, entries, me, q);
  }

  /**
   * One more id after a prefix whose low-hp target is the nearest powerup at
   * `i`: the target of the whole is again a nearest powerup.
   */
  lemma NearestStep(keys: seq<string>, entries: map<string, Obj>, me: Vec, enemy: Vec, i: int)
    requires Listed(keys, entries) && |keys| > 0
    requires Listed(keys[..|keys| - 1], entries) && Powerups(keys[..|keys| - 1], entries) != []
    requires NearestPowerupAt(keys[..|keys| - 1], entries, me, i,
                              Nearest(Powerups(keys[..|keys| - 1], entries), me, enemy))
    ensures exists i' :: NearestPowerupAt(keys, entries, me, i', Nearest(Powerups(keys, entries), me, enemy))
  {
    var prefix := keys[..|keys| - 1];
    PowerupsSnoc(keys, entries);
    var front := Powerups(prefix, entries);
    var pf := Nearest(front, me, enemy);
    var o := entries[keys[|keys| - 1]];
    var p := Nearest(Powerups(keys, entries), me, enemy);
    if o.kind != POWERUP {
      assert Powerups(keys, entries) == front;
      NearestKept(keys, entries, me, i, p);
    } else {
      var ps := front + [o.position.p];
      assert ps[..|ps| - 1] == front;
      if SqDist(o.position.p, me) < SqDist(pf, me) {
        assert forall j, q | PowerupAt(keys, entries, j, q) && j < |prefix| :: PowerupAt(prefix, entries, j, q);
        NearestIsLast(keys, entries, me, p);
      } else {
        NearestKept(keys, entries, me, i, p);
      }
    }
  }

  /**
   * With some powerup in the table, the low-hp target is the position of the
   * powerup nearest the tank, the earliest in iteration order among equally
   * near ones.
   */
  lemma {:induction false} NearestPowerupInTable(keys: seq<string>, entries: map<string, Obj>, me: Vec, enemy: Vec)
    requires Listed(keys, entries)
    requires exists j | 0 <= j < |keys| :: entries[keys[j]].kind == POWERUP
    ensures exists i :: NearestPowerupAt(keys, entries, me, i, Nearest(Powerups(keys, entries), me, enemy))
  {
    var prefix := keys[..|keys| - 1];
    assert Listed(prefix, entries) by {
      assert forall k | k in prefix :: k in keys;
    }
    if forall j | 0 <= j < |keys| - 1 :: entries[keys[j]].kind != POWERUP {
      OnlyPowerupLast(keys, entries, me, enemy);
    } else {
      var j :| 0 <= j < |keys| - 1 && entries[keys[j]].kind == POWERUP;
      assert prefix[j] == keys[j];
      NearestPowerupInTable(prefix, entries, me, enemy);
      var i :| NearestPowerupAt(prefix, entries, me, i, Nearest(Powerups(prefix, entries), me, enemy));
      SelectFinds(prefix, entries, {POWERUP}, prefix[j]);
      NearestStep(keys, entries, me, enemy, i);
    }
  }

  /**
   * The low-hp target in terms of the table: with no powerup it is the enemy's
   * position; otherwise it is the position of the powerup nearest the tank,
   * the earliest in iteration order among equally near ones.
   */
  lemma LowHpTarget(keys: seq<string>, entries: map<string, Obj>, me: Vec, enemy: Vec)
    requires Listed(keys, entries)
    ensures var p := Nearest(Powerups(keys, entries), me, enemy);
            && ((forall j | 0 <= j < |keys| :: entries[keys[j]].kind != POWERUP) ==> p == enemy)
            && ((exists j | 0 <= j < |keys| :: entries[keys[j]].kind == POWERUP) ==>
                  exists i :: NearestPowerupAt(keys, entries, me, i, p))
  {
    if forall j | 0 <= j < |keys| :: entries[keys[j]].kind != POWERUP {
      NoPowerups(keys, entries);
    } else {
      NearestPowerupInTable(keys, entries, me, enemy);
    }
  }

  /**
   * The turn keeps the path of the plan and the memo it left; it dies exactly
   * when no wall is cached and the memo is not the enemy's position.
   */
  lemma DecideFollowsPlan(t: ObjectTable, walls: seq<Obj>, tankId: string, enemyId: string,
                          last: Option<Vec>, u: real, v: real, num: Numerics)
    requires TurnReady(t, walls, tankId, enemyId) && Draw(u) && Draw(v)
    ensures var dec := Decide(t, walls, tankId, enemyId, last, u, v, num);
            var plan := Planned(t, walls, tankId, enemyId, last, u, v, num);
            && dec.last == plan.last
            && (dec.outcome.Crashed? <==> walls == [] && plan.last != Some(t.entries[enemyId].position.p))
            && (dec.outcome.Posted? ==> dec.outcome.payload.path == plan.path)
  {
    var me := t.entries[tankId].position.p;
    var enemy := t.entries[enemyId].position.p;
    EngageNeverMoves(Planned(t, walls, tankId, enemyId, last, u, v, num), walls, me, enemy);
  }

  /**
   * The posted `shoot` is the aim at the enemy exactly when the distance
   * heuristic is under 500, whatever the low-hp step set before.
   */
  lemma ShootWhenClose(t: ObjectTable, walls: seq<Obj>, tankId: string, enemyId: string,
                       last: Option<Vec>, u: real, v: real, num: Numerics)
    requires TurnReady(t, walls, tankId, enemyId) && Draw(u) && Draw(v)
    ensures var dec := Decide(t, walls, tankId, enemyId, last, u, v, num);
            var me := t.entries[tankId].position.p;
            var enemy := t.entries[enemyId].position.p;
            dec.outcome.Posted? ==>
              dec.outcome.payload.shoot == if Coarse(me, enemy) < 500.0 then Some(Aim(me, enemy, num)) else None
  {
    var me := t.entries[tankId].position.p;
    var enemy := t.entries[enemyId].position.p;
    EngageNeverMoves(Planned(t, walls, tankId, enemyId, last, u, v, num), walls, me, enemy);
  }
}
