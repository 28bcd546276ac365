/**
 * The records the game engine sends for every object on the map, and the
 * object-type tags the bot dispatches on.
 */
module GameObjects {

  datatype Option<T> = None | Some(value: T)

  /** A 2D point or vector, `[x, y]` on the wire. */
  datatype Vec = Vec(x: real, y: real)

  /**
   * The shape of a `position` or `velocity` entry: a single `[x, y]` for tanks,
   * bullets, walls and powerups, a list of `[x, y]` vertices for boundary-like
   * objects.
   */
  datatype Shape = Point(p: Vec) | Vertices(vs: seq<Vec>)

  /** One object record: its `type` tag, `position`, `velocity` and, for tanks, `hp`. */
  datatype Obj = Obj(kind: int, position: Shape, velocity: Shape, hp: Option<int>)

  // Object-type tags. The bot compares against 2 and 7 literally and against
  // the named WALL, DESTRUCTIBLE_WALL and BOUNDARY tags; only their
  // distinctness matters to the model.
  const BULLET: int := 2
  const WALL: int := 3
  const DESTRUCTIBLE_WALL: int := 4
  const BOUNDARY: int := 5
  const POWERUP: int := 7

  /** The tags of the wall-like objects the bot caches at start-up. */
  const WallKinds: set<int> := {WALL, DESTRUCTIBLE_WALL}

  /**
   * The shapes the engine guarantees per type, and which the bot relies on when
   * it unpacks positions: boundaries carry a non-empty vertex list, bullets a
   * point position and a point velocity, walls and powerups a point position.
   */
  predicate WellShaped(o: Obj)
  {
    && (o.kind == BOUNDARY ==> o.position.Vertices? && |o.position.vs| > 0)
    && (o.kind == BULLET ==> o.position.Point? && o.velocity.Point?)
    && (o.kind in WallKinds || o.kind == POWERUP ==> o.position.Point?)
  }

  /** Every record of a table has the shape its type promises. */
  ghost predicate AllWellShaped(m: map<string, Obj>)
  {
    forall k | k in m :: WellShaped(m[k])
  }
}
