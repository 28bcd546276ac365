/**
 * The map size the bot derives once at start-up: the largest X and the
 * largest Y over every vertex of every boundary object.
 */
module Extent {
  import opened GameObjects

  /** Coordinate `axis` of a point: 0 is X, 1 is Y (`single_position[i]`). */
  function Coord(p: Vec, axis: nat): real
    requires axis < 2
  {
    if axis == 0 then p.x else p.y
  }

  /** The largest coordinate `axis` among the vertices `vs`. */
  function MaxOf(vs: seq<Vec>, axis: nat): (m: real)
    requires |vs| > 0 && axis < 2
    ensures forall j | 0 <= j < |vs| :: Coord(vs[j], axis) <= m
    ensures exists j | 0 <= j < |vs| :: Coord(vs[j], axis) == m
  {
    if |vs| == 1 then Coord(vs[0], axis)
    else
      var rest := MaxOf(vs[1..], axis);
      assert forall j | 1 <= j < |vs| :: vs[j] == vs[1..][j - 1];
      if Coord(vs[0], axis) >= rest then Coord(vs[0], axis) else rest
  }

  /** The largest coordinate `axis` over all vertices of all boundaries. */
  function MaxCoord(boundaries: seq<Obj>, axis: nat): real
    requires |boundaries| > 0 && axis < 2
    requires forall i | 0 <= i < |boundaries| ::
               boundaries[i].position.Vertices? && |boundaries[i].position.vs| > 0
  {
    var here := MaxOf(boundaries[0].position.vs, axis);
    if |boundaries| == 1 then here
    else
      var rest := MaxCoord(boundaries[1..], axis);
      if here >= rest then here else rest
  }

  /** Every boundary vertex lies at or below `MaxCoord`, and some vertex attains it. */
  lemma {:induction false} MaxCoordIsLargest(boundaries: seq<Obj>, axis: nat)
    requires |boundaries| > 0 && axis < 2
    requires forall i | 0 <= i < |boundaries| ::
               boundaries[i].position.Vertices? && |boundaries[i].position.vs| > 0
    ensures var m := MaxCoord(boundaries, axis);
            && (forall i, j | 0 <= i < |boundaries| && 0 <= j < |boundaries[i].position.vs| ::
                  Coord(boundaries[i].position.vs[j], axis) <= m)
            && (exists i, j | 0 <= i < |boundaries| && 0 <= j < |boundaries[i].position.vs| ::
                  Coord(boundaries[i].position.vs[j], axis) == m)
  {
    var m := MaxCoord(boundaries, axis);
    var here := MaxOf(boundaries[0].position.vs, axis);
    if |boundaries| > 1 {
      var tail := boundaries[1..];
      MaxCoordIsLargest(tail, axis);
      assert forall i | 1 <= i < |boundaries| :: boundaries[i] == tail[i - 1];
      if here < MaxCoord(tail, axis) {
        var i, j :| 0 <= i < |tail| && 0 <= j < |tail[i].position.vs| &&
                    Coord(tail[i].position.vs[j], axis) == m;
        assert boundaries[i + 1] == tail[i];
      }
    }
  }
}
