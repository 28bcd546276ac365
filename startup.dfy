/**
 * Start-up on values: the init stream merged into the object table, the wall
 * cache and the boundaries taken from it in one pass, and the map size.
 */
module Startup {
  import opened GameObjects
  import opened Tables
  import opened Extent
  import opened DecisionEngine

  /** What start-up needs of the merged table: records shaped by type, and a boundary. */
  ghost predicate StartReady(t: ObjectTable)
  {
    && AllWellShaped(t.entries)
    && exists i | 0 <= i < |t.keys| :: t.keys[i] in t.entries && t.entries[t.keys[i]].kind == BOUNDARY
  }

  /**
   * In a start-ready table the boundaries exist and each has at least one
   * vertex, and every wall to be cached sits at a point.
   */
  lemma BoundariesOutlined(t: ObjectTable)
    requires t.Valid() && StartReady(t)
    ensures PointWalls(Select(t.keys, t.entries, WallKinds))
    ensures var boundaries := Select(t.keys, t.entries, {BOUNDARY});
            && |boundaries| > 0
            && forall i | 0 <= i < |boundaries| ::
                 boundaries[i].position.Vertices? && |boundaries[i].position.vs| > 0
  {
    var i :| 0 <= i < |t.keys| && t.keys[i] in t.entries && t.entries[t.keys[i]].kind == BOUNDARY;
    var k := t.keys[i];
    var boundaries := Select(t.keys, t.entries, {BOUNDARY});
    SelectFinds(t.keys, t.entries, {BOUNDARY}, k);
    forall i | 0 <= i < |boundaries|
      ensures boundaries[i].position.Vertices? && |boundaries[i].position.vs| > 0
    {
      assert WellShaped(boundaries[i]) && boundaries[i].kind == BOUNDARY;
    }
    var walls := Select(t.keys, t.entries, WallKinds);
    forall i | 0 <= i < |walls| ensures walls[i].position.Point? {
      assert WellShaped(walls[i]) && walls[i].kind in WallKinds;
    }
  }

  /** The start-up loop: each init message's `updated_objects` goes into the dict, in arrival order. */
  method MergeInits(inits: seq<ObjectTable>) returns (t: ObjectTable)
    requires forall i | 0 <= i < |inits| :: inits[i].Valid()
    ensures t.Valid() && t == MergeAll(inits)
  {
    t := ObjectTable([], map[]);
    for i := 0 to |inits|
      invariant t.Valid() && t == MergeAll(inits[..i])
    {
      assert inits[..i + 1][..i] == inits[..i];
      UpdateKeepsValid(t, inits[i]);
      t := Update(t, inits[i]);
    }
    assert inits[..|inits|] == inits;
  }

  /**
   * The partition loop over the merged records: boundaries are collected,
   * walls and destructible walls go to the wall cache.
   */
  method Partition(keys: seq<string>, entries: map<string, Obj>) returns (walls: seq<Obj>, boundaries: seq<Obj>)
    requires forall k | k in keys :: k in entries
    ensures walls == Select(keys, entries, WallKinds)
    ensures boundaries == Select(keys, entries, {BOUNDARY})
  {
    walls, boundaries := [], [];
    for j := 0 to |keys|
      invariant boundaries == Select(keys[..j], entries, {BOUNDARY})
      invariant walls == Select(keys[..j], entries, WallKinds)
    {
      var o := entries[keys[j]];
      assert keys[..j + 1][..j] == keys[..j];
      if o.kind == BOUNDARY {
        boundaries := boundaries + [o];
      } else if o.kind == WALL {
        walls := walls + [o];
      } else if o.kind == DESTRUCTIBLE_WALL {
        walls := walls + [o];
      }
    }
    assert keys[..|keys|] == keys;
  }

  /**
   * The map size of a table: the largest X and the largest Y over the vertices
   * of its boundaries, of which there is at least one, each with a vertex.
   */
  ghost predicate SizedBy(t: ObjectTable, width: real, height: real)
    requires forall k | k in t.keys :: k in t.entries
  {
    var boundaries := Select(t.keys, t.entries, {BOUNDARY});
    && |boundaries| > 0
    && (forall i | 0 <= i < |boundaries| ::
          boundaries[i].position.Vertices? && |boundaries[i].position.vs| > 0)
    && width == MaxCoord(boundaries, 0) && height == MaxCoord(boundaries, 1)
  }

  /**
   * The state start-up leaves: the table is the merged init stream, the wall
   * cache holds its walls and destructible walls in iteration order, and the
   * map size is that of its boundaries.
   */
  ghost predicate StartedFrom(inits: seq<ObjectTable>, t: ObjectTable, walls: seq<Obj>, width: real, height: real)
  {
    Merged(inits, t) && CachedWalls(t, walls) && SizedBy(t, width, height)
  }

  /** The table is the merged init stream, well-formed, its records shaped by type. */
  ghost predicate Merged(inits: seq<ObjectTable>, t: ObjectTable)
  {
    t == MergeAll(inits) && t.Valid() && AllWellShaped(t.entries)
  }

  /** The wall cache holds the table's walls and destructible walls, in iteration order; each is a point. */
  ghost predicate CachedWalls(t: ObjectTable, walls: seq<Obj>)
    requires forall k | k in t.keys :: k in t.entries
  {
    walls == Select(t.keys, t.entries, WallKinds) && PointWalls(walls)
  }

  /**
   * The work of start-up on values: the merged table, the wall cache, and the
   * map size as the largest X and Y over all boundary vertices.
   */
  method StartUp(inits: seq<ObjectTable>) returns (t: ObjectTable, walls: seq<Obj>, width: real, height: real)
    requires forall i | 0 <= i < |inits| :: inits[i].Valid()
    requires StartReady(MergeAll(inits))
    ensures StartedFrom(inits, t, walls, width, height)
  {
    t := MergeInits(inits);
    BoundariesOutlined(t);
    var boundaries;
    walls, boundaries := Partition(t.keys, t.entries);
    width := MaxCoord(boundaries, 0);
    height := MaxCoord(boundaries, 1);
  }
}
