/**
 * The bot's object table is a Python dict from object id to record. A dict
 * iterates its keys in insertion order, and the bot's "first bullet wins" and
 * "earliest powerup on ties" rules depend on that order, so a table here is
 * its records together with its key order.
 */
module Tables {
  import opened GameObjects

  /** No id occurs twice. */
  ghost predicate Distinct(s: seq<string>)
  {
    forall i, j | 0 <= i < j < |s| :: s[i] != s[j]
  }

  /** A dict from object id to record, with the order its keys iterate in. */
  datatype ObjectTable = ObjectTable(keys: seq<string>, entries: map<string, Obj>)
  {
    /** Every key is listed exactly once, and only keys are listed. */
    ghost predicate Valid()
    {
      Distinct(keys) && forall k :: k in keys <==> k in entries
    }
  }

  /** The elements of `s` that are not in `drop`, in their order in `s`. */
  function Without(s: seq<string>, drop: set<string>): (r: seq<string>)
    ensures |r| <= |s|
  {
    if s == [] then []
    else
      var last := s[|s| - 1];
      Without(s[..|s| - 1], drop) + (if last in drop then [] else [last])
  }

  /** Exactly the elements of `s` that are not dropped are kept. */
  lemma {:induction false} WithoutMembers(s: seq<string>, drop: set<string>)
    ensures forall k :: k in Without(s, drop) <==> k in s && k !in drop
  {
    if s != [] {
      WithoutMembers(s[..|s| - 1], drop);
      assert s == s[..|s| - 1] + [s[|s| - 1]];
    }
  }

  lemma {:induction false} WithoutDistinct(s: seq<string>, drop: set<string>)
    requires Distinct(s)
    ensures Distinct(Without(s, drop))
  {
    if s != [] {
      WithoutDistinct(s[..|s| - 1], drop);
      WithoutMembers(s[..|s| - 1], drop);
    }
  }

  /** Dropping ids that do not occur changes nothing. */
  lemma {:induction false} WithoutAbsent(s: seq<string>, drop: set<string>)
    requires forall k | k in s :: k !in drop
    ensures Without(s, drop) == s
  {
    if s != [] {
      WithoutAbsent(s[..|s| - 1], drop);
      assert s == s[..|s| - 1] + [s[|s| - 1]];
    }
  }

  /** The front of a concatenation with a non-empty right part. */
  lemma FrontOfConcat<T>(a: seq<T>, b: seq<T>)
    requires b != []
    ensures (a + b)[..|a + b| - 1] == a + b[..|b| - 1] && (a + b)[|a + b| - 1] == b[|b| - 1]
  {
  }

  /** Dropping ids from a concatenation drops them from each part. */
  lemma {:induction false} WithoutConcat(a: seq<string>, b: seq<string>, drop: set<string>)
    ensures Without(a + b, drop) == Without(a, drop) + Without(b, drop)
  {
    if b == [] {
      assert a + b == a;
    } else {
      var front, last := b[..|b| - 1], b[|b| - 1];
      var tail := if last in drop then [] else [last];
      WithoutConcat(a, front, drop);
      FrontOfConcat(a, b);
      calc {
        Without(a + b, drop);
        Without(a + front, drop) + tail;
        Without(a, drop) + Without(front, drop) + tail;
        Without(a, drop) + Without(b, drop);
      }
    }
  }

  /** Dropping two sets one after the other drops their union. */
  lemma {:induction false} WithoutWithout(s: seq<string>, a: set<string>, b: set<string>)
    ensures Without(Without(s, a), b) == Without(s, a + b)
  {
    if s != [] {
      var prefix, last := s[..|s| - 1], s[|s| - 1];
      WithoutWithout(prefix, a, b);
      var kept := if last in a then [] else [last];
      WithoutConcat(Without(prefix, a), kept, b);
      if last !in a {
        assert [last][..0] == [];
      }
    }
  }

  /** `x` occurs before `y` in `s`. */
  ghost predicate Before<T>(s: seq<T>, x: T, y: T)
  {
    exists i, j | 0 <= i < j < |s| :: s[i] == x && s[j] == y
  }

  /** Ids that are kept keep their relative order. */
  lemma {:induction false} WithoutKeepsOrder(s: seq<string>, drop: set<string>, i: nat, j: nat)
    requires i < j < |s| && s[i] !in drop && s[j] !in drop
    ensures Before(Without(s, drop), s[i], s[j])
  {
    var prefix := s[..|s| - 1];
    var front := Without(prefix, drop);
    var r := Without(s, drop);
    if j == |s| - 1 {
      assert s[i] == prefix[i];
      WithoutMembers(prefix, drop);
      var a :| 0 <= a < |front| && front[a] == s[i];
      assert r[a] == s[i] && r[|r| - 1] == s[j];
    } else {
      assert prefix[i] == s[i] && prefix[j] == s[j];
      WithoutKeepsOrder(prefix, drop, i, j);
      var a, b :| 0 <= a < b < |front| && front[a] == s[i] && front[b] == s[j];
      assert r[a] == s[i] && r[b] == s[j];
    }
  }

  /**
   * `dict.update(d)`: each record of `d` replaces the whole record under its id
   * or joins the table; ids already present keep their place in the order, new
   * ids follow in `d`'s order.
   */
  function Update(t: ObjectTable, d: ObjectTable): (r: ObjectTable)
    ensures forall k :: k in r.entries <==> k in t.entries || k in d.entries
    ensures forall k | k in d.entries :: r.entries[k] == d.entries[k]
    ensures forall k | k in t.entries && k !in d.entries :: r.entries[k] == t.entries[k]
    ensures |t.keys| <= |r.keys| && r.keys[..|t.keys|] == t.keys
    ensures forall k | k in r.keys[|t.keys|..] :: k in d.keys && k !in t.entries
  {
    WithoutMembers(d.keys, t.entries.Keys);
    ObjectTable(t.keys + Without(d.keys, t.entries.Keys), t.entries + d.entries)
  }

  lemma UpdateKeepsValid(t: ObjectTable, d: ObjectTable)
    requires t.Valid() && d.Valid()
    ensures Update(t, d).Valid()
  {
    var added := Without(d.keys, t.entries.Keys);
    WithoutDistinct(d.keys, t.entries.Keys);
    WithoutMembers(d.keys, t.entries.Keys);
    var r := Update(t, d).keys;
    forall i, j | 0 <= i < j < |r| ensures r[i] != r[j] {
      if j >= |t.keys| && i < |t.keys| {
        assert r[j] in added;
      } else if i >= |t.keys| {
        assert r[i] == added[i - |t.keys|] && r[j] == added[j - |t.keys|];
      }
    }
  }

  /** `del objects[id]` when the id is present; nothing when it is absent. */
  function DeleteOne(t: ObjectTable, id: string): (r: ObjectTable)
    ensures forall k :: k in r.entries <==> k in t.entries && k != id
    ensures forall k | k in r.entries :: r.entries[k] == t.entries[k]
    ensures t.Valid() ==> r.Valid()
  {
    if id in t.entries then
      assert t.Valid() ==> Distinct(Without(t.keys, {id})) by {
        if t.Valid() {
          WithoutDistinct(t.keys, {id});
        }
      }
      WithoutMembers(t.keys, {id});
      ObjectTable(Without(t.keys, {id}), t.entries - {id})
    else t
  }

  /**
   * The `del` loop of a turn, one listed id after another: the listed ids
   * leave the table, every other record stays as it was.
   */
  function Delete(t: ObjectTable, ids: seq<string>): (r: ObjectTable)
    ensures forall k :: k in r.entries <==> k in t.entries && k !in ids
    ensures forall k | k in r.entries :: r.entries[k] == t.entries[k]
    ensures t.Valid() ==> r.Valid()
  {
    if ids == [] then t
    else DeleteOne(Delete(t, ids[..|ids| - 1]), ids[|ids| - 1])
  }

  /** The ids left after the `del` loop are the old ones without the listed ids, in their old order. */
  lemma {:induction false} DeleteKeys(t: ObjectTable, ids: seq<string>)
    requires t.Valid()
    ensures Delete(t, ids).keys == Without(t.keys, set k | k in ids)
  {
    if ids == [] {
      assert (set k | k in ids) == {};
      WithoutAbsent(t.keys, {});
    } else {
      var prefix, id := ids[..|ids| - 1], ids[|ids| - 1];
      DeleteKeys(t, prefix);
      var before := Delete(t, prefix);
      var gone := set k | k in prefix;
      assert (set k | k in ids) == gone + {id};
      assert before.keys == Without(t.keys, gone) && before.Valid();
      WithoutWithout(t.keys, gone, {id});
      if id !in before.entries {
        WithoutAbsent(before.keys, {id});
        assert Delete(t, ids) == before;
      } else {
        assert Delete(t, ids).keys == Without(before.keys, {id});
      }
    }
  }

  /** Two ids that survive the `del` loop stay in the order they had. */
  lemma DeleteKeepsOrder(t: ObjectTable, ids: seq<string>, i: nat, j: nat)
    requires t.Valid() && i < j < |t.keys| && t.keys[i] !in ids && t.keys[j] !in ids
    ensures Before(Delete(t, ids).keys, t.keys[i], t.keys[j])
  {
    DeleteKeys(t, ids);
    WithoutKeepsOrder(t.keys, (set k | k in ids), i, j);
  }

  /** Deleting ids the table does not hold changes nothing, in the records and in the order. */
  lemma {:induction false} DeleteAbsent(t: ObjectTable, ids: seq<string>)
    requires forall k | k in ids :: k !in t.entries
    ensures Delete(t, ids) == t
  {
    if ids != [] {
      var prefix := ids[..|ids| - 1];
      assert forall k | k in prefix :: k in ids;
      DeleteAbsent(t, prefix);
    }
  }

  /**
   * One turn's delta: deletions first, then the full-record updates. An id both
   * deleted and updated ends up holding the pushed record.
   */
  function ApplyTurn(t: ObjectTable, deleted: seq<string>, updated: ObjectTable): (r: ObjectTable)
    ensures forall k | k in updated.entries :: k in r.entries && r.entries[k] == updated.entries[k]
    ensures forall k | k in deleted && k !in updated.entries :: k !in r.entries
    ensures forall k | k in t.entries && k !in deleted && k !in updated.entries ::
              k in r.entries && r.entries[k] == t.entries[k]
    ensures forall k | k in r.entries :: k in t.entries || k in updated.entries
  {
    Update(Delete(t, deleted), updated)
  }

  lemma ApplyTurnKeepsValid(t: ObjectTable, deleted: seq<string>, updated: ObjectTable)
    requires t.Valid() && updated.Valid()
    ensures ApplyTurn(t, deleted, updated).Valid()
  {
    UpdateKeepsValid(Delete(t, deleted), updated);
  }

  /** Two ids new to the table join it in the order `d` lists them. */
  lemma UpdateKeepsOrder(t: ObjectTable, d: ObjectTable, i: nat, j: nat)
    requires i < j < |d.keys| && d.keys[i] !in t.entries && d.keys[j] !in t.entries
    ensures Before(Update(t, d).keys, d.keys[i], d.keys[j])
  {
    var added := Without(d.keys, t.entries.Keys);
    WithoutKeepsOrder(d.keys, t.entries.Keys, i, j);
    var a, b :| 0 <= a < b < |added| && added[a] == d.keys[i] && added[b] == d.keys[j];
    var r := Update(t, d).keys;
    assert r[|t.keys| + a] == d.keys[i] && r[|t.keys| + b] == d.keys[j];
  }

  /** Deleting ids the table does not hold is a no-op, in the records and in the order. */
  lemma AbsentDeletionsIgnored(t: ObjectTable, deleted: seq<string>, updated: ObjectTable)
    requires forall k | k in deleted :: k !in t.entries
    ensures ApplyTurn(t, deleted, updated) == Update(t, updated)
  {
    DeleteAbsent(t, deleted);
  }

  /**
   * The table after the start-up stream: the init messages' `updated_objects`
   * merged in arrival order into an empty dict.
   */
  function MergeAll(inits: seq<ObjectTable>): ObjectTable
  {
    if inits == [] then ObjectTable([], map[])
    else Update(MergeAll(inits[..|inits| - 1]), inits[|inits| - 1])
  }

  /** No init message after the `i`-th mentions `k`. */
  ghost predicate LastMention(inits: seq<ObjectTable>, k: string, i: nat)
  {
    forall j | i < j < |inits| :: k !in inits[j].entries
  }

  /** The last init message that mentions an id decides its record. */
  lemma {:induction false} MergeAllLastWins(inits: seq<ObjectTable>, i: nat, k: string)
    requires i < |inits| && k in inits[i].entries && LastMention(inits, k, i)
    ensures k in MergeAll(inits).entries && MergeAll(inits).entries[k] == inits[i].entries[k]
  {
    var prefix := inits[..|inits| - 1];
    if i < |prefix| {
      assert k !in inits[|inits| - 1].entries;
      assert LastMention(prefix, k, i);
      MergeAllLastWins(prefix, i, k);
    }
  }

  /** Only ids some init message carried are in the merged table. */
  lemma {:induction false} MergeAllOnlyInitIds(inits: seq<ObjectTable>, k: string)
    requires k in MergeAll(inits).entries
    ensures exists i | 0 <= i < |inits| :: k in inits[i].entries
  {
    var prefix := inits[..|inits| - 1];
    if k !in inits[|inits| - 1].entries {
      MergeAllOnlyInitIds(prefix, k);
      var i :| 0 <= i < |prefix| && k in prefix[i].entries;
      assert k in inits[i].entries;
    }
  }

  lemma {:induction false} MergeAllKeepsValid(inits: seq<ObjectTable>)
    requires forall i | 0 <= i < |inits| :: inits[i].Valid()
    ensures MergeAll(inits).Valid()
  {
    if inits != [] {
      MergeAllKeepsValid(inits[..|inits| - 1]);
      UpdateKeepsValid(MergeAll(inits[..|inits| - 1]), inits[|inits| - 1]);
    }
  }

  /**
   * The records whose type is in `kinds`, in the table's iteration order: what
   * a loop over `objects.values()` appending the matching ones collects.
   */
  function Select(keys: seq<string>, entries: map<string, Obj>, kinds: set<int>): (r: seq<Obj>)
    requires forall k | k in keys :: k in entries
    ensures forall i | 0 <= i < |r| :: r[i].kind in kinds
    ensures (forall k | k in keys :: WellShaped(entries[k])) ==> forall i | 0 <= i < |r| :: WellShaped(r[i])
  {
    if keys == [] then []
    else
      var last := keys[|keys| - 1];
      assert keys == keys[..|keys| - 1] + [last];
      Select(keys[..|keys| - 1], entries, kinds) + (if entries[last].kind in kinds then [entries[last]] else [])
  }

  /** Every collected record is the record of some listed id. */
  lemma {:induction false} SelectFrom(keys: seq<string>, entries: map<string, Obj>, kinds: set<int>, i: nat)
    requires forall k | k in keys :: k in entries
    requires i < |Select(keys, entries, kinds)|
    ensures exists k | k in keys :: entries[k] == Select(keys, entries, kinds)[i]
  {
    var prefix := keys[..|keys| - 1];
    var last := keys[|keys| - 1];
    assert keys == prefix + [last];
    if i < |Select(prefix, entries, kinds)| {
      SelectFrom(prefix, entries, kinds, i);
      var k :| k in prefix && entries[k] == Select(prefix, entries, kinds)[i];
      assert k in keys;
    } else {
      assert entries[last] == Select(keys, entries, kinds)[i];
    }
  }

  /** No matching record is missed: the record of every listed id of a selected type is collected. */
  lemma {:induction false} SelectFinds(keys: seq<string>, entries: map<string, Obj>, kinds: set<int>, k: string)
    requires forall k | k in keys :: k in entries
    requires k in keys && entries[k].kind in kinds
    ensures entries[k] in Select(keys, entries, kinds)
  {
    var last := keys[|keys| - 1];
    if k != last {
      assert k in keys[..|keys| - 1] by {
        assert keys == keys[..|keys| - 1] + [last];
      }
      SelectFinds(keys[..|keys| - 1], entries, kinds, k);
    }
  }

  /** Each id contributes its own record, if any, in place: filtering distributes over concatenation. */
  lemma {:induction false} SelectConcat(a: seq<string>, b: seq<string>, entries: map<string, Obj>, kinds: set<int>)
    requires forall k | k in a + b :: k in entries
    ensures Select(a + b, entries, kinds) == Select(a, entries, kinds) + Select(b, entries, kinds)
  {
    if b == [] {
      assert a + b == a;
    } else {
      var front, last := b[..|b| - 1], b[|b| - 1];
      var tail := if entries[last].kind in kinds then [entries[last]] else [];
      assert forall k | k in a + front :: k in a + b;
      SelectConcat(a, front, entries, kinds);
      FrontOfConcat(a, b);
      calc {
        Select(a + b, entries, kinds);
        Select(a + front, entries, kinds) + tail;
        Select(a, entries, kinds) + Select(front, entries, kinds) + tail;
        Select(a, entries, kinds) + Select(b, entries, kinds);
      }
    }
  }

  /** Two records of a chosen type are collected in the order of their ids. */
  lemma {:induction false} SelectKeepsOrder(keys: seq<string>, entries: map<string, Obj>, kinds: set<int>, i: nat, j: nat)
    requires forall k | k in keys :: k in entries
    requires i < j < |keys| && entries[keys[i]].kind in kinds && entries[keys[j]].kind in kinds
    ensures Before(Select(keys, entries, kinds), entries[keys[i]], entries[keys[j]])
  {
    var prefix := keys[..|keys| - 1];
    assert forall k | k in prefix :: k in keys;
    var front := Select(prefix, entries, kinds);
    var r := Select(keys, entries, kinds);
    assert keys[i] == prefix[i];
    if j == |keys| - 1 {
      SelectFinds(prefix, entries, kinds, keys[i]);
      var a :| 0 <= a < |front| && front[a] == entries[keys[i]];
      assert r[a] == entries[keys[i]] && r[|r| - 1] == entries[keys[j]];
    } else {
      assert keys[j] == prefix[j];
      SelectKeepsOrder(prefix, entries, kinds, i, j);
      var a, b :| 0 <= a < b < |front| && front[a] == entries[keys[i]] && front[b] == entries[keys[j]];
      assert r[a] == entries[keys[i]] && r[b] == entries[keys[j]];
    }
  }
}
