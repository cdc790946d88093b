/** The conflict table: an append-only record that operators tick off. */
module Ledger {
  import opened Objects

  /** The columns of the table's UNIQUE constraint. */
  datatype Key = Key(kind: string, repository: string, object: string, githubState: string, forgejoState: string)

  datatype Entry = Entry(key: Key, lastKnown: string, resolved: bool)

  /** Two rows never share a key, and no row has an id that was not handed out. */
  ghost predicate Sound(rows: map<nat, Entry>, lastId: nat)
  {
    && (forall i :: i in rows ==> 0 < i <= lastId)
    && (forall i, j :: i in rows && j in rows && rows[i].key == rows[j].key ==> i == j)
  }

  /** What may happen to the rows as time passes: new ones appear, unresolved ones are resolved. */
  ghost predicate Later(rows: map<nat, Entry>, rows': map<nat, Entry>)
  {
    forall i :: i in rows ==>
      i in rows' && rows'[i] == rows[i].(resolved := rows'[i].resolved) && (rows[i].resolved ==> rows'[i].resolved)
  }

  ghost predicate Recorded(rows: map<nat, Entry>, key: Key)
  {
    exists i :: i in rows && rows[i].key == key
  }

  class ConflictTable {
    var rows: map<nat, Entry>
    var lastId: nat          // AUTOINCREMENT: ids are not reused
    const available: bool    // no statement fails

    constructor (available: bool)
      ensures rows == map[] && lastId == 0 && this.available == available
    {
      rows, lastId, this.available := map[], 0, available;
    }

    /** Insert unless the key is there already; a failed statement changes nothing. */
    method Add(key: Key, lastKnown: string) returns (ok: bool)
      requires Sound(rows, lastId)
      modifies this`rows, this`lastId
      ensures available ==> ok
      ensures Sound(rows, lastId) && old(lastId) <= lastId
      ensures ok ==> Recorded(rows, key)
      ensures ok && !Recorded(old(rows), key) ==>
                lastId == old(lastId) + 1 && rows == old(rows)[lastId := Entry(key, lastKnown, false)]
      ensures !ok || Recorded(old(rows), key) ==> rows == old(rows)
    {
      ok := *;
      ok := ok || available;
      if ok && !(exists i :: i in rows && rows[i].key == key) {
        lastId := lastId + 1;
        rows := rows[lastId := Entry(key, lastKnown, false)];
        assert rows[lastId].key == key;
      }
    }

    /** Resolves one unresolved row, and says whether there was one; the rows before say which. */
    method Resolve(id: nat) returns (found: Option<Entry>)
      requires Sound(rows, lastId)
      modifies this`rows
      ensures Sound(rows, lastId)
      ensures found.Some? <==> id in old(rows) && !old(rows)[id].resolved
      ensures found.Some? ==> found.value == old(rows)[id].(resolved := true) && rows == old(rows)[id := found.value]
      ensures found.None? ==> rows == old(rows)
    {
      if id in rows && !rows[id].resolved {
        rows := rows[id := rows[id].(resolved := true)];
        found := Some(rows[id]);
      } else {
        found := None;
      }
    }

    /** The ids of the unresolved conflicts. */
    method List() returns (ids: set<nat>)
      ensures forall i :: i in ids <==> i in rows && !rows[i].resolved
    {
      ids := set i | i in rows && !rows[i].resolved;
    }
  }

  datatype Change = Adds(key: Key, lastKnown: string) | Resolves(id: nat)

  /** One successful call, as `ConflictTable` specifies it. */
  ghost predicate Step(rows: map<nat, Entry>, lastId: nat, change: Change, rows': map<nat, Entry>, lastId': nat)
  {
    match change
    case Adds(key, lastKnown) =>
      if Recorded(rows, key) then rows' == rows && lastId' >= lastId
      else lastId' == lastId + 1 && rows' == rows[lastId' := Entry(key, lastKnown, false)]
    case Resolves(id) =>
      lastId' == lastId &&
      rows' == if id in rows && !rows[id].resolved then rows[id := rows[id].(resolved := true)] else rows
  }

  /** The table over time, under any interleaving of reconcilers and operators. */
  ghost predicate IsTimeline(tables: seq<map<nat, Entry>>, lastIds: seq<nat>, changes: seq<Change>)
  {
    && |tables| == |lastIds| == |changes| + 1 && Sound(tables[0], lastIds[0])
    && forall k :: 0 <= k < |changes| ==> Step(tables[k], lastIds[k], changes[k], tables[k + 1], lastIds[k + 1])
  }

  lemma StepIsLater(rows: map<nat, Entry>, lastId: nat, change: Change, rows': map<nat, Entry>, lastId': nat)
    requires Sound(rows, lastId) && Step(rows, lastId, change, rows', lastId')
    ensures Sound(rows', lastId') && Later(rows, rows') && lastId <= lastId'
  {
  }

  lemma LaterTwice(a: map<nat, Entry>, b: map<nat, Entry>, c: map<nat, Entry>)
    requires Later(a, b) && Later(b, c)
    ensures Later(a, c)
  {
  }

  /** Conflicts are kept for good: at any later moment every row is there, with its id and its
      columns, and a resolved one is still resolved; ids and keys stay unique. */
  lemma {:induction false} ConflictsAreKept(tables: seq<map<nat, Entry>>, lastIds: seq<nat>, changes: seq<Change>, j: nat, k: nat)
    requires IsTimeline(tables, lastIds, changes) && j <= k < |tables|
    ensures Sound(tables[j], lastIds[j]) && Sound(tables[k], lastIds[k]) && Later(tables[j], tables[k])
    decreases k
  {
    hide Sound, Later, Step;
    if j < k {
      ConflictsAreKept(tables, lastIds, changes, j, k - 1);
      StepIsLater(tables[k - 1], lastIds[k - 1], changes[k - 1], tables[k], lastIds[k]);
      LaterTwice(tables[j], tables[k - 1], tables[k]);
    } else if k > 0 {
      ConflictsAreKept(tables, lastIds, changes, j - 1, k - 1);
      StepIsLater(tables[k - 1], lastIds[k - 1], changes[k - 1], tables[k], lastIds[k]);
      LaterRefl(tables[k]);
    } else {
      LaterRefl(tables[k]);
    }
  }

  lemma LaterRefl(rows: map<nat, Entry>)
    ensures Later(rows, rows)
  {
  }

  ghost predicate Open(rows: map<nat, Entry>, key: Key)
  {
    exists i :: i in rows && rows[i].key == key && !rows[i].resolved
  }

  /** Resolving is final: the same conflict, found again, is not reported again. */
  lemma ResolvedConflictStaysHidden(tables: seq<map<nat, Entry>>, lastIds: seq<nat>, changes: seq<Change>, j: nat, k: nat, key: Key)
    requires IsTimeline(tables, lastIds, changes) && j <= k < |tables|
    requires Recorded(tables[j], key) && !Open(tables[j], key)
    ensures Recorded(tables[k], key) && !Open(tables[k], key)
  {
    ConflictsAreKept(tables, lastIds, changes, j, k);
    var i :| i in tables[j] && tables[j][i].key == key;
    assert tables[k][i].key == key;
  }

  // ---- the table as a set ----

  /** The reconcilers see the table as the set of conflicts whose columns are in some row. */
  ghost function Known<C(!new)>(rows: map<nat, Entry>, columns: C -> Key): iset<C>
  {
    iset c: C | Recorded(rows, columns(c))
  }

  /** The conflicts that these calls add. */
  ghost function Added<C(!new)>(changes: seq<Change>, columns: C -> Key): iset<C>
  {
    iset c: C | exists k :: 0 <= k < |changes| && changes[k].Adds? && changes[k].key == columns(c)
  }

  lemma StepAdds<C(!new)>(rows: map<nat, Entry>, lastId: nat, change: Change, rows': map<nat, Entry>, lastId': nat, columns: C -> Key)
    requires Sound(rows, lastId) && Step(rows, lastId, change, rows', lastId')
    ensures Known(rows', columns) == Known(rows, columns) + Added([change], columns)
  {
    forall key ensures Recorded(rows', key) <==> Recorded(rows, key) || (change.Adds? && change.key == key) {
      StepRecords(rows, lastId, change, rows', lastId', key);
    }
    forall c ensures c in Added([change], columns) <==> change.Adds? && change.key == columns(c) {
      assert [change][0] == change;
    }
  }

  lemma StepRecords(rows: map<nat, Entry>, lastId: nat, change: Change, rows': map<nat, Entry>, lastId': nat, key: Key)
    requires Sound(rows, lastId) && Step(rows, lastId, change, rows', lastId')
    ensures Recorded(rows', key) <==> Recorded(rows, key) || (change.Adds? && change.key == key)
  {
    if i :| i in rows && rows[i].key == key { assert rows'[i].key == key; }
    if change.Adds? && change.key == key && !Recorded(rows, key) { assert rows'[lastId'].key == key; }
  }

  /** Whatever operators resolve meanwhile, the set only grows by what is added; this is the view
      in which the reconcilers' own tables are sets to which a conflict is added. */
  lemma {:induction false} TableIsSet<C(!new)>(tables: seq<map<nat, Entry>>, lastIds: seq<nat>, changes: seq<Change>, columns: C -> Key, k: nat)
    requires IsTimeline(tables, lastIds, changes) && k < |tables|
    ensures Known(tables[k], columns) == Known(tables[0], columns) + Added(changes[..k], columns)
  {
    hide Sound, Step, Known;
    if k > 0 {
      TableIsSet(tables, lastIds, changes, columns, k - 1);
      ConflictsAreKept(tables, lastIds, changes, k - 1, k - 1);
      StepAdds(tables[k - 1], lastIds[k - 1], changes[k - 1], tables[k], lastIds[k], columns);
      AddedMore(changes, columns, k - 1);
    }
  }

  lemma AddedMore<C(!new)>(changes: seq<Change>, columns: C -> Key, k: nat)
    requires k < |changes|
    ensures Added(changes[..k + 1], columns) == Added(changes[..k], columns) + Added([changes[k]], columns)
  {
    forall c | c in Added(changes[..k + 1], columns) ensures c in Added(changes[..k], columns) + Added([changes[k]], columns) {
      var i :| 0 <= i < k + 1 && changes[..k + 1][i].Adds? && changes[..k + 1][i].key == columns(c);
      if i < k { assert changes[..k][i] == changes[i]; } else { assert [changes[k]][0] == changes[i]; }
    }
    forall c | c in Added(changes[..k], columns) + Added([changes[k]], columns) ensures c in Added(changes[..k + 1], columns) {
      if c in Added(changes[..k], columns) {
        var i :| 0 <= i < k && changes[..k][i].Adds? && changes[..k][i].key == columns(c);
        assert changes[..k + 1][i] == changes[i];
      } else {
        assert changes[..k + 1][k] == changes[k];
      }
    }
  }

  /** Recording one conflict of a reconciler, whose columns tell it from all others. */
  lemma AddInsertsOne<C(!new)>(rows: map<nat, Entry>, lastId: nat, lastKnown: string, rows': map<nat, Entry>, lastId': nat,
                               columns: C -> Key, c: C)
    requires Sound(rows, lastId) && Step(rows, lastId, Adds(columns(c), lastKnown), rows', lastId')
    requires forall d, e :: columns(d) == columns(e) ==> d == e
    ensures Known(rows', columns) == Known(rows, columns) + iset{c}
  {
    hide Known, Step;
    StepAdds(rows, lastId, Adds(columns(c), lastKnown), rows', lastId', columns);
    var added := [Adds(columns(c), lastKnown)];
    forall d ensures d in Added(added, columns) <==> d == c { assert added[0].key == columns(c); }
  }
}
