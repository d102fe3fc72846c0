/** The rows that one transaction touched, by relation and key. Models internal/pg/change_batch.go
    and the record functions of internal/pg/replication.go. */
module ChangeBatch {
  import opened Strings
  import opened Keys

  datatype Operation = Insert | Update | Delete

  datatype ChangeRecord = ChangeRecord(relation: Relation, op: Operation, primaryKey: Row, oldTuple: Row, newTuple: Row,
                                       commitLsn: nat, xid: nat)

  type Changes = map<nat, map<string, ChangeRecord>>

  // ---- the key of a row within a batch ----

  function Part(name: string, cell: Option<string>): string
  {
    name + "=" + (match cell case None => "<nil>" case Some(v) => v)
  }

  function Parts(names: seq<string>, row: Row): (r: seq<string>)
    ensures |r| == |names|
  {
    seq(|names|, i requires 0 <= i < |names| => Part(names[i], Cell(row, names[i])))
  }

  /** primaryKeySignature: `name=value` parts in name order, joined by bars. */
  function BatchKey(row: Row): string
  {
    Join(Parts(Sorted(row.Keys), row), "|")
  }

  method BuildBatchKey(row: Row) returns (key: string)
    ensures key == BatchKey(row)
  {
    hide Sorted, Join, Part;
    if |row| == 0 {
      assert row == map[] && row.Keys == {};
      assert Sorted({}) == [] && Parts([], row) == [];
      EmptyJoin();
      return "";
    }
    var keys := Sorted(row.Keys);
    var parts := [];
    for i := 0 to |keys|
      invariant |parts| == i && forall k | 0 <= k < i :: parts[k] == Part(keys[k], Cell(row, keys[k]))
    {
      assert keys[i] in keys;
      parts := parts + [Part(keys[i], row[keys[i]])];
    }
    assert parts == Parts(keys, row);
    key := Join(parts, "|");
  }

  lemma EmptyJoin()
    ensures Join([], "|") == ""
  {
  }

  predicate NoNulls(row: Row)
  {
    forall n | n in row :: row[n].Some?
  }

  lemma JoinStep(names: seq<string>, row: Row)
    requires names != []
    ensures Join(Parts(names, row), "|") ==
            Part(names[0], Cell(row, names[0])) + (if |names| == 1 then "" else "|" + Join(Parts(names[1..], row), "|"))
  {
    hide Part;
    assert Parts(names, row)[1..] == Parts(names[1..], row);
  }

  /** A nonempty key row has a nonempty key. */
  lemma KeyNonEmpty(row: Row)
    ensures BatchKey(row) == "" <==> row == map[]
  {
    var names := Sorted(row.Keys);
    if names == [] {
      assert row.Keys == {} && Parts(names, row) == [];
    } else {
      assert names[0] in names;
      JoinStep(names, row);
    }
  }

  lemma CutPart(name: string, v: string, x: string, w: string, y: string)
    requires (name + "=" + v) + x == (name + "=" + w) + y
    ensures v + x == w + y
  {
    var p := name + "=";
    assert (p + v) + x == p + (v + x) && (p + w) + y == p + (w + y);
    assert (p + (v + x))[|p|..] == v + x && (p + (w + y))[|p|..] == w + y;
  }

  /** Values without bars are determined by the joined text. */
  lemma {:induction false} JoinDecides(names: seq<string>, a: Row, b: Row)
    requires forall n | n in names :: n in a && n in b && a[n].Some? && b[n].Some? && '|' !in a[n].value && '|' !in b[n].value
    requires Join(Parts(names, a), "|") == Join(Parts(names, b), "|")
    ensures forall n | n in names :: a[n] == b[n]
  {
    if names != [] {
      var n := names[0];
      assert n in names;
      var v, w := a[n].value, b[n].value;
      JoinStep(names, a);
      JoinStep(names, b);
      if |names| == 1 {
        CutPart(n, v, "", w, "");
        assert v + "" == v && w + "" == w;
      } else {
        var x, y := Join(Parts(names[1..], a), "|"), Join(Parts(names[1..], b), "|");
        CutPart(n, v, "|" + x, w, "|" + y);
        hide Join, Parts;
        assert v + ['|'] + x == v + ("|" + x) && w + ['|'] + y == w + ("|" + y);
        SplitFirst(v, '|', x);
        SplitFirst(w, '|', y);
        JoinDecides(names[1..], a, b);
        assert names == [n] + names[1..];
      }
    }
  }

  predicate PlainKey(row: Row)
  {
    forall n | n in row :: row[n].Some? && '|' !in row[n].value
  }

  /** Two keys of one relation without NULLs and bars collide only if they are equal. */
  lemma PlainKeysApart(a: Row, b: Row)
    requires a.Keys == b.Keys && PlainKey(a) && PlainKey(b) && BatchKey(a) == BatchKey(b)
    ensures a == b
  {
    hide Sorted, Join;
    JoinDecides(Sorted(a.Keys), a, b);
    assert forall n | n in a :: n in Sorted(a.Keys);
  }

  lemma SingleColumn(n: string, a: Row, b: Row)
    requires a.Keys == b.Keys == {n} && NoNulls(a) && NoNulls(b) && BatchKey(a) == BatchKey(b)
    ensures a == b
  {
    SortedUnique([n], {n});
    JoinStep([n], a);
    JoinStep([n], b);
    CutPart(n, a[n].value, "", b[n].value, "");
    assert a[n].value + "" == a[n].value && b[n].value + "" == b[n].value;
  }

  /** Two keys of one relation that share a batch key: the first value ends in the text of the
      second column, or the second starts with it. */
  function Collider(names: seq<string>, late: bool): Row
    requires |names| >= 2
  {
    var text := "|" + names[1] + "=";
    (map n | n in names :: Some(""))[names[0] := Some(if late then "" else text)][names[1] := Some(if late then text else "")]
  }

  lemma SameText(first: string, second: string, tail: string)
    ensures var text := "|" + second + "=";
      Part(first, Some(text)) + ("|" + (Part(second, Some("")) + tail)) ==
      Part(first, Some("")) + ("|" + (Part(second, Some(text)) + tail))
  {
    var text := "|" + second + "=";
    assert Part(first, Some(text)) + ("|" + (Part(second, Some("")) + tail)) == first + "=" + text + text + tail;
    assert Part(first, Some("")) + ("|" + (Part(second, Some(text)) + tail)) == first + "=" + text + text + tail;
  }

  lemma TwoSteps(names: seq<string>, row: Row)
    requires |names| >= 2
    ensures var tail := if |names| == 2 then "" else "|" + Join(Parts(names[2..], row), "|");
      Join(Parts(names, row), "|") == Part(names[0], Cell(row, names[0])) + ("|" + (Part(names[1], Cell(row, names[1])) + tail))
  {
    JoinStep(names, row);
    JoinStep(names[1..], row);
    hide Join, Parts, Part;
    assert names[1..][1..] == names[2..] && names[1..][0] == names[1];
  }

  lemma ColliderCells(names: seq<string>, late: bool)
    requires |names| >= 2 && forall i, j | 0 <= i < j < |names| :: names[i] != names[j]
    ensures var row, text := Collider(names, late), "|" + names[1] + "=";
      Cell(row, names[0]) == Some(if late then "" else text) && Cell(row, names[1]) == Some(if late then text else "") &&
      (forall i | 2 <= i < |names| :: Cell(row, names[i]) == Some("")) &&
      NoNulls(row) && forall n :: n in row <==> n in names
  {
    assert names[0] in names && names[1] in names && forall i | 0 <= i < |names| :: names[i] in names;
  }

  lemma CollidersAgree(names: seq<string>)
    requires |names| >= 2 && forall i, j | 0 <= i < j < |names| :: names[i] != names[j]
    ensures Join(Parts(names, Collider(names, false)), "|") == Join(Parts(names, Collider(names, true)), "|")
    ensures Collider(names, false) != Collider(names, true)
  {
    var a, b, rest := Collider(names, false), Collider(names, true), names[2..];
    ColliderCells(names, false);
    ColliderCells(names, true);
    hide Collider, Join, Part;
    assert Parts(rest, a) == Parts(rest, b) by {
      forall i | 0 <= i < |rest| ensures Parts(rest, a)[i] == Parts(rest, b)[i] { assert rest[i] == names[i + 2]; }
    }
    hide Parts;
    TwoSteps(names, a);
    TwoSteps(names, b);
    SameText(names[0], names[1], if |names| == 2 then "" else "|" + Join(Parts(rest, a), "|"));
  }

  ghost predicate KeysApart(names: set<string>)
  {
    forall a: Row, b: Row | a.Keys == names && b.Keys == names && NoNulls(a) && NoNulls(b) && BatchKey(a) == BatchKey(b) :: a == b
  }

  lemma ManyColumns(names: set<string>)
    requires |names| >= 2
    ensures !KeysApart(names)
  {
    hide Less, Sorted, Collider, Join, Parts;
    var list := Sorted(names);
    forall i, j | 0 <= i < j < |list| ensures list[i] != list[j] { assert Less(list[i], list[j]); LessIrreflexive(list[i]); }
    CollidersAgree(list);
    ColliderCells(list, false);
    ColliderCells(list, true);
    hide NoNulls;
    var a, b := Collider(list, false), Collider(list, true);
    assert a.Keys == names && b.Keys == names;
    assert BatchKey(a) == BatchKey(b);
  }

  /** The batch keeps every pair of distinct keys of a relation apart exactly when the primary key has
      one column: for any two or more column names there are keys that overwrite each other. */
  lemma KeysApartIff(names: set<string>)
    requires names != {}
    ensures KeysApart(names) <==> |names| == 1
  {
    hide BatchKey;
    if |names| == 1 {
      var n :| n in names;
      assert |names - {n}| == 0;
      assert names == {n};
      forall a: Row, b: Row | a.Keys == names && b.Keys == names && NoNulls(a) && NoNulls(b) && BatchKey(a) == BatchKey(b)
        ensures a == b
      {
        SingleColumn(n, a, b);
      }
    } else {
      ManyColumns(names);
    }
  }

  // ---- adding ----

  function AddTo(changes: Changes, id: nat, change: ChangeRecord): Changes
  {
    var known := if id in changes then changes[id] else map[];
    changes[id := if BatchKey(change.primaryKey) == "" then known else known[BatchKey(change.primaryKey) := change]]
  }

  datatype Entry = Entry(id: nat, change: ChangeRecord)

  function AddAll(entries: seq<Entry>): Changes
  {
    if entries == [] then map[]
    else AddTo(AddAll(entries[..|entries| - 1]), entries[|entries| - 1].id, entries[|entries| - 1].change)
  }

  predicate IsFor(e: Entry, id: nat, key: string)
  {
    e.id == id && BatchKey(e.change.primaryKey) == key
  }

  /** The position of the last entry for a key of a relation, or -1. */
  function LastFor(entries: seq<Entry>, id: nat, key: string): (j: int)
    ensures -1 <= j < |entries|
    ensures j >= 0 ==> IsFor(entries[j], id, key)
    ensures forall k | j < k < |entries| :: !IsFor(entries[k], id, key)
  {
    if entries == [] then -1
    else if IsFor(entries[|entries| - 1], id, key) then |entries| - 1
    else LastFor(entries[..|entries| - 1], id, key)
  }

  ghost predicate Has(changes: Changes, id: nat, key: string, change: ChangeRecord)
  {
    id in changes && key in changes[id] && changes[id][key] == change
  }

  lemma AddPuts(changes: Changes, id: nat, change: ChangeRecord)
    requires change.primaryKey != map[]
    ensures Has(AddTo(changes, id, change), id, BatchKey(change.primaryKey), change)
  {
    KeyNonEmpty(change.primaryKey);
    hide BatchKey;
  }

  lemma AddKeeps(changes: Changes, id: nat, change: ChangeRecord, g: nat, key: string, kept: ChangeRecord)
    requires Has(changes, g, key, kept) && (id != g || BatchKey(change.primaryKey) != key)
    ensures Has(AddTo(changes, id, change), g, key, kept)
  {
    hide BatchKey;
  }

  /** The batch holds the last change recorded for each key. */
  lemma {:induction false} LastKept(entries: seq<Entry>, id: nat, key: string)
    requires key != "" && LastFor(entries, id, key) >= 0
    ensures Has(AddAll(entries), id, key, entries[LastFor(entries, id, key)].change)
  {
    hide BatchKey, AddTo, Has;
    var n := |entries| - 1;
    var last := entries[n].change;
    KeyNonEmpty(last.primaryKey);
    if IsFor(entries[n], id, key) {
      AddPuts(AddAll(entries[..n]), id, last);
    } else {
      LastKept(entries[..n], id, key);
      AddKeeps(AddAll(entries[..n]), entries[n].id, last, id, key, entries[LastFor(entries, id, key)].change);
    }
  }

  /** Each recorded key is kept, with the last change recorded for it. */
  lemma RecordedKept(entries: seq<Entry>, i: nat)
    requires i < |entries| && entries[i].change.primaryKey != map[]
    ensures var id, key := entries[i].id, BatchKey(entries[i].change.primaryKey);
      var j := LastFor(entries, id, key);
      i <= j && IsFor(entries[j], id, key) && (forall k | j < k < |entries| :: !IsFor(entries[k], id, key)) &&
      Has(AddAll(entries), id, key, entries[j].change)
  {
    KeyNonEmpty(entries[i].change.primaryKey);
    hide BatchKey, AddAll, Has, LastFor;
    var id, key := entries[i].id, BatchKey(entries[i].change.primaryKey);
    assert IsFor(entries[i], id, key);
    LastKept(entries, id, key);
  }

  // ---- reading ----

  function Listed(changes: map<string, ChangeRecord>, keys: seq<string>, lsn: nat, xid: nat): seq<ChangeRecord>
    requires forall k | k in keys :: k in changes
  {
    if keys == [] then []
    else
      var k := keys[|keys| - 1];
      assert k in keys;
      Listed(changes, keys[..|keys| - 1], lsn, xid) + [changes[k].(commitLsn := lsn, xid := xid)]
  }

  function ChangesFor(changes: Changes, id: nat, lsn: nat, xid: nat): seq<ChangeRecord>
  {
    if id in changes then Listed(changes[id], Sorted(changes[id].Keys), lsn, xid) else []
  }

  lemma {:induction false} ListedAt(changes: map<string, ChangeRecord>, keys: seq<string>, lsn: nat, xid: nat)
    requires forall k | k in keys :: k in changes
    ensures |Listed(changes, keys, lsn, xid)| == |keys|
    ensures forall i | 0 <= i < |keys| :: Listed(changes, keys, lsn, xid)[i] == changes[keys[i]].(commitLsn := lsn, xid := xid)
  {
    if keys != [] {
      var n := |keys| - 1;
      assert forall k | k in keys[..n] :: k in keys;
      ListedAt(changes, keys[..n], lsn, xid);
      assert keys[n] in keys;
    }
  }

  /** A key without NULLs that has one column, or no bars. */
  predicate SafeKey(row: Row)
  {
    NoNulls(row) && (|row.Keys| == 1 || PlainKey(row))
  }

  lemma SafeKeysApart(a: Row, b: Row)
    requires a.Keys == b.Keys && SafeKey(a) && SafeKey(b) && BatchKey(a) == BatchKey(b)
    ensures a == b
  {
    hide BatchKey;
    if |a.Keys| == 1 {
      var n :| n in a.Keys;
      assert |a.Keys - {n}| == 0;
      assert a.Keys == {n};
      SingleColumn(n, a, b);
    } else {
      PlainKeysApart(a, b);
    }
  }

  /** Every key that a transaction recorded is among the keys its commit refreshes, when the keys of
      each relation have the same columns and no NULLs, and keys of several columns no bars. */
  lemma EveryRecordedKeyListed(entries: seq<Entry>, i: nat, lsn: nat, xid: nat) returns (k: nat)
    requires i < |entries| && entries[i].change.primaryKey != map[]
    requires forall j | 0 <= j < |entries| && entries[j].id == entries[i].id && entries[j].change.primaryKey != map[] ::
               entries[j].change.primaryKey.Keys == entries[i].change.primaryKey.Keys && SafeKey(entries[j].change.primaryKey)
    ensures var listed := ChangesFor(AddAll(entries), entries[i].id, lsn, xid);
      k < |listed| && listed[k].primaryKey == entries[i].change.primaryKey && listed[k].commitLsn == lsn && listed[k].xid == xid
  {
    var id, key := entries[i].id, BatchKey(entries[i].change.primaryKey);
    RecordedKept(entries, i);
    var j := LastFor(entries, id, key);
    KeyNonEmpty(entries[i].change.primaryKey);
    KeyNonEmpty(entries[j].change.primaryKey);
    SafeKeysApart(entries[i].change.primaryKey, entries[j].change.primaryKey);
    hide BatchKey, AddAll, Sorted, LastFor;
    var changes := AddAll(entries)[id];
    var keys := Sorted(changes.Keys);
    assert key in keys;
    k :| 0 <= k < |keys| && keys[k] == key;
    ListedAt(changes, keys, lsn, xid);
  }

  // ---- the batch ----

  predicate DistinctIds(ids: seq<nat>)
  {
    forall i, j | 0 <= i < j < |ids| :: ids[i] != ids[j]
  }

  predicate AscendingIds(ids: seq<nat>)
  {
    forall i, j | 0 <= i < j < |ids| :: ids[i] < ids[j]
  }

  class ChangeBatch {
    var xid: nat
    var commitLsn: nat
    var byRelation: Changes
    var relationIds: seq<nat>

    ghost predicate Valid()
      reads this
    {
      DistinctIds(relationIds) && forall id :: id in byRelation <==> id in relationIds
    }

    constructor ()
      ensures Valid() && byRelation == map[] && commitLsn == 0 && xid == 0
    {
      xid, commitLsn, byRelation, relationIds := 0, 0, map[], [];
    }

    method Reset(id: nat)
      modifies this
      ensures Valid() && byRelation == map[] && commitLsn == 0 && xid == id
    {
      xid, commitLsn, byRelation, relationIds := id, 0, map[], relationIds[..0];
    }

    method Add(id: nat, change: ChangeRecord)
      requires Valid()
      modifies `byRelation, `relationIds
      ensures Valid() && byRelation == AddTo(old(byRelation), id, change)
    {
      hide BatchKey;
      if id !in byRelation {
        byRelation := byRelation[id := map[]];
        relationIds := relationIds + [id];
      }
      var key := BuildBatchKey(change.primaryKey);
      if key == "" {
        return;
      }
      byRelation := byRelation[id := byRelation[id][key := change]];
    }

    /** The relations touched, ascending. */
    method RelationIds() returns (ids: seq<nat>)
      requires Valid()
      ensures AscendingIds(ids) && forall id :: id in ids <==> id in byRelation
    {
      ids := [];
      for i := 0 to |relationIds|
        invariant AscendingIds(ids) && forall id :: id in ids <==> id in relationIds[..i]
      {
        assert relationIds[i] !in relationIds[..i];
        assert relationIds[..i + 1] == relationIds[..i] + [relationIds[i]];
        ids := InsertId(ids, relationIds[i]);
      }
      assert relationIds[..|relationIds|] == relationIds;
    }

    method ChangesForRelation(id: nat) returns (changes: seq<ChangeRecord>)
      ensures changes == ChangesFor(byRelation, id, commitLsn, xid)
    {
      hide Sorted, Less;
      changes := [];
      if id !in byRelation {
        return;
      }
      var changesByKey := byRelation[id];
      var keys := Sorted(changesByKey.Keys);
      for i := 0 to |keys|
        invariant changes == Listed(changesByKey, keys[..i], commitLsn, xid)
      {
        assert keys[i] in keys && keys[..i + 1][..i] == keys[..i];
        assert forall k | k in keys[..i + 1] :: k in keys;
        changes := changes + [changesByKey[keys[i]].(commitLsn := commitLsn, xid := xid)];
      }
      assert keys[..|keys|] == keys;
    }
  }

  lemma InsertedAt(ids: seq<nat>, id: nat, k: nat)
    requires AscendingIds(ids) && k <= |ids| && (forall j | 0 <= j < k :: ids[j] < id) && (k < |ids| ==> id < ids[k])
    ensures var r := ids[..k] + [id] + ids[k..]; AscendingIds(r) && forall x :: x in r <==> x in ids || x == id
  {
    var r := ids[..k] + [id] + ids[k..];
    forall i, j | 0 <= i < j < |r| ensures r[i] < r[j] {
      assert r[i] == if i < k then ids[i] else if i == k then id else ids[i - 1];
      assert r[j] == if j < k then ids[j] else if j == k then id else ids[j - 1];
    }
    assert ids == ids[..k] + ids[k..];
  }

  /** One insertion of a sort of distinct numbers. */
  method InsertId(ids: seq<nat>, id: nat) returns (r: seq<nat>)
    requires AscendingIds(ids) && id !in ids
    ensures AscendingIds(r) && forall x :: x in r <==> x in ids || x == id
  {
    var k := 0;
    while k < |ids| && ids[k] < id
      invariant k <= |ids| && forall j | 0 <= j < k :: ids[j] < id
    {
      k := k + 1;
    }
    r := ids[..k] + [id] + ids[k..];
    InsertedAt(ids, id, k);
  }

  // ---- recording row changes ----

  datatype RelationMetadata = RelationMetadata(relation: Relation, root: Relation, pkColumns: seq<string>)

  /** primaryKeyRowForColumns. */
  function KeyRow(pkColumns: seq<string>, row: Row): Row
  {
    if row == map[] then map[] else map n | n in pkColumns :: Cell(row, n)
  }

  /** A logged row change; a missing old tuple is an empty row. */
  datatype RowChange = Inserted(newTuple: Row) | Updated(oldTuple: Row, newTuple: Row) | Deleted(oldTuple: Row)

  /** What a row change adds: an update records its old key, when it has one, and then its new key. */
  function EntriesOf(id: nat, meta: RelationMetadata, c: RowChange): seq<Entry>
  {
    match c
    case Inserted(t) => [Entry(id, ChangeRecord(meta.relation, Insert, KeyRow(meta.pkColumns, t), map[], t, 0, 0))]
    case Updated(o, t) =>
      (if KeyRow(meta.pkColumns, o) == map[] then []
       else [Entry(id, ChangeRecord(meta.relation, Update, KeyRow(meta.pkColumns, o), o, t, 0, 0))]) +
      (if KeyRow(meta.pkColumns, t) == map[] then []
       else [Entry(id, ChangeRecord(meta.relation, Update, KeyRow(meta.pkColumns, t), o, t, 0, 0))])
    case Deleted(o) => [Entry(id, ChangeRecord(meta.relation, Delete, KeyRow(meta.pkColumns, o), o, map[], 0, 0))]
  }

  /** recordInsert, recordUpdate and recordDelete; a relation without cached metadata is ignored. */
  method Record(batch: ChangeBatch, ghost entries: seq<Entry>, cache: map<nat, RelationMetadata>, id: nat, c: RowChange)
    requires batch.Valid() && batch.byRelation == AddAll(entries)
    modifies batch
    ensures batch.Valid()
    ensures batch.byRelation == AddAll(entries + if id in cache then EntriesOf(id, cache[id], c) else [])
    ensures batch.commitLsn == old(batch.commitLsn) && batch.xid == old(batch.xid)
  {
    hide AddTo;
    if id !in cache {
      assert entries + [] == entries;
      return;
    }
    var meta := cache[id];
    ghost var added := EntriesOf(id, meta, c);
    match c
    case Inserted(t) =>
      AddNext(entries, added[0]);
      batch.Add(id, ChangeRecord(meta.relation, Insert, KeyRow(meta.pkColumns, t), map[], t, 0, 0));
    case Updated(o, t) =>
      ghost var seen := entries;
      var oldKey, newKey := KeyRow(meta.pkColumns, o), KeyRow(meta.pkColumns, t);
      if oldKey != map[] {
        AddNext(seen, added[0]);
        batch.Add(id, ChangeRecord(meta.relation, Update, oldKey, o, t, 0, 0));
        seen := seen + [added[0]];
      }
      if newKey != map[] {
        AddNext(seen, added[|added| - 1]);
        batch.Add(id, ChangeRecord(meta.relation, Update, newKey, o, t, 0, 0));
        seen := seen + [added[|added| - 1]];
      }
      assert seen == entries + added;
    case Deleted(o) =>
      AddNext(entries, added[0]);
      batch.Add(id, ChangeRecord(meta.relation, Delete, KeyRow(meta.pkColumns, o), o, map[], 0, 0));
  }

  lemma AddNext(entries: seq<Entry>, e: Entry)
    ensures AddAll(entries + [e]) == AddTo(AddAll(entries), e.id, e.change)
  {
    assert (entries + [e])[..|entries|] == entries;
  }

  /** An update of a row with a key records both its old key and its new one. */
  lemma UpdateRecordsBothKeys(id: nat, meta: RelationMetadata, o: Row, t: Row)
    requires meta.pkColumns != [] && t != map[]
    ensures var added := EntriesOf(id, meta, Updated(o, t));
      (exists e :: e in added && e.change.primaryKey == KeyRow(meta.pkColumns, t)) &&
      (o != map[] ==> exists e :: e in added && e.change.primaryKey == KeyRow(meta.pkColumns, o))
  {
    var added := EntriesOf(id, meta, Updated(o, t));
    assert meta.pkColumns[0] in KeyRow(meta.pkColumns, t);
    assert added[|added| - 1] in added;
    if o != map[] {
      assert meta.pkColumns[0] in KeyRow(meta.pkColumns, o);
      assert added[0] in added;
    }
  }

  /** The row of a change before and after it; the empty row where there is none or it is not logged. */
  function OldRow(c: RowChange): Row { if c.Inserted? then map[] else c.oldTuple }

  function NewRow(c: RowChange): Row { if c.Deleted? then map[] else c.newTuple }

  /** The key of one side of a change: its key columns with their values, a missing one as NULL. */
  predicate KeyOfRow(pkColumns: seq<string>, row: Row, key: Row)
  {
    if row == map[] then key == map[] else key.Keys == (set n | n in pkColumns) && forall n | n in key :: key[n] == Cell(row, n)
  }

  /** What is recorded of a row change: its relation, its operation, its rows before and after, and the key of one of
      them: the new one of an insert, the old one of a delete, and either of an update. */
  lemma EntriesSay(id: nat, meta: RelationMetadata, c: RowChange, i: nat)
    requires i < |EntriesOf(id, meta, c)|
    ensures var e := EntriesOf(id, meta, c)[i];
      e.id == id && e.change.relation == meta.relation &&
      e.change.op == (if c.Inserted? then Insert else if c.Updated? then Update else Delete) &&
      e.change.oldTuple == OldRow(c) && e.change.newTuple == NewRow(c) &&
      ((!c.Inserted? && KeyOfRow(meta.pkColumns, OldRow(c), e.change.primaryKey)) ||
       (!c.Deleted? && KeyOfRow(meta.pkColumns, NewRow(c), e.change.primaryKey)))
  {
  }

  lemma OneColumnKey(n: string, cell: Option<string>)
    ensures BatchKey(map[n := cell]) == Part(n, cell)
  {
    hide Part;
    var row: Row := map[n := cell];
    assert row.Keys == {n};
    SortedUnique([n], {n});
    assert Parts([n], row) == [Part(n, cell)];
  }

  /** A NULL in a key is recorded as the text `<nil>`: a one-column key that is NULL is taken for exactly that text. */
  lemma NullReadsAsNil(n: string, v: string)
    ensures BatchKey(map[n := None]) == BatchKey(map[n := Some(v)]) <==> v == "<nil>"
  {
    OneColumnKey(n, None);
    OneColumnKey(n, Some(v));
    hide BatchKey;
    var p := n + "=";
    assert Part(n, None) == p + "<nil>" && Part(n, Some(v)) == p + v;
    assert (p + "<nil>")[|p|..] == "<nil>" && (p + v)[|p|..] == v;
  }
}
