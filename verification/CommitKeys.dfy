/** One commit, from its logged row changes to the refreshes: the keys that the batch lists are the keys that the
    transaction touched, and applying the batch refreshes every live shape at all of them. This is what the steps of
    `Replication` take as their guards. */
module CommitKeys {
  import opened Strings
  import opened Keys
  import Diff
  import opened ShapeLog
  import Database
  import opened Catalog
  import opened CatalogRuns
  import opened Batch = ChangeBatch
  import opened RefreshClass
  import opened FanOut

  /** A logged row change of relation `id`. */
  datatype Write = Write(id: nat, change: RowChange)

  /** The key signature of a row whose key columns are `columns`. */
  function Signature(columns: seq<string>, row: Row): string
  {
    Join(KeyValues(columns, row), [SEPARATOR])
  }

  /** It is the signature under which the shape holds the row. */
  lemma SignatureIs(schema: Schema, columns: seq<string>, row: Row)
    requires PkNames(schema) == columns
    ensures Signature(columns, row) == PrimaryKeySignature(schema, row)
  {
    hide PkNames;
  }

  lemma KeyRowSignature(columns: seq<string>, row: Row)
    requires row != map[]
    ensures Signature(columns, KeyRow(columns, row)) == Signature(columns, row)
  {
    hide Join;
    forall i | 0 <= i < |columns| ensures KeyValues(columns, KeyRow(columns, row))[i] == KeyValues(columns, row)[i] {
      assert columns[i] in columns;
    }
    assert KeyValues(columns, KeyRow(columns, row)) == KeyValues(columns, row);
  }

  /** The row change as the database performs it. */
  function OpOf(meta: RelationMetadata, c: RowChange): Database.RowOp
  {
    match c
    case Inserted(t) => Database.RowOp(meta.relation, meta.root, None, Some(Signature(meta.pkColumns, t)), t)
    case Updated(o, t) =>
      Database.RowOp(meta.relation, meta.root, if o == map[] then None else Some(Signature(meta.pkColumns, o)),
                     Some(Signature(meta.pkColumns, t)), t)
    case Deleted(o) => Database.RowOp(meta.relation, meta.root, Some(Signature(meta.pkColumns, o)), None, o)
  }

  /** Each relation is known and has a key, and the tuples that must be there are. */
  ghost predicate Logged(cache: map<nat, RelationMetadata>, w: Write)
  {
    w.id in cache && cache[w.id].pkColumns != [] &&
    match w.change
    case Inserted(t) => t != map[]
    case Updated(o, t) => t != map[]
    case Deleted(o) => o != map[]
  }

  ghost predicate AllLogged(cache: map<nat, RelationMetadata>, writes: seq<Write>)
  {
    forall i | 0 <= i < |writes| :: Logged(cache, writes[i])
  }

  /** The transaction as the database performs it, and as the batch records it. */
  function OpsOf(cache: map<nat, RelationMetadata>, writes: seq<Write>): seq<Database.RowOp>
    requires forall i | 0 <= i < |writes| :: writes[i].id in cache
  {
    if writes == [] then [] else
      var w := writes[|writes| - 1];
      OpsOf(cache, writes[..|writes| - 1]) + [OpOf(cache[w.id], w.change)]
  }

  function Entries(cache: map<nat, RelationMetadata>, writes: seq<Write>): seq<Batch.Entry>
    requires forall i | 0 <= i < |writes| :: writes[i].id in cache
  {
    if writes == [] then [] else
      var w := writes[|writes| - 1];
      Entries(cache, writes[..|writes| - 1]) + EntriesOf(w.id, cache[w.id], w.change)
  }

  // ---- touched keys are recorded keys ----

  predicate Concerns(meta: RelationMetadata, r: Relation) { meta.relation == r || meta.root == r }

  /** The entry records key `k` for relation `r`. */
  predicate Records(cache: map<nat, RelationMetadata>, e: Batch.Entry, r: Relation, k: string)
  {
    e.id in cache && Concerns(cache[e.id], r) && e.change.primaryKey != map[] &&
    Signature(cache[e.id].pkColumns, e.change.primaryKey) == k
  }

  ghost predicate Recorded(cache: map<nat, RelationMetadata>, entries: seq<Batch.Entry>, r: Relation, k: string)
  {
    exists i | 0 <= i < |entries| :: Records(cache, entries[i], r, k)
  }

  lemma RecordedConcat(cache: map<nat, RelationMetadata>, a: seq<Batch.Entry>, b: seq<Batch.Entry>, r: Relation, k: string)
    ensures Recorded(cache, a + b, r, k) <==> Recorded(cache, a, r, k) || Recorded(cache, b, r, k)
  {
    hide Records;
    var all := a + b;
    if Recorded(cache, a, r, k) {
      var i :| 0 <= i < |a| && Records(cache, a[i], r, k);
      assert Records(cache, all[i], r, k);
    }
    if Recorded(cache, b, r, k) {
      var i :| 0 <= i < |b| && Records(cache, b[i], r, k);
      assert Records(cache, all[|a| + i], r, k);
    }
    if Recorded(cache, all, r, k) {
      var i :| 0 <= i < |all| && Records(cache, all[i], r, k);
      if i < |a| { assert Records(cache, a[i], r, k); } else { assert Records(cache, b[i - |a|], r, k); }
    }
  }

  lemma KeyRowNonempty(columns: seq<string>, row: Row)
    requires columns != [] && row != map[]
    ensures KeyRow(columns, row) != map[]
  {
    assert columns[0] in KeyRow(columns, row);
  }

  /** The entry that a tuple of relation `id` makes records the key of the tuple. */
  lemma TupleRecords(cache: map<nat, RelationMetadata>, e: Batch.Entry, tuple: Row, r: Relation, k: string)
    requires e.id in cache && cache[e.id].pkColumns != [] && tuple != map[] && e.change.primaryKey == KeyRow(cache[e.id].pkColumns, tuple)
    ensures Recorded(cache, [e], r, k) <==> Concerns(cache[e.id], r) && k == Signature(cache[e.id].pkColumns, tuple)
  {
    hide Signature, KeyRow, Concerns;
    KeyRowSignature(cache[e.id].pkColumns, tuple);
    KeyRowNonempty(cache[e.id].pkColumns, tuple);
    assert [e][0] == e;
  }

  lemma BothRecorded(cache: map<nat, RelationMetadata>, d: Batch.Entry, e: Batch.Entry, o: Row, t: Row, r: Relation, k: string)
    requires d.id == e.id && e.id in cache && cache[e.id].pkColumns != [] && o != map[] && t != map[]
    requires d.change.primaryKey == KeyRow(cache[e.id].pkColumns, o) && e.change.primaryKey == KeyRow(cache[e.id].pkColumns, t)
    ensures Recorded(cache, [d] + [e], r, k)
            <==> Concerns(cache[e.id], r) && k in {Signature(cache[e.id].pkColumns, o), Signature(cache[e.id].pkColumns, t)}
  {
    hide Signature, KeyRow, Concerns, Recorded;
    TupleRecords(cache, d, o, r, k);
    TupleRecords(cache, e, t, r, k);
    RecordedConcat(cache, [d], [e], r, k);
  }

  /** The entries that a row change makes, and the keys that it touches. */
  lemma WriteMakes(id: nat, meta: RelationMetadata, c: RowChange)
    requires meta.pkColumns != []
    ensures var added, keys := EntriesOf(id, meta, c), Database.Recorded(OpOf(meta, c));
      match c
      case Inserted(t) =>
        |added| == 1 && added[0].id == id && added[0].change.primaryKey == KeyRow(meta.pkColumns, t) &&
        keys == {Signature(meta.pkColumns, t)}
      case Deleted(o) =>
        |added| == 1 && added[0].id == id && added[0].change.primaryKey == KeyRow(meta.pkColumns, o) &&
        keys == {Signature(meta.pkColumns, o)}
      case Updated(o, t) => true
  {
    hide Signature, KeyRow;
  }

  lemma UpdateMakes(id: nat, meta: RelationMetadata, o: Row, t: Row)
    requires meta.pkColumns != [] && t != map[]
    ensures var added, keys := EntriesOf(id, meta, Updated(o, t)), Database.Recorded(OpOf(meta, Updated(o, t)));
      var n := |added| - 1;
      n == (if o == map[] then 0 else 1) && added[n].id == id && added[n].change.primaryKey == KeyRow(meta.pkColumns, t) &&
      (o == map[] ==> keys == {Signature(meta.pkColumns, t)}) &&
      (o != map[] ==> added[0].id == id && added[0].change.primaryKey == KeyRow(meta.pkColumns, o) &&
                      keys == {Signature(meta.pkColumns, o), Signature(meta.pkColumns, t)})
  {
    KeyRowNonempty(meta.pkColumns, t);
    if o != map[] { KeyRowNonempty(meta.pkColumns, o); }
    assert KeyRow(meta.pkColumns, map[]) == map[];
    hide Signature, KeyRow;
  }

  /** One row change records exactly the keys that it touches. */
  lemma WriteRecords(cache: map<nat, RelationMetadata>, w: Write, r: Relation, k: string)
    requires Logged(cache, w)
    ensures Recorded(cache, EntriesOf(w.id, cache[w.id], w.change), r, k)
            <==> Concerns(cache[w.id], r) && k in Database.Recorded(OpOf(cache[w.id], w.change))
  {
    hide Signature, KeyRow, Concerns, Recorded, EntriesOf, OpOf, Database.Recorded;
    var meta := cache[w.id];
    var added := EntriesOf(w.id, meta, w.change);
    match w.change {
      case Inserted(t) =>
        WriteMakes(w.id, meta, w.change);
        TupleRecords(cache, added[0], t, r, k);
        assert added == [added[0]];
      case Deleted(o) =>
        WriteMakes(w.id, meta, w.change);
        TupleRecords(cache, added[0], o, r, k);
        assert added == [added[0]];
      case Updated(o, t) =>
        UpdateMakes(w.id, meta, o, t);
        if o == map[] {
          TupleRecords(cache, added[0], t, r, k);
          assert added == [added[0]];
        } else {
          BothRecorded(cache, added[0], added[1], o, t, r, k);
          assert added == [added[0]] + [added[1]];
        }
    }
  }

  lemma {:induction false} TouchedAreRecorded(cache: map<nat, RelationMetadata>, writes: seq<Write>, r: Relation, k: string)
    requires AllLogged(cache, writes)
    ensures k in Database.Touched(OpsOf(cache, writes), r) <==> Recorded(cache, Entries(cache, writes), r, k)
  {
    hide OpOf, EntriesOf, Database.Recorded, Records;
    if writes != [] {
      var n := |writes| - 1;
      TouchedAreRecorded(cache, writes[..n], r, k);
      var w := writes[n];
      WriteRecords(cache, w, r, k);
      var before, op := OpsOf(cache, writes[..n]), OpOf(cache[w.id], w.change);
      assert (before + [op])[..|before|] == before;
      OpRelation(cache[w.id], w.change);
      RecordedConcat(cache, Entries(cache, writes[..n]), EntriesOf(w.id, cache[w.id], w.change), r, k);
    }
  }

  lemma OpRelation(meta: RelationMetadata, c: RowChange)
    ensures OpOf(meta, c).relation == meta.relation && OpOf(meta, c).root == meta.root
  {
  }

  // ---- recorded keys are listed keys ----

  /** The key rows that the commit refreshes for relation `id`. */
  function Refreshed(changes: Changes, id: nat, commit: Commit): seq<Row>
  {
    KeyRows(ChangesFor(changes, id, commit.lsn, commit.xid))
  }

  lemma {:induction false} KeyRowsAre(changes: seq<ChangeRecord>, row: Row)
    ensures row in KeyRows(changes) <==> row != map[] && exists i | 0 <= i < |changes| :: changes[i].primaryKey == row
  {
    if changes != [] {
      var n := |changes| - 1;
      KeyRowsAre(changes[..n], row);
      if exists i | 0 <= i < |changes[..n]| :: changes[..n][i].primaryKey == row {
        var i :| 0 <= i < n && changes[..n][i].primaryKey == row;
        assert changes[i].primaryKey == row;
      }
      if exists i | 0 <= i < |changes| :: changes[i].primaryKey == row {
        var i :| 0 <= i < |changes| && changes[i].primaryKey == row;
        if i < n { assert changes[..n][i].primaryKey == row; }
      }
    }
  }

  /** What the batch holds was recorded. */
  lemma {:induction false} HeldWasRecorded(entries: seq<Batch.Entry>, id: nat, key: string)
    requires id in AddAll(entries) && key in AddAll(entries)[id]
    ensures exists i | 0 <= i < |entries| :: entries[i].id == id && entries[i].change == AddAll(entries)[id][key]
  {
    hide BatchKey;
    var n := |entries| - 1;
    var before := AddAll(entries[..n]);
    if entries[n].id == id && AddAll(entries)[id][key] == entries[n].change {
    } else {
      assert id in before && key in before[id] && before[id][key] == AddAll(entries)[id][key];
      HeldWasRecorded(entries[..n], id, key);
      var i :| 0 <= i < n && entries[..n][i].id == id && entries[..n][i].change == before[id][key];
      assert entries[i] == entries[..n][i];
    }
  }

  /** All keys of one relation have its columns, no NULLs, and composite ones no bars. */
  ghost predicate SafeEntries(entries: seq<Batch.Entry>)
  {
    forall i, j | 0 <= i < |entries| && 0 <= j < |entries| && entries[i].id == entries[j].id &&
                  entries[i].change.primaryKey != map[] && entries[j].change.primaryKey != map[] ::
      entries[i].change.primaryKey.Keys == entries[j].change.primaryKey.Keys && SafeKey(entries[j].change.primaryKey)
  }

  lemma ListedAreRecorded(entries: seq<Batch.Entry>, id: nat, commit: Commit, row: Row)
    requires SafeEntries(entries)
    ensures row in Refreshed(AddAll(entries), id, commit)
            <==> row != map[] && exists i | 0 <= i < |entries| :: entries[i].id == id && entries[i].change.primaryKey == row
  {
    hide AddAll, Sorted, SafeKey;
    var listed := ChangesFor(AddAll(entries), id, commit.lsn, commit.xid);
    KeyRowsAre(listed, row);
    if exists i | 0 <= i < |listed| :: listed[i].primaryKey == row {
      var i :| 0 <= i < |listed| && listed[i].primaryKey == row;
      var keys := Sorted(AddAll(entries)[id].Keys);
      ListedAt(AddAll(entries)[id], keys, commit.lsn, commit.xid);
      assert keys[i] in keys;
      HeldWasRecorded(entries, id, keys[i]);
    }
    if row != map[] && exists i | 0 <= i < |entries| :: entries[i].id == id && entries[i].change.primaryKey == row {
      var i :| 0 <= i < |entries| && entries[i].id == id && entries[i].change.primaryKey == row;
      var k := EveryRecordedKeyListed(entries, i, commit.lsn, commit.xid);
    }
  }

  /** Key `k` of relation `r` is among the keys that the commit refreshes for relation `id`. */
  ghost predicate RefreshesKey(cache: map<nat, RelationMetadata>, changes: Changes, commit: Commit, id: nat, r: Relation, k: string)
  {
    id in cache && Concerns(cache[id], r) &&
    exists row :: row in Refreshed(changes, id, commit) && Signature(cache[id].pkColumns, row) == k
  }

  /** The keys that a transaction touches in a table or partition root are exactly the keys that the batch lists
      for the relations concerned. */
  lemma TouchedAreListed(cache: map<nat, RelationMetadata>, writes: seq<Write>, commit: Commit, r: Relation, k: string)
    requires AllLogged(cache, writes) && SafeEntries(Entries(cache, writes))
    ensures k in Database.Touched(OpsOf(cache, writes), r)
            <==> exists id :: RefreshesKey(cache, AddAll(Entries(cache, writes)), commit, id, r, k)
  {
    hide OpsOf, Entries, AddAll, SafeEntries, Refreshed, Signature, Concerns;
    var entries := Entries(cache, writes);
    TouchedAreRecorded(cache, writes, r, k);
    if Recorded(cache, entries, r, k) {
      var i :| 0 <= i < |entries| && Records(cache, entries[i], r, k);
      ListedAreRecorded(entries, entries[i].id, commit, entries[i].change.primaryKey);
      assert RefreshesKey(cache, AddAll(entries), commit, entries[i].id, r, k);
    }
    if exists id :: RefreshesKey(cache, AddAll(entries), commit, id, r, k) {
      var id :| RefreshesKey(cache, AddAll(entries), commit, id, r, k);
      var row :| row in Refreshed(AddAll(entries), id, commit) && Signature(cache[id].pkColumns, row) == k;
      ListedAreRecorded(entries, id, commit, row);
      var i :| 0 <= i < |entries| && entries[i].id == id && entries[i].change.primaryKey == row;
      assert Records(cache, entries[i], r, k);
    }
  }

  // ---- the commit is done ----

  /** What a successful application of the batch leaves, by `FanOut.ApplyChangeBatch`. */
  ghost predicate Applied(d: Catalog, ops: seq<Op>, cache: map<nat, RelationMetadata>, changes: Changes, commit: Commit, env: Environment)
  {
    forall id | id in changes && id in cache :: RelationDone(d, ops, id, cache[id], Refreshed(changes, id, commit), commit, env)
  }

  /** Some operation refreshed the key of the shape for the commit. */
  ghost predicate KeyRefreshed(ops: seq<Op>, cache: map<nat, RelationMetadata>, commit: Commit, env: Environment, h: string, k: string)
  {
    exists id, keyRows, row :: id in cache && env.byKeys(h, id).Answered? && row in keyRows &&
      Signature(cache[id].pkColumns, row) == k &&
      OpRefreshKeys(h, env.byKeys(h, id).snap, keyRows, Metadata(cache[id].relation, commit.lsn, commit.xid, false)) in ops
  }

  lemma ListedIn(changes: Changes, id: nat, commit: Commit, row: Row)
    requires row in Refreshed(changes, id, commit)
    ensures id in changes && Refreshed(changes, id, commit) != []
  {
    hide Sorted;
    assert KeyRows([]) == [];
  }

  /** Every live targeted shape has had each key that the transaction touches in its table refreshed. */
  lemma EveryTouchedKeyRefreshed(d: Catalog, ops: seq<Op>, cache: map<nat, RelationMetadata>, writes: seq<Write>, commit: Commit,
                                 env: Environment, h: string, k: string)
    requires AllLogged(cache, writes) && SafeEntries(Entries(cache, writes))
    requires Applied(d, ops, cache, AddAll(Entries(cache, writes)), commit, env)
    requires Live(d, h) && Targeted(d.byHandle[h].def) && k in Database.Touched(OpsOf(cache, writes), d.byHandle[h].def.relation)
    ensures KeyRefreshed(ops, cache, commit, env, h, k)
  {
    hide OpsOf, Entries, AddAll, SafeEntries, Refreshed, Signature, Targeted, Database.Touched;
    var changes, r := AddAll(Entries(cache, writes)), d.byHandle[h].def.relation;
    TouchedAreListed(cache, writes, commit, r, k);
    var id :| RefreshesKey(cache, changes, commit, id, r, k);
    var row :| row in Refreshed(changes, id, commit) && Signature(cache[id].pkColumns, row) == k;
    ListedIn(changes, id, commit, row);
    assert KeysDone(d, ops, id, cache[id], Refreshed(changes, id, commit), commit, env);
    assert OnRelation(d.byHandle[h].def, cache[id]);
  }

  /** Every live dependent shape that reads a table which the transaction touches has been refreshed as a whole. */
  lemma EveryDependentRefreshed(d: Catalog, ops: seq<Op>, cache: map<nat, RelationMetadata>, writes: seq<Write>, commit: Commit,
                                env: Environment, h: string, r: Relation)
    requires AllLogged(cache, writes) && SafeEntries(Entries(cache, writes))
    requires Applied(d, ops, cache, AddAll(Entries(cache, writes)), commit, env)
    requires Live(d, h) && TriggeredBy(d.byHandle[h].def, r, r) && Database.Touched(OpsOf(cache, writes), r) != {}
    ensures WasRefreshed(ops, h)
  {
    hide OpsOf, Entries, AddAll, SafeEntries, Refreshed, Signature, Database.Touched, LiveDependencies, KeysDone, WasRefreshed;
    var changes := AddAll(Entries(cache, writes));
    var k :| k in Database.Touched(OpsOf(cache, writes), r);
    TouchedAreListed(cache, writes, commit, r, k);
    var id :| RefreshesKey(cache, changes, commit, id, r, k);
    var row :| row in Refreshed(changes, id, commit) && Signature(cache[id].pkColumns, row) == k;
    ListedIn(changes, id, commit, row);
    assert WholeDone(d, ops, cache[id]);
    assert TriggeredBy(d.byHandle[h].def, cache[id].relation, cache[id].root);
  }
}
