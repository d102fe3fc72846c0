/** The generations of shapes: every shape has its own, and a new shape has the newest, over every run. */
module Generations {
  import opened Strings
  import opened Keys
  import opened Diff
  import opened ShapeLog
  import opened Canonical
  import opened Catalog
  import opened CatalogRuns

  /** No shape is newer than the counter, and no two shapes, dead or alive, are of one generation. */
  ghost predicate Dated(c: Catalog)
  {
    (forall h | h in c.byHandle :: c.byHandle[h].generation <= c.generation) &&
    forall g, h | g in c.byHandle && h in c.byHandle && g != h :: c.byHandle[g].generation != c.byHandle[h].generation
  }

  /** The same shapes of the same generations. */
  ghost predicate SameDates(c: Catalog, d: Catalog)
  {
    d.byHandle.Keys == c.byHandle.Keys && forall h | h in c.byHandle :: d.byHandle[h].generation == c.byHandle[h].generation
  }

  lemma {:induction false} KillAllDates(c: Catalog, hs: seq<string>)
    requires forall g | g in c.byHandle :: c.byHandle[g].handle == g
    ensures SameDates(c, KilledAll(c, hs)) && KilledAll(c, hs).generation == c.generation
    decreases |hs|
  {
    hide Removed, AsStored, RelKey;
    if hs != [] { KillAllDates(if hs[0] in c.byHandle then Killed(c, hs[0]) else c, hs[1..]); }
  }

  lemma InvalidateDates(c: Catalog, r: Relation, saves: nat)
    requires Ok(c)
    ensures var d := InvalidateRelation(c, r, saves); SameDates(c, d) && d.generation == c.generation
  {
    OkRelations(c);
    hide Ok, StoreTombs, ForgottenAll, KilledAll, RelationHandles, LiveIn, RelOk;
    var hs := Sorted(LiveIn(c, RelationHandles(c, r)));
    if RelationHandles(c, r) != {} {
      if saves < |hs| {
        StoreTombsOnly(c, hs[..saves]);
      } else {
        InvalidateIsKillAll(c, r);
        StoreTombsOnly(c, hs);
        KillAllDates(StoreTombs(c, hs), hs);
      }
    }
  }

  lemma {:induction false} AppendedDate(s: Shape, messages: seq<Message>)
    ensures Appended(s, messages).generation == s.generation && Appended(s, messages).handle == s.handle
    decreases |messages|
  {
    hide AppliedRows;
    if messages != [] { AppendedDate(s, messages[..|messages| - 1]); }
  }

  /** A shape replaced by one of its own handle and generation. */
  lemma ReplacedDates(c: Catalog, t: Shape, wake: bool)
    requires t.handle in c.byHandle && t.generation == c.byHandle[t.handle].generation
    ensures SameDates(c, Replaced(c, t, wake)) && Replaced(c, t, wake).generation == c.generation
  {
    hide AsStored;
  }

  lemma ExtendedDate(s: Shape, schema: Schema, rows: Rows, messages: seq<Message>, meta: Metadata)
    ensures Extended(s, schema, rows, messages, meta).generation == s.generation
    ensures Extended(s, schema, rows, messages, meta).handle == s.handle
  {
    hide Numbered, LastOffset;
  }

  lemma RefreshDates(c: Catalog, h: string, snap: Snapshot, meta: Metadata)
    requires Ok(c)
    ensures SameDates(c, Refresh(c, h, snap, meta)) && Refresh(c, h, snap, meta).generation == c.generation
  {
    hide Ok, Extended, RefreshMessages, MaterializedRows, Replaced;
    if Live(c, h) {
      OkShape(c, h);
      ExtendedDate(c.byHandle[h], snap.schema, MaterializedRows(snap.schema, snap.rows), RefreshMessages(c.byHandle[h], snap, meta),
                   meta);
      ReplacedDates(c, Refreshed(c.byHandle[h], snap, meta), RefreshMessages(c.byHandle[h], snap, meta) != []);
    }
  }

  lemma RefreshKeysDates(c: Catalog, h: string, snap: Snapshot, keyRows: seq<Row>, meta: Metadata)
    requires Ok(c)
    ensures SameDates(c, RefreshKeys(c, h, snap, keyRows, meta)) && RefreshKeys(c, h, snap, keyRows, meta).generation == c.generation
  {
    hide Ok, Extended, KeysMessages, MaterializedRows, Splice, TargetedKeys, Replaced;
    var keys := TargetedKeys(snap.schema, keyRows, snap.rows);
    if Live(c, h) && keys != {} {
      OkShape(c, h);
      var s := c.byHandle[h];
      ExtendedDate(s, snap.schema, Splice(s.rows, keys, MaterializedRows(snap.schema, snap.rows)), KeysMessages(s, snap, keys, meta),
                   meta);
      ReplacedDates(c, KeysRefreshed(s, snap, keyRows, meta), KeysMessages(s, snap, keys, meta) != []);
    }
  }

  lemma AppendDates(c: Catalog, h: string, messages: seq<Message>)
    requires Ok(c)
    ensures SameDates(c, Append(c, h, messages)) && Append(c, h, messages).generation == c.generation
  {
    hide Ok, Appended, Replaced;
    if Live(c, h) {
      OkShape(c, h);
      AppendedDate(c.byHandle[h], messages);
      ReplacedDates(c, Appended(c.byHandle[h], messages), true);
    }
  }

  lemma DeleteDates(c: Catalog, h: string)
    requires Ok(c) && h in c.byHandle
    ensures SameDates(c, Killed(c, h)) && Killed(c, h).generation == c.generation
  {
    hide Removed, AsStored, RelKey, Ok;
  }

  /** Every step but an upsert and a restart keeps the counter and all generations. */
  lemma OtherDates(c: Catalog, op: Op)
    requires Ok(c) && !op.OpUpsert? && !op.OpRestart? && forall d | d in c.byHash :: c.byHash[d] in c.byHandle
    ensures SameDates(c, Do(c, op)) && Do(c, op).generation == c.generation
  {
    hide Ok, RelOk, Killed, KilledAll, InvalidateRelation, Append, Refresh, RefreshKeys, SavedHandles, ReadLog;
    OkRelations(c);
    match op
    case OpDelete(h) => if h in c.byHandle { DeleteDates(c, h); }
    case OpInvalidateRelation(r, saves) => InvalidateDates(c, r, saves);
    case OpInvalidateAll(saves) => KillAllDates(c, SavedHandles(c, saves));
    case OpAppend(h, messages) => AppendDates(c, h, messages);
    case OpRefresh(h, snap, meta) => RefreshDates(c, h, snap, meta);
    case OpRefreshKeys(h, snap, keyRows, meta) => RefreshKeysDates(c, h, snap, keyRows, meta);
    case _ =>
  }

  lemma CreatedDates(c: Catalog, t: Shape)
    requires Dated(c) && t.generation == c.generation + 1
    ensures Dated(Created(c, t)) && Created(c, t).generation == t.generation
    ensures forall h | h in c.byHandle :: c.byHandle[h].generation < t.generation
    ensures t.handle in Created(c, t).byHandle && Created(c, t).byHandle[t.handle] == t
  {
    hide AsStored, RelKey, Added;
  }

  lemma UpsertedDate(c: Catalog, def: Definition, snap: Snapshot, offset: string, fresh_: string)
    requires forall d | d in c.byHash :: c.byHash[d] in c.byHandle
    ensures var t, hash := UpsertedShape(c, def, snap, offset, fresh_), Canonicalize(def);
      if hash in c.byHash then t.handle == c.byHandle[c.byHash[hash]].handle && t.generation == c.byHandle[c.byHash[hash]].generation
      else t.generation == c.generation + 1 && Upsert(c, def, snap, offset, fresh_) == Created(c, t)
  {
    hide Canonicalize, AsStored, RelKey, MaterializedRows, SnapshotMessages, Added, Removed, Created;
  }

  /** A new shape is of a later generation than every shape in the table, and the counter moves to it; a new epoch of a
      live one keeps all generations. */
  lemma UpsertDates(c: Catalog, def: Definition, snap: Snapshot, offset: string, fresh_: string)
    requires Ok(c) && Dated(c)
    ensures forall d | d in c.byHash :: c.byHash[d] in c.byHandle
    ensures var d, t := Upsert(c, def, snap, offset, fresh_), UpsertedShape(c, def, snap, offset, fresh_);
      Dated(d) && t.handle in d.byHandle && d.byHandle[t.handle] == t &&
      if Canonicalize(def) in c.byHash then SameDates(c, d) && d.generation == c.generation
      else d.generation == t.generation && forall h | h in c.byHandle :: c.byHandle[h].generation < t.generation
  {
    hide Ok, Canonicalize, Upsert, UpsertedShape, Created, Replaced, MayReplace, RelOk, Dated;
    OkValues(c);
    var t := UpsertedShape(c, def, snap, offset, fresh_);
    UpsertedDate(c, def, snap, offset, fresh_);
    if Canonicalize(def) in c.byHash {
      UpsertExisting(c, def, snap, offset, fresh_);
      OkRelations(c);
      ReplacedDates(c, t, true);
      ReplacedHolds(c, t);
      DatesDated(c, Replaced(c, t, true));
    } else {
      CreatedDates(c, t);
    }
  }

  lemma ReplacedHolds(c: Catalog, t: Shape)
    ensures t.handle in Replaced(c, t, true).byHandle && Replaced(c, t, true).byHandle[t.handle] == t
  {
    hide AsStored;
  }

  lemma DatesDated(c: Catalog, d: Catalog)
    requires Dated(c) && SameDates(c, d) && d.generation == c.generation
    ensures Dated(d)
  {
  }

  // ---- restarts ----

  lemma OneDate(c: Catalog, s: Shape)
    ensures LoadedOne(c, s).byHandle == c.byHandle[s.handle := s]
    ensures LoadedOne(c, s).generation >= c.generation && LoadedOne(c, s).generation >= s.generation
  {
    hide AsStored, Added, RelKey;
  }

  lemma {:induction false} LoadedDates(store: map<string, Shape>, hs: seq<string>, broken: set<string>)
    requires forall h | h in hs :: h in store && store[h].handle == h
    ensures var c := LoadedAll(store, hs, broken);
      (forall h :: h in c.byHandle <==> h in hs) &&
      forall h | h in c.byHandle :: h in store && c.byHandle[h].generation == store[h].generation <= c.generation
    decreases |hs|
  {
    hide LoadedOne;
    if hs != [] {
      var n := |hs| - 1;
      assert hs == hs[..n] + [hs[n]] && hs[n] in hs;
      LoadedDates(store, hs[..n], broken);
      OneDate(LoadedAll(store, hs[..n], broken), Decoded(store[hs[n]], hs[n] in broken));
    }
  }

  lemma RestartDates(c: Catalog, broken: set<string>)
    requires Ok(c) && Dated(c)
    ensures Dated(Rebuilt(c.store, broken)) && SameDates(c, Rebuilt(c.store, broken))
  {
    hide Ok, LoadedAll, Sorted;
    StoredHandles(c);
    LoadedDates(c.store, Sorted(c.store.Keys), broken);
    var d := Rebuilt(c.store, broken);
    assert d.byHandle.Keys == c.byHandle.Keys;
  }

  lemma StoredHandles(c: Catalog)
    requires Ok(c)
    ensures c.store.Keys == c.byHandle.Keys
    ensures forall h | h in c.store :: c.store[h].handle == h && c.store[h].generation == c.byHandle[h].generation
  {
    OkRelations(c);
    hide IndexOk, WaitOk, RelOk;
  }

  // ---- runs ----

  lemma StepDates(c: Catalog, op: Op)
    requires Ok(c) && Dated(c) && Sound(c, op) && forall d | d in c.byHash :: c.byHash[d] in c.byHandle
    ensures Dated(Do(c, op))
  {
    hide Ok, Upsert, UpsertedShape, Rebuilt, Killed, InvalidateRelation, InvalidateAll, Append, Refresh, RefreshKeys, Wait, Dated,
      Canonicalize;
    match op
    case OpUpsert(def, snap, offset, h) => UpsertDates(c, def, snap, offset, h);
    case OpRestart(broken) => RestartDates(c, broken);
    case _ =>
      OtherDates(c, op);
      DatesDated(c, Do(c, op));
  }

  /** On every run, restarts included, each shape keeps a generation of its own. */
  lemma {:induction false} RunDates(c: Catalog, ops: seq<Op>)
    requires Ok(c) && Dated(c) && SoundRun(c, ops)
    ensures Dated(Run(c, ops))
    decreases |ops|
  {
    hide Ok, Do, Sound, Dated;
    if ops != [] {
      StepDates(c, ops[0]);
      StepOk(c, ops[0]);
      RunDates(Do(c, ops[0]), ops[1..]);
    }
  }
}
