/** The catalogue over the disk store: what every run of catalogue operations saves is what the disk
    store can hold, so the disk has the run's shapes at the end. */
module StoredRuns {
  import opened Strings
  import opened Offsets
  import opened Keys
  import opened Diff
  import opened ShapeLog
  import Canonical
  import opened Catalog
  import opened CatalogRuns
  import opened DiskStore

  /** How a shape's fields and a log entry are written. */
  datatype Encoding = Encoding(fields: Shape -> Fields, line: Message -> string)

  function Lines(e: Encoding, ms: seq<Message>): (r: seq<string>)
    ensures |r| == |ms| && forall i | 0 <= i < |ms| :: r[i] == e.line(ms[i])
  {
    seq(|ms|, i requires 0 <= i < |ms| => e.line(ms[i]))
  }

  function Written(e: Encoding, s: Shape): Persisted
  {
    Persisted(e.fields(s), s.deleted, Lines(e, s.changes))
  }

  function WrittenAll(e: Encoding, store: map<string, Shape>): map<string, Persisted>
  {
    map h | h in store :: Written(e, store[h])
  }

  // ---- the saves of one operation ----

  /** The handles that an operation saves, in order. */
  function SavedBy(c: Catalog, op: Op): seq<string>
    requires forall d | d in c.byHash :: c.byHash[d] in c.byHandle
  {
    match op
    case OpUpsert(def, snap, offset, h) => [UpsertedShape(c, def, snap, offset, h).handle]
    case OpDelete(h) => if h in c.byHandle then [c.byHandle[h].handle] else []
    case OpInvalidateRelation(r, saves) =>
      var hs := Sorted(LiveIn(c, RelationHandles(c, r)));
      if saves < |hs| then hs[..saves] else hs
    case OpInvalidateAll(saves) => SavedHandles(c, saves)
    case OpAppend(h, _) => if Live(c, h) then [h] else []
    case OpRefresh(h, _, _) => if Live(c, h) then [h] else []
    case OpRefreshKeys(h, snap, keyRows, _) =>
      if Live(c, h) && TargetedKeys(snap.schema, keyRows, snap.rows) != {} then [h] else []
    case OpRestart(broken) => Sorted(c.store.Keys * broken)
    case _ => []
  }

  /** A save that the disk store keeps: a tombstone, a longer version of the log it knows, or a shorter log. */
  ghost predicate Fine(store: map<string, Shape>, h: string, s: Shape)
  {
    s.deleted || h !in store || store[h].deleted || store[h].changes <= s.changes || |s.changes| < |store[h].changes|
  }

  /** `after` is `before` with the shapes `hs` saved, each finely. */
  ghost predicate Saves(before: map<string, Shape>, after: map<string, Shape>, hs: seq<string>)
  {
    after.Keys == before.Keys + (set h | h in hs) &&
    (forall h | h in before && h !in hs :: after[h] == before[h]) &&
    (forall h | h in hs :: Fine(before, h, after[h])) &&
    forall i, j | 0 <= i < j < |hs| :: hs[i] != hs[j]
  }

  lemma SavesOne(before: map<string, Shape>, h: string, s: Shape)
    requires Fine(before, h, s)
    ensures Saves(before, before[h := s], [h])
  {
  }

  lemma SavesNone(store: map<string, Shape>)
    ensures Saves(store, store, [])
  {
  }

  /** Stripping keys from a longer log gives a longer stripped log. */
  lemma StripGrows(a: seq<Message>, b: seq<Message>)
    requires a <= b
    ensures StripAll(a) <= StripAll(b)
  {
    forall i | 0 <= i < |a| ensures StripAll(a)[i] == StripAll(b)[i] {}
  }

  /** Replacing a live shape by one with a longer log is fine. */
  lemma ReplaceFine(c: Catalog, h: string, t: Shape)
    requires Ok(c) && Live(c, h) && c.byHandle[h].changes <= t.changes
    ensures Fine(c.store, h, AsStored(t))
  {
    hide IndexOk, WaitOk, StripAll, StripSnapshot;
    StripGrows(c.byHandle[h].changes, t.changes);
  }

  lemma {:induction false} AppendedGrows(s: Shape, messages: seq<Message>)
    ensures s.changes <= Appended(s, messages).changes
  {
    hide CompareOffsets, NextGeneratedOffset, AppliedRows;
    if messages != [] { AppendedGrows(s, messages[..|messages| - 1]); }
  }

  lemma ReplaceSaves(c: Catalog, t: Shape, wake: bool)
    requires Ok(c) && Live(c, t.handle) && c.byHandle[t.handle].changes <= t.changes
    ensures Saves(c.store, Replaced(c, t, wake).store, [t.handle])
  {
    hide Ok, Fine, Saves, AsStored, WaitersOf;
    ReplaceFine(c, t.handle, t);
    SavesOne(c.store, t.handle, AsStored(t));
  }

  lemma UpsertSaves(c: Catalog, def: Definition, snap: Snapshot, offset: string, h: string)
    requires forall d | d in c.byHash :: c.byHash[d] in c.byHandle
    ensures var t := UpsertedShape(c, def, snap, offset, h);
      Saves(c.store, Upsert(c, def, snap, offset, h).store, [t.handle])
  {
    hide Saves, Added, Removed, RelKey, Canonical.Canonicalize, WaitersOf, StripSnapshot, SnapshotMessages, MaterializedRows;
    var t := UpsertedShape(c, def, snap, offset, h);
    EmptyFine(c.store, t.handle, AsStored(t));
    SavesOne(c.store, t.handle, AsStored(t));
  }

  lemma EmptyFine(store: map<string, Shape>, h: string, s: Shape)
    requires s.changes == []
    ensures Fine(store, h, s)
  {
  }

  /** Only tombstones are saved, for the shapes `hs`. */
  ghost predicate Tombs(before: map<string, Shape>, after: map<string, Shape>, hs: seq<string>)
  {
    after.Keys == before.Keys + (set h | h in hs) &&
    (forall h | h in before && h !in hs :: after[h] == before[h]) &&
    forall h | h in hs :: after[h].deleted
  }

  lemma {:induction false} StoreTombsTombs(c: Catalog, hs: seq<string>)
    requires forall h | h in hs :: h in c.byHandle
    ensures Tombs(c.store, StoreTombs(c, hs).store, hs)
    decreases |hs|
  {
    hide AsStored;
    if hs != [] {
      assert forall h | h in hs[1..] :: h in hs;
      var d := c.(store := c.store[hs[0] := AsStored(c.byHandle[hs[0]]).(deleted := true)]);
      StoreTombsTombs(d, hs[1..]);
      hide StoreTombs;
      TombsNext(c.store, d.store, StoreTombs(d, hs[1..]).store, hs);
      assert StoreTombs(c, hs) == StoreTombs(d, hs[1..]) by { StoreTombsStep(c, hs); }
    }
  }

  lemma StoreTombsStep(c: Catalog, hs: seq<string>)
    requires hs != [] && hs[0] in c.byHandle
    ensures StoreTombs(c, hs) == StoreTombs(c.(store := c.store[hs[0] := AsStored(c.byHandle[hs[0]]).(deleted := true)]), hs[1..])
  {
    hide AsStored;
  }

  lemma TombsNext(a: map<string, Shape>, b: map<string, Shape>, c: map<string, Shape>, hs: seq<string>)
    requires hs != [] && b.Keys == a.Keys + {hs[0]} && b[hs[0]].deleted && (forall h | h in a && h != hs[0] :: b[h] == a[h])
    requires Tombs(b, c, hs[1..])
    ensures Tombs(a, c, hs)
  {
    assert hs == [hs[0]] + hs[1..];
  }

  lemma {:induction false} KilledAllTombs(c: Catalog, hs: seq<string>)
    requires forall h | h in hs :: h in c.byHandle
    ensures Tombs(c.store, KilledAll(c, hs).store, hs)
    decreases |hs|
  {
    hide AsStored, Removed, RelKey, WaitersOf;
    if hs != [] {
      var d := Killed(c, hs[0]);
      assert forall h | h in hs[1..] :: h in hs;
      assert d.store == c.store[hs[0] := AsStored(c.byHandle[hs[0]].(deleted := true))] && d.byHandle.Keys == c.byHandle.Keys;
      StoredDeleted(c.byHandle[hs[0]].(deleted := true));
      hide Killed;
      KilledAllTombs(d, hs[1..]);
      hide KilledAll;
      TombsNext(c.store, d.store, KilledAll(d, hs[1..]).store, hs);
      assert KilledAll(c, hs) == KilledAll(d, hs[1..]) by { KilledAllStep(c, hs); }
    }
  }

  lemma StoredDeleted(s: Shape)
    ensures AsStored(s).deleted == s.deleted
  {
  }

  lemma KilledAllStep(c: Catalog, hs: seq<string>)
    requires hs != [] && hs[0] in c.byHandle
    ensures KilledAll(c, hs) == KilledAll(Killed(c, hs[0]), hs[1..])
  {
    hide Killed;
  }

  lemma {:induction false} ForgottenStore(c: Catalog, hs: seq<string>)
    ensures ForgottenAll(c, hs).store == c.store
    decreases |hs|
  {
    hide WaitersOf;
    if hs != [] {
      ForgottenStore(if hs[0] in c.byHandle then Forgotten(c, hs[0]) else c, hs[1..]);
    }
  }

  lemma TombsSave(before: map<string, Shape>, after: map<string, Shape>, s: set<string>, hs: seq<string>)
    requires Tombs(before, after, hs) && hs <= Sorted(s)
    ensures Saves(before, after, hs)
  {
    hide Sorted;
    forall i, j | 0 <= i < j < |hs| ensures hs[i] != hs[j] {
      assert Less(Sorted(s)[i], Sorted(s)[j]);
      LessIrreflexive(hs[i]);
    }
  }

  lemma PrefixIn(s: set<string>, hs: seq<string>)
    requires hs <= Sorted(s)
    ensures forall h | h in hs :: h in s
  {
    hide Sorted;
    forall h | h in hs ensures h in s { assert h in Sorted(s); }
  }

  lemma InvalidateRelationSaves(c: Catalog, r: Relation, saves: nat)
    requires forall d | d in c.byHash :: c.byHash[d] in c.byHandle
    ensures Saves(c.store, InvalidateRelation(c, r, saves).store, SavedBy(c, OpInvalidateRelation(r, saves)))
  {
    hide StoreTombs, ForgottenAll, Sorted, Tombs, Saves, RelKey;
    var s := LiveIn(c, RelationHandles(c, r));
    var hs := SavedBy(c, OpInvalidateRelation(r, saves));
    PrefixIn(s, hs);
    StoreTombsTombs(c, hs);
    TombsSave(c.store, StoreTombs(c, hs).store, s, hs);
    ForgottenStore(StoreTombs(c, hs), hs);
    if RelationHandles(c, r) == {} {
      assert s == {};
      NothingSorted();
      SavesNone(c.store);
    }
  }

  lemma NothingSorted()
    ensures Sorted({}) == []
  {
  }

  lemma InvalidateAllSaves(c: Catalog, saves: nat)
    ensures Saves(c.store, InvalidateAll(c, saves).store, SavedHandles(c, saves))
  {
    hide KilledAll, Sorted, Tombs, Saves;
    var s, hs := LiveHandles(c), SavedHandles(c, saves);
    PrefixIn(s, hs);
    KilledAllTombs(c, hs);
    TombsSave(c.store, KilledAll(c, hs).store, s, hs);
  }

  lemma DeleteSaves(c: Catalog, h: string)
    requires Ok(c) && h in c.byHandle
    ensures Saves(c.store, Killed(c, h).store, [c.byHandle[h].handle])
  {
    OkHandle(c, h);
    hide Ok, AsStored, Removed, RelKey, WaitersOf, Saves;
    var t := c.byHandle[h].(deleted := true);
    StoredDeleted(t);
    SavesOne(c.store, h, AsStored(t));
  }

  lemma OkHandle(c: Catalog, h: string)
    requires Ok(c) && h in c.byHandle
    ensures c.byHandle[h].handle == h
  {
    hide HashOk, RelOk, WaitOk, StoreOk, Canonical.Canonicalize;
  }

  // ---- restarts ----

  lemma {:induction false} LoadedStore(store: map<string, Shape>, hs: seq<string>, broken: set<string>)
    requires (forall h | h in hs :: h in store) && forall h | h in store :: store[h].handle == h
    ensures forall h :: h in LoadedAll(store, hs, broken).store <==> h in hs
    ensures forall h | h in hs :: LoadedAll(store, hs, broken).store[h] == AsStored(Decoded(store[h], h in broken))
  {
    hide AsStored, LoadedOne;
    if hs != [] {
      var n := |hs| - 1;
      assert hs == hs[..n] + [hs[n]] && hs[n] in hs;
      LoadedStore(store, hs[..n], broken);
      StoresOne(LoadedAll(store, hs[..n], broken), Decoded(store[hs[n]], hs[n] in broken));
    }
  }

  lemma StoresOne(c: Catalog, s: Shape)
    ensures LoadedOne(c, s).store == c.store[s.handle := AsStored(s)]
  {
    hide AsStored, Added, RelKey;
  }

  /** A restart saves tombstones for the shapes that do not decode, and leaves the others as they are. */
  lemma RestartSaves(c: Catalog, broken: set<string>)
    requires Ok(c)
    ensures Saves(c.store, Rebuilt(c.store, broken).store, Sorted(c.store.Keys * broken))
  {
    StoreIsLoadable(c);
    hide Ok, Loadable, LoadedAll, Saves, Sorted, Tombs;
    RestartTombs(c.store, broken);
    TombsSave(c.store, Rebuilt(c.store, broken).store, c.store.Keys * broken, Sorted(c.store.Keys * broken));
  }

  lemma RestartTombs(store: map<string, Shape>, broken: set<string>)
    requires Loadable(store)
    ensures Tombs(store, Rebuilt(store, broken).store, Sorted(store.Keys * broken))
  {
    LoadableStore(store);
    hide Loadable, AsStored, LoadedAll, Sorted;
    LoadedStore(store, Sorted(store.Keys), broken);
    TombsAt(store, LoadedAll(store, Sorted(store.Keys), broken).store, broken, Sorted(store.Keys * broken));
  }

  lemma TombsAt(store: map<string, Shape>, after: map<string, Shape>, broken: set<string>, hs: seq<string>)
    requires after.Keys == store.Keys && (forall h | h in store :: after[h] == AsStored(Decoded(store[h], h in broken)))
    requires (forall h | h in store :: AsStored(store[h]) == store[h]) && forall h :: h in hs <==> h in store && h in broken
    ensures Tombs(store, after, hs)
  {
    hide StripAll, StripSnapshot;
    assert (set h | h in hs) <= store.Keys;
  }

  lemma LoadableStore(store: map<string, Shape>)
    requires Loadable(store)
    ensures forall h | h in store :: store[h].handle == h && AsStored(store[h]) == store[h]
  {
    hide AsStored, Canonical.Canonicalize;
  }

  /** Every operation changes the store exactly by its saves, and each of them is fine. */
  lemma StepSaves(c: Catalog, op: Op)
    requires Ok(c)
    requires forall d | d in c.byHash :: c.byHash[d] in c.byHandle
    ensures Saves(c.store, Do(c, op).store, SavedBy(c, op))
  {
    hide Ok, Saves, Upsert, UpsertedShape, InvalidateRelation, InvalidateAll, Killed, Replaced, Extended, Appended, Sorted, LiveIn,
      RelationHandles, SavedHandles, TargetedKeys, MaterializedRows, RefreshMessages, KeysMessages, Splice, ReadLog, WaitersOf, Rebuilt;
    SavesNone(c.store);
    match op
    case OpUpsert(def, snap, offset, h) => UpsertSaves(c, def, snap, offset, h);
    case OpDelete(h) => if h in c.byHandle { DeleteSaves(c, h); }
    case OpInvalidateRelation(r, saves) => InvalidateRelationSaves(c, r, saves);
    case OpInvalidateAll(saves) => InvalidateAllSaves(c, saves);
    case OpAppend(h, messages) =>
      if Live(c, h) {
        OkShape(c, h);
        AppendedKeeps(c.byHandle[h], messages);
        AppendedGrows(c.byHandle[h], messages);
        ReplaceSaves(c, Appended(c.byHandle[h], messages), true);
      }
    case OpRefresh(h, snap, meta) => RefreshSaves(c, h, snap, meta);
    case OpRefreshKeys(h, snap, keyRows, meta) => RefreshKeysSaves(c, h, snap, keyRows, meta);
    case OpRestart(broken) => RestartSaves(c, broken);
    case _ =>
  }

  lemma ExtendedGrows(s: Shape, schema: Schema, rows: Rows, messages: seq<Message>, meta: Metadata)
    ensures s.changes <= Extended(s, schema, rows, messages, meta).changes
    ensures Extended(s, schema, rows, messages, meta).handle == s.handle
  {
    hide Numbered;
  }

  lemma RefreshSaves(c: Catalog, h: string, snap: Snapshot, meta: Metadata)
    requires Ok(c)
    ensures Saves(c.store, Refresh(c, h, snap, meta).store, if Live(c, h) then [h] else [])
  {
    hide Ok, Saves, Replaced, Extended, MaterializedRows, RefreshMessages;
    SavesNone(c.store);
    if Live(c, h) {
      OkShape(c, h);
      var s := c.byHandle[h];
      ExtendedGrows(s, snap.schema, MaterializedRows(snap.schema, snap.rows), RefreshMessages(s, snap, meta), meta);
      ReplaceSaves(c, Refreshed(s, snap, meta), RefreshMessages(s, snap, meta) != []);
    }
  }

  lemma RefreshKeysSaves(c: Catalog, h: string, snap: Snapshot, keyRows: seq<Row>, meta: Metadata)
    requires Ok(c)
    ensures Saves(c.store, RefreshKeys(c, h, snap, keyRows, meta).store,
                  if Live(c, h) && TargetedKeys(snap.schema, keyRows, snap.rows) != {} then [h] else [])
  {
    hide Ok, Saves, Replaced, Extended, MaterializedRows, KeysMessages, TargetedKeys, Splice;
    SavesNone(c.store);
    var keys := TargetedKeys(snap.schema, keyRows, snap.rows);
    if Live(c, h) && keys != {} {
      OkShape(c, h);
      var s := c.byHandle[h];
      ExtendedGrows(s, snap.schema, Splice(s.rows, keys, MaterializedRows(snap.schema, snap.rows)),
                    KeysMessages(s, snap, keys, meta), meta);
      ReplaceSaves(c, KeysRefreshed(s, snap, keyRows, meta), KeysMessages(s, snap, keys, meta) != []);
    }
  }

  // ---- histories of saves ----

  function SaveList(e: Encoding, after: map<string, Shape>, hs: seq<string>): seq<Save>
  {
    if hs == [] then []
    else (if hs[0] in after then [Save(hs[0], Written(e, after[hs[0]]))] else []) + SaveList(e, after, hs[1..])
  }

  /** The disk store keeps every save as it is. */
  ghost predicate FineHistory(saves: seq<Save>)
  {
    forall i | 0 <= i < |saves| :: FineSave(MemoryAfter(saves[..i]), saves[i])
  }

  ghost predicate FineSave(mem: map<string, Persisted>, s: Save)
  {
    s.shape.deleted || |s.shape.changes| < |KnownLog(mem, s.handle)| || KnownLog(mem, s.handle) <= s.shape.changes
  }

  /** Handles have their own directories and stay under the chunk limit. */
  ghost predicate Roomy(saves: seq<Save>)
  {
    forall i | 0 <= i < |saves| ::
      OwnDirectory(DiskAfter(saves[..i]), saves[i].handle) && RoomFor(DiskAfter(saves[..i]), saves[i].handle, saves[i].shape)
  }

  lemma {:induction false} FineAndRoomyIsProper(saves: seq<Save>)
    requires FineHistory(saves) && Roomy(saves)
    ensures ProperSaves(saves)
  {
    hide OwnDirectory, RoomFor, DiskAfter, MemoryAfter, KnownLog;
    if saves != [] {
      var n := |saves| - 1;
      forall i | 0 <= i < n ensures saves[..n][..i] == saves[..i] && saves[..n][i] == saves[i] {}
      FineAndRoomyIsProper(saves[..n]);
      assert FineSave(MemoryAfter(saves[..n]), saves[n]);
    }
  }

  lemma LinesGrow(e: Encoding, a: seq<Message>, b: seq<Message>)
    requires a <= b
    ensures Lines(e, a) <= Lines(e, b)
  {
    forall i | 0 <= i < |a| ensures Lines(e, a)[i] == Lines(e, b)[i] {}
  }

  lemma FineWritten(e: Encoding, store: map<string, Shape>, mem: map<string, Persisted>, h: string, s: Shape)
    requires Fine(store, h, s) && (h in mem <==> h in store) && (h in store ==> mem[h] == Written(e, store[h]))
    ensures FineSave(mem, Save(h, Written(e, s)))
  {
    if h in store && !s.deleted && !store[h].deleted && store[h].changes <= s.changes {
      LinesGrow(e, store[h].changes, s.changes);
    }
  }

  lemma FineNext(saves: seq<Save>, s: Save)
    requires FineHistory(saves) && FineSave(MemoryAfter(saves), s)
    ensures FineHistory(saves + [s]) && MemoryAfter(saves + [s]) == MemoryAfter(saves)[s.handle := s.shape]
  {
    hide FineSave;
    var all := saves + [s];
    assert all[..|saves|] == saves;
    forall i | 0 <= i < |all| ensures FineSave(MemoryAfter(all[..i]), all[i]) {
      if i < |saves| { assert all[..i] == saves[..i]; }
    }
  }

  lemma SavesHead(before: map<string, Shape>, after: map<string, Shape>, hs: seq<string>)
    requires Saves(before, after, hs) && hs != []
    ensures hs[0] in hs && Fine(before, hs[0], after[hs[0]]) && Saves(before[hs[0] := after[hs[0]]], after, hs[1..])
  {
    hide Fine;
    var mid := before[hs[0] := after[hs[0]]];
    assert hs == [hs[0]] + hs[1..];
    forall h | h in hs[1..] ensures h != hs[0] && Fine(mid, h, after[h]) {
      var i :| 0 <= i < |hs[1..]| && hs[1..][i] == h;
      assert hs[i + 1] == h;
      FineElsewhere(before, mid, h, after[h]);
    }
  }

  lemma FineElsewhere(a: map<string, Shape>, b: map<string, Shape>, h: string, s: Shape)
    requires Fine(a, h, s) && (h in a <==> h in b) && (h in a ==> a[h] == b[h])
    ensures Fine(b, h, s)
  {
  }

  lemma RecordOne(e: Encoding, saves: seq<Save>, store: map<string, Shape>, h: string, s: Shape)
    requires Fine(store, h, s) && FineHistory(saves) && MemoryAfter(saves) == WrittenAll(e, store)
    ensures var all := saves + [Save(h, Written(e, s))]; FineHistory(all) && MemoryAfter(all) == WrittenAll(e, store[h := s])
  {
    hide Written, FineHistory, MemoryAfter, FineSave, Fine;
    FineWritten(e, store, MemoryAfter(saves), h, s);
    FineNext(saves, Save(h, Written(e, s)));
    assert WrittenAll(e, store[h := s]) == WrittenAll(e, store)[h := Written(e, s)];
  }

  lemma SavesKnown(before: map<string, Shape>, after: map<string, Shape>, hs: seq<string>)
    requires Saves(before, after, hs)
    ensures forall h | h in hs :: h in after
    ensures hs == [] ==> before == after
  {
    hide Fine;
  }

  /** The saves of one step take the memory from the store before it to the store after it. */
  lemma {:induction false} StepRecorded(e: Encoding, saves: seq<Save>, before: map<string, Shape>, after: map<string, Shape>,
                                        hs: seq<string>)
    requires Saves(before, after, hs) && FineHistory(saves) && MemoryAfter(saves) == WrittenAll(e, before)
    ensures var all := saves + SaveList(e, after, hs); FineHistory(all) && MemoryAfter(all) == WrittenAll(e, after)
    decreases |hs|
  {
    hide Written, FineHistory, MemoryAfter, Fine, Saves, WrittenAll;
    SavesKnown(before, after, hs);
    if hs == [] {
      assert saves + SaveList(e, after, hs) == saves;
    } else {
      var h := hs[0];
      SavesHead(before, after, hs);
      RecordOne(e, saves, before, h, after[h]);
      var more := saves + [Save(h, Written(e, after[h]))];
      StepRecorded(e, more, before[h := after[h]], after, hs[1..]);
      assert SaveList(e, after, hs) == [Save(h, Written(e, after[h]))] + SaveList(e, after, hs[1..]);
      assert saves + SaveList(e, after, hs) == more + SaveList(e, after, hs[1..]);
    }
  }

  // ---- runs ----

  /** Everything a run saves, in order. */
  ghost function AllSaves(e: Encoding, c: Catalog, ops: seq<Op>): seq<Save>
    requires SoundRun(c, ops)
    decreases |ops|
  {
    if ops == [] then []
    else SaveList(e, Do(c, ops[0]).store, SavedBy(c, ops[0])) + AllSaves(e, Do(c, ops[0]), ops[1..])
  }

  lemma {:induction false} RunSaves(e: Encoding, saves: seq<Save>, c: Catalog, ops: seq<Op>)
    requires SoundRun(c, ops) && Ok(c)
    requires FineHistory(saves) && MemoryAfter(saves) == WrittenAll(e, c.store)
    ensures FineHistory(saves + AllSaves(e, c, ops))
    ensures MemoryAfter(saves + AllSaves(e, c, ops)) == WrittenAll(e, Run(c, ops).store)
    decreases |ops|
  {
    hide Ok, Sound, Do, SavedBy, Saves, FineHistory, MemoryAfter, SaveList, WrittenAll;
    if ops == [] {
      assert saves + [] == saves;
    } else {
      var d, hs := Do(c, ops[0]), SavedBy(c, ops[0]);
      StepSaves(c, ops[0]);
      StepOk(c, ops[0]);
      StepRecorded(e, saves, c.store, d.store, hs);
      var list := SaveList(e, d.store, hs);
      RunSaves(e, saves + list, d, ops[1..]);
      assert saves + AllSaves(e, c, ops) == (saves + list) + AllSaves(e, d, ops[1..]);
    }
  }

  /** Over every run of the catalogue from a new installation, with any failing saves and any restarts, the disk
      store ends with exactly the shapes of the run's store, only the logs of tombstones being gone, as long as
      handles do not share directories and stay under the chunk limit. */
  lemma DiskHoldsTheRun(e: Encoding, ops: seq<Op>)
    requires SoundRun(EMPTY, ops)
    requires Roomy(AllSaves(e, EMPTY, ops))
    ensures DiskStore.View(DiskAfter(AllSaves(e, EMPTY, ops))) == Compacted(WrittenAll(e, Run(EMPTY, ops).store))
  {
    hide Ok, SoundRun, Run, AllSaves, FineHistory, Roomy, MemoryAfter, DiskAfter, DiskStore.View, Compacted, ProperSaves;
    NothingSaved(e);
    EmptyCatalogOk();
    RunSaves(e, [], EMPTY, ops);
    var saves := AllSaves(e, EMPTY, ops);
    assert [] + saves == saves;
    FineAndRoomyIsProper(saves);
    DiskRefinesMemory(saves);
  }

  lemma NothingSaved(e: Encoding)
    ensures FineHistory([]) && MemoryAfter([]) == WrittenAll(e, EMPTY.store)
  {
  }
}
