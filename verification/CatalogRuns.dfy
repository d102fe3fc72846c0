/** Runs of the shape catalogue: every public operation of Manager, with any store failure, any
    restart and any timeout in between. */
module CatalogRuns {
  import opened Strings
  import opened Offsets
  import opened Keys
  import opened Diff
  import opened ShapeLog
  import opened Canonical
  import opened Catalog

  // ---- the operations as the source performs them, in every state ----

  function LiveIn(c: Catalog, hs: set<string>): set<string>
  {
    set h | h in hs && Live(c, h)
  }

  function BlankShape(handle: string, hash: Definition, def: Definition, generation: nat): Shape
  {
    Shape(handle, hash, def, map[], [], [], map[], "", generation, false)
  }

  /** The state of the definition's shape after an upsert: the live shape at a new epoch, or a new one. */
  function UpsertedShape(c: Catalog, def: Definition, snap: Snapshot, offset: string, fresh_: string): Shape
    requires forall d | d in c.byHash :: c.byHash[d] in c.byHandle
  {
    var hash := Canonicalize(def);
    if hash in c.byHash then Upserted(c.byHandle[c.byHash[hash]], def, snap, offset)
    else Upserted(BlankShape(fresh_, hash, def, c.generation + 1), def, snap, offset)
  }

  function Upsert(c: Catalog, def: Definition, snap: Snapshot, offset: string, fresh_: string): Catalog
    requires forall d | d in c.byHash :: c.byHash[d] in c.byHandle
  {
    var hash := Canonicalize(def);
    var t := UpsertedShape(c, def, snap, offset, fresh_);
    if hash in c.byHash then
      var h := c.byHash[hash];
      Notified(c.(byHandle := c.byHandle[h := t], store := c.store[t.handle := AsStored(t)],
                  byRelation := Added(Removed(c.byRelation, KeyOf(c, h), h), RelKey(def.relation), h)), h)
    else Created(c, t)
  }

  /** One shape of a relation invalidation, after all tombstones are saved. */
  function Forgotten(c: Catalog, h: string): Catalog
    requires h in c.byHandle
  {
    var t := c.byHandle[h].(deleted := true);
    Notified(c.(byHandle := c.byHandle[h := t], byHash := c.byHash - {t.hash}), h)
  }

  function ForgottenAll(c: Catalog, hs: seq<string>): Catalog
    decreases |hs|
  {
    if hs == [] then c
    else if hs[0] in c.byHandle then ForgottenAll(Forgotten(c, hs[0]), hs[1..])
    else ForgottenAll(c, hs[1..])
  }

  /** InvalidateByRelation, when the first `saves` saves succeed. */
  function InvalidateRelation(c: Catalog, r: Relation, saves: nat): Catalog
  {
    var bucket := RelationHandles(c, r);
    var hs := Sorted(LiveIn(c, bucket));
    if bucket == {} then c
    else if saves < |hs| then StoreTombs(c, hs[..saves])
    else ForgottenAll(StoreTombs(c, hs), hs).(byRelation := c.byRelation - {RelKey(r)})
  }

  /** InvalidateAll, when the first `saves` saves succeed. */
  function InvalidateAll(c: Catalog, saves: nat): Catalog
  {
    KilledAll(c, SavedHandles(c, saves))
  }

  /** The live handles, in order, up to the first failing save. */
  function SavedHandles(c: Catalog, saves: nat): seq<string>
  {
    var hs := Sorted(LiveHandles(c));
    if saves < |hs| then hs[..saves] else hs
  }

  function Append(c: Catalog, h: string, messages: seq<Message>): Catalog
  {
    if Live(c, h) then Replaced(c, Appended(c.byHandle[h], messages), true) else c
  }

  function Refresh(c: Catalog, h: string, snap: Snapshot, meta: Metadata): Catalog
  {
    if Live(c, h) then
      Replaced(c, Refreshed(c.byHandle[h], snap, meta), RefreshMessages(c.byHandle[h], snap, meta) != [])
    else c
  }

  function RefreshKeys(c: Catalog, h: string, snap: Snapshot, keyRows: seq<Row>, meta: Metadata): Catalog
  {
    var keys := TargetedKeys(snap.schema, keyRows, snap.rows);
    if Live(c, h) && keys != {} then
      Replaced(c, KeysRefreshed(c.byHandle[h], snap, keyRows, meta), KeysMessages(c.byHandle[h], snap, keys, meta) != [])
    else c
  }

  /** The locked half of WaitForChange on a channel `id`. */
  function Wait(c: Catalog, id: nat, w: Waiter): Catalog
  {
    if w.handle in c.byHandle && ReadLog(c.byHandle[w.handle], w.offset) == Messages([]) then Registered(c, id, w) else c
  }

  // ---- lists of handles ----

  /** The elements of `q` that are in `s`, in order. */
  function Only(q: seq<string>, s: set<string>): (r: seq<string>)
    ensures forall x :: x in r <==> x in q && x in s
  {
    if q == [] then []
    else
      var last := q[|q| - 1];
      assert q == q[..|q| - 1] + [last];
      Only(q[..|q| - 1], s) + (if last in s then [last] else [])
  }

  lemma {:induction false} OnlyAscending(q: seq<string>, s: set<string>)
    requires Ascending(q)
    ensures Ascending(Only(q, s))
  {
    hide Less;
    if q != [] {
      var n := |q| - 1;
      OnlyAscending(q[..n], s);
      var r := Only(q[..n], s);
      forall i | 0 <= i < |r| ensures Less(r[i], q[n]) {
        assert r[i] in r && r[i] in q[..n];
        var j :| 0 <= j < n && q[j] == r[i];
      }
    }
  }

  /** Filtering a sorted list is sorting the filtered set. */
  lemma OnlySorted(all: set<string>, s: set<string>)
    ensures Only(Sorted(all), s) == Sorted(all * s)
  {
    OnlyAscending(Sorted(all), s);
    SortedUnique(Only(Sorted(all), s), all * s);
  }

  lemma OnlyNext(q: seq<string>, s: set<string>, i: nat)
    requires i < |q|
    ensures Only(q[..i + 1], s) == if q[i] in s then Only(q[..i], s) + [q[i]] else Only(q[..i], s)
  {
    assert q[..i + 1][..i] == q[..i];
  }

  lemma {:induction false} OnlyPrefix(q: seq<string>, s: set<string>, i: nat)
    requires i <= |q|
    ensures Only(q[..i], s) <= Only(q, s)
    decreases |q| - i
  {
    hide Only;
    if i == |q| {
      assert q[..i] == q;
    } else {
      OnlyNext(q, s, i);
      OnlyPrefix(q, s, i + 1);
    }
  }

  /** What a loop over `q` has collected before and after position `i`. */
  lemma OnlyRound(q: seq<string>, s: set<string>, i: nat)
    requires i < |q|
    ensures Only(q[..i + 1], s) == if q[i] in s then Only(q[..i], s) + [q[i]] else Only(q[..i], s)
    ensures q[i] in s ==> |Only(q[..i], s)| < |Only(q, s)| && Only(q, s)[..|Only(q[..i], s)|] == Only(q[..i], s)
  {
    hide Only;
    OnlyNext(q, s, i);
    OnlyPrefix(q, s, i + 1);
  }

  lemma {:induction false} StoreTombsNext(c: Catalog, hs: seq<string>, h: string)
    requires h in c.byHandle
    ensures var d := StoreTombs(c, hs);
      StoreTombs(c, hs + [h]) == d.(store := d.store[h := AsStored(c.byHandle[h]).(deleted := true)])
    decreases |hs|
  {
    hide AsStored;
    if hs == [] {
      assert hs + [h] == [h] && [h][1..] == [];
    } else {
      assert (hs + [h])[1..] == hs[1..] + [h];
      StoreTombsNext(if hs[0] in c.byHandle then c.(store := c.store[hs[0] := AsStored(c.byHandle[hs[0]]).(deleted := true)]) else c,
                     hs[1..], h);
    }
  }

  lemma {:induction false} StoreTombsOnly(c: Catalog, hs: seq<string>)
    ensures StoreTombs(c, hs) == c.(store := StoreTombs(c, hs).store)
    decreases |hs|
  {
    hide AsStored;
    if hs != [] {
      StoreTombsOnly(if hs[0] in c.byHandle then c.(store := c.store[hs[0] := AsStored(c.byHandle[hs[0]]).(deleted := true)]) else c,
                     hs[1..]);
    }
  }

  lemma {:induction false} KilledAllNext(c: Catalog, hs: seq<string>, h: string)
    requires h in KilledAll(c, hs).byHandle
    ensures KilledAll(c, hs + [h]) == Killed(KilledAll(c, hs), h)
    decreases |hs|
  {
    hide Killed;
    if hs == [] {
      assert hs + [h] == [h] && [h][1..] == [];
    } else {
      assert (hs + [h])[1..] == hs[1..] + [h];
      KilledAllNext(if hs[0] in c.byHandle then Killed(c, hs[0]) else c, hs[1..], h);
    }
  }

  lemma {:induction false} ForgottenAllNext(c: Catalog, hs: seq<string>, h: string)
    requires h in ForgottenAll(c, hs).byHandle
    ensures ForgottenAll(c, hs + [h]) == Forgotten(ForgottenAll(c, hs), h)
    decreases |hs|
  {
    hide Forgotten;
    if hs == [] {
      assert hs + [h] == [h] && [h][1..] == [];
    } else {
      assert (hs + [h])[1..] == hs[1..] + [h];
      ForgottenAllNext(if hs[0] in c.byHandle then Forgotten(c, hs[0]) else c, hs[1..], h);
    }
  }

  // ---- steps and runs ----

  datatype Op =
    | OpUpsert(def: Definition, snap: Snapshot, offset: string, handle: string)
    | OpDelete(handle: string)
    | OpInvalidateRelation(relation: Relation, saves: nat)
    | OpInvalidateAll(saves: nat)
    | OpAppend(handle: string, messages: seq<Message>)
    | OpRefresh(handle: string, snap: Snapshot, meta: Metadata)
    | OpRefreshKeys(handle: string, snap: Snapshot, keyRows: seq<Row>, meta: Metadata)
    | OpWait(id: nat, waiter: Waiter)
    | OpTimeout(id: nat)
    | OpFailedSave
    | OpRestart(broken: set<string>)

  /** The two ways in which the source can break its own indexes, and the freshness of channels. */
  ghost predicate Sound(c: Catalog, op: Op)
  {
    match op
    case OpUpsert(def, _, _, h) => Canonicalize(def) in c.byHash || !Live(c, h)
    case OpDelete(h) => Live(c, h) || h !in c.byHandle || c.byHandle[h].hash !in c.byHash
    case OpWait(id, _) => id !in c.waiters && id !in c.closed
    case _ => true
  }

  function Do(c: Catalog, op: Op): Catalog
    requires forall d | d in c.byHash :: c.byHash[d] in c.byHandle
  {
    match op
    case OpUpsert(def, snap, offset, h) => Upsert(c, def, snap, offset, h)
    case OpDelete(h) => if h in c.byHandle then Killed(c, h) else c
    case OpInvalidateRelation(r, saves) => InvalidateRelation(c, r, saves)
    case OpInvalidateAll(saves) => InvalidateAll(c, saves)
    case OpAppend(h, messages) => Append(c, h, messages)
    case OpRefresh(h, snap, meta) => Refresh(c, h, snap, meta)
    case OpRefreshKeys(h, snap, keyRows, meta) => RefreshKeys(c, h, snap, keyRows, meta)
    case OpWait(id, w) => Wait(c, id, w)
    case OpTimeout(id) => TimedOut(c, id)
    case OpFailedSave => c
    case OpRestart(broken) => Rebuilt(c.store, broken)
  }

  lemma OkValues(c: Catalog)
    requires Ok(c)
    ensures forall d | d in c.byHash :: c.byHash[d] in c.byHandle
  {
    hide NamesOk, RelOk, WaitOk, StoreOk;
  }

  // ---- upsert ----

  lemma ReAdded(b: Buckets, key: string, h: string)
    requires key in b && h in b[key]
    ensures Added(Removed(b, key, h), key, h) == b
  {
    assert (b[key] - {h}) + {h} == b[key];
  }

  lemma UpsertExisting(c: Catalog, def: Definition, snap: Snapshot, offset: string, fresh_: string)
    requires Ok(c) && Canonicalize(def) in c.byHash
    requires forall d | d in c.byHash :: c.byHash[d] in c.byHandle
    ensures var t := UpsertedShape(c, def, snap, offset, fresh_);
      MayReplace(c, t, true) && Upsert(c, def, snap, offset, fresh_) == Replaced(c, t, true)
  {
    var hash := Canonicalize(def);
    var h := c.byHash[hash];
    var s := c.byHandle[h];
    assert TableOf(c.byHandle)[h].live && s.hash == hash by { hide NamesOk, RelOk, WaitOk, StoreOk, Canonicalize; }
    assert s.handle == h && s.def.relation == def.relation && s.hash == Canonicalize(s.def) by { hide RelOk, HashOk, WaitOk, StoreOk; }
    assert KeyOf(c, h) in c.byRelation && h in c.byRelation[KeyOf(c, h)] by {
      hide NamesOk, HashOk, WaitOk, StoreOk, RelKey, Canonicalize;
    }
    hide Ok, Canonicalize, AsStored, RelKey, MaterializedRows, SnapshotMessages, Added, Removed;
    ReAdded(c.byRelation, KeyOf(c, h), h);
  }

  lemma UpsertOk(c: Catalog, def: Definition, snap: Snapshot, offset: string, fresh_: string)
    requires Ok(c) && (Canonicalize(def) in c.byHash || !Live(c, fresh_))
    requires forall d | d in c.byHash :: c.byHash[d] in c.byHandle
    ensures Ok(Upsert(c, def, snap, offset, fresh_))
  {
    hide Ok, Canonicalize, AsStored, RelKey, MaterializedRows, SnapshotMessages, Added, Removed, Replaced, MayReplace, Created;
    var t := UpsertedShape(c, def, snap, offset, fresh_);
    if Canonicalize(def) in c.byHash {
      UpsertExisting(c, def, snap, offset, fresh_);
      ReplaceOk(c, t, true);
    } else {
      CreateOk(c, t);
    }
  }

  // ---- refreshing and appending ----

  lemma OkShape(c: Catalog, h: string)
    requires Ok(c) && Live(c, h)
    ensures c.byHandle[h].handle == h && c.byHandle[h].hash == Canonicalize(c.byHandle[h].def)
  {
    hide HashOk, RelOk, WaitOk, StoreOk, Canonicalize;
  }

  lemma {:induction false} AppendedKeeps(s: Shape, messages: seq<Message>)
    ensures var t := Appended(s, messages);
      t.handle == s.handle && t.hash == s.hash && t.def == s.def && t.deleted == s.deleted
  {
    hide CompareOffsets, NextGeneratedOffset, AppliedRows;
    if messages != [] {
      AppendedKeeps(s, messages[..|messages| - 1]);
    }
  }

  lemma AppendOk(c: Catalog, h: string, messages: seq<Message>)
    requires Ok(c)
    ensures Ok(Append(c, h, messages))
  {
    hide Ok, Appended, Replaced, Canonicalize, RelKey;
    if Live(c, h) {
      OkShape(c, h);
      AppendedKeeps(c.byHandle[h], messages);
      ReplaceOk(c, Appended(c.byHandle[h], messages), true);
    }
  }

  lemma ExtendedKeeps(s: Shape, schema: Schema, rows: Rows, messages: seq<Message>, meta: Metadata)
    ensures var t := Extended(s, schema, rows, messages, meta);
      t.handle == s.handle && t.hash == s.hash && t.def == s.def && t.deleted == s.deleted &&
      (messages == [] ==> t.changes == s.changes && t.offset == s.offset)
  {
    hide Stamped;
  }

  lemma RefreshOk(c: Catalog, h: string, snap: Snapshot, meta: Metadata)
    requires Ok(c)
    ensures Ok(Refresh(c, h, snap, meta))
  {
    hide Ok, Extended, RefreshMessages, MaterializedRows, Replaced, Canonicalize, RelKey;
    if Live(c, h) {
      OkShape(c, h);
      var s := c.byHandle[h];
      ExtendedKeeps(s, snap.schema, MaterializedRows(snap.schema, snap.rows), RefreshMessages(s, snap, meta), meta);
      ReplaceOk(c, Refreshed(s, snap, meta), RefreshMessages(s, snap, meta) != []);
    }
  }

  lemma RefreshKeysOk(c: Catalog, h: string, snap: Snapshot, keyRows: seq<Row>, meta: Metadata)
    requires Ok(c)
    ensures Ok(RefreshKeys(c, h, snap, keyRows, meta))
  {
    hide Ok, Extended, KeysMessages, MaterializedRows, Splice, TargetedKeys, Replaced, Canonicalize, RelKey;
    var keys := TargetedKeys(snap.schema, keyRows, snap.rows);
    if Live(c, h) && keys != {} {
      OkShape(c, h);
      var s := c.byHandle[h];
      ExtendedKeeps(s, snap.schema, Splice(s.rows, keys, MaterializedRows(snap.schema, snap.rows)),
                    KeysMessages(s, snap, keys, meta), meta);
      ReplaceOk(c, KeysRefreshed(s, snap, keyRows, meta), KeysMessages(s, snap, keys, meta) != []);
    }
  }

  // ---- invalidating ----

  lemma SortedAllLive(c: Catalog, hs: seq<string>, s: set<string>)
    requires s <= LiveHandles(c) && hs <= Sorted(s)
    ensures AllLive(c, hs)
  {
    hide Less;
    forall i, j | 0 <= i < j < |hs| ensures hs[i] != hs[j] {
      assert Less(Sorted(s)[i], Sorted(s)[j]);
      LessIrreflexive(hs[i]);
    }
    forall i | 0 <= i < |hs| ensures Live(c, hs[i]) {
      assert Sorted(s)[i] in Sorted(s);
    }
  }

  lemma InvalidateAllOk(c: Catalog, saves: nat)
    requires Ok(c)
    ensures Ok(InvalidateAll(c, saves))
  {
    hide Ok, KilledAll;
    SortedAllLive(c, SavedHandles(c, saves), LiveHandles(c));
    KillAllOk(c, SavedHandles(c, saves));
  }

  lemma {:induction false} StoreTombsAt(c: Catalog, hs: seq<string>, g: string)
    requires g in c.byHandle && g in c.store
    ensures g in StoreTombs(c, hs).store
    ensures StoreTombs(c, hs).store[g] == if g in hs then AsStored(c.byHandle[g]).(deleted := true) else c.store[g]
    decreases |hs|
  {
    hide AsStored;
    if hs != [] {
      var d := if hs[0] in c.byHandle then c.(store := c.store[hs[0] := AsStored(c.byHandle[hs[0]]).(deleted := true)]) else c;
      StoreTombsAt(d, hs[1..], g);
      assert hs == [hs[0]] + hs[1..];
    }
  }

  /** All the tombstones of `hs` are in the store. */
  ghost predicate Buried(c: Catalog, hs: seq<string>)
  {
    forall i | 0 <= i < |hs| ::
      hs[i] in c.byHandle && hs[i] in c.store && c.store[hs[i]] == AsStored(c.byHandle[hs[i]]).(deleted := true)
  }

  lemma ForgetIsKill(c: Catalog, d: Catalog, h: string)
    requires d == c.(byRelation := d.byRelation) && h in c.byHandle && h in c.store
    requires c.byHandle[h].handle == h && c.store[h] == AsStored(c.byHandle[h]).(deleted := true)
    ensures Forgotten(d, h) == Killed(c, h).(byRelation := d.byRelation)
  {
    AsStoredDeleted(c.byHandle[h]);
    hide AsStored, Removed, RelKey;
    assert c.store[h := c.store[h]] == c.store;
  }

  lemma KillBuries(c: Catalog, hs: seq<string>)
    requires hs != [] && AllLive(c, hs) && Buried(c, hs)
    ensures Buried(Killed(c, hs[0]), hs[1..])
  {
    hide AsStored, Removed, RelKey;
    forall i | 0 <= i < |hs[1..]|
      ensures hs[1..][i] in Killed(c, hs[0]).byHandle && hs[1..][i] in Killed(c, hs[0]).store
      ensures Killed(c, hs[0]).store[hs[1..][i]] == AsStored(Killed(c, hs[0]).byHandle[hs[1..][i]]).(deleted := true)
    {
      assert hs[1..][i] == hs[i + 1] && hs[i + 1] != hs[0];
    }
  }

  /** Forgetting buried shapes is deleting them, apart from the relation index. */
  lemma {:induction false} SweepIsKillAll(c: Catalog, d: Catalog, hs: seq<string>)
    requires Ok(c) && d == c.(byRelation := d.byRelation) && AllLive(c, hs) && Buried(c, hs)
    ensures ForgottenAll(d, hs) == KilledAll(c, hs).(byRelation := d.byRelation)
    decreases |hs|
  {
    if hs != [] {
      var h := hs[0];
      assert Live(c, h);
      OkShape(c, h);
      KillOk(c, h);
      hide Ok, Killed, Forgotten, AsStored;
      ForgetIsKill(c, d, h);
      TailLive(c, hs);
      KillBuries(c, hs);
      SweepIsKillAll(Killed(c, h), Forgotten(d, h), hs[1..]);
    }
  }

  lemma {:induction false} KillAllEntry(c: Catalog, hs: seq<string>, g: string)
    requires forall h | h in c.byHandle :: c.byHandle[h].handle == h
    ensures var d := KilledAll(c, hs);
      (g in d.byHandle <==> g in c.byHandle) &&
      (g in c.byHandle ==> KeyOf(d, g) == KeyOf(c, g) && (Live(d, g) <==> Live(c, g) && g !in hs))
    decreases |hs|
  {
    if hs != [] {
      hide Removed, AsStored, RelKey, Notified;
      var d := if hs[0] in c.byHandle then Killed(c, hs[0]) else c;
      NotifiedShapes(c, hs[0]);
      KillAllEntry(d, hs[1..], g);
      assert hs == [hs[0]] + hs[1..];
    }
  }

  lemma NotifiedShapes(c: Catalog, h: string)
    requires h in c.byHandle ==> c.byHandle[h].handle == h
    ensures h in c.byHandle ==> Killed(c, h).byHandle == c.byHandle[h := c.byHandle[h].(deleted := true)]
  {
    hide Removed, AsStored, RelKey;
  }

  lemma RelWithin(t: Table, a: Buckets, b: Buckets, k: string)
    requires RelOk(t, a) && RelOk(t, b) && k in a
    ensures k in b && a[k] <= b[k]
  {
    forall h | h in a[k] ensures k in b && h in b[k] {
      assert h in t && t[h].live && t[h].key == k;
    }
    var h :| h in a[k];
  }

  lemma RelUnique(t: Table, a: Buckets, b: Buckets)
    requires RelOk(t, a) && RelOk(t, b)
    ensures a == b
  {
    forall k | k in a ensures k in b && a[k] == b[k] { RelWithin(t, a, b, k); RelWithin(t, b, a, k); }
    forall k | k in b ensures k in a { RelWithin(t, b, a, k); }
    hide RelOk;
  }

  /** Dropping a whole bucket is dropping its handles one at a time. */
  lemma BucketDrop(t: Table, t': Table, b: Buckets, key: string)
    requires RelOk(t, b) && key in b && t'.Keys == t.Keys
    requires forall h | h in t :: t'[h].key == t[h].key && (t'[h].live <==> t[h].live && h !in b[key])
    ensures RelOk(t', b - {key})
  {
  }

  lemma InvalidateIsKillAll(c: Catalog, r: Relation)
    requires Ok(c) && RelationHandles(c, r) != {}
    ensures var hs := Sorted(LiveIn(c, RelationHandles(c, r)));
      AllLive(c, hs) && ForgottenAll(StoreTombs(c, hs), hs).(byRelation := c.byRelation - {RelKey(r)}) == KilledAll(StoreTombs(c, hs), hs)
      && Ok(KilledAll(StoreTombs(c, hs), hs))
  {
    var bucket := RelationHandles(c, r);
    var hs := Sorted(LiveIn(c, bucket));
    SortedAllLive(c, hs, LiveIn(c, bucket));
    StoreTombsOk(c, hs);
    var d := StoreTombs(c, hs);
    BuriedAfterSaves(c, hs);
    hide Ok, StoreTombs;
    SweepIsKillAll(d, d, hs);
    KillAllOk(d, hs);
    BucketGone(c, d, r, hs);
  }

  lemma BuriedAfterSaves(c: Catalog, hs: seq<string>)
    requires Ok(c) && AllLive(c, hs)
    ensures Buried(StoreTombs(c, hs), hs) && AllLive(StoreTombs(c, hs), hs)
  {
    StoreTombsOk(c, hs);
    OkStore(c);
    hide Ok, AsStored, CopyOf, StoreTombs;
    forall i | 0 <= i < |hs|
      ensures hs[i] in c.byHandle && hs[i] in StoreTombs(c, hs).store
      ensures StoreTombs(c, hs).store[hs[i]] == AsStored(c.byHandle[hs[i]]).(deleted := true)
    {
      assert Live(c, hs[i]);
      StoreTombsAt(c, hs, hs[i]);
    }
  }

  lemma OkRelations(c: Catalog)
    requires Ok(c)
    ensures RelOk(TableOf(c.byHandle), c.byRelation) && forall h | h in c.byHandle :: c.byHandle[h].handle == h
  {
    hide HashOk, RelOk, WaitOk, StoreOk, Canonicalize, RelKey;
  }

  lemma BucketEntry(c: Catalog, hs: seq<string>, b: set<string>, g: string)
    requires forall h | h in c.byHandle :: c.byHandle[h].handle == h
    requires forall h :: h in hs <==> h in b && Live(c, h)
    ensures var t, t' := TableOf(c.byHandle), TableOf(KilledAll(c, hs).byHandle);
      (g in t' <==> g in t) && (g in t ==> t'[g].key == t[g].key && (t'[g].live <==> t[g].live && g !in b))
  {
    hide KilledAll, RelKey;
    KillAllEntry(c, hs, g);
  }

  lemma BucketGone(c: Catalog, d: Catalog, r: Relation, hs: seq<string>)
    requires Ok(c) && Ok(d) && d == c.(store := d.store) && RelationHandles(c, r) != {}
    requires hs == Sorted(LiveIn(c, RelationHandles(c, r))) && Ok(KilledAll(d, hs))
    ensures KilledAll(d, hs).byRelation == c.byRelation - {RelKey(r)}
  {
    hide Ok, KilledAll, RelKey, RelOk, TableOf;
    var e := KilledAll(d, hs);
    var t, t', b, key := TableOf(d.byHandle), TableOf(e.byHandle), c.byRelation, RelKey(r);
    OkRelations(d);
    OkRelations(e);
    forall h ensures h in t' <==> h in t
      ensures h in t ==> t'[h].key == t[h].key && (t'[h].live <==> t[h].live && h !in b[key])
    {
      BucketEntry(d, hs, b[key], h);
    }
    assert t'.Keys == t.Keys;
    BucketDrop(t, t', b, key);
    RelUnique(t', e.byRelation, b - {key});
  }

  lemma InvalidateRelationOk(c: Catalog, r: Relation, saves: nat)
    requires Ok(c)
    ensures Ok(InvalidateRelation(c, r, saves))
  {
    hide Ok, StoreTombs, ForgottenAll, RelationHandles;
    var hs := Sorted(LiveIn(c, RelationHandles(c, r)));
    if RelationHandles(c, r) != {} {
      if saves < |hs| {
        StoreTombsOk(c, hs[..saves]);
      } else {
        InvalidateIsKillAll(c, r);
      }
    }
  }

  // ---- every run ----

  lemma WaitStepOk(c: Catalog, id: nat, w: Waiter)
    requires Ok(c) && id !in c.waiters && id !in c.closed
    ensures Ok(Wait(c, id, w))
  {
    if w.handle in c.byHandle && ReadLog(c.byHandle[w.handle], w.offset) == Messages([]) {
      RegisterOk(c, id, w);
    }
  }

  lemma StepOk(c: Catalog, op: Op)
    requires Ok(c) && Sound(c, op)
    requires forall d | d in c.byHash :: c.byHash[d] in c.byHandle
    ensures Ok(Do(c, op))
  {
    hide Ok, Upsert, InvalidateRelation, InvalidateAll, Append, Refresh, RefreshKeys, Wait, TimedOut, Rebuilt, Killed, Canonicalize;
    match op
    case OpUpsert(def, snap, offset, h) => UpsertOk(c, def, snap, offset, h);
    case OpDelete(h) => if h in c.byHandle { KillOk(c, h); }
    case OpInvalidateRelation(r, saves) => InvalidateRelationOk(c, r, saves);
    case OpInvalidateAll(saves) => InvalidateAllOk(c, saves);
    case OpAppend(h, messages) => AppendOk(c, h, messages);
    case OpRefresh(h, snap, meta) => RefreshOk(c, h, snap, meta);
    case OpRefreshKeys(h, snap, keyRows, meta) => RefreshKeysOk(c, h, snap, keyRows, meta);
    case OpWait(id, w) => WaitStepOk(c, id, w);
    case OpTimeout(id) => TimeoutOk(c, id);
    case OpFailedSave =>
    case OpRestart(broken) => CrashRecovery(c, broken, "");
  }

  /** Each step of a run is sound in the state where it is taken. */
  ghost predicate SoundRun(c: Catalog, ops: seq<Op>)
    decreases |ops|
  {
    ops == [] ||
    ((forall d | d in c.byHash :: c.byHash[d] in c.byHandle) && Sound(c, ops[0]) && SoundRun(Do(c, ops[0]), ops[1..]))
  }

  ghost function Run(c: Catalog, ops: seq<Op>): Catalog
    requires SoundRun(c, ops)
    decreases |ops|
  {
    if ops == [] then c else Run(Do(c, ops[0]), ops[1..])
  }

  /** The invariants hold after every run: exact indexes, no missed or doubly closed waiter, and a
      store that holds each shape or its tombstone. */
  lemma {:induction false} RunOk(c: Catalog, ops: seq<Op>)
    requires Ok(c) && SoundRun(c, ops)
    ensures Ok(Run(c, ops))
    decreases |ops|
  {
    hide Ok, Sound, Do;
    if ops != [] {
      StepOk(c, ops[0]);
      RunOk(Do(c, ops[0]), ops[1..]);
    }
  }

  // ---- waiters across a run ----

  /** The waiter is still registered as it was, or its channel is closed. */
  ghost predicate HeldOrWoken(c: Catalog, id: nat, w: Waiter)
  {
    id in c.closed || (id in c.waiters && c.waiters[id] == w)
  }

  predicate Ends(op: Op, id: nat)
  {
    op.OpRestart? || op == OpTimeout(id)
  }

  lemma {:induction false} KillAllHolds(c: Catalog, hs: seq<string>, id: nat, w: Waiter)
    requires HeldOrWoken(c, id, w)
    ensures HeldOrWoken(KilledAll(c, hs), id, w)
    decreases |hs|
  {
    hide Removed, AsStored, RelKey;
    if hs != [] {
      KillAllHolds(if hs[0] in c.byHandle then Killed(c, hs[0]) else c, hs[1..], id, w);
    }
  }

  lemma {:induction false} ForgetAllHolds(c: Catalog, hs: seq<string>, id: nat, w: Waiter)
    requires HeldOrWoken(c, id, w)
    ensures HeldOrWoken(ForgottenAll(c, hs), id, w)
    decreases |hs|
  {
    if hs != [] {
      ForgetAllHolds(if hs[0] in c.byHandle then Forgotten(c, hs[0]) else c, hs[1..], id, w);
    }
  }

  lemma {:induction false} StoreTombsHolds(c: Catalog, hs: seq<string>, id: nat, w: Waiter)
    requires HeldOrWoken(c, id, w)
    ensures HeldOrWoken(StoreTombs(c, hs), id, w)
    decreases |hs|
  {
    hide AsStored;
    if hs != [] {
      StoreTombsHolds(if hs[0] in c.byHandle then c.(store := c.store[hs[0] := AsStored(c.byHandle[hs[0]]).(deleted := true)]) else c,
                      hs[1..], id, w);
    }
  }

  lemma InvalidateHolds(c: Catalog, r: Relation, saves: nat, id: nat, w: Waiter)
    requires HeldOrWoken(c, id, w)
    ensures HeldOrWoken(InvalidateRelation(c, r, saves), id, w)
  {
    hide StoreTombs, ForgottenAll, RelationHandles;
    var hs := Sorted(LiveIn(c, RelationHandles(c, r)));
    if saves < |hs| {
      StoreTombsHolds(c, hs[..saves], id, w);
    } else {
      StoreTombsHolds(c, hs, id, w);
      ForgetAllHolds(StoreTombs(c, hs), hs, id, w);
    }
  }

  lemma StepHolds(c: Catalog, op: Op, id: nat, w: Waiter)
    requires HeldOrWoken(c, id, w) && Sound(c, op) && !Ends(op, id)
    requires forall d | d in c.byHash :: c.byHash[d] in c.byHandle
    ensures HeldOrWoken(Do(c, op), id, w)
  {
    hide Removed, Added, AsStored, RelKey, KilledAll, InvalidateRelation, Canonicalize, UpsertedShape, Appended, Refreshed,
      KeysRefreshed, RefreshMessages, KeysMessages, TargetedKeys, ReadLog, Sorted, Rebuilt;
    match op
    case OpInvalidateRelation(r, saves) => InvalidateHolds(c, r, saves, id, w);
    case OpInvalidateAll(saves) =>
      KillAllHolds(c, SavedHandles(c, saves), id, w);
    case _ =>
  }

  lemma {:induction false} RunHolds(c: Catalog, ops: seq<Op>, id: nat, w: Waiter)
    requires HeldOrWoken(c, id, w) && SoundRun(c, ops)
    requires forall i | 0 <= i < |ops| :: !Ends(ops[i], id)
    ensures HeldOrWoken(Run(c, ops), id, w)
    decreases |ops|
  {
    if ops != [] {
      hide Do, Sound;
      StepHolds(c, ops[0], id, w);
      RunHolds(Do(c, ops[0]), ops[1..], id, w);
    }
  }

  /** No lost wake-up: whatever happens after a waiter registers, short of its own timeout and a
      restart, its channel is closed as soon as its shape is deleted or has something for it. */
  lemma NoLostWakeup(c: Catalog, ops: seq<Op>, id: nat)
    requires Ok(c) && SoundRun(c, ops) && id in c.waiters
    requires forall i | 0 <= i < |ops| :: !Ends(ops[i], id)
    ensures var d, w := Run(c, ops), c.waiters[id];
      id in d.closed || (id in d.waiters && d.waiters[id] == w && w.handle in d.byHandle &&
                         ReadLog(d.byHandle[w.handle], w.offset) == Messages([]))
  {
    RunOk(c, ops);
    RunHolds(c, ops, id, c.waiters[id]);
    hide SoundRun, Run, IndexOk, StoreOk, ReadLog;
  }

  // ---- a relation invalidation that fails half-way ----

  /** When a save fails, all shapes of the relation are still live, but those whose tombstones were saved
      before it are lost by the next restart, and no others. */
  lemma HalfFailedInvalidation(c: Catalog, r: Relation, saves: nat, h: string)
    requires Ok(c) && h in LiveIn(c, RelationHandles(c, r)) && saves < |Sorted(LiveIn(c, RelationHandles(c, r)))|
    requires h in c.store && !c.store[h].deleted
    ensures var d, hs := InvalidateRelation(c, r, saves), Sorted(LiveIn(c, RelationHandles(c, r)));
      Live(d, h) && (Live(Rebuilt(d.store, {}), h) <==> h !in hs[..saves])
  {
    var hs := Sorted(LiveIn(c, RelationHandles(c, r)));
    InvalidateRelationOk(c, r, saves);
    hide Ok, StoreTombs, ForgottenAll, Rebuilt, AsStored, RelationHandles;
    StoreTombsOnly(c, hs[..saves]);
    StoreTombsAt(c, hs[..saves], h);
    CrashRecovery(InvalidateRelation(c, r, saves), {}, h);
  }

  const EMPTY := Catalog(map[], map[], map[], 0, map[], {}, map[])

  const ITEMS := Relation("public", "items")

  function Filtered(where_: string): Definition { Definition(ITEMS, where_, map[], [], "", "", None) }

  const EMPTY_SNAPSHOT := Snapshot(map[], [])

  /** Two shapes on one relation; its invalidation saves one tombstone and fails on the second. */
  const HALF_FAILED: seq<Op> :=
    [OpUpsert(Filtered("x"), EMPTY_SNAPSHOT, "0_0", "a"), OpUpsert(Filtered("y"), EMPTY_SNAPSHOT, "0_0", "b"),
     OpInvalidateRelation(ITEMS, 1)]

  lemma EmptyCatalogOk()
    ensures Ok(EMPTY)
  {
    hide Canonicalize, NothingAt, CopyOf;
  }

  lemma FilteredApart()
    ensures Canonicalize(Filtered("x")) != Canonicalize(Filtered("y"))
  {
    assert Canonicalize(Filtered("x")).where_ == "x" && Canonicalize(Filtered("y")).where_ == "y";
  }

  /** The catalogue after the two upserts. */
  lemma TwoShapes(c: Catalog)
    requires c == Upsert(Upsert(EMPTY, Filtered("x"), EMPTY_SNAPSHOT, "0_0", "a"), Filtered("y"), EMPTY_SNAPSHOT, "0_0", "b")
    ensures LiveIn(c, RelationHandles(c, ITEMS)) == {"a", "b"} && "a" in c.store && !c.store["a"].deleted
  {
    FilteredApart();
    hide Canonicalize, AsStored, SnapshotMessages, MaterializedRows;
    var c1 := Upsert(EMPTY, Filtered("x"), EMPTY_SNAPSHOT, "0_0", "a");
    assert c1.byHash == map[Canonicalize(Filtered("x")) := "a"];
    assert c.byHandle.Keys == {"a", "b"} && Live(c, "a") && Live(c, "b");
    assert c.byRelation[RelKey(ITEMS)] == {"a", "b"};
    AsStoredLive(c.byHandle["a"]);
  }

  lemma AsStoredLive(s: Shape)
    ensures AsStored(s).deleted == s.deleted
  {
  }

  lemma {:induction false} SortedPair()
    ensures Sorted({"a", "b"}) == ["a", "b"]
  {
    assert Less("a", "b");
    SortedUnique(["a", "b"], {"a", "b"});
  }

  /** A run of one step and the rest. */
  lemma RunFirst(c: Catalog, op: Op, rest: seq<Op>)
    requires Ok(c) && Sound(c, op)
    ensures forall d | d in c.byHash :: c.byHash[d] in c.byHandle
    ensures SoundRun(Do(c, op), rest) ==> SoundRun(c, [op] + rest) && Run(c, [op] + rest) == Run(Do(c, op), rest)
  {
    OkValues(c);
    hide Ok, Sound, Do;
    assert ([op] + rest)[1..] == rest;
  }

  /** The second shape may be created: its handle is new. */
  lemma SecondIsSound()
    ensures Ok(EMPTY) && Sound(EMPTY, HALF_FAILED[0]) && Ok(Do(EMPTY, HALF_FAILED[0])) && Sound(Do(EMPTY, HALF_FAILED[0]), HALF_FAILED[1])
  {
    EmptyCatalogOk();
    StepOk(EMPTY, HALF_FAILED[0]);
    hide Ok, Canonicalize, AsStored, SnapshotMessages, MaterializedRows, Added;
  }

  /** A run from the empty catalogue that ends with a live shape which the next restart loses. */
  lemma HalfFailedRun()
    ensures Ok(EMPTY) && SoundRun(EMPTY, HALF_FAILED)
    ensures var d := Run(EMPTY, HALF_FAILED); Live(d, "a") && !Live(Rebuilt(d.store, {}), "a")
  {
    SecondIsSound();
    hide Ok, Upsert, InvalidateRelation, Rebuilt, Canonicalize, Sorted, RelationHandles, LiveIn, Live;
    var op0, op1, op2 := HALF_FAILED[0], HALF_FAILED[1], HALF_FAILED[2];
    var c1 := Do(EMPTY, op0);
    OkValues(c1);
    StepOk(c1, op1);
    var c2 := Do(c1, op1);
    OkValues(c2);
    TwoShapes(c2);
    SortedPair();
    HalfFailedInvalidation(c2, ITEMS, 1, "a");
    assert ["a", "b"][..1] == ["a"];
    RunFirst(c2, op2, []);
    RunFirst(c1, op1, [op2] + []);
    RunFirst(EMPTY, op0, [op1] + ([op2] + []));
    assert [op0] + ([op1] + ([op2] + [])) == HALF_FAILED;
  }
}
