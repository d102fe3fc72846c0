/** Manager of internal/shapes/manager.go: the fields it updates under its lock, and its methods,
    each tied to the catalogue step of the same name. A store outcome is an input; a channel is a
    number. */
module Manager {
  import opened Strings
  import opened Keys
  import opened Diff
  import opened ShapeLog
  import opened Canonical
  import opened Catalog
  import CatalogRuns

  datatype Outcome<+T> = Done(value: T) | NotFound | Deleted | SaveFailed

  // ---- building a shape ----

  /** buildSnapshotMessages followed by decorateDependentSnapshotMessages. */
  method BuildSnapshot(handle: string, def: Definition, schema: Schema, rows: seq<Row>) returns (messages: seq<Message>)
    ensures messages == if def.log == "changes_only" then [] else SnapshotMessages(handle, def, schema, rows)
  {
    hide HasDependencyKeyword, MessageKey, PrimaryKeySignature;
    messages := [];
    if def.log == "changes_only" {
      return;
    }
    var related := HasDependencyKeyword(def);
    for i := 0 to |rows|
      invariant messages == SnapshotMessages(handle, def, schema, rows[..i])
    {
      assert rows[..i + 1][..i] == rows[..i];
      var m := RowMessage(Insert, def.relation, schema, rows[i], PrimaryKeySignature(schema, rows[i]), rows[i], map[]);
      if related {
        m := Tagged(handle, m);
      }
      messages := messages + [m];
    }
    assert rows[..|rows|] == rows;
  }

  method BuildUpserted(s: Shape, def: Definition, snap: Snapshot, offset: string) returns (r: Shape)
    ensures r == Upserted(s, def, snap, offset)
  {
    hide SnapshotMessages, MaterializedRows;
    var messages := BuildSnapshot(s.handle, def, snap.schema, snap.rows);
    var rows := BuildMaterialized(snap.schema, snap.rows);
    r := s.(def := def, schema := snap.schema, changes := [], snapshot := messages, rows := rows, offset := offset, deleted := false);
  }

  lemma UpsertedKeeps(s: Shape, def: Definition, snap: Snapshot, offset: string)
    ensures var t := Upserted(s, def, snap, offset);
      t.handle == s.handle && t.hash == s.hash && t.generation == s.generation && t.def == def && !t.deleted
  {
  }

  lemma DecorateAdvances(handle: string, related: bool, messages: seq<Message>, i: nat)
    requires i < |messages|
    ensures DecorateEach(handle, related, messages[..i + 1])
            == DecorateEach(handle, related, messages[..i]) + [DecorateOne(handle, related, messages[i])]
    decreases i
  {
    if i > 0 {
      DecorateAdvances(handle, related, messages[1..], i - 1);
      assert messages[1..][..i] == messages[..i + 1][1..] && messages[1..][..i - 1] == messages[..i][1..];
    }
  }

  /** The loop of decorateDependentRefreshMessages. */
  method DecorateMessages(handle: string, def: Definition, messages: seq<Message>, meta: Metadata) returns (r: seq<Message>)
    ensures r == Decorated(handle, def, messages, meta)
  {
    hide HasDependencyKeyword, Tagged, MoveOutMessage;
    if !HasDependencyKeyword(def) {
      return messages;
    }
    var related := meta.keyRelation != NO_RELATION && meta.keyRelation != def.relation;
    r := [];
    var moveIn := false;
    for i := 0 to |messages|
      invariant r == DecorateEach(handle, related, messages[..i])
      invariant moveIn <==> related && HasInsert(messages[..i])
    {
      var m := messages[i];
      DecorateAdvances(handle, related, messages, i);
      assert messages[..i + 1] == messages[..i] + [m];
      if related && m.body.Change? && m.body.op == Delete {
        r := r + [MoveOutMessage(handle, m.internalKey)];
      } else if related && m.body.Change? && m.body.op == Insert {
        r := r + [Tagged(handle, m).(moveIn := true)];
        assert messages[..i + 1][i] == m;
        moveIn := true;
      } else {
        r := r + [Tagged(handle, m)];
      }
    }
    assert messages[..|messages|] == messages;
    if moveIn {
      r := r + [SNAPSHOT_END];
    }
  }

  /** Numbers the messages and appends them to the log. */
  method Extend(s: Shape, schema: Schema, rows: Rows, messages: seq<Message>, meta: Metadata) returns (r: Shape)
    ensures r == Extended(s, schema, rows, messages, meta)
  {
    hide Stamped;
    r := s.(schema := schema, rows := rows);
    if |messages| > 0 {
      var numbered := new Message[|messages|](i requires 0 <= i < |messages| => messages[i]);
      assert numbered[..] == messages;
      var offset := ApplyChangeOffsets(s.offset, numbered, meta);
      r := r.(changes := s.changes + numbered[..], offset := offset);
    } else {
      assert s.changes + Numbered(s.offset, messages, meta) == s.changes;
    }
  }

  method TargetedKeySet(schema: Schema, keyRows: seq<Row>, rows: seq<Row>) returns (keys: set<string>)
    ensures keys == TargetedKeys(schema, keyRows, rows)
  {
    hide PrimaryKeySignature;
    keys := {};
    for i := 0 to |keyRows|
      invariant keys == set k | 0 <= k < i && PrimaryKeySignature(schema, keyRows[k]) != "" :: PrimaryKeySignature(schema, keyRows[k])
    {
      var key := PrimaryKeySignature(schema, keyRows[i]);
      if key != "" {
        keys := keys + {key};
      }
    }
    var named := keys;
    for i := 0 to |rows|
      invariant keys == named + (set k | 0 <= k < i && PrimaryKeySignature(schema, rows[k]) != "" :: PrimaryKeySignature(schema, rows[k]))
    {
      var key := PrimaryKeySignature(schema, rows[i]);
      if key != "" {
        keys := keys + {key};
      }
    }
  }

  /** A full refresh, and whether it has messages. */
  method BuildRefreshed(s: Shape, snap: Snapshot, meta: Metadata) returns (r: Shape, wake: bool)
    ensures r == Refreshed(s, snap, meta) && wake == (RefreshMessages(s, snap, meta) != [])
    ensures r.handle == s.handle
  {
    hide DiffRows, Decorated, MaterializedRows, Numbered;
    var rows := BuildMaterialized(snap.schema, snap.rows);
    var messages := BuildDiff(s.def, snap.schema, s.def.relation, s.rows, rows);
    if meta.dependent {
      messages := DecorateMessages(s.handle, s.def, messages, meta);
    }
    r := Extend(s, snap.schema, rows, messages, meta);
    wake := messages != [];
  }

  /** A refresh of the targeted keys, and whether it has messages. */
  method BuildKeysRefreshed(s: Shape, snap: Snapshot, keyRows: seq<Row>, keys: set<string>, meta: Metadata)
    returns (r: Shape, wake: bool)
    requires keys == TargetedKeys(snap.schema, keyRows, snap.rows) && keys != {}
    ensures r == KeysRefreshed(s, snap, keyRows, meta) && wake == (KeysMessages(s, snap, keys, meta) != [])
    ensures r.handle == s.handle
  {
    hide DiffRows, MaterializedRows, Numbered, Splice, TargetedKeys, Restrict, WireMessages;
    var current := BuildMaterialized(snap.schema, snap.rows);
    var rows := Splice(s.rows, keys, current);
    var messages := BuildDiff(s.def, snap.schema, KeyRelation(s.def, meta), Restrict(s.rows, keys), Restrict(rows, keys));
    if |messages| > 0 && meta.commitLsn > 0 {
      messages := WireMessages(snap.schema, messages);
    }
    assert WireMessages(snap.schema, []) == [];
    r := Extend(s, snap.schema, rows, messages, meta);
    wake := messages != [];
  }

  // ---- waiter lists ----

  predicate Distinct(ids: seq<nat>)
  {
    forall i, j | 0 <= i < j < |ids| :: ids[i] != ids[j]
  }

  /** The per-handle channel lists hold exactly the registered waiters, each once. */
  ghost predicate ListsOk(lists: map<string, seq<nat>>, waiting: WaitTable)
  {
    (forall h | h in lists :: lists[h] != [] && Distinct(lists[h])) &&
    (forall h, id | h in lists && id in lists[h] :: id in waiting && waiting[id].handle == h) &&
    (forall id | id in waiting :: waiting[id].handle in lists && id in lists[waiting[id].handle])
  }

  function ListOf(lists: map<string, seq<nat>>, h: string): seq<nat>
  {
    if h in lists then lists[h] else []
  }

  lemma ListNotified(lists: map<string, seq<nat>>, waiting: WaitTable, h: string)
    requires ListsOk(lists, waiting)
    ensures ListsOk(lists - {h}, waiting - WaitersOf(waiting, h))
    ensures forall id :: id in ListOf(lists, h) <==> id in WaitersOf(waiting, h)
  {
  }

  lemma ListRegistered(lists: map<string, seq<nat>>, waiting: WaitTable, id: nat, w: Waiter)
    requires ListsOk(lists, waiting) && id !in waiting
    ensures ListsOk(lists[w.handle := ListOf(lists, w.handle) + [id]], waiting[id := w])
  {
    var l, l' := ListOf(lists, w.handle), lists[w.handle := ListOf(lists, w.handle) + [id]];
    assert id !in l;
    assert Distinct(l + [id]);
    forall h, i | h in l' && i in l'[h] ensures i in waiting[id := w] && waiting[id := w][i].handle == h {
      if i != id { assert h in lists && i in lists[h]; }
    }
  }

  lemma Without(l: seq<nat>, k: nat)
    requires Distinct(l) && k < |l|
    ensures var rest := l[..k] + l[k + 1..];
      Distinct(rest) && forall i :: i in rest <==> i in l && i != l[k]
  {
    var rest := l[..k] + l[k + 1..];
    forall i | i in l && i != l[k] ensures i in rest {
      var j :| 0 <= j < |l| && l[j] == i;
      assert rest[if j < k then j else j - 1] == i;
    }
  }

  lemma ListTimedOut(lists: map<string, seq<nat>>, waiting: WaitTable, h: string, k: nat)
    requires ListsOk(lists, waiting) && h in lists && k < |lists[h]|
    ensures var rest := lists[h][..k] + lists[h][k + 1..];
      ListsOk(if rest == [] then lists - {h} else lists[h := rest], waiting - {lists[h][k]})
  {
    Without(lists[h], k);
    ListShrinks(lists, waiting, h, lists[h][k], lists[h][..k] + lists[h][k + 1..]);
  }

  lemma ListShrinks(lists: map<string, seq<nat>>, waiting: WaitTable, h: string, id: nat, rest: seq<nat>)
    requires ListsOk(lists, waiting) && h in lists && id in lists[h] && Distinct(rest)
    requires forall i :: i in rest <==> i in lists[h] && i != id
    ensures ListsOk(if rest == [] then lists - {h} else lists[h := rest], waiting - {id})
  {
    hide Distinct;
    assert waiting[id].handle == h;
    var lists' := if rest == [] then lists - {h} else lists[h := rest];
    forall g, i | g in lists' && i in lists'[g] ensures i in waiting - {id} && (waiting - {id})[i].handle == g {
      assert i in lists[g];
    }
    forall i | i in waiting - {id} ensures waiting[i].handle in lists' && i in lists'[waiting[i].handle] {
      assert i in lists[waiting[i].handle];
    }
  }

  lemma {:induction false} ForgetKeepsRelations(c: Catalog, hs: seq<string>)
    ensures CatalogRuns.ForgottenAll(c, hs).byRelation == c.byRelation
    decreases |hs|
  {
    if hs != [] {
      ForgetKeepsRelations(if hs[0] in c.byHandle then CatalogRuns.Forgotten(c, hs[0]) else c, hs[1..]);
    }
  }

  /** What InvalidateByRelation returns. */
  function InvalidatedHandles(c: Catalog, r: Relation, saves: nat): Outcome<seq<string>>
  {
    var hs := Sorted(CatalogRuns.LiveIn(c, RelationHandles(c, r)));
    if |hs| <= saves then Done(hs) else SaveFailed
  }

  /** InvalidateRelation case by case, in terms of the two loops of the source. */
  lemma InvalidationCases(c: Catalog, r: Relation, saves: nat)
    ensures var bucket, after := RelationHandles(c, r), CatalogRuns.InvalidateRelation(c, r, saves);
      var hs := CatalogRuns.Only(Sorted(bucket), LiveHandles(c));
      if bucket == {} then after == c && InvalidatedHandles(c, r, saves) == Done([])
      else if saves < |hs| then
        after == c.(store := StoreTombs(c, hs[..saves]).store) && InvalidatedHandles(c, r, saves) == SaveFailed
      else
        var live := CatalogRuns.LiveIn(c, bucket);
        hs == CatalogRuns.Only(Sorted(bucket), live) && (forall h :: h in hs <==> h in live) &&
        after == CatalogRuns.ForgottenAll(c.(store := StoreTombs(c, hs).store), hs).(byRelation := c.byRelation - {RelKey(r)}) &&
        CatalogRuns.ForgottenAll(c.(store := StoreTombs(c, hs).store), hs).byRelation == c.byRelation &&
        InvalidatedHandles(c, r, saves) == Done(hs)
  {
    var bucket := RelationHandles(c, r);
    var live := CatalogRuns.LiveIn(c, bucket);
    assert bucket == {} ==> live == {};
    assert bucket * LiveHandles(c) == live && bucket * live == live;
    CatalogRuns.OnlySorted(bucket, LiveHandles(c));
    CatalogRuns.OnlySorted(bucket, live);
    var hs := Sorted(live);
    CatalogRuns.StoreTombsOnly(c, hs);
    if saves < |hs| { CatalogRuns.StoreTombsOnly(c, hs[..saves]); }
    ForgetKeepsRelations(StoreTombs(c, hs), hs);
    hide Sorted, Less, CatalogRuns.Only, StoreTombs, CatalogRuns.ForgottenAll, RelKey;
  }

  function Tombstones(byHandle: map<string, Shape>, hs: seq<string>): (r: map<string, Shape>)
    ensures forall h | h in r :: h in byHandle && r[h] == byHandle[h].(deleted := true)
  {
    map h | h in hs && h in byHandle :: byHandle[h].(deleted := true)
  }

  lemma TombstoneKeys(byHandle: map<string, Shape>, c: Catalog, bucket: set<string>, q: seq<string>)
    requires byHandle == c.byHandle && forall h :: h in q <==> h in bucket
    ensures Tombstones(byHandle, CatalogRuns.Only(q, LiveHandles(c))).Keys == CatalogRuns.LiveIn(c, bucket)
  {
    hide CatalogRuns.Only;
  }

  lemma StartRound(c: Catalog, q: seq<string>)
    ensures CatalogRuns.Only(q[..0], LiveHandles(c)) == []
    ensures StoreTombs(c, []) == c && KilledAll(c, []) == c && Tombstones(c.byHandle, []) == map[]
  {
    assert q[..0] == [];
  }

  /** One round of the saving loop. */
  lemma SaveRound(c: Catalog, q: seq<string>, i: nat)
    requires i < |q|
    ensures var s, h := LiveHandles(c), q[i];
      var done := CatalogRuns.Only(q[..i], s);
      if h in c.byHandle && !c.byHandle[h].deleted then
        CatalogRuns.Only(q[..i + 1], s) == done + [h] &&
        |done| < |CatalogRuns.Only(q, s)| && CatalogRuns.Only(q, s)[..|done|] == done &&
        StoreTombs(c, done + [h]).store == StoreTombs(c, done).store[h := AsStored(c.byHandle[h]).(deleted := true)] &&
        Tombstones(c.byHandle, done + [h]) == Tombstones(c.byHandle, done)[h := c.byHandle[h].(deleted := true)]
      else CatalogRuns.Only(q[..i + 1], s) == done
  {
    hide CatalogRuns.Only, StoreTombs, AsStored;
    var s, h := LiveHandles(c), q[i];
    CatalogRuns.OnlyRound(q, s, i);
    if h in s {
      CatalogRuns.StoreTombsNext(c, CatalogRuns.Only(q[..i], s), h);
    }
  }

  predicate AllSaved(c: Catalog, saves: nat)
  {
    |Sorted(LiveHandles(c))| <= saves
  }

  lemma AllHandles(c: Catalog, saves: nat)
    ensures var hs := CatalogRuns.Only(Sorted(c.byHandle.Keys), LiveHandles(c));
      (AllSaved(c, saves) <==> |hs| <= saves) &&
      CatalogRuns.SavedHandles(c, saves) == (if |hs| <= saves then hs else hs[..saves]) &&
      CatalogRuns.InvalidateAll(c, saves) == KilledAll(c, CatalogRuns.SavedHandles(c, saves))
  {
    hide KilledAll;
    assert c.byHandle.Keys * LiveHandles(c) == LiveHandles(c);
    CatalogRuns.OnlySorted(c.byHandle.Keys, LiveHandles(c));
  }

  /** One round of InvalidateAll. */
  lemma KillRound(c: Catalog, q: seq<string>, i: nat)
    requires q == Sorted(c.byHandle.Keys) && i < |q| && forall h | h in c.byHandle :: c.byHandle[h].handle == h
    ensures var s, h := LiveHandles(c), q[i];
      var done := CatalogRuns.Only(q[..i], s);
      var d := KilledAll(c, done);
      h in d.byHandle &&
      if !d.byHandle[h].deleted then
        CatalogRuns.Only(q[..i + 1], s) == done + [h] &&
        |done| < |CatalogRuns.Only(q, s)| && CatalogRuns.Only(q, s)[..|done|] == done &&
        KilledAll(c, done + [h]) == Killed(d, h)
      else CatalogRuns.Only(q[..i + 1], s) == done
  {
    hide CatalogRuns.Only, KilledAll, Killed, Sorted, Less;
    var s, h := LiveHandles(c), q[i];
    var done := CatalogRuns.Only(q[..i], s);
    assert h in q;
    CatalogRuns.OnlyRound(q, s, i);
    StillLive(c, q, i);
    CatalogRuns.KillAllEntry(c, done, h);
    CatalogRuns.KilledAllNext(c, done, h);
  }

  /** Deleting the handles before position `i` of a list leaves the one at `i` as it was. */
  lemma StillLive(c: Catalog, q: seq<string>, i: nat)
    requires Ascending(q) && i < |q| && forall h | h in c.byHandle :: c.byHandle[h].handle == h
    ensures Live(KilledAll(c, CatalogRuns.Only(q[..i], LiveHandles(c))), q[i]) <==> Live(c, q[i])
  {
    hide Less, KilledAll;
    var done := CatalogRuns.Only(q[..i], LiveHandles(c));
    assert q[i] !in q[..i] by {
      forall j | 0 <= j < i ensures q[j] != q[i] { assert Less(q[j], q[i]); LessIrreflexive(q[i]); }
    }
    CatalogRuns.KillAllEntry(c, done, q[i]);
  }

  function ShapesAt(byHandle: map<string, Shape>, hs: seq<string>): seq<Shape>
  {
    if hs == [] then []
    else ShapesAt(byHandle, hs[..|hs| - 1]) + (if hs[|hs| - 1] in byHandle then [byHandle[hs[|hs| - 1]]] else [])
  }

  lemma LoadStart(shapes: map<string, Shape>, q: seq<string>, broken: set<string>)
    ensures Over(shapes, LoadedAll(shapes, q[..0], broken)) == Catalog(map[], map[], map[], 0, map[], {}, shapes)
  {
    assert q[..0] == [];
    assert shapes + map[] == shapes;
  }

  lemma {:induction false} LoadedKeys(shapes: map<string, Shape>, hs: seq<string>, broken: set<string>)
    requires forall h | h in hs :: h in shapes && shapes[h].handle == h
    ensures forall h :: h in LoadedAll(shapes, hs, broken).store <==> h in hs
    ensures forall h :: h in LoadedAll(shapes, hs, broken).byHandle <==> h in hs
  {
    hide AsStored, Added, RelKey;
    if hs != [] {
      var n := |hs| - 1;
      assert hs == hs[..n] + [hs[n]];
      LoadedKeys(shapes, hs[..n], broken);
    }
  }

  lemma LoadFresh(shapes: map<string, Shape>, q: seq<string>, i: nat, broken: set<string>)
    requires q == Sorted(shapes.Keys) && i < |q|
    ensures forall h | h in q[..i + 1] :: h in shapes
    ensures q[i] in shapes && q[i] !in q[..i]
  {
    hide Less, Sorted;
    assert q[i] in q && forall h | h in q[..i + 1] :: h in q;
    forall j | 0 <= j < i ensures q[j] != q[i] { assert Less(q[j], q[i]); LessIrreflexive(q[i]); }
  }

  lemma LoadNext(shapes: map<string, Shape>, q: seq<string>, i: nat, broken: set<string>)
    requires i < |q| && (forall h | h in q[..i + 1] :: h in shapes && shapes[h].handle == h) && q[i] in shapes && q[i] !in q[..i]
    ensures forall h | h in q[..i] :: h in shapes
    ensures var c := LoadedAll(shapes, q[..i], broken);
      q[i] !in c.byHandle && q[i] !in c.store &&
      LoadedAll(shapes, q[..i + 1], broken) == LoadedOne(c, Decoded(shapes[q[i]], q[i] in broken))
  {
    hide LoadedOne, Decoded;
    assert q[..i + 1] == q[..i] + [q[i]];
    LoadedKeys(shapes, q[..i], broken);
    assert q[..i + 1][..i] == q[..i];
  }

  /** The catalogue built so far over the store as it was found. */
  function Over(shapes: map<string, Shape>, c: Catalog): Catalog
  {
    c.(store := shapes + c.store)
  }

  lemma OverHandles(shapes: map<string, Shape>, c: Catalog)
    ensures Over(shapes, c).byHandle == c.byHandle
  {
  }

  lemma MergeUpdate(a: map<string, Shape>, b: map<string, Shape>, h: string, s: Shape)
    requires h in a && h !in b
    ensures a + b[h := s] == (a + b)[h := s]
    ensures s == a[h] ==> a + b[h := s] == a + b
  {
  }

  lemma LoadRound(shapes: map<string, Shape>, c: Catalog, h: string, broken: bool)
    requires h in shapes && shapes[h].handle == h && AsStored(shapes[h]) == shapes[h] && h !in c.store
    ensures var s := Decoded(shapes[h], broken);
      Over(shapes, LoadedOne(c, s)) == LoadedOne(Over(shapes, c), s).(store :=
        if broken then Over(shapes, c).store[h := AsStored(Decoded(shapes[h], true))] else Over(shapes, c).store)
  {
    hide AsStored, Added, RelKey;
    MergeUpdate(shapes, c.store, h, AsStored(Decoded(shapes[h], broken)));
  }

  lemma LoadEnd(shapes: map<string, Shape>, q: seq<string>, broken: set<string>)
    requires (forall h | h in shapes :: shapes[h].handle == h) && q == Sorted(shapes.Keys)
    ensures Over(shapes, LoadedAll(shapes, q, broken)) == LoadedAll(shapes, q, broken)
  {
    LoadedKeys(shapes, q, broken);
    hide LoadedAll;
  }

  class Manager {
    var byHandle: map<string, Shape>
    var byHash: map<Definition, string>
    var byRelation: map<string, set<string>>
    var generation: nat
    var waiters: map<string, seq<nat>>
    var store: map<string, Shape>
    /** Channels made so far, and those closed. */
    var channels: nat
    var closed: set<nat>
    /** What each registered channel waits for. */
    ghost var waiting: WaitTable

    ghost predicate Valid()
      reads `byHandle, `byHash, `waiters, `waiting, `channels, `closed
    {
      (forall d | d in byHash :: byHash[d] in byHandle) &&
      (forall h | h in byHandle :: byHandle[h].handle == h) &&
      ListsOk(waiters, waiting) && waiting.Keys !! closed &&
      (forall id | id in waiting || id in closed :: id < channels)
    }

    ghost function View(): Catalog
      reads this
    {
      Catalog(byHandle, byHash, byRelation, generation, waiting, closed, store)
    }

    /** The empty catalogue. */
    constructor Empty()
      ensures Valid() && View() == Catalog(map[], map[], map[], 0, map[], {}, map[])
    {
      byHandle, byHash, byRelation, generation := map[], map[], map[], 0;
      waiters, store, channels, closed, waiting := map[], map[], 0, {}, map[];
    }

    // ---- small steps ----

    /** close(waiter): closing a closed channel would panic. */
    method Close(id: nat)
      requires id !in closed
      modifies `closed
      ensures closed == old(closed) + {id}
    {
      closed := closed + {id};
    }

    method CloseAll(list: seq<nat>)
      requires Distinct(list) && forall id | id in list :: id !in closed
      modifies `closed
      ensures closed == old(closed) + set id | id in list
    {
      for i := 0 to |list|
        invariant closed == old(closed) + set id | id in list[..i]
      {
        assert list[i] in list && list[..i + 1] == list[..i] + [list[i]];
        Close(list[i]);
      }
      assert list[..|list|] == list;
    }

    /** notifyLocked. */
    method Notify(h: string)
      requires Valid()
      modifies `waiters, `closed, `waiting
      ensures Valid() && View() == Notified(old(View()), h)
    {
      ListNotified(waiters, waiting, h);
      hide ListsOk;
      if h !in waiters {
        assert WaitersOf(waiting, h) == {};
        assert waiting - {} == waiting && closed + {} == closed;
        return;
      }
      var list := waiters[h];
      waiters := waiters - {h};
      waiting := waiting - WaitersOf(waiting, h);
      CloseAll(list);
      assert (set id | id in list) == WaitersOf(old(waiting), h);
    }

    method AddRelation(r: Relation, h: string)
      modifies `byRelation
      ensures byRelation == Added(old(byRelation), RelKey(r), h)
    {
      var key := RelKey(r);
      if key !in byRelation {
        byRelation := byRelation[key := {}];
      }
      byRelation := byRelation[key := byRelation[key] + {h}];
    }

    method RemoveRelation(r: Relation, h: string)
      modifies `byRelation
      ensures byRelation == Removed(old(byRelation), RelKey(r), h)
    {
      var key := RelKey(r);
      if key !in byRelation || byRelation[key] == {} {
        return;
      }
      byRelation := byRelation[key := byRelation[key] - {h}];
      if byRelation[key] == {} {
        byRelation := byRelation - {key};
      }
    }

    /** persistStateLocked. */
    method Persist(s: Shape, saved: bool) returns (ok: bool)
      modifies `store
      ensures ok == saved && store == if saved then old(store)[s.handle := AsStored(s)] else old(store)
    {
      if saved {
        store := store[s.handle := AsStored(s)];
      }
      return saved;
    }

    // ---- upsert and delete ----

    /** `clock` is the handle that a new shape would get: a digest prefix and the time. */
    method UpsertSnapshotAtOffset(def: Definition, snap: Snapshot, offset: string, clock: string, saved: bool)
      returns (r: Outcome<Shape>)
      requires Valid()
      modifies this
      ensures Valid()
      ensures saved ==> View() == CatalogRuns.Upsert(old(View()), def, snap, offset, clock)
      ensures saved ==> r == Done(CatalogRuns.UpsertedShape(old(View()), def, snap, offset, clock))
      ensures !saved ==> r == SaveFailed && View() == old(View())
    {
      hide Canonicalize, Upserted, AsStored, ListsOk, Added, Removed, RelKey, Notified, Created;
      var hash := Canonicalize(def);
      if hash in byHash {
        var handle := byHash[hash];
        var updated := BuildUpserted(byHandle[handle], def, snap, offset);
        UpsertedKeeps(byHandle[handle], def, snap, offset);
        var ok := ReplaceLive(hash, updated, saved);
        r := if ok then Done(updated) else SaveFailed;
      } else {
        r := InsertNew(def, snap, offset, clock, saved);
      }
    }

    /** The branch of an upsert for a definition without a shape. */
    method InsertNew(def: Definition, snap: Snapshot, offset: string, clock: string, saved: bool) returns (r: Outcome<Shape>)
      requires Valid()
      modifies this
      ensures Valid()
      ensures !saved ==> r == SaveFailed && View() == old(View())
      ensures saved ==>
        var t := Upserted(CatalogRuns.BlankShape(clock, Canonicalize(def), def, old(generation) + 1), def, snap, offset);
        r == Done(t) && View() == Created(old(View()), t)
    {
      hide Canonicalize, Upserted, AsStored, ListsOk, Added, RelKey, Valid;
      var hash := Canonicalize(def);
      generation := generation + 1;
      var blank := CatalogRuns.BlankShape(clock, hash, def, generation);
      var state := BuildUpserted(blank, def, snap, offset);
      UpsertedKeeps(blank, def, snap, offset);
      var ok := Persist(state, saved);
      if !ok {
        generation := generation - 1;
        return SaveFailed;
      }
      Install(state);
      return Done(state);
    }

    method Install(s: Shape)
      requires Valid()
      modifies `byHandle, `byHash, `byRelation
      ensures Valid()
      ensures byHandle == old(byHandle)[s.handle := s] && byHash == old(byHash)[s.hash := s.handle]
      ensures byRelation == Added(old(byRelation), RelKey(s.def.relation), s.handle)
    {
      hide ListsOk, Added, RelKey;
      byHandle := byHandle[s.handle := s];
      byHash := byHash[s.hash := s.handle];
      AddRelation(s.def.relation, s.handle);
    }

    /** The branch of an upsert for a definition that has a shape. */
    method ReplaceLive(hash: Definition, updated: Shape, saved: bool) returns (ok: bool)
      requires Valid() && hash in byHash && updated.handle == byHash[hash]
      modifies this
      ensures Valid() && ok == saved
      ensures !saved ==> View() == old(View())
      ensures saved ==> var c, h := old(View()), old(byHash[hash]);
        View() == Notified(c.(byHandle := c.byHandle[h := updated], store := c.store[h := AsStored(updated)],
                              byRelation := Added(Removed(c.byRelation, KeyOf(c, h), h), RelKey(updated.def.relation), h)), h)
    {
      HashListed(hash);
      hide AsStored, Valid, Added, Removed, RelKey, WaitersOf;
      ok := Persist(updated, saved);
      if ok {
        Refile(hash, updated);
        Notify(updated.handle);
      }
    }

    lemma HashListed(hash: Definition)
      requires Valid() && hash in byHash
      ensures byHash[hash] in byHandle
    {
    }

    /** Moves a live shape to the bucket of its new relation and replaces its state. */
    method Refile(hash: Definition, updated: Shape)
      requires Valid() && hash in byHash && updated.handle == byHash[hash] && updated.handle in byHandle
      modifies `byHandle, `byHash, `byRelation
      ensures Valid() && byHandle == old(byHandle)[updated.handle := updated] && byHash == old(byHash)
      ensures byRelation ==
        Added(Removed(old(byRelation), RelKey(old(byHandle[updated.handle].def.relation)), updated.handle),
              RelKey(updated.def.relation), updated.handle)
    {
      hide ListsOk, Added, Removed, RelKey;
      var handle := byHash[hash];
      RemoveRelation(byHandle[handle].def.relation, handle);
      byHandle := byHandle[handle := updated];
      byHash := byHash[hash := handle];
      assert byHash == old(byHash);
      AddRelation(updated.def.relation, handle);
    }

    method Delete(h: string, saved: bool) returns (r: Outcome<bool>)
      requires Valid()
      modifies this
      ensures Valid()
      ensures h !in old(byHandle) ==> r == Done(false) && View() == old(View())
      ensures h in old(byHandle) && saved ==> r == Done(true) && View() == Killed(old(View()), h)
      ensures h in old(byHandle) && !saved ==> r == SaveFailed && View() == old(View())
    {
      hide AsStored, Valid, Removed, RelKey, WaitersOf;
      if h !in byHandle {
        return Done(false);
      }
      Named(h);
      var state := byHandle[h];
      var updated := state.(deleted := true);
      var ok := Persist(updated, saved);
      if !ok {
        return SaveFailed;
      }
      RemoveRelation(state.def.relation, h);
      ForgetOne(h, updated);
      return Done(true);
    }

    // ---- reading and waiting ----

    method Read(h: string, offset: string) returns (r: Outcome<ReadResult>)
      ensures r == if h in byHandle then Done(ReadLog(byHandle[h], offset)) else NotFound
    {
      if h !in byHandle {
        return NotFound;
      }
      var result := ReadLocked(byHandle[h], offset);
      return Done(result);
    }

    /** The locked half of WaitForChange: reads again, and registers a new channel when there is
        nothing to deliver. */
    method Register(h: string, offset: string) returns (r: Outcome<ReadResult>, id: Option<nat>)
      requires Valid()
      modifies this
      ensures Valid()
      ensures r == if h in byHandle then Done(ReadLog(byHandle[h], offset)) else NotFound
      ensures View() == CatalogRuns.Wait(old(View()), old(channels), Waiter(h, offset))
      ensures id == if r == Done(Messages([])) then Some(old(channels)) else None
      ensures old(channels) !in old(waiting) && old(channels) !in old(closed)
    {
      hide ListsOk, ReadLog;
      r := Read(h, offset);
      id := None;
      if r == Done(Messages([])) {
        var channel := channels;
        channels := channels + 1;
        ListRegistered(waiters, waiting, channel, Waiter(h, offset));
        waiters := waiters[h := ListOf(waiters, h) + [channel]];
        waiting := waiting[channel := Waiter(h, offset)];
        id := Some(channel);
      }
    }

    /** removeWaiter, whether or not the channel is still listed. */
    method RemoveWaiter(h: string, id: nat)
      requires Valid() && (id in waiting ==> waiting[id].handle == h)
      modifies `waiters, `waiting
      ensures Valid() && View() == TimedOut(old(View()), id)
    {
      var list := ListOf(waiters, h);
      var k := 0;
      while k < |list| && list[k] != id
        invariant k <= |list| && id !in list[..k]
      {
        k := k + 1;
      }
      if k < |list| {
        ListTimedOut(waiters, waiting, h, k);
        waiters := waiters[h := list[..k] + list[k + 1..]];
        waiting := waiting - {id};
        if waiters[h] == [] {
          waiters := waiters - {h};
        }
        assert waiters == if list[..k] + list[k + 1..] == [] then old(waiters) - {h} else old(waiters)[h := list[..k] + list[k + 1..]];
      } else {
        assert list[..k] == list;
        assert waiting - {id} == waiting;
      }
    }

    // ---- changing one live shape ----

    /** Stores a new state of a shape and wakes its waiters when asked. */
    method Commit(updated: Shape, wake: bool, saved: bool) returns (ok: bool)
      requires Valid() && updated.handle in byHandle
      modifies `byHandle, `waiters, `closed, `waiting, `store
      ensures Valid() && ok == saved
      ensures View() == if saved then Replaced(old(View()), updated, wake) else old(View())
    {
      hide AsStored, ListsOk;
      ok := Persist(updated, saved);
      if ok {
        byHandle := byHandle[updated.handle := updated];
        if wake {
          Notify(updated.handle);
        }
      }
    }

    method Append(h: string, messages: seq<Message>, saved: bool) returns (r: Outcome<Shape>)
      requires Valid()
      modifies this
      ensures Valid()
      ensures h !in old(byHandle) ==> r == NotFound && View() == old(View())
      ensures h in old(byHandle) && old(byHandle[h].deleted) ==> r == Deleted && View() == old(View())
      ensures Live(old(View()), h) && !saved ==> r == SaveFailed && View() == old(View())
      ensures Live(old(View()), h) && saved ==>
        r == Done(Appended(old(byHandle[h]), messages)) && View() == CatalogRuns.Append(old(View()), h, messages)
    {
      hide Appended, Replaced;
      if h !in byHandle {
        return NotFound;
      }
      if byHandle[h].deleted {
        return Deleted;
      }
      var updated := AppendMessages(byHandle[h], messages);
      CatalogRuns.AppendedKeeps(byHandle[h], messages);
      var ok := Commit(updated, true, saved);
      r := if ok then Done(updated) else SaveFailed;
    }

    method RefreshWithMetadata(h: string, snap: Snapshot, meta: Metadata, saved: bool) returns (r: Outcome<Shape>)
      requires Valid()
      modifies this
      ensures Valid()
      ensures h !in old(byHandle) ==> r == NotFound && View() == old(View())
      ensures h in old(byHandle) && old(byHandle[h].deleted) ==> r == Deleted && View() == old(View())
      ensures Live(old(View()), h) && !saved ==> r == SaveFailed && View() == old(View())
      ensures Live(old(View()), h) && saved ==>
        r == Done(Refreshed(old(byHandle[h]), snap, meta)) && View() == CatalogRuns.Refresh(old(View()), h, snap, meta)
    {
      hide Replaced, Valid;
      if h !in byHandle {
        return NotFound;
      }
      var state := byHandle[h];
      if state.deleted {
        return Deleted;
      }
      var updated, wake := BuildRefreshed(state, snap, meta);
      Named(h);
      var ok := Commit(updated, wake, saved);
      r := if ok then Done(updated) else SaveFailed;
    }

    lemma AllNamed()
      requires Valid()
      ensures forall h | h in byHandle :: byHandle[h].handle == h
    {
    }

    lemma Named(h: string)
      requires Valid() && h in byHandle
      ensures byHandle[h].handle == h
    {
    }

    method RefreshKeysWithMetadata(h: string, snap: Snapshot, keyRows: seq<Row>, meta: Metadata, saved: bool) returns (r: Outcome<Shape>)
      requires Valid()
      modifies this
      ensures Valid()
      ensures h !in old(byHandle) ==> r == NotFound && View() == old(View())
      ensures h in old(byHandle) && old(byHandle[h].deleted) ==> r == Deleted && View() == old(View())
      ensures Live(old(View()), h) && (saved || TargetedKeys(snap.schema, keyRows, snap.rows) == {}) ==>
        r == Done(KeysRefreshed(old(byHandle[h]), snap, keyRows, meta)) &&
        View() == CatalogRuns.RefreshKeys(old(View()), h, snap, keyRows, meta)
      ensures Live(old(View()), h) && !saved && TargetedKeys(snap.schema, keyRows, snap.rows) != {} ==>
        r == SaveFailed && View() == old(View())
    {
      hide Replaced, Valid, TargetedKeys;
      if h !in byHandle {
        return NotFound;
      }
      var state := byHandle[h];
      if state.deleted {
        return Deleted;
      }
      var keys := TargetedKeySet(snap.schema, keyRows, snap.rows);
      if keys == {} {
        return Done(state);
      }
      var updated, wake := BuildKeysRefreshed(state, snap, keyRows, keys, meta);
      Named(h);
      var ok := Commit(updated, wake, saved);
      r := if ok then Done(updated) else SaveFailed;
    }

    // ---- invalidating ----

    method SaveTomb(h: string, saved: bool) returns (ok: bool)
      requires Valid() && h in byHandle
      modifies `store
      ensures ok == saved
      ensures store == if saved then old(store)[h := AsStored(byHandle[h]).(deleted := true)] else old(store)
    {
      Named(h);
      AsStoredDeleted(byHandle[h]);
      hide AsStored, Valid;
      ok := Persist(byHandle[h].(deleted := true), saved);
    }

    /** The saving loop of InvalidateByRelation; the save after `saves` successful ones fails. */
    method SaveTombstones(q: seq<string>, saves: nat) returns (ok: bool, updated: map<string, Shape>)
      requires Valid()
      modifies `store
      ensures ok <==> |CatalogRuns.Only(q, LiveHandles(old(View())))| <= saves
      ensures ok ==> store == StoreTombs(old(View()), CatalogRuns.Only(q, LiveHandles(old(View())))).store
      ensures !ok ==> store == StoreTombs(old(View()), CatalogRuns.Only(q, LiveHandles(old(View())))[..saves]).store
      ensures ok ==> updated == Tombstones(byHandle, CatalogRuns.Only(q, LiveHandles(old(View()))))
    {
      StartRound(View(), q);
      hide AsStored, CatalogRuns.Only, StoreTombs, Valid, LiveHandles, Tombstones;
      ghost var c := View();
      ghost var s := LiveHandles(c);
      updated := map[];
      var count := 0;
      ghost var done := [];
      for i := 0 to |q|
        invariant done == CatalogRuns.Only(q[..i], s) && count == |done| <= saves
        invariant store == StoreTombs(c, done).store && updated == Tombstones(byHandle, done)
      {
        var h := q[i];
        SaveRound(c, q, i);
        if h in byHandle && !byHandle[h].deleted {
          ok := SaveTomb(h, count < saves);
          if !ok {
            return;
          }
          updated := updated[h := byHandle[h].(deleted := true)];
          done, count := done + [h], count + 1;
        }
      }
      assert q[..|q|] == q;
      ok := true;
    }

    /** The second loop of InvalidateByRelation. */
    method ForgetUpdated(q: seq<string>, updated: map<string, Shape>) returns (invalidated: seq<string>)
      requires Valid() && forall h | h in updated :: h in byHandle && updated[h] == byHandle[h].(deleted := true)
      modifies `byHandle, `byHash, `waiters, `closed, `waiting
      ensures Valid() && invalidated == CatalogRuns.Only(q, updated.Keys)
      ensures View() == CatalogRuns.ForgottenAll(old(View()), invalidated)
    {
      assert CatalogRuns.ForgottenAll(View(), []) == View() && CatalogRuns.Only([], updated.Keys) == [] && q[..0] == [];
      hide ListsOk, CatalogRuns.Only, CatalogRuns.ForgottenAll;
      ghost var c := View();
      invalidated := [];
      for i := 0 to |q|
        invariant Valid() && invalidated == CatalogRuns.Only(q[..i], updated.Keys)
        invariant View() == CatalogRuns.ForgottenAll(c, invalidated)
        invariant forall h | h in updated :: h in byHandle && updated[h] == byHandle[h].(deleted := true)
      {
        var h := q[i];
        CatalogRuns.OnlyNext(q, updated.Keys, i);
        if h in updated {
          CatalogRuns.ForgottenAllNext(c, invalidated, h);
          ForgetOne(h, updated[h]);
          invalidated := invalidated + [h];
        }
      }
      assert q[..|q|] == q;
    }

    method ForgetOne(h: string, tomb: Shape)
      requires Valid() && h in byHandle && tomb == byHandle[h].(deleted := true)
      modifies `byHandle, `byHash, `waiters, `closed, `waiting
      ensures Valid() && View() == CatalogRuns.Forgotten(old(View()), h)
    {
      hide ListsOk;
      byHash := byHash - {tomb.hash};
      byHandle := byHandle[h := tomb];
      Notify(h);
    }

    method InvalidateByRelation(r: Relation, saves: nat) returns (invalidated: Outcome<seq<string>>)
      requires Valid()
      modifies this
      ensures Valid()
      ensures View() == CatalogRuns.InvalidateRelation(old(View()), r, saves)
      ensures invalidated == InvalidatedHandles(old(View()), r, saves)
    {
      hide Valid, CatalogRuns.Only, CatalogRuns.ForgottenAll, StoreTombs, RelKey, Sorted, Less;
      ghost var c := View();
      var key := RelKey(r);
      InvalidationCases(c, r, saves);
      hide CatalogRuns.InvalidateRelation, InvalidatedHandles;
      if key !in byRelation || byRelation[key] == {} {
        return Done([]);
      }
      var q := Sorted(byRelation[key]);
      var ok, updated := SaveTombstones(q, saves);
      if !ok {
        return SaveFailed;
      }
      TombstoneKeys(byHandle, c, byRelation[key], q);
      var list := ForgetUpdated(q, updated);
      byRelation := byRelation - {key};
      return Done(list);
    }

    method Kill(h: string)
      requires Valid() && h in byHandle
      modifies this
      ensures Valid() && View() == Killed(old(View()), h)
    {
      hide Killed;
      var _ := Delete(h, true);
    }

    method InvalidateAll(saves: nat) returns (ok: bool, invalidated: seq<string>)
      requires Valid()
      modifies this
      ensures Valid()
      ensures View() == CatalogRuns.InvalidateAll(old(View()), saves)
      ensures ok == AllSaved(old(View()), saves) && invalidated == CatalogRuns.SavedHandles(old(View()), saves)
    {
      AllHandles(View(), saves);
      hide Valid, CatalogRuns.Only, CatalogRuns.InvalidateAll, CatalogRuns.SavedHandles, AllSaved, KilledAll, Sorted, LiveHandles;
      var q := Sorted(byHandle.Keys);
      ok, invalidated := KillListed(q, saves);
    }

    /** The loop of InvalidateAll. */
    method KillListed(q: seq<string>, saves: nat) returns (ok: bool, invalidated: seq<string>)
      requires Valid() && q == Sorted(byHandle.Keys)
      modifies this
      ensures Valid() && View() == KilledAll(old(View()), invalidated)
      ensures ok <==> |CatalogRuns.Only(q, LiveHandles(old(View())))| <= saves
      ensures ok ==> invalidated == CatalogRuns.Only(q, LiveHandles(old(View())))
      ensures !ok ==> invalidated == CatalogRuns.Only(q, LiveHandles(old(View())))[..saves]
    {
      AllNamed();
      StartRound(View(), q);
      hide Valid, CatalogRuns.Only, KilledAll, Killed, Sorted, LiveHandles, StoreTombs, Tombstones;
      ghost var c := View();
      ghost var s := LiveHandles(c);
      invalidated := [];
      for i := 0 to |q|
        invariant Valid() && View() == KilledAll(c, invalidated)
        invariant invalidated == CatalogRuns.Only(q[..i], s) && |invalidated| <= saves
      {
        KillRound(c, q, i);
        if !byHandle[q[i]].deleted {
          if |invalidated| == saves {
            return false, invalidated;
          }
          Kill(q[i]);
          invalidated := invalidated + [q[i]];
        }
      }
      assert q[..|q|] == q;
      ok := true;
    }

    // ---- listing ----

    /** The live shapes of a list of handles, in order. */
    method Collect(q: seq<string>) returns (states: seq<Shape>)
      ensures states == ShapesAt(byHandle, CatalogRuns.Only(q, LiveHandles(View())))
    {
      hide CatalogRuns.Only;
      ghost var s := LiveHandles(View());
      StartRound(View(), q);
      states := [];
      for i := 0 to |q|
        invariant states == ShapesAt(byHandle, CatalogRuns.Only(q[..i], s))
      {
        CatalogRuns.OnlyNext(q, s, i);
        if q[i] in byHandle && !byHandle[q[i]].deleted {
          states := states + [byHandle[q[i]]];
        }
      }
      assert q[..|q|] == q;
    }

    method ActiveByRelation(r: Relation) returns (states: seq<Shape>)
      ensures states == ShapesAt(byHandle, Sorted(CatalogRuns.LiveIn(View(), RelationHandles(View(), r))))
    {
      hide CatalogRuns.Only, Sorted, Less;
      ghost var c := View();
      var key := RelKey(r);
      var bucket := if key in byRelation then byRelation[key] else {};
      assert bucket * LiveHandles(c) == CatalogRuns.LiveIn(c, bucket);
      CatalogRuns.OnlySorted(bucket, LiveHandles(c));
      states := Collect(Sorted(bucket));
    }

    method ActiveStates() returns (states: seq<Shape>)
      ensures states == ShapesAt(byHandle, Sorted(LiveHandles(View())))
    {
      hide CatalogRuns.Only, Sorted, Less;
      ghost var c := View();
      assert byHandle.Keys * LiveHandles(c) == LiveHandles(c);
      CatalogRuns.OnlySorted(byHandle.Keys, LiveHandles(c));
      states := Collect(Sorted(byHandle.Keys));
    }

    // ---- loading ----

    method Enter(s: Shape)
      requires Valid()
      modifies `byHandle, `byHash, `byRelation
      ensures Valid() && byHandle == old(byHandle)[s.handle := s]
      ensures byHash == if s.deleted then old(byHash) else old(byHash)[s.hash := s.handle]
      ensures byRelation == if s.deleted then old(byRelation) else Added(old(byRelation), RelKey(s.def.relation), s.handle)
    {
      hide ListsOk, Added, RelKey;
      byHandle := byHandle[s.handle := s];
      if !s.deleted {
        byHash := byHash[s.hash := s.handle];
        AddRelation(s.def.relation, s.handle);
      }
    }

    /** One round of loadPersisted: a shape that does not decode is saved as a tombstone. */
    method LoadOne(persisted: Shape, broken: bool)
      requires Valid() && persisted.handle !in byHandle
      modifies this
      ensures Valid() && waiters == old(waiters)
      ensures View() == LoadedOne(old(View()), Decoded(persisted, broken)).(store :=
        if broken then old(store)[persisted.handle := AsStored(Decoded(persisted, true))] else old(store))
    {
      hide AsStored, Valid, RelKey, Added;
      var state := Decoded(persisted, broken);
      if broken {
        var _ := Persist(state, true);
      }
      Enter(state);
      if state.generation > generation {
        generation := state.generation;
      }
    }

    /** NewManager over a store: loadPersisted in handle order. */
    constructor Load(shapes: map<string, Shape>, broken: set<string>)
      requires forall h | h in shapes :: shapes[h].handle == h && AsStored(shapes[h]) == shapes[h]
      ensures Valid() && View() == Rebuilt(shapes, broken)
    {
      byHandle, byHash, byRelation, generation := map[], map[], map[], 0;
      waiters, store, channels, closed, waiting := map[], shapes, 0, {}, map[];
      new;
      assert Valid();
      hide AsStored, LoadedAll, Sorted, Valid, Over;
      var q := Sorted(shapes.Keys);
      LoadStart(shapes, q, broken);
      LoadEnd(shapes, q, broken);
      LoadList(q, shapes, broken);
    }

    /** The loop of loadPersisted. */
    method LoadList(q: seq<string>, shapes: map<string, Shape>, broken: set<string>)
      requires forall h | h in shapes :: shapes[h].handle == h && AsStored(shapes[h]) == shapes[h]
      requires Valid() && q == Sorted(shapes.Keys) && View() == Over(shapes, LoadedAll(shapes, q[..0], broken))
      modifies this
      ensures Valid() && View() == Over(shapes, LoadedAll(shapes, q, broken))
    {
      hide AsStored, LoadedOne, LoadedAll, Sorted, Valid, Decoded, Over;
      for i := 0 to |q|
        invariant Valid() && (forall h | h in q[..i] :: h in shapes)
        invariant View() == Over(shapes, LoadedAll(shapes, q[..i], broken))
      {
        LoadFresh(shapes, q, i, broken);
        LoadNext(shapes, q, i, broken);
        LoadRound(shapes, LoadedAll(shapes, q[..i], broken), q[i], q[i] in broken);
        OverHandles(shapes, LoadedAll(shapes, q[..i], broken));
        LoadOne(shapes[q[i]], q[i] in broken);
      }
      assert q[..|q|] == q;
    }
  }

  // ---- starting over a store ----

  /** The store after the tombstones of the undecodable shapes `hs` are saved. */
  function WithTombs(shapes: map<string, Shape>, hs: seq<string>): map<string, Shape>
  {
    if hs == [] then shapes
    else
      var h, before := hs[|hs| - 1], WithTombs(shapes, hs[..|hs| - 1]);
      if h in shapes then before[h := AsStored(Decoded(shapes[h], true))] else before
  }

  /** The saves of loadPersisted, in handle order, up to the first that fails. */
  method SaveTombs(q: seq<string>, shapes: map<string, Shape>, broken: set<string>, saves: nat)
    returns (ok: bool, stored: map<string, Shape>)
    requires forall h | h in q :: h in shapes
    ensures var hs := CatalogRuns.Only(q, broken);
      ok == (|hs| <= saves) && stored == WithTombs(shapes, if ok then hs else hs[..saves])
  {
    hide AsStored, Decoded, CatalogRuns.Only;
    stored := shapes;
    ghost var hs := CatalogRuns.Only(q, broken);
    var done := 0;
    OnlyNothing(q, broken);
    for i := 0 to |q|
      invariant done == |CatalogRuns.Only(q[..i], broken)| <= saves && done <= |hs| && hs[..done] == CatalogRuns.Only(q[..i], broken)
      invariant stored == WithTombs(shapes, hs[..done])
    {
      assert q[i] in q;
      CatalogRuns.OnlyRound(q, broken, i);
      CatalogRuns.OnlyPrefix(q, broken, i + 1);
      if q[i] in broken {
        assert hs[..done + 1][..done] == hs[..done] && hs[done] == q[i];
        if done == saves {
          return false, stored;
        }
        stored := stored[q[i] := AsStored(Decoded(shapes[q[i]], true))];
        done := done + 1;
      }
    }
    assert q[..|q|] == q;
    assert hs[..done] == hs;
    ok := true;
  }

  lemma OnlyNothing(q: seq<string>, s: set<string>)
    ensures CatalogRuns.Only(q[..0], s) == []
  {
    assert q[..0] == [];
  }

  /** NewManager: when all tombstones are saved, the rebuilt manager; when a save fails, no manager, and a store in which
      only the earlier ones are tombstones. */
  method NewManager(shapes: map<string, Shape>, broken: set<string>, saves: nat) returns (m: Manager?, stored: map<string, Shape>)
    requires forall h | h in shapes :: shapes[h].handle == h && AsStored(shapes[h]) == shapes[h]
    ensures var hs := Sorted(shapes.Keys * broken);
      if |hs| <= saves then m != null && fresh(m) && m.Valid() && m.View() == Rebuilt(shapes, broken) && stored == WithTombs(shapes, hs)
      else m == null && stored == WithTombs(shapes, hs[..saves])
  {
    hide AsStored, Rebuilt, Sorted, WithTombs, CatalogRuns.Only;
    CatalogRuns.OnlySorted(shapes.Keys, broken);
    var ok;
    ok, stored := SaveTombs(Sorted(shapes.Keys), shapes, broken, saves);
    if ok {
      m := new Manager.Load(shapes, broken);
    } else {
      m := null;
    }
  }
}
