/** The shape catalogue as a value: the handle table, its two indexes, the registered waiters and
    the stored copies; and its invariants over every run. States what the methods of Manager in
    internal/shapes/manager.go do. */
module Catalog {
  import opened Strings
  import opened Offsets
  import opened Keys
  import opened Diff
  import opened ShapeLog
  import opened Canonical

  /** A goroutine blocked in WaitForChange: the shape and the offset it waits at. */
  datatype Waiter = Waiter(handle: string, offset: string)

  type Buckets = map<string, set<string>>

  /** Registered waiters by channel. */
  type WaitTable = map<nat, Waiter>

  datatype Catalog = Catalog(byHandle: map<string, Shape>, byHash: map<Definition, string>, byRelation: Buckets,
                             generation: nat, waiters: WaitTable, closed: set<nat>, store: map<string, Shape>)

  function RelKey(r: Relation): string { r.schema + "." + r.table }

  predicate Live(c: Catalog, h: string) { h in c.byHandle && !c.byHandle[h].deleted }

  function KeyOf(c: Catalog, h: string): string
    requires h in c.byHandle
  {
    RelKey(c.byHandle[h].def.relation)
  }

  // ---- what is stored ----

  function StripAll(ms: seq<Message>): (r: seq<Message>)
    ensures |r| == |ms|
    ensures forall i | 0 <= i < |ms| :: r[i] == ms[i].(internalKey := "")
  {
    seq(|ms|, i requires 0 <= i < |ms| => ms[i].(internalKey := ""))
  }

  function StripSnapshot(ms: seq<Message>): (r: seq<Message>)
    ensures |r| == |ms|
    ensures forall i | 0 <= i < |ms| :: r[i] == ms[i].(internalKey := "", offset := "")
  {
    seq(|ms|, i requires 0 <= i < |ms| => ms[i].(internalKey := "", offset := ""))
  }

  /** The stored form of a shape: messages lose their internal keys, snapshot messages also their
      offsets. */
  function AsStored(s: Shape): Shape
  {
    s.(changes := StripAll(s.changes), snapshot := StripSnapshot(s.snapshot))
  }

  lemma AsStoredTwice(s: Shape)
    ensures AsStored(AsStored(s)) == AsStored(s)
  {
    assert StripAll(StripAll(s.changes)) == StripAll(s.changes);
    assert StripSnapshot(StripSnapshot(s.snapshot)) == StripSnapshot(s.snapshot);
  }

  // ---- invariants ----

  /** What the indexes see of a shape. */
  datatype Entry = Entry(live: bool, hash: Definition, key: string)

  type Table = map<string, Entry>

  function EntryOf(s: Shape): Entry { Entry(!s.deleted, s.hash, RelKey(s.def.relation)) }

  function TableOf(byHandle: map<string, Shape>): Table
  {
    map h | h in byHandle :: EntryOf(byHandle[h])
  }

  /** byHash maps exactly the live shapes by their digests, one each. */
  ghost predicate HashOk(t: Table, byHash: map<Definition, string>)
  {
    (forall d | d in byHash :: byHash[d] in t && t[byHash[d]].live && t[byHash[d]].hash == d) &&
    (forall h | h in t && t[h].live :: t[h].hash in byHash && byHash[t[h].hash] == h)
  }

  /** byRelation is exactly the live shapes by relation key, without empty buckets. */
  ghost predicate RelOk(t: Table, b: Buckets)
  {
    (forall h | h in t && t[h].live :: t[h].key in b && h in b[t[h].key]) &&
    (forall k | k in b :: b[k] != {}) &&
    (forall k, h | k in b && h in b[k] :: h in t && t[h].live && t[h].key == k)
  }

  ghost predicate NamesOk(byHandle: map<string, Shape>)
  {
    forall h | h in byHandle :: byHandle[h].handle == h && (!byHandle[h].deleted ==> byHandle[h].hash == Canonicalize(byHandle[h].def))
  }

  ghost predicate IndexOk(c: Catalog)
  {
    NamesOk(c.byHandle) && HashOk(TableOf(c.byHandle), c.byHash) && RelOk(TableOf(c.byHandle), c.byRelation)
  }

  /** The shape is live and has nothing to deliver at the offset. */
  ghost predicate NothingAt(s: Shape, offset: string)
  {
    !s.deleted && ReadLog(s, offset) == Messages([])
  }

  /** Every registered waiter's shape is live and has nothing to deliver at its offset, and its
      channel is open. */
  ghost predicate WaitOk(byHandle: map<string, Shape>, waiters: WaitTable, closed: set<nat>)
  {
    waiters.Keys !! closed &&
    forall id | id in waiters :: waiters[id].handle in byHandle && NothingAt(byHandle[waiters[id].handle], waiters[id].offset)
  }

  /** The stored copy is the shape itself or its tombstone. */
  ghost predicate CopyOf(s: Shape, stored: Shape)
  {
    stored == AsStored(s) || stored == AsStored(s).(deleted := true)
  }

  ghost predicate StoreOk(byHandle: map<string, Shape>, store: map<string, Shape>)
  {
    store.Keys == byHandle.Keys && forall h | h in byHandle :: CopyOf(byHandle[h], store[h])
  }

  ghost predicate Ok(c: Catalog)
  {
    IndexOk(c) && WaitOk(c.byHandle, c.waiters, c.closed) && StoreOk(c.byHandle, c.store)
  }

  // ---- operations ----

  function WaitersOf(w: WaitTable, h: string): set<nat>
  {
    set id | id in w && w[id].handle == h
  }

  /** notifyLocked: closes and unregisters every waiter of a handle. */
  function Notified(c: Catalog, h: string): Catalog
  {
    var ids := WaitersOf(c.waiters, h);
    c.(waiters := c.waiters - ids, closed := c.closed + ids)
  }

  function Added(b: Buckets, key: string, h: string): Buckets
  {
    b[key := (if key in b then b[key] else {}) + {h}]
  }

  function Removed(b: Buckets, key: string, h: string): Buckets
  {
    if key !in b || b[key] == {} then b
    else if b[key] - {h} == {} then b - {key}
    else b[key := b[key] - {h}]
  }

  /** A live shape takes a new state under the same identity. */
  function Replaced(c: Catalog, t: Shape, wake: bool): Catalog
  {
    var c1 := c.(byHandle := c.byHandle[t.handle := t], store := c.store[t.handle := AsStored(t)]);
    if wake then Notified(c1, t.handle) else c1
  }

  function Created(c: Catalog, s: Shape): Catalog
  {
    c.(byHandle := c.byHandle[s.handle := s], byHash := c.byHash[s.hash := s.handle],
       byRelation := Added(c.byRelation, RelKey(s.def.relation), s.handle),
       generation := s.generation, store := c.store[s.handle := AsStored(s)])
  }

  /** Delete, once its tombstone is saved. The digest entry is dropped whether or not it is this
      handle's. */
  function Killed(c: Catalog, h: string): Catalog
    requires h in c.byHandle
  {
    var t := c.byHandle[h].(deleted := true);
    Notified(c.(byHandle := c.byHandle[h := t], byHash := c.byHash - {t.hash},
                byRelation := Removed(c.byRelation, RelKey(t.def.relation), h),
                store := c.store[h := AsStored(t)]), h)
  }

  function KilledAll(c: Catalog, hs: seq<string>): Catalog
    decreases |hs|
  {
    if hs == [] then c
    else if hs[0] in c.byHandle then KilledAll(Killed(c, hs[0]), hs[1..])
    else KilledAll(c, hs[1..])
  }

  /** Only the stored copies become tombstones: a failed InvalidateByRelation. */
  function StoreTombs(c: Catalog, hs: seq<string>): Catalog
    decreases |hs|
  {
    if hs == [] then c
    else if hs[0] in c.byHandle then
      StoreTombs(c.(store := c.store[hs[0] := AsStored(c.byHandle[hs[0]]).(deleted := true)]), hs[1..])
    else StoreTombs(c, hs[1..])
  }

  /** The locked half of WaitForChange, when there is nothing to deliver. */
  function Registered(c: Catalog, id: nat, w: Waiter): Catalog
  {
    c.(waiters := c.waiters[id := w])
  }

  /** removeWaiter: a timed-out waiter leaves, if it is still registered. */
  function TimedOut(c: Catalog, id: nat): Catalog
  {
    c.(waiters := c.waiters - {id})
  }

  // ---- the indexes answer what a scan of the table would ----

  function LiveHandles(c: Catalog): set<string>
  {
    set h | h in c.byHandle && !c.byHandle[h].deleted
  }

  function RelationHandles(c: Catalog, r: Relation): set<string>
  {
    if RelKey(r) in c.byRelation then c.byRelation[RelKey(r)] else {}
  }

  /** ActiveByRelation is the filter of ActiveStates by relation key. */
  lemma RelationIndexIsScan(c: Catalog, r: Relation)
    requires IndexOk(c)
    ensures RelationHandles(c, r) == set h | h in LiveHandles(c) && KeyOf(c, h) == RelKey(r)
  {
    hide NamesOk, HashOk, RelKey;
    var t := TableOf(c.byHandle);
    forall h | h in LiveHandles(c) && KeyOf(c, h) == RelKey(r) ensures h in RelationHandles(c, r) {
      assert t[h].live;
    }
    forall h | h in RelationHandles(c, r) ensures h in LiveHandles(c) && KeyOf(c, h) == RelKey(r) {
      assert h in t && t[h].live;
    }
  }

  /** A definition, up to the order of its columns, has at most one live shape, and byHash finds it. */
  lemma OneLiveShapePerDefinition(c: Catalog, h: string, g: string)
    requires IndexOk(c) && Live(c, h) && Live(c, g)
    requires c.byHandle[h].def.(columns := []) == c.byHandle[g].def.(columns := [])
    requires multiset(c.byHandle[h].def.columns) == multiset(c.byHandle[g].def.columns)
    ensures h == g
    ensures Canonicalize(c.byHandle[h].def) in c.byHash && c.byHash[Canonicalize(c.byHandle[h].def)] == h
  {
    SameShapeIff(c.byHandle[h].def, c.byHandle[g].def);
    hide RelOk, Canonicalize;
    var t := TableOf(c.byHandle);
    assert t[h].live && t[g].live;
  }

  // ---- index lemmas on entry tables ----

  lemma TableUpdate(byHandle: map<string, Shape>, s: Shape)
    ensures TableOf(byHandle[s.handle := s]) == TableOf(byHandle)[s.handle := EntryOf(s)]
  {
  }

  lemma HashKill(t: Table, byHash: map<Definition, string>, h: string, e: Entry)
    requires HashOk(t, byHash) && h in t && t[h].live && !e.live
    ensures HashOk(t[h := e], byHash - {t[h].hash})
  {
  }

  lemma RelKill(t: Table, b: Buckets, h: string, e: Entry)
    requires RelOk(t, b) && h in t && t[h].live && !e.live
    ensures RelOk(t[h := e], Removed(b, t[h].key, h))
  {
    var key, t', b' := t[h].key, t[h := e], Removed(b, t[h].key, h);
    forall g | g in t' && t'[g].live ensures t'[g].key in b' && g in b'[t'[g].key] {
      assert g in t && t[g].live;
      if t[g].key == key { assert g in b[key] - {h}; }
    }
  }

  lemma HashCreate(t: Table, byHash: map<Definition, string>, h: string, e: Entry)
    requires HashOk(t, byHash) && (h in t ==> !t[h].live) && e.live && e.hash !in byHash
    ensures HashOk(t[h := e], byHash[e.hash := h])
  {
  }

  lemma RelCreate(t: Table, b: Buckets, h: string, e: Entry)
    requires RelOk(t, b) && (h in t ==> !t[h].live) && e.live
    ensures RelOk(t[h := e], Added(b, e.key, h))
  {
  }

  // ---- deleting ----

  lemma KilledTable(c: Catalog, h: string)
    requires h in c.byHandle && c.byHandle[h].handle == h
    ensures TableOf(Killed(c, h).byHandle) == TableOf(c.byHandle)[h := EntryOf(c.byHandle[h]).(live := false)]
    ensures Killed(c, h).byHash == c.byHash - {c.byHandle[h].hash}
    ensures Killed(c, h).byRelation == Removed(c.byRelation, KeyOf(c, h), h)
  {
    hide Removed, AsStored;
    TableUpdate(c.byHandle, c.byHandle[h].(deleted := true));
  }

  lemma KilledNames(c: Catalog, h: string)
    requires NamesOk(c.byHandle) && h in c.byHandle
    ensures NamesOk(Killed(c, h).byHandle)
  {
    hide Removed, AsStored, Canonicalize;
  }

  lemma LiveKillIndex(c: Catalog, h: string)
    requires IndexOk(c) && Live(c, h)
    ensures IndexOk(Killed(c, h))
  {
    KilledNames(c, h);
    hide Removed, HashOk, RelOk, Killed;
    KilledTable(c, h);
    var t, e := TableOf(c.byHandle), EntryOf(c.byHandle[h]).(live := false);
    HashKill(t, c.byHash, h, e);
    RelKill(t, c.byRelation, h, e);
  }

  lemma DeadKillIndex(c: Catalog, h: string)
    requires IndexOk(c) && h in c.byHandle && !Live(c, h) && c.byHandle[h].hash !in c.byHash
    ensures IndexOk(Killed(c, h))
  {
    KilledNames(c, h);
    hide Killed, NamesOk, HashOk, RelOk, Removed, RelKey, Canonicalize;
    KilledTable(c, h);
    var t := TableOf(c.byHandle);
    assert t[h := EntryOf(c.byHandle[h]).(live := false)] == t;
    assert c.byHash - {c.byHandle[h].hash} == c.byHash;
    DeadNotListed(t, c.byRelation, h, KeyOf(c, h));
  }

  lemma DeadNotListed(t: Table, b: Buckets, h: string, key: string)
    requires RelOk(t, b) && h in t && !t[h].live
    ensures Removed(b, key, h) == b
  {
    if key in b {
      assert h !in b[key];
      assert b[key] - {h} == b[key];
    }
  }

  lemma OrphanedReplacement(c: Catalog, h: string)
    requires IndexOk(c) && h in c.byHandle && !Live(c, h) && c.byHandle[h].hash in c.byHash
    ensures !IndexOk(Killed(c, h))
  {
    hide Killed, RelOk;
    KilledTable(c, h);
    var g := c.byHash[c.byHandle[h].hash];
    var t := TableOf(Killed(c, h).byHandle);
    assert g in TableOf(c.byHandle) && TableOf(c.byHandle)[g].live;
    assert g in t && t[g].live && t[g].hash !in Killed(c, h).byHash;
  }

  /** Deleting keeps the indexes exact exactly when the handle is live or no live shape has its
      definition: deleting an old tombstone orphans its replacement. */
  lemma DeleteKeepsIndexIff(c: Catalog, h: string)
    requires IndexOk(c) && h in c.byHandle
    ensures IndexOk(Killed(c, h)) <==> Live(c, h) || c.byHandle[h].hash !in c.byHash
  {
    hide IndexOk, Killed;
    if Live(c, h) {
      LiveKillIndex(c, h);
    } else if c.byHandle[h].hash !in c.byHash {
      DeadKillIndex(c, h);
    } else {
      OrphanedReplacement(c, h);
    }
  }

  // ---- waiters ----

  /** A shape may change in any way once its waiters are notified. */
  lemma ChangedWait(c: Catalog, s: Shape)
    requires WaitOk(c.byHandle, c.waiters, c.closed)
    ensures var d := Notified(c, s.handle); WaitOk(c.byHandle[s.handle := s], d.waiters, d.closed)
  {
    hide NothingAt;
  }

  // ---- the stored copies ----

  lemma AsStoredDeleted(s: Shape)
    ensures AsStored(s.(deleted := true)) == AsStored(s).(deleted := true)
  {
  }

  lemma StoreBoth(byHandle: map<string, Shape>, store: map<string, Shape>, s: Shape)
    requires StoreOk(byHandle, store)
    ensures StoreOk(byHandle[s.handle := s], store[s.handle := AsStored(s)])
  {
    hide AsStored;
  }

  // ---- each operation keeps all invariants ----

  lemma KillOk(c: Catalog, h: string)
    requires Ok(c) && h in c.byHandle && (Live(c, h) || c.byHandle[h].hash !in c.byHash)
    ensures Ok(Killed(c, h))
  {
    DeleteKeepsIndexIff(c, h);
    hide IndexOk, Removed, AsStored, StoreOk, WaitOk;
    var s := c.byHandle[h].(deleted := true);
    KilledName(c, h);
    ChangedWait(c, s);
    StoreBoth(c.byHandle, c.store, s);
  }

  lemma KilledName(c: Catalog, h: string)
    requires IndexOk(c) && h in c.byHandle
    ensures c.byHandle[h].handle == h
  {
  }

  /** What may replace a live shape: same handle, digest and relation key, still live, and without a
      wake-up also the same log. */
  ghost predicate MayReplace(c: Catalog, t: Shape, wake: bool)
  {
    Live(c, t.handle) &&
    var s := c.byHandle[t.handle];
    !t.deleted && t.hash == s.hash == Canonicalize(t.def) && RelKey(t.def.relation) == RelKey(s.def.relation) &&
    (!wake ==> t.changes == s.changes && t.offset == s.offset)
  }

  lemma ReplaceIndex(c: Catalog, t: Shape)
    requires IndexOk(c) && MayReplace(c, t, true)
    ensures IndexOk(c.(byHandle := c.byHandle[t.handle := t]))
  {
    hide Canonicalize, RelKey, HashOk, RelOk;
    TableUpdate(c.byHandle, t);
    assert TableOf(c.byHandle)[t.handle := EntryOf(t)] == TableOf(c.byHandle);
  }

  lemma SameLogWait(c: Catalog, t: Shape)
    requires WaitOk(c.byHandle, c.waiters, c.closed) && t.handle in c.byHandle && !t.deleted
    requires t.changes == c.byHandle[t.handle].changes && t.offset == c.byHandle[t.handle].offset
    ensures WaitOk(c.byHandle[t.handle := t], c.waiters, c.closed)
  {
    assert forall o :: NothingAt(c.byHandle[t.handle], o) ==> NothingAt(t, o);
    hide NothingAt;
  }

  lemma ReplaceOk(c: Catalog, t: Shape, wake: bool)
    requires Ok(c) && MayReplace(c, t, wake)
    ensures Ok(Replaced(c, t, wake))
  {
    ReplaceIndex(c, t);
    StoreBoth(c.byHandle, c.store, t);
    hide AsStored, Canonicalize, RelKey, StoreOk, WaitOk, NamesOk, HashOk, RelOk;
    if wake {
      ChangedWait(c, t);
    } else {
      SameLogWait(c, t);
    }
  }

  lemma CreateIndex(c: Catalog, s: Shape)
    requires IndexOk(c) && !Live(c, s.handle) && !s.deleted && s.hash == Canonicalize(s.def) && s.hash !in c.byHash
    ensures IndexOk(Created(c, s))
  {
    assert NamesOk(c.byHandle[s.handle := s]) by { hide Canonicalize; }
    hide Canonicalize, RelKey, HashOk, RelOk, NamesOk, AsStored, Added;
    TableUpdate(c.byHandle, s);
    HashCreate(TableOf(c.byHandle), c.byHash, s.handle, EntryOf(s));
    RelCreate(TableOf(c.byHandle), c.byRelation, s.handle, EntryOf(s));
  }

  /** A new shape keeps the indexes exact exactly when its handle, a digest prefix and a clock reading,
      is not the handle of a live shape. */
  lemma CreateKeepsIndexIff(c: Catalog, s: Shape)
    requires IndexOk(c) && !s.deleted && s.hash == Canonicalize(s.def) && s.hash !in c.byHash
    ensures IndexOk(Created(c, s)) <==> !Live(c, s.handle)
  {
    if Live(c, s.handle) {
      hide Canonicalize, RelKey, RelOk, NamesOk, AsStored, Added;
      var d, t := c.byHandle[s.handle].hash, TableOf(Created(c, s).byHandle);
      assert TableOf(c.byHandle)[s.handle].live;
      assert d in Created(c, s).byHash && Created(c, s).byHash[d] == s.handle && t[s.handle].hash != d;
    } else {
      CreateIndex(c, s);
    }
  }

  /** Nobody waits on a shape that is not live. */
  lemma DeadWait(c: Catalog, s: Shape)
    requires WaitOk(c.byHandle, c.waiters, c.closed) && !Live(c, s.handle)
    ensures WaitOk(c.byHandle[s.handle := s], c.waiters, c.closed)
  {
    assert forall t, o :: NothingAt(t, o) ==> !t.deleted;
    hide NothingAt;
  }

  lemma CreateOk(c: Catalog, s: Shape)
    requires Ok(c) && !Live(c, s.handle) && !s.deleted && s.hash == Canonicalize(s.def) && s.hash !in c.byHash
    ensures Ok(Created(c, s))
  {
    CreateIndex(c, s);
    StoreBoth(c.byHandle, c.store, s);
    DeadWait(c, s);
    hide IndexOk, AsStored, StoreOk, WaitOk, Added, Canonicalize;
  }

  lemma KillKeepsOthers(c: Catalog, h: string, g: string)
    requires h in c.byHandle && g != h
    ensures Live(Killed(c, h), g) <==> Live(c, g)
  {
    hide Removed, AsStored;
  }

  ghost predicate AllLive(c: Catalog, hs: seq<string>)
  {
    (forall i, j | 0 <= i < j < |hs| :: hs[i] != hs[j]) && forall i | 0 <= i < |hs| :: Live(c, hs[i])
  }

  lemma TailLive(c: Catalog, hs: seq<string>)
    requires hs != [] && AllLive(c, hs)
    ensures AllLive(Killed(c, hs[0]), hs[1..])
  {
    hide Killed;
    forall i | 0 <= i < |hs[1..]| ensures Live(Killed(c, hs[0]), hs[1..][i]) {
      assert hs[1..][i] == hs[i + 1];
      KillKeepsOthers(c, hs[0], hs[i + 1]);
    }
  }

  lemma {:induction false} KillAllOk(c: Catalog, hs: seq<string>)
    requires Ok(c) && AllLive(c, hs)
    ensures Ok(KilledAll(c, hs))
    decreases |hs|
  {
    if hs != [] {
      hide Ok, Killed;
      assert Live(c, hs[0]);
      KillOk(c, hs[0]);
      TailLive(c, hs);
      KillAllOk(Killed(c, hs[0]), hs[1..]);
    }
  }

  lemma StoreTombOk(c: Catalog, h: string)
    requires Ok(c) && h in c.byHandle
    ensures Ok(c.(store := c.store[h := AsStored(c.byHandle[h]).(deleted := true)]))
  {
    hide AsStored, HashOk, RelOk, NamesOk, WaitOk;
  }

  lemma {:induction false} StoreTombsOk(c: Catalog, hs: seq<string>)
    requires Ok(c)
    ensures Ok(StoreTombs(c, hs))
    ensures StoreTombs(c, hs) == c.(store := StoreTombs(c, hs).store)
    decreases |hs|
  {
    hide Ok, AsStored;
    if hs != [] {
      if hs[0] in c.byHandle {
        StoreTombOk(c, hs[0]);
        StoreTombsOk(c.(store := c.store[hs[0] := AsStored(c.byHandle[hs[0]]).(deleted := true)]), hs[1..]);
      } else {
        StoreTombsOk(c, hs[1..]);
      }
    }
  }

  lemma RegisterOk(c: Catalog, id: nat, w: Waiter)
    requires Ok(c) && id !in c.closed && w.handle in c.byHandle && NothingAt(c.byHandle[w.handle], w.offset)
    ensures Ok(Registered(c, id, w))
  {
    hide NamesOk, HashOk, RelOk, StoreOk, NothingAt;
  }

  lemma TimeoutOk(c: Catalog, id: nat)
    requires Ok(c)
    ensures Ok(TimedOut(c, id))
  {
    hide NamesOk, HashOk, RelOk, StoreOk, NothingAt;
  }

  // ---- rebuilding from the store ----

  const NO_DEFINITION := Definition(Relation("", ""), "", map[], [], "", "", None)

  /** A stored shape that does not decode becomes a tombstone. */
  function Decoded(s: Shape, broken: bool): Shape
  {
    if broken then Shape(s.handle, s.hash, NO_DEFINITION, map[], [], [], map[], s.offset, s.generation, true) else s
  }

  function Max(a: nat, b: nat): nat { if a < b then b else a }

  /** One round of loadPersisted. */
  function LoadedOne(c: Catalog, s: Shape): Catalog
  {
    var c1 := c.(byHandle := c.byHandle[s.handle := s], store := c.store[s.handle := AsStored(s)],
                 generation := Max(c.generation, s.generation));
    if s.deleted then c1
    else c1.(byHash := c.byHash[s.hash := s.handle], byRelation := Added(c.byRelation, RelKey(s.def.relation), s.handle))
  }

  function LoadedAll(store: map<string, Shape>, hs: seq<string>, broken: set<string>): Catalog
    requires forall h | h in hs :: h in store
  {
    if hs == [] then Catalog(map[], map[], map[], 0, map[], {}, map[])
    else
      var h := hs[|hs| - 1];
      LoadedOne(LoadedAll(store, hs[..|hs| - 1], broken), Decoded(store[h], h in broken))
  }

  /** NewManager on a store: loadPersisted in handle order. */
  function Rebuilt(store: map<string, Shape>, broken: set<string>): Catalog
  {
    LoadedAll(store, Sorted(store.Keys), broken)
  }

  /** What a store must be for a rebuild to give exact indexes. */
  ghost predicate Loadable(store: map<string, Shape>)
  {
    NamesOk(store) &&
    (forall h | h in store :: AsStored(store[h]) == store[h]) &&
    forall g, h | g in store && h in store && !store[g].deleted && !store[h].deleted && store[g].hash == store[h].hash :: g == h
  }

  /** The part of a rebuilt catalogue that covers the handles `hs`. */
  ghost predicate Covers(c: Catalog, store: map<string, Shape>, hs: seq<string>, broken: set<string>)
  {
    (forall h :: h in c.byHandle <==> h in hs) &&
    forall h | h in c.byHandle :: h in store && c.byHandle[h] == Decoded(store[h], h in broken)
  }

  lemma DeadAddIndex(c: Catalog, s: Shape)
    requires IndexOk(c) && s.handle !in c.byHandle && s.deleted
    ensures IndexOk(c.(byHandle := c.byHandle[s.handle := s]))
  {
    assert NamesOk(c.byHandle[s.handle := s]) by { hide Canonicalize; }
    hide Canonicalize, RelKey, HashOk, RelOk, NamesOk;
    TableUpdate(c.byHandle, s);
    DeadAddTable(TableOf(c.byHandle), c.byHash, c.byRelation, s.handle, EntryOf(s));
  }

  lemma DeadAddTable(t: Table, byHash: map<Definition, string>, b: Buckets, h: string, e: Entry)
    requires HashOk(t, byHash) && RelOk(t, b) && h !in t && !e.live
    ensures HashOk(t[h := e], byHash) && RelOk(t[h := e], b)
  {
  }

  lemma LoadOneOk(c: Catalog, s: Shape)
    requires Ok(c) && c.waiters == map[] && s.handle !in c.byHandle
    requires !s.deleted ==> s.hash == Canonicalize(s.def) && s.hash !in c.byHash
    ensures Ok(LoadedOne(c, s)) && LoadedOne(c, s).waiters == map[]
  {
    StoreBoth(c.byHandle, c.store, s);
    if s.deleted {
      DeadAddIndex(c, s);
    } else {
      CreateIndex(c, s);
    }
    hide AsStored, StoreOk, NamesOk, HashOk, RelOk, Added, Canonicalize, RelKey;
  }

  lemma LoadOneCovers(c: Catalog, store: map<string, Shape>, hs: seq<string>, h: string, broken: set<string>)
    requires Covers(c, store, hs, broken) && h in store && store[h].handle == h
    ensures Covers(LoadedOne(c, Decoded(store[h], h in broken)), store, hs + [h], broken)
  {
    hide AsStored, Added, RelKey;
  }

  lemma {:induction false} LoadAllOk(store: map<string, Shape>, hs: seq<string>, broken: set<string>)
    requires Loadable(store) && Ascending(hs) && forall h | h in hs :: h in store
    ensures Ok(LoadedAll(store, hs, broken)) && LoadedAll(store, hs, broken).waiters == map[]
    ensures Covers(LoadedAll(store, hs, broken), store, hs, broken)
  {
    hide Loadable, Ok, LoadedOne, Covers, Decoded, Less;
    if hs == [] {
      EmptyOk(store, broken);
    } else {
      var n := |hs| - 1;
      var h := hs[n];
      assert h in hs;
      LoadAllOk(store, hs[..n], broken);
      var c := LoadedAll(store, hs[..n], broken);
      OkIndex(c);
      NotLoadedYet(c, store, hs, n, broken);
      DecodedHandle(store[h], h in broken);
      LoadOneOk(c, Decoded(store[h], h in broken));
      LoadOneCovers(c, store, hs[..n], h, broken);
      assert hs == hs[..n] + [h];
    }
  }

  lemma EmptyOk(store: map<string, Shape>, broken: set<string>)
    ensures Ok(LoadedAll(store, [], broken)) && Covers(LoadedAll(store, [], broken), store, [], broken)
  {
    hide Canonicalize, NothingAt, CopyOf;
  }

  lemma OkIndex(c: Catalog)
    requires Ok(c)
    ensures IndexOk(c)
  {
  }

  lemma DecodedHandle(s: Shape, broken: bool)
    ensures Decoded(s, broken).handle == s.handle
  {
  }

  lemma NotLoadedYet(c: Catalog, store: map<string, Shape>, hs: seq<string>, n: nat, broken: set<string>)
    requires Loadable(store) && Ascending(hs) && n < |hs| && (forall h | h in hs :: h in store) && IndexOk(c)
    requires Covers(c, store, hs[..n], broken)
    ensures hs[n] in store && store[hs[n]].handle == hs[n] && hs[n] !in c.byHandle
    ensures var s := Decoded(store[hs[n]], hs[n] in broken);
      !s.deleted ==> s.hash == Canonicalize(s.def) && s.hash !in c.byHash
  {
    hide Canonicalize, RelOk, RelKey, Less, AsStored;
    var h := hs[n];
    assert h in hs;
    forall i | 0 <= i < n ensures hs[i] != h { assert Less(hs[i], hs[n]); LessIrreflexive(h); }
    assert h !in hs[..n];
    var s := Decoded(store[h], h in broken);
    var t := TableOf(c.byHandle);
    if !s.deleted {
      forall d | d in c.byHash ensures d != s.hash {
        var g := c.byHash[d];
        assert g in t && t[g].live;
        assert !store[g].deleted && store[g].hash == d && g != h;
      }
    }
  }

  lemma StoredTwice(c: Catalog, h: string)
    requires StoreOk(c.byHandle, c.store) && h in c.store
    ensures AsStored(c.store[h]) == c.store[h]
    ensures c.store[h].handle == c.byHandle[h].handle && c.store[h].hash == c.byHandle[h].hash && c.store[h].def == c.byHandle[h].def
    ensures !c.store[h].deleted ==> c.store[h] == AsStored(c.byHandle[h]) && !c.byHandle[h].deleted
  {
    assert CopyOf(c.byHandle[h], c.store[h]);
    AsStoredTwice(c.byHandle[h]);
    AsStoredDeleted(c.byHandle[h]);
    AsStoredTwice(c.byHandle[h].(deleted := true));
  }

  lemma StoreIsLoadable(c: Catalog)
    requires Ok(c)
    ensures Loadable(c.store)
  {
    hide AsStored, CopyOf, WaitOk, RelOk, Canonicalize, RelKey;
    forall h | h in c.store
      ensures h in c.byHandle && AsStored(c.store[h]) == c.store[h]
      ensures c.store[h].handle == c.byHandle[h].handle && c.store[h].hash == c.byHandle[h].hash && c.store[h].def == c.byHandle[h].def
      ensures !c.store[h].deleted ==> !c.byHandle[h].deleted
    {
      StoredTwice(c, h);
    }
    var t := TableOf(c.byHandle);
    forall g, h | g in c.store && h in c.store && !c.store[g].deleted && !c.store[h].deleted && c.store[g].hash == c.store[h].hash
      ensures g == h
    {
      assert t[g].live && t[h].live;
    }
  }

  /** Crash recovery: a manager rebuilt from the store at any point of a run, with any set of stored
      shapes failing to decode, satisfies all invariants. A shape is live in it exactly when it was live
      before, its copy decodes and its copy is not a tombstone; it then has the same rows, offset and log
      up to internal keys. */
  lemma CrashRecovery(c: Catalog, broken: set<string>, h: string)
    requires Ok(c)
    ensures Ok(Rebuilt(c.store, broken))
    ensures Live(Rebuilt(c.store, broken), h) <==> Live(c, h) && h !in broken && h in c.store && !c.store[h].deleted
    ensures Live(Rebuilt(c.store, broken), h) ==> Rebuilt(c.store, broken).byHandle[h] == AsStored(c.byHandle[h])
  {
    hide Ok, Loadable, AsStored, LoadedAll, CopyOf, Sorted;
    StoreIsLoadable(c);
    OkStore(c);
    LoadAllOk(c.store, Sorted(c.store.Keys), broken);
    if h in c.store { StoredTwice(c, h); }
  }

  lemma OkStore(c: Catalog)
    requires Ok(c)
    ensures StoreOk(c.byHandle, c.store)
  {
  }
}
