/** When a waiter is woken, exactly, over every run of the catalogue. */
module Wakeups {
  import opened Strings
  import opened Keys
  import opened Diff
  import opened ShapeLog
  import opened Canonical
  import opened Catalog
  import opened CatalogRuns

  /** The step gives a live shape a new epoch, appends to it, ends it or makes its log longer. */
  ghost predicate Wakes(c: Catalog, op: Op, h: string)
    requires Live(c, h) && forall d | d in c.byHash :: c.byHash[d] in c.byHandle
  {
    (op.OpUpsert? && Canonicalize(op.def) == c.byHandle[h].hash) || (op.OpAppend? && op.handle == h) || !Live(Do(c, op), h) ||
    |c.byHandle[h].changes| < |Do(c, op).byHandle[h].changes|
  }

  /** The waiter is registered under `h`, and its channel is open. */
  ghost predicate Waits(c: Catalog, id: nat, h: string)
  {
    id in c.waiters && c.waiters[id].handle == h && id !in c.closed
  }

  lemma WaitingOk(c: Catalog, id: nat)
    requires Ok(c) && id in c.waiters
    ensures id !in c.closed && Live(c, c.waiters[id].handle) && c.byHandle[c.waiters[id].handle].handle == c.waiters[id].handle
    ensures forall d | d in c.byHash :: c.byHash[d] in c.byHandle
  {
    OkValues(c);
    hide HashOk, RelOk, StoreOk, ReadLog, Canonicalize;
  }

  /** A wait registers exactly when the shape is live and has nothing for it, whatever else waits; and never twice. */
  lemma RegistersIff(c: Catalog, id: nat, w: Waiter)
    requires Ok(c) && Sound(c, OpWait(id, w))
    ensures Waits(Wait(c, id, w), id, w.handle) <==> Live(c, w.handle) && ReadLog(c.byHandle[w.handle], w.offset) == Messages([])
    ensures forall x | x != id :: (x in Wait(c, id, w).waiters <==> x in c.waiters)
    ensures forall x | x in c.waiters :: Wait(c, id, w).waiters[x] == c.waiters[x]
    ensures Wait(c, id, w) == c.(waiters := Wait(c, id, w).waiters)
  {
    hide Ok;
  }

  // ---- deleting many ----

  lemma {:induction false} KillAllWakes(c: Catalog, hs: seq<string>, id: nat, h: string)
    requires Waits(c, id, h) && (forall g | g in c.byHandle :: c.byHandle[g].handle == g) && h in c.byHandle
    ensures id in KilledAll(c, hs).closed <==> h in hs
    ensures h !in hs ==> Waits(KilledAll(c, hs), id, h)
    decreases |hs|
  {
    hide Removed, AsStored, RelKey;
    if hs != [] {
      assert hs == [hs[0]] + hs[1..];
      var d := if hs[0] in c.byHandle then Killed(c, hs[0]) else c;
      if hs[0] == h {
        StaysClosed(d, hs[1..], id);
      } else {
        KillAllWakes(d, hs[1..], id, h);
      }
    }
  }

  lemma {:induction false} StaysClosed(c: Catalog, hs: seq<string>, id: nat)
    requires id in c.closed
    ensures id in KilledAll(c, hs).closed
    decreases |hs|
  {
    hide Removed, AsStored, RelKey;
    if hs != [] { StaysClosed(if hs[0] in c.byHandle then Killed(c, hs[0]) else c, hs[1..], id); }
  }

  lemma {:induction false} KillAllLogs(c: Catalog, hs: seq<string>, h: string)
    requires (forall g | g in c.byHandle :: c.byHandle[g].handle == g) && h in c.byHandle
    ensures h in KilledAll(c, hs).byHandle && KilledAll(c, hs).byHandle[h].changes == c.byHandle[h].changes
    decreases |hs|
  {
    hide Removed, AsStored, RelKey;
    if hs != [] { KillAllLogs(if hs[0] in c.byHandle then Killed(c, hs[0]) else c, hs[1..], h); }
  }

  /** Deleting live shapes wakes exactly their waiters. */
  lemma KillAllExact(c: Catalog, hs: seq<string>, id: nat)
    requires Ok(c) && id in c.waiters
    ensures var h, d := c.waiters[id].handle, KilledAll(c, hs);
      h in c.byHandle && h in d.byHandle && (id in d.closed <==> !Live(d, h)) && d.byHandle[h].changes == c.byHandle[h].changes
  {
    WaitingOk(c, id);
    OkRelations(c);
    hide Ok, KilledAll, RelOk;
    var h := c.waiters[id].handle;
    KillAllWakes(c, hs, id, h);
    KillAllLogs(c, hs, h);
    KillAllEntry(c, hs, h);
  }

  lemma InvalidateExact(c: Catalog, r: Relation, saves: nat, id: nat)
    requires Ok(c) && id in c.waiters
    ensures var h, d := c.waiters[id].handle, InvalidateRelation(c, r, saves);
      h in c.byHandle && h in d.byHandle && (id in d.closed <==> !Live(d, h)) && d.byHandle[h].changes == c.byHandle[h].changes
  {
    WaitingOk(c, id);
    hide Ok, StoreTombs, ForgottenAll, KilledAll, RelationHandles, LiveIn;
    var hs := Sorted(LiveIn(c, RelationHandles(c, r)));
    if RelationHandles(c, r) != {} {
      if saves < |hs| {
        StoreTombsOnly(c, hs[..saves]);
      } else {
        InvalidateIsKillAll(c, r);
        StoreTombsOnly(c, hs);
        StoreTombsOk(c, hs);
        KillAllExact(StoreTombs(c, hs), hs, id);
      }
    }
  }

  // ---- refreshing ----

  lemma ExtendedGrows(s: Shape, schema: Schema, rows: Rows, messages: seq<Message>, meta: Metadata)
    ensures |Extended(s, schema, rows, messages, meta).changes| == |s.changes| + |messages|
  {
    hide Stamped;
  }

  /** A shape under the same handle, woken or not. */
  lemma ReplacedExact(c: Catalog, t: Shape, wake: bool, id: nat, h: string)
    requires Waits(c, id, h) && Live(c, t.handle) && !t.deleted && Live(c, h)
    ensures Live(Replaced(c, t, wake), h) && (id in Replaced(c, t, wake).closed <==> wake && t.handle == h)
    ensures Replaced(c, t, wake).byHandle[h] == if t.handle == h then t else c.byHandle[h]
  {
    hide AsStored;
  }

  lemma RefreshExact(c: Catalog, g: string, snap: Snapshot, meta: Metadata, id: nat)
    requires Ok(c) && id in c.waiters
    ensures var h, d := c.waiters[id].handle, Refresh(c, g, snap, meta);
      Live(c, h) && Live(d, h) && (id in d.closed <==> |c.byHandle[h].changes| < |d.byHandle[h].changes|)
  {
    WaitingOk(c, id);
    hide Ok, Extended, RefreshMessages, MaterializedRows, Replaced;
    if Live(c, g) {
      OkShape(c, g);
      var s := c.byHandle[g];
      ExtendedKeeps(s, snap.schema, MaterializedRows(snap.schema, snap.rows), RefreshMessages(s, snap, meta), meta);
      ExtendedGrows(s, snap.schema, MaterializedRows(snap.schema, snap.rows), RefreshMessages(s, snap, meta), meta);
      ReplacedExact(c, Refreshed(s, snap, meta), RefreshMessages(s, snap, meta) != [], id, c.waiters[id].handle);
    }
  }

  lemma RefreshKeysExact(c: Catalog, g: string, snap: Snapshot, keyRows: seq<Row>, meta: Metadata, id: nat)
    requires Ok(c) && id in c.waiters
    ensures var h, d := c.waiters[id].handle, RefreshKeys(c, g, snap, keyRows, meta);
      Live(c, h) && Live(d, h) && (id in d.closed <==> |c.byHandle[h].changes| < |d.byHandle[h].changes|)
  {
    WaitingOk(c, id);
    hide Ok, Extended, KeysMessages, MaterializedRows, Splice, TargetedKeys, Replaced;
    var keys := TargetedKeys(snap.schema, keyRows, snap.rows);
    if Live(c, g) && keys != {} {
      OkShape(c, g);
      var s := c.byHandle[g];
      var rows := Splice(s.rows, keys, MaterializedRows(snap.schema, snap.rows));
      ExtendedKeeps(s, snap.schema, rows, KeysMessages(s, snap, keys, meta), meta);
      ExtendedGrows(s, snap.schema, rows, KeysMessages(s, snap, keys, meta), meta);
      ReplacedExact(c, KeysRefreshed(s, snap, keyRows, meta), KeysMessages(s, snap, keys, meta) != [], id, c.waiters[id].handle);
    }
  }

  lemma AppendExact(c: Catalog, g: string, messages: seq<Message>, id: nat)
    requires Ok(c) && id in c.waiters
    ensures var h, d := c.waiters[id].handle, Append(c, g, messages);
      Live(c, h) && Live(d, h) && (id in d.closed <==> g == h) && (g != h ==> d.byHandle[h] == c.byHandle[h])
  {
    WaitingOk(c, id);
    hide Ok, Appended, Replaced;
    if Live(c, g) {
      OkShape(c, g);
      AppendedKeeps(c.byHandle[g], messages);
      ReplacedExact(c, Appended(c.byHandle[g], messages), true, id, c.waiters[id].handle);
    }
  }

  // ---- upserting and deleting ----

  lemma UpsertExact(c: Catalog, def: Definition, snap: Snapshot, offset: string, fresh_: string, id: nat)
    requires Ok(c) && id in c.waiters && Sound(c, OpUpsert(def, snap, offset, fresh_))
    ensures forall d | d in c.byHash :: c.byHash[d] in c.byHandle
    ensures var h, d := c.waiters[id].handle, Upsert(c, def, snap, offset, fresh_);
      Live(c, h) && Live(d, h) && (id in d.closed <==> Canonicalize(def) == c.byHandle[h].hash) &&
      (Canonicalize(def) != c.byHandle[h].hash ==> d.byHandle[h] == c.byHandle[h])
  {
    hide Ok, Canonicalize, AsStored, RelKey, Upserted, Added, Removed, Upsert, Replaced, Created, Sound;
    WaitingOk(c, id);
    var h, t := c.waiters[id].handle, UpsertedShape(c, def, snap, offset, fresh_);
    HashFinds(c, h, Canonicalize(def));
    UpsertIs(c, def, snap, offset, fresh_);
    if Canonicalize(def) in c.byHash {
      UpsertExisting(c, def, snap, offset, fresh_);
      ReplacedExact(c, t, true, id, h);
    } else {
      CreatedExact(c, t, id, h);
    }
  }

  lemma UpsertIs(c: Catalog, def: Definition, snap: Snapshot, offset: string, fresh_: string)
    requires Sound(c, OpUpsert(def, snap, offset, fresh_)) && forall d | d in c.byHash :: c.byHash[d] in c.byHandle
    ensures var t := UpsertedShape(c, def, snap, offset, fresh_);
      !t.deleted && (if Canonicalize(def) in c.byHash then t.handle == c.byHandle[c.byHash[Canonicalize(def)]].handle
      else t.handle == fresh_ && !Live(c, fresh_) && Upsert(c, def, snap, offset, fresh_) == Created(c, t))
  {
    hide Canonicalize, AsStored, RelKey, MaterializedRows, SnapshotMessages, Added, Removed, Created;
  }

  lemma CreatedExact(c: Catalog, t: Shape, id: nat, h: string)
    requires Waits(c, id, h) && Live(c, h) && !Live(c, t.handle) && !t.deleted
    ensures Live(Created(c, t), h) && id !in Created(c, t).closed && Created(c, t).byHandle[h] == c.byHandle[h]
  {
    hide AsStored, RelKey, Added;
  }

  lemma HashFinds(c: Catalog, h: string, hash: Definition)
    requires Ok(c) && Live(c, h)
    ensures hash == c.byHandle[h].hash <==> hash in c.byHash && c.byHash[hash] == h
    ensures hash in c.byHash ==> Live(c, c.byHash[hash]) && c.byHandle[c.byHash[hash]].handle == c.byHash[hash]
  {
    hide RelOk, WaitOk, StoreOk, Canonicalize, RelKey;
    var t := TableOf(c.byHandle);
    assert t[h].live;
    if hash in c.byHash { assert t[c.byHash[hash]].live; }
  }

  lemma DeleteExact(c: Catalog, g: string, id: nat)
    requires Ok(c) && id in c.waiters && g in c.byHandle
    ensures var h, d := c.waiters[id].handle, Killed(c, g);
      h in d.byHandle && h in c.byHandle && (id in d.closed <==> !Live(d, h)) && d.byHandle[h].changes == c.byHandle[h].changes
  {
    WaitingOk(c, id);
    hide Ok, Removed, AsStored, RelKey;
  }

  // ---- steps and runs ----

  /** What a step must do to a waiter, given that it is forced to wake it or not. */
  ghost predicate WokenAs(c: Catalog, d: Catalog, id: nat, forced: bool)
    requires id in c.waiters && Live(c, c.waiters[id].handle)
  {
    var h := c.waiters[id].handle;
    id in d.closed <==> forced || !Live(d, h) || |c.byHandle[h].changes| < |d.byHandle[h].changes|
  }

  lemma QuietStep(c: Catalog, op: Op, id: nat)
    requires Ok(c) && id in c.waiters && (op.OpWait? || op.OpTimeout? || op.OpFailedSave?)
    requires forall d | d in c.byHash :: c.byHash[d] in c.byHandle
    ensures Live(c, c.waiters[id].handle) && WokenAs(c, Do(c, op), id, false)
  {
    hide Ok, ReadLog, Upsert, InvalidateRelation, InvalidateAll, Append, Refresh, RefreshKeys, Rebuilt, Killed, Canonicalize;
    WaitingOk(c, id);
  }

  lemma DropStep(c: Catalog, op: Op, id: nat)
    requires Ok(c) && id in c.waiters && (op.OpDelete? || op.OpInvalidateRelation? || op.OpInvalidateAll?)
    requires forall d | d in c.byHash :: c.byHash[d] in c.byHandle
    ensures Live(c, c.waiters[id].handle) && WokenAs(c, Do(c, op), id, false)
  {
    hide Ok, InvalidateRelation, KilledAll, Killed, SavedHandles;
    WaitingOk(c, id);
    match op
    case OpDelete(h) => if h in c.byHandle { DeleteExact(c, h, id); }
    case OpInvalidateRelation(r, saves) => InvalidateExact(c, r, saves, id);
    case OpInvalidateAll(saves) => KillAllExact(c, SavedHandles(c, saves), id);
  }

  lemma GrowStep(c: Catalog, op: Op, id: nat)
    requires Ok(c) && id in c.waiters && (op.OpAppend? || op.OpRefresh? || op.OpRefreshKeys?)
    requires forall d | d in c.byHash :: c.byHash[d] in c.byHandle
    ensures Live(c, c.waiters[id].handle) && WokenAs(c, Do(c, op), id, op.OpAppend? && op.handle == c.waiters[id].handle)
  {
    hide Ok, Append, Refresh, RefreshKeys;
    WaitingOk(c, id);
    match op
    case OpAppend(h, messages) => AppendExact(c, h, messages, id);
    case OpRefresh(h, snap, meta) => RefreshExact(c, h, snap, meta, id);
    case OpRefreshKeys(h, snap, keyRows, meta) => RefreshKeysExact(c, h, snap, keyRows, meta, id);
  }

  lemma UpsertStep(c: Catalog, op: Op, id: nat)
    requires Ok(c) && id in c.waiters && op.OpUpsert? && Sound(c, op)
    requires forall d | d in c.byHash :: c.byHash[d] in c.byHandle
    ensures Live(c, c.waiters[id].handle)
    ensures WokenAs(c, Do(c, op), id, Canonicalize(op.def) == c.byHandle[c.waiters[id].handle].hash)
  {
    hide Ok, Upsert, Canonicalize;
    WaitingOk(c, id);
    UpsertExact(c, op.def, op.snap, op.offset, op.handle, id);
  }

  /** A step wakes a waiter exactly when it gives its shape a new epoch, appends to it, ends it or lengthens its log. */
  lemma WokenIff(c: Catalog, op: Op, id: nat)
    requires Ok(c) && Sound(c, op) && id in c.waiters && !CatalogRuns.Ends(op, id)
    ensures Live(c, c.waiters[id].handle) && forall d | d in c.byHash :: c.byHash[d] in c.byHandle
    ensures id in Do(c, op).closed <==> Wakes(c, op, c.waiters[id].handle)
    ensures id in Do(c, op).closed || (id in Do(c, op).waiters && Do(c, op).waiters[id] == c.waiters[id])
  {
    hide Ok, Do, Sound, Canonicalize;
    WaitingOk(c, id);
    StepHolds(c, op, id, c.waiters[id]);
    if op.OpUpsert? {
      UpsertStep(c, op, id);
    } else if op.OpAppend? || op.OpRefresh? || op.OpRefreshKeys? {
      GrowStep(c, op, id);
    } else if op.OpDelete? || op.OpInvalidateRelation? || op.OpInvalidateAll? {
      DropStep(c, op, id);
    } else {
      QuietStep(c, op, id);
    }
  }

  /** Some step of the run wakes a waiter of the shape. */
  ghost predicate WokenIn(c: Catalog, ops: seq<Op>, h: string)
    requires SoundRun(c, ops)
    decreases |ops|
  {
    ops != [] && ((Live(c, h) && Wakes(c, ops[0], h)) || WokenIn(Do(c, ops[0]), ops[1..], h))
  }

  lemma {:induction false} ClosedStays(c: Catalog, ops: seq<Op>, id: nat)
    requires SoundRun(c, ops) && id in c.closed && forall i | 0 <= i < |ops| :: !CatalogRuns.Ends(ops[i], id)
    ensures id in Run(c, ops).closed
    decreases |ops|
  {
    hide Do, Sound;
    if ops != [] {
      ClosedStep(c, ops[0], id);
      ClosedStays(Do(c, ops[0]), ops[1..], id);
    }
  }

  lemma ClosedStep(c: Catalog, op: Op, id: nat)
    requires id in c.closed && !op.OpRestart? && forall d | d in c.byHash :: c.byHash[d] in c.byHandle
    ensures id in Do(c, op).closed
  {
    hide Removed, Added, AsStored, RelKey, KilledAll, InvalidateRelation, Canonicalize, UpsertedShape, Appended, Refreshed,
      KeysRefreshed, RefreshMessages, KeysMessages, TargetedKeys, ReadLog, Sorted, Rebuilt, SavedHandles;
    match op
    case OpInvalidateRelation(r, saves) => InvalidateCloses(c, r, saves, id);
    case OpInvalidateAll(saves) => StaysClosed(c, SavedHandles(c, saves), id);
    case _ =>
  }

  lemma InvalidateCloses(c: Catalog, r: Relation, saves: nat, id: nat)
    requires id in c.closed
    ensures id in InvalidateRelation(c, r, saves).closed
  {
    hide StoreTombs, ForgottenAll, RelationHandles, LiveIn;
    var hs := Sorted(LiveIn(c, RelationHandles(c, r)));
    StoreTombsOnly(c, hs);
    if saves < |hs| {
      StoreTombsOnly(c, hs[..saves]);
    } else {
      ForgetAllCloses(StoreTombs(c, hs), hs, id);
    }
  }

  lemma {:induction false} ForgetAllCloses(c: Catalog, hs: seq<string>, id: nat)
    requires id in c.closed
    ensures id in ForgottenAll(c, hs).closed
    decreases |hs|
  {
    if hs != [] { ForgetAllCloses(if hs[0] in c.byHandle then Forgotten(c, hs[0]) else c, hs[1..], id); }
  }

  /** No spurious wake-up and none lost: over any run, short of its own timeout and a restart, a waiter's channel is
      closed at the end exactly when some step gave its shape a new epoch, appended to it, ended it or lengthened its
      log. */
  lemma {:induction false} WokenExactly(c: Catalog, ops: seq<Op>, id: nat)
    requires Ok(c) && SoundRun(c, ops) && id in c.waiters && forall i | 0 <= i < |ops| :: !CatalogRuns.Ends(ops[i], id)
    ensures id in Run(c, ops).closed <==> WokenIn(c, ops, c.waiters[id].handle)
    decreases |ops|
  {
    hide Ok, Do, Sound, Wakes;
    WaitingOk(c, id);
    if ops != [] {
      WokenIff(c, ops[0], id);
      StepOk(c, ops[0]);
      if id in Do(c, ops[0]).closed {
        ClosedStays(Do(c, ops[0]), ops[1..], id);
      } else {
        WokenExactly(Do(c, ops[0]), ops[1..], id);
      }
    }
  }
}
