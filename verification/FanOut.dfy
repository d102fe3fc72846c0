/** Applying one committed transaction to the shapes: which shapes are refreshed, how, and how often.
    Models applyChangeBatch, refreshDependentShapesForRelation and candidateShapes of
    internal/pg/replication.go. Query results and store outcomes are inputs. */
module FanOut {
  import opened Strings
  import opened Keys
  import opened Diff
  import opened ShapeLog
  import opened Catalog
  import opened CatalogRuns
  import opened ChangeBatch
  import opened RefreshClass
  import opened Manager

  /** What a query returns and whether the save after it succeeds. */
  datatype Answer = Answered(snap: Snapshot, saved: bool) | Missing(saves: nat) | QueryFailed

  /** Answers by handle and relation id. */
  datatype Environment = Environment(byKeys: (string, nat) -> Answer, whole: (string, nat) -> Answer, drops: (string, nat) -> bool)

  // ---- runs that grow ----

  lemma {:induction false} RunNext(c: Catalog, ops: seq<Op>, op: Op)
    requires SoundRun(c, ops) && Ok(Run(c, ops)) && Sound(Run(c, ops), op)
    ensures SoundRun(c, ops + [op])
    ensures (forall d | d in Run(c, ops).byHash :: Run(c, ops).byHash[d] in Run(c, ops).byHandle) &&
            Run(c, ops + [op]) == Do(Run(c, ops), op)
    decreases |ops|
  {
    hide Do, Sound, Ok;
    if ops == [] {
      OkValues(c);
      assert ops + [op] == [op] && [op][1..] == [];
      assert SoundRun(Do(c, op), []);
    } else {
      assert (ops + [op])[1..] == ops[1..] + [op] && (ops + [op])[0] == ops[0];
      RunNext(Do(c, ops[0]), ops[1..], op);
    }
  }

  /** Steps that neither register nor restart: they only refresh or remove shapes. */
  predicate Refreshing(op: Op)
  {
    op.OpDelete? || op.OpInvalidateRelation? || op.OpRefresh? || op.OpRefreshKeys? || op.OpFailedSave?
  }

  /** Every live shape of `d` was live in `c` with the same definition. */
  ghost predicate Shrinks(c: Catalog, d: Catalog)
  {
    forall h | Live(d, h) :: Live(c, h) && d.byHandle[h].def == c.byHandle[h].def
  }

  lemma ShrinksTrans(a: Catalog, b: Catalog, c: Catalog)
    requires Shrinks(a, b) && Shrinks(b, c)
    ensures Shrinks(a, c)
  {
  }

  lemma KillShrinks(c: Catalog, h: string)
    requires h in c.byHandle
    ensures Shrinks(c, Killed(c, h)) && forall g | g != h && Live(c, g) :: Live(Killed(c, h), g)
    ensures c.byHandle[h].handle == h ==> !Live(Killed(c, h), h)
  {
    hide AsStored, Removed, RelKey, WaitersOf;
  }

  lemma {:induction false} ForgetShrinks(c: Catalog, hs: seq<string>)
    ensures Shrinks(c, ForgottenAll(c, hs))
    decreases |hs|
  {
    if hs != [] {
      hide WaitersOf;
      var d := if hs[0] in c.byHandle then Forgotten(c, hs[0]) else c;
      assert Shrinks(c, d);
      ForgetShrinks(d, hs[1..]);
      hide Forgotten, ForgottenAll, Shrinks;
      ShrinksTrans(c, d, ForgottenAll(d, hs[1..]));
      ForgottenStep(c, hs);
    }
  }

  lemma ForgottenStep(c: Catalog, hs: seq<string>)
    requires hs != []
    ensures ForgottenAll(c, hs) == ForgottenAll(if hs[0] in c.byHandle then Forgotten(c, hs[0]) else c, hs[1..])
  {
    hide Forgotten;
  }

  lemma ReplaceShrinks(c: Catalog, t: Shape, wake: bool)
    requires Live(c, t.handle) && t.def == c.byHandle[t.handle].def && !t.deleted
    ensures Shrinks(c, Replaced(c, t, wake)) && forall g | Live(c, g) :: Live(Replaced(c, t, wake), g)
  {
    hide AsStored, WaitersOf;
  }

  lemma InvalidateShrinks(c: Catalog, r: Relation, saves: nat)
    ensures Shrinks(c, InvalidateRelation(c, r, saves))
  {
    hide StoreTombs, ForgottenAll, RelationHandles, Sorted, RelKey;
    var hs := Sorted(LiveIn(c, RelationHandles(c, r)));
    StoreTombsOnly(c, hs);
    if saves < |hs| { StoreTombsOnly(c, hs[..saves]); }
    ForgetShrinks(StoreTombs(c, hs), hs);
  }

  lemma {:induction false} ForgetKeepsOthers(c: Catalog, hs: seq<string>, g: string)
    requires Live(c, g) && g !in hs
    ensures Live(ForgottenAll(c, hs), g)
    decreases |hs|
  {
    hide WaitersOf;
    if hs != [] {
      assert hs[0] in hs && forall h | h in hs[1..] :: h in hs;
      ForgetKeepsOthers(if hs[0] in c.byHandle then Forgotten(c, hs[0]) else c, hs[1..], g);
    }
  }

  /** Invalidating a relation leaves the shapes of other relations alone. */
  lemma InvalidateKeepsOthers(c: Catalog, r: Relation, saves: nat, g: string)
    requires Ok(c) && Live(c, g) && RelKey(c.byHandle[g].def.relation) != RelKey(r)
    ensures Live(InvalidateRelation(c, r, saves), g)
  {
    IndexAnswers(c, r);
    hide Ok, StoreTombs, ForgottenAll, RelationHandles, Sorted, RelKey, LiveIn;
    var hs := Sorted(LiveIn(c, RelationHandles(c, r)));
    assert g !in hs;
    StoreTombsOnly(c, hs);
    if saves < |hs| {
      StoreTombsOnly(c, hs[..saves]);
    } else {
      ForgetKeepsOthers(StoreTombs(c, hs), hs, g);
    }
  }

  /** What a refreshing step does to the set of live shapes. */
  lemma StepShrinks(c: Catalog, op: Op)
    requires Ok(c) && Refreshing(op) && forall d | d in c.byHash :: c.byHash[d] in c.byHandle
    ensures Shrinks(c, Do(c, op))
    ensures op.OpInvalidateRelation? ==>
      forall g | Live(c, g) && RelKey(c.byHandle[g].def.relation) != RelKey(op.relation) :: Live(Do(c, op), g)
    ensures op.OpFailedSave? ==> Do(c, op) == c
    ensures op.OpRefresh? || op.OpRefreshKeys? ==> forall g | Live(c, g) :: Live(Do(c, op), g)
    ensures op.OpDelete? ==> forall g | g != op.handle && Live(c, g) :: Live(Do(c, op), g)
    ensures op.OpDelete? ==> !Live(Do(c, op), op.handle)
  {
    hide Ok, Refresh, RefreshKeys, Killed, InvalidateRelation, RelKey;
    match op
    case OpDelete(h) =>
      if h in c.byHandle { OkNames(c); KillShrinks(c, h); }
    case OpInvalidateRelation(r, saves) =>
      InvalidateShrinks(c, r, saves);
      forall g | Live(c, g) && RelKey(c.byHandle[g].def.relation) != RelKey(r) ensures Live(InvalidateRelation(c, r, saves), g) {
        InvalidateKeepsOthers(c, r, saves, g);
      }
    case OpRefresh(h, snap, meta) => RefreshShrinks(c, h, snap, meta);
    case OpRefreshKeys(h, snap, keyRows, meta) => RefreshKeysShrinks(c, h, snap, keyRows, meta);
    case OpFailedSave =>
  }

  lemma RefreshShrinks(c: Catalog, h: string, snap: Snapshot, meta: Metadata)
    requires Ok(c)
    ensures Shrinks(c, Refresh(c, h, snap, meta)) && forall g | Live(c, g) :: Live(Refresh(c, h, snap, meta), g)
  {
    hide Ok, Replaced, Extended, RefreshMessages, MaterializedRows;
    if Live(c, h) {
      OkShape(c, h);
      var s := c.byHandle[h];
      ExtendedKeeps(s, snap.schema, MaterializedRows(snap.schema, snap.rows), RefreshMessages(s, snap, meta), meta);
      ReplaceShrinks(c, Refreshed(s, snap, meta), RefreshMessages(s, snap, meta) != []);
    }
  }

  lemma RefreshKeysShrinks(c: Catalog, h: string, snap: Snapshot, keyRows: seq<Row>, meta: Metadata)
    requires Ok(c)
    ensures Shrinks(c, RefreshKeys(c, h, snap, keyRows, meta)) && forall g | Live(c, g) :: Live(RefreshKeys(c, h, snap, keyRows, meta), g)
  {
    hide Ok, Replaced, Extended, KeysMessages, MaterializedRows, TargetedKeys, Splice;
    var keys := TargetedKeys(snap.schema, keyRows, snap.rows);
    if Live(c, h) && keys != {} {
      OkShape(c, h);
      var s := c.byHandle[h];
      ExtendedKeeps(s, snap.schema, Splice(s.rows, keys, MaterializedRows(snap.schema, snap.rows)),
                    KeysMessages(s, snap, keys, meta), meta);
      ReplaceShrinks(c, KeysRefreshed(s, snap, keyRows, meta), KeysMessages(s, snap, keys, meta) != []);
    }
  }

  lemma OkNames(c: Catalog)
    requires Ok(c)
    ensures forall h | h in c.byHandle :: c.byHandle[h].handle == h
  {
    hide HashOk, RelOk, WaitOk, StoreOk, Canonical.Canonicalize;
  }

  // ---- a run in progress ----

  /** The catalogue `d` was reached from `c` by refreshing steps. */
  ghost predicate Reached(c: Catalog, ops: seq<Op>, d: Catalog)
  {
    Ok(c) && SoundRun(c, ops) && d == Run(c, ops) && Ok(d) && Shrinks(c, d)
  }

  lemma ReachNext(c: Catalog, ops: seq<Op>, d: Catalog, op: Op)
    requires Reached(c, ops, d) && Refreshing(op) && Sound(d, op)
    ensures forall x | x in d.byHash :: d.byHash[x] in d.byHandle
    ensures Reached(c, ops + [op], Do(d, op)) && Shrinks(d, Do(d, op))
    ensures op.OpRefresh? || op.OpRefreshKeys? ==> forall g | Live(d, g) :: Live(Do(d, op), g)
    ensures op.OpDelete? ==> forall g | g != op.handle && Live(d, g) :: Live(Do(d, op), g)
    ensures op.OpDelete? ==> !Live(Do(d, op), op.handle)
    ensures op.OpInvalidateRelation? ==>
      forall g | Live(d, g) && RelKey(d.byHandle[g].def.relation) != RelKey(op.relation) :: Live(Do(d, op), g)
  {
    hide Ok, SoundRun, Run, Do, Sound, Shrinks, Refreshing, RelKey;
    OkValues(d);
    RunNext(c, ops, op);
    StepOk(d, op);
    StepShrinks(d, op);
    ShrinksTrans(c, d, Do(d, op));
  }

  // ---- what has been done for a commit ----

  datatype Commit = Commit(lsn: nat, xid: nat)

  predicate OnRelation(def: Definition, meta: RelationMetadata)
  {
    RelKey(def.relation) == RelKey(meta.relation) || RelKey(def.relation) == RelKey(meta.root)
  }

  /** Every live targeted shape of the relation or of its root has had the rows of `keyRows` refreshed. */
  ghost predicate KeysDone(d: Catalog, ops: seq<Op>, id: nat, meta: RelationMetadata, keyRows: seq<Row>, commit: Commit, env: Environment)
  {
    forall h | Live(d, h) && Targeted(d.byHandle[h].def) && OnRelation(d.byHandle[h].def, meta) ::
      env.byKeys(h, id).Answered? &&
      OpRefreshKeys(h, env.byKeys(h, id).snap, keyRows, Metadata(meta.relation, commit.lsn, commit.xid, false)) in ops
  }

  /** The shape has been refreshed as a whole for the commit. */
  ghost predicate WasRefreshed(ops: seq<Op>, h: string)
  {
    exists i | 0 <= i < |ops| :: ops[i].OpRefresh? && ops[i].handle == h
  }

  /** Every live shape that depends on the relation can be refreshed and has been, as a whole. */
  ghost predicate WholeDone(d: Catalog, ops: seq<Op>, meta: RelationMetadata)
  {
    forall h | Live(d, h) && TriggeredBy(d.byHandle[h].def, meta.relation, meta.root) ::
      DependentRefresh(d.byHandle[h].def) && WasRefreshed(ops, h)
  }

  /** One relation of one commit, on a catalogue. */
  datatype Turn = Turn(start: Catalog, id: nat, meta: RelationMetadata, keyRows: seq<Row>, commit: Commit, env: Environment)

  /** The shape is live at the start and the relation triggers it. */
  ghost predicate Due(t: Turn, h: string)
  {
    Live(t.start, h) && TriggeredBy(t.start.byHandle[h].def, t.meta.relation, t.meta.root)
  }

  /** The shape is live at the start, refreshed by keys, and of the relation or of its root. */
  ghost predicate Candidate(t: Turn, h: string)
  {
    Live(t.start, h) && Targeted(t.start.byHandle[h].def) && OnRelation(t.start.byHandle[h].def, t.meta)
  }

  /** What the relation's changes can call for: a candidate is refreshed with the answer to its query, a triggered shape
      that supports it is refreshed as a whole with the answer to its own. A triggered shape is deleted only if it does
      not support that or its query found no table, and a table's shapes are dropped only if a query of one found none. */
  ghost predicate Justified(op: Op, t: Turn)
  {
    match op
    case OpRefreshKeys(h, snap, keyRows, data) =>
      Candidate(t, h) && t.env.byKeys(h, t.id).Answered? && snap == t.env.byKeys(h, t.id).snap && keyRows == t.keyRows &&
      data == Metadata(t.meta.relation, t.commit.lsn, t.commit.xid, false)
    case OpRefresh(h, snap, data) =>
      Due(t, h) && DependentRefresh(t.start.byHandle[h].def) && t.env.whole(h, t.id).Answered? &&
      snap == t.env.whole(h, t.id).snap && data == Metadata(t.meta.relation, t.commit.lsn, t.commit.xid, true)
    case OpDelete(h) => Due(t, h) && (!DependentRefresh(t.start.byHandle[h].def) || t.env.whole(h, t.id).Missing?)
    case OpInvalidateRelation(r, saves) =>
      exists h :: Candidate(t, h) && t.start.byHandle[h].def.relation == r && t.env.byKeys(h, t.id) == Missing(saves)
    case _ => false
  }

  /** The run has grown by operations that the relation's changes call for. */
  ghost predicate Adds(ops: seq<Op>, more: seq<Op>, t: Turn)
  {
    ops <= more && forall i | |ops| <= i < |more| :: Justified(more[i], t)
  }

  lemma AddsTrans(a: seq<Op>, b: seq<Op>, c: seq<Op>, t: Turn)
    requires Adds(a, b, t) && Adds(b, c, t)
    ensures Adds(a, c, t)
  {
    hide Justified;
    forall i | |a| <= i < |c| ensures Justified(c[i], t) {
      if i < |b| { assert c[i] == b[i]; }
    }
  }

  lemma AddsNothing(ops: seq<Op>, t: Turn)
    ensures Adds(ops, ops, t)
  {
  }

  lemma AddsOne(ops: seq<Op>, op: Op, t: Turn)
    requires Justified(op, t)
    ensures Adds(ops, ops + [op], t)
  {
    hide Justified;
  }

  lemma AddsPrefix(a: seq<Op>, b: seq<Op>, t: Turn)
    requires Adds(a, b, t)
    ensures a <= b
  {
  }

  /** The turn of relation `id` in a commit with the given changes. */
  ghost function TurnOf(start: Catalog, id: nat, changes: Changes, cache: map<nat, RelationMetadata>, commit: Commit,
                        env: Environment): Turn
    requires id in cache
  {
    Turn(start, id, cache[id], KeyRows(ChangesFor(changes, id, commit.lsn, commit.xid)), commit, env)
  }

  /** The relation is changed, with keys, and known. */
  ghost predicate HasTurn(id: nat, changes: Changes, cache: map<nat, RelationMetadata>, commit: Commit)
  {
    id in changes && id in cache && KeyRows(ChangesFor(changes, id, commit.lsn, commit.xid)) != []
  }

  ghost predicate JustifiedIn(op: Op, start: Catalog, changes: Changes, cache: map<nat, RelationMetadata>, commit: Commit,
                              env: Environment)
  {
    exists id :: HasTurn(id, changes, cache, commit) && Justified(op, TurnOf(start, id, changes, cache, commit, env))
  }

  /** Every operation of the run is one that the changes of some relation call for. */
  ghost predicate Genuine(ops: seq<Op>, start: Catalog, changes: Changes, cache: map<nat, RelationMetadata>, commit: Commit,
                          env: Environment)
  {
    forall i | 0 <= i < |ops| :: JustifiedIn(ops[i], start, changes, cache, commit, env)
  }

  lemma GenuineNext(a: seq<Op>, b: seq<Op>, id: nat, start: Catalog, changes: Changes, cache: map<nat, RelationMetadata>, commit: Commit,
                    env: Environment)
    requires Genuine(a, start, changes, cache, commit, env) && HasTurn(id, changes, cache, commit)
    requires Adds(a, b, TurnOf(start, id, changes, cache, commit, env))
    ensures Genuine(b, start, changes, cache, commit, env)
  {
    hide Justified, HasTurn, TurnOf;
    forall i | 0 <= i < |b| ensures JustifiedIn(b[i], start, changes, cache, commit, env) {
      if i < |a| { assert b[i] == a[i]; }
    }
  }

  /** Every query is answered and every save succeeds. */
  ghost predicate Healthy(env: Environment)
  {
    forall h, id :: env.byKeys(h, id).Answered? && env.byKeys(h, id).saved && env.whole(h, id).Answered? && env.whole(h, id).saved &&
                    env.drops(h, id)
  }

  /** A listed copy is of a shape that was live at the start, with the same definition. */
  ghost predicate Known(c: Catalog, state: Shape)
  {
    Live(c, state.handle) && c.byHandle[state.handle].def == state.def
  }

  lemma CopiesKnown(c0: Catalog, c: Catalog, states: seq<Shape>, i: nat)
    requires Shrinks(c0, c) && Copies(c, states) && i < |states|
    ensures Known(c0, states[i])
  {
  }

  ghost predicate OncePerShape(ops: seq<Op>)
  {
    forall i, j | 0 <= i < j < |ops| && ops[i].OpRefresh? && ops[j].OpRefresh? :: ops[i].handle != ops[j].handle
  }

  /** The run has grown, without refreshing any shape as a whole. */
  ghost predicate Extends(ops: seq<Op>, more: seq<Op>)
  {
    ops <= more && forall i | |ops| <= i < |more| :: !more[i].OpRefresh?
  }

  lemma KeysStayDone(d: Catalog, e: Catalog, ops: seq<Op>, more: seq<Op>, id: nat, meta: RelationMetadata, keyRows: seq<Row>,
                     commit: Commit,
                     env: Environment)
    requires KeysDone(d, ops, id, meta, keyRows, commit, env) && Shrinks(d, e) && ops <= more
    ensures KeysDone(e, more, id, meta, keyRows, commit, env)
  {
    hide Targeted, OnRelation;
    assert forall op | op in ops :: op in more by {
      forall op | op in ops ensures op in more { var i :| 0 <= i < |ops| && ops[i] == op; assert more[i] == op; }
    }
  }

  lemma StillRefreshed(ops: seq<Op>, more: seq<Op>, h: string)
    requires WasRefreshed(ops, h) && ops <= more
    ensures WasRefreshed(more, h)
  {
    var i :| 0 <= i < |ops| && ops[i].OpRefresh? && ops[i].handle == h;
    assert more[i] == ops[i];
  }

  lemma WholeStaysDone(d: Catalog, e: Catalog, ops: seq<Op>, more: seq<Op>, meta: RelationMetadata)
    requires WholeDone(d, ops, meta) && Shrinks(d, e) && ops <= more
    ensures WholeDone(e, more, meta)
  {
    hide TriggeredBy, WasRefreshed;
    hide DependentRefresh;
    forall h | Live(e, h) && TriggeredBy(e.byHandle[h].def, meta.relation, meta.root)
      ensures DependentRefresh(e.byHandle[h].def) && WasRefreshed(more, h)
    {
      StillRefreshed(ops, more, h);
    }
  }

  lemma OnceExtends(ops: seq<Op>, more: seq<Op>, h: string)
    requires Extends(ops, more)
    ensures OncePerShape(ops) ==> OncePerShape(more)
    ensures WasRefreshed(more, h) ==> WasRefreshed(ops, h)
  {
  }

  // ---- candidates ----

  lemma {:induction false} ShapesAtIs(byHandle: map<string, Shape>, hs: seq<string>)
    requires forall h | h in hs :: h in byHandle
    ensures |ShapesAt(byHandle, hs)| == |hs| && forall i | 0 <= i < |hs| :: ShapesAt(byHandle, hs)[i] == byHandle[hs[i]]
  {
    if hs != [] {
      var n := |hs| - 1;
      assert hs[n] in hs && forall h | h in hs[..n] :: h in hs;
      ShapesAtIs(byHandle, hs[..n]);
    }
  }

  /** Copies of live shapes, each once. */
  ghost predicate Copies(c: Catalog, states: seq<Shape>)
  {
    (forall i | 0 <= i < |states| :: Live(c, states[i].handle) && c.byHandle[states[i].handle] == states[i]) &&
    forall i, j | 0 <= i < j < |states| :: states[i].handle != states[j].handle
  }

  ghost predicate Lists(states: seq<Shape>, h: string)
  {
    exists i | 0 <= i < |states| :: states[i].handle == h
  }

  lemma SortedCopies(c: Catalog, s: set<string>)
    requires (forall h | h in c.byHandle :: c.byHandle[h].handle == h) && forall h | h in s :: Live(c, h)
    ensures Copies(c, ShapesAt(c.byHandle, Sorted(s))) && forall h | h in s :: Lists(ShapesAt(c.byHandle, Sorted(s)), h)
    ensures forall h | Lists(ShapesAt(c.byHandle, Sorted(s)), h) :: h in s
  {
    hide Less, Sorted;
    var hs := Sorted(s);
    ShapesAtIs(c.byHandle, hs);
    hide ShapesAt;
    var states := ShapesAt(c.byHandle, hs);
    forall i | 0 <= i < |states| ensures states[i].handle == hs[i] && hs[i] in s { assert hs[i] in hs; }
    forall i, j | 0 <= i < j < |states| ensures states[i].handle != states[j].handle {
      assert Less(hs[i], hs[j]);
      LessIrreflexive(hs[i]);
    }
    forall h | h in s ensures Lists(states, h) {
      assert h in hs;
      var i :| 0 <= i < |hs| && hs[i] == h;
      assert states[i].handle == h;
    }
  }

  lemma IndexAnswers(c: Catalog, r: Relation)
    requires Ok(c)
    ensures forall h :: h in LiveIn(c, RelationHandles(c, r)) <==> Live(c, h) && RelKey(c.byHandle[h].def.relation) == RelKey(r)
  {
    OkIndex(c);
    RelationIndexIsScan(c, r);
    hide Ok, IndexOk, RelKey, RelationHandles;
  }

  /** The shapes of the relation or of its root. */
  ghost function Candidates(c: Catalog, meta: RelationMetadata): set<string>
  {
    LiveIn(c, RelationHandles(c, meta.relation)) + LiveIn(c, RelationHandles(c, meta.root))
  }

  lemma CandidatesAre(c: Catalog, meta: RelationMetadata)
    requires Ok(c)
    ensures forall h :: h in Candidates(c, meta) <==> Live(c, h) && OnRelation(c.byHandle[h].def, meta)
  {
    hide Ok, RelationHandles, RelKey;
    IndexAnswers(c, meta.relation);
    IndexAnswers(c, meta.root);
    hide LiveIn;
  }

  /** `seen` holds copies of exactly the shapes `s`. */
  ghost predicate Noted(c: Catalog, seen: map<string, Shape>, s: set<string>)
  {
    seen.Keys == s && forall h | h in seen :: Live(c, h) && seen[h] == c.byHandle[h]
  }

  /** candidateShapes: the live shapes of the relation and of its partition root, each once, by handle. */
  method CandidateShapes(m: Manager, meta: RelationMetadata) returns (states: seq<Shape>)
    requires Ok(m.View())
    ensures Copies(m.View(), states)
    ensures forall h | Live(m.View(), h) && OnRelation(m.byHandle[h].def, meta) :: Lists(states, h)
    ensures forall i | 0 <= i < |states| :: OnRelation(states[i].def, meta)
  {
    hide Ok, RelationHandles, Sorted, ShapesAt, Lists, Copies, Noted, OnRelation, LiveIn, NoteAll;
    ghost var c := m.View();
    CandidatesAre(c, meta);
    NoneNoted(c);
    NotedNext(c, map[], meta.relation, {});
    var listed := m.ActiveByRelation(meta.relation);
    var seen := Note(listed, map[]);
    if meta.root != meta.relation {
      NotedNext(c, seen, meta.root, {} + LiveIn(c, RelationHandles(c, meta.relation)));
      listed := m.ActiveByRelation(meta.root);
      seen := Note(listed, seen);
    }
    NotedListed(c, seen, Candidates(c, meta));
    states := ListShapes(seen, Sorted(seen.Keys));
    forall i | 0 <= i < |states| ensures OnRelation(states[i].def, meta) { ListedCandidate(c, states, i, Candidates(c, meta)); }
  }

  lemma NoneNoted(c: Catalog)
    ensures Noted(c, map[], {})
  {
  }

  lemma NotedListed(c: Catalog, seen: map<string, Shape>, s: set<string>)
    requires Ok(c) && Noted(c, seen, s)
    ensures Copies(c, ShapesAt(seen, Sorted(seen.Keys))) && forall h | h in s :: Lists(ShapesAt(seen, Sorted(seen.Keys)), h)
    ensures forall h | Lists(ShapesAt(seen, Sorted(seen.Keys)), h) :: h in s
  {
    OkNames(c);
    hide Ok, Sorted, ShapesAt;
    SameShapes(seen, c.byHandle, Sorted(seen.Keys));
    SortedCopies(c, s);
    hide Copies, Lists;
  }

  lemma ListedCandidate(c: Catalog, states: seq<Shape>, i: nat, s: set<string>)
    requires Copies(c, states) && i < |states| && forall h | Lists(states, h) :: h in s
    ensures states[i].handle in s && Live(c, states[i].handle) && c.byHandle[states[i].handle].def == states[i].def
  {
    assert Lists(states, states[i].handle);
  }

  lemma {:induction false} SameShapes(a: map<string, Shape>, b: map<string, Shape>, hs: seq<string>)
    requires forall h | h in hs :: h in a && h in b && a[h] == b[h]
    ensures ShapesAt(a, hs) == ShapesAt(b, hs)
  {
    if hs != [] {
      assert hs[|hs| - 1] in hs && forall h | h in hs[..|hs| - 1] :: h in hs;
      SameShapes(a, b, hs[..|hs| - 1]);
    }
  }

  method ListShapes(seen: map<string, Shape>, hs: seq<string>) returns (states: seq<Shape>)
    ensures states == ShapesAt(seen, hs)
  {
    states := [];
    for i := 0 to |hs|
      invariant states == ShapesAt(seen, hs[..i])
    {
      assert hs[..i + 1][..i] == hs[..i];
      if hs[i] in seen {
        states := states + [seen[hs[i]]];
      }
    }
    assert hs[..|hs|] == hs;
  }

  function NoteAll(states: seq<Shape>, seen: map<string, Shape>): map<string, Shape>
  {
    if states == [] then seen
    else
      var s, last := NoteAll(states[..|states| - 1], seen), states[|states| - 1];
      if last.handle in s then s else s[last.handle := last]
  }

  /** The deduplicating loop: remembers each listed shape by handle. */
  method Note(states: seq<Shape>, seen0: map<string, Shape>) returns (seen: map<string, Shape>)
    ensures seen == NoteAll(states, seen0)
  {
    seen := seen0;
    for i := 0 to |states|
      invariant seen == NoteAll(states[..i], seen0)
    {
      assert states[..i + 1][..i] == states[..i];
      if states[i].handle !in seen {
        seen := seen[states[i].handle := states[i]];
      }
    }
    assert states[..|states|] == states;
  }

  lemma {:induction false} NoteAllIs(c: Catalog, states: seq<Shape>, seen: map<string, Shape>, h: string)
    requires forall i | 0 <= i < |states| :: Live(c, states[i].handle) && c.byHandle[states[i].handle] == states[i]
    requires h in seen ==> Live(c, h) && seen[h] == c.byHandle[h]
    ensures h in NoteAll(states, seen) <==> h in seen || Lists(states, h)
    ensures h in NoteAll(states, seen) ==> Live(c, h) && NoteAll(states, seen)[h] == c.byHandle[h]
  {
    if states != [] {
      var n := |states| - 1;
      NoteAllIs(c, states[..n], seen, h);
      if Lists(states[..n], h) {
        var i :| 0 <= i < n && states[..n][i].handle == h;
        assert states[i].handle == h;
      }
      if Lists(states, h) && states[n].handle != h {
        var i :| 0 <= i < |states| && states[i].handle == h;
        assert states[..n][i].handle == h;
      }
    }
  }

  /** Noting the answer of an index adds exactly the live shapes of the relation. */
  lemma NotedNext(c: Catalog, seen: map<string, Shape>, r: Relation, before: set<string>)
    requires Ok(c) && Noted(c, seen, before)
    ensures var s := LiveIn(c, RelationHandles(c, r)); Noted(c, NoteAll(ShapesAt(c.byHandle, Sorted(s)), seen), before + s)
  {
    hide Ok, Sorted, RelationHandles, ShapesAt, NoteAll, LiveIn;
    OkNames(c);
    LiveInLive(c, RelationHandles(c, r));
    NotedAll(c, seen, LiveIn(c, RelationHandles(c, r)), before);
  }

  lemma LiveInLive(c: Catalog, hs: set<string>)
    ensures forall h | h in LiveIn(c, hs) :: Live(c, h)
  {
  }

  lemma NotedAll(c: Catalog, seen: map<string, Shape>, s: set<string>, before: set<string>)
    requires (forall h | h in c.byHandle :: c.byHandle[h].handle == h) && (forall h | h in s :: Live(c, h)) && Noted(c, seen, before)
    ensures Noted(c, NoteAll(ShapesAt(c.byHandle, Sorted(s)), seen), before + s)
  {
    hide Sorted, ShapesAt, NoteAll, Lists;
    SortedCopies(c, s);
    var states := ShapesAt(c.byHandle, Sorted(s));
    var noted := NoteAll(states, seen);
    forall h ensures h in noted <==> h in before + s
      ensures h in noted ==> Live(c, h) && noted[h] == c.byHandle[h]
    {
      NoteAllIs(c, states, seen, h);
    }
    assert noted.Keys == before + s;
  }

  // ---- refreshing by keys ----

  lemma {:induction false} InvalidatedGone(c: Catalog, r: Relation, saves: nat, h: string)
    requires Ok(c) && Ok(InvalidateRelation(c, r, saves)) && |Sorted(LiveIn(c, RelationHandles(c, r)))| <= saves
    requires Live(InvalidateRelation(c, r, saves), h)
    ensures RelKey(InvalidateRelation(c, r, saves).byHandle[h].def.relation) != RelKey(r)
  {
    hide Ok, Sorted, StoreTombs, ForgottenAll, RelKey, LiveIn;
    var d := InvalidateRelation(c, r, saves);
    IndexAnswers(d, r);
    LiveInNothing(d, r);
  }

  lemma LiveInNothing(d: Catalog, r: Relation)
    ensures RelationHandles(d, r) == {} ==> LiveIn(d, RelationHandles(d, r)) == {}
  {
    hide RelKey;
  }

  /** The handle, unless it is gone, still has the definition of the copy. */
  ghost predicate SameDef(c: Catalog, s: Shape)
  {
    Live(c, s.handle) ==> c.byHandle[s.handle].def == s.def
  }

  ghost predicate KeysDoneFor(c: Catalog, ops: seq<Op>, h: string, id: nat, meta: RelationMetadata, keyRows: seq<Row>, commit: Commit,
                              env: Environment)
  {
    Live(c, h) ==>
      env.byKeys(h, id).Answered? &&
      OpRefreshKeys(h, env.byKeys(h, id).snap, keyRows, Metadata(meta.relation, commit.lsn, commit.xid, false)) in ops
  }

  /** One targeted candidate: query its changed keys and refresh them. Only a query that finds no table removes shapes,
      those of its own table. */
  method RefreshOne(m: Manager, state: Shape, ghost c0: Catalog, id: nat, meta: RelationMetadata, keyRows: seq<Row>, commit: Commit,
                    env: Environment, ghost ops0: seq<Op>) returns (ok: bool, ghost ops: seq<Op>)
    requires m.Valid() && Reached(c0, ops0, m.View()) && SameDef(m.View(), state)
    requires Known(c0, state) && Targeted(state.def) && OnRelation(state.def, meta)
    modifies m
    ensures m.Valid() && Reached(c0, ops, m.View()) && Shrinks(old(m.View()), m.View()) && Extends(ops0, ops)
    ensures Adds(ops0, ops, Turn(c0, id, meta, keyRows, commit, env))
    ensures ok ==> KeysDoneFor(m.View(), ops, state.handle, id, meta, keyRows, commit, env)
    ensures forall g | Live(old(m.View()), g) && !Live(m.View(), g) ::
      env.byKeys(state.handle, id).Missing? && RelKey(old(m.View()).byHandle[g].def.relation) == RelKey(state.def.relation)
    ensures env.byKeys(state.handle, id).Answered? && env.byKeys(state.handle, id).saved ==> ok
  {
    hide Ok, SoundRun, Run, m.Valid, InvalidateRelation, RefreshKeys, TargetedKeys, KeysRefreshed, Sorted, LiveIn, RelationHandles,
      Targeted, RelKey;
    ghost var c, t := m.View(), Turn(c0, id, meta, keyRows, commit, env);
    ops := ops0;
    AddsNothing(ops0, t);
    match env.byKeys(state.handle, id)
    case QueryFailed =>
      ok := false;
    case Missing(saves) =>
      ghost var op := OpInvalidateRelation(state.def.relation, saves);
      ReachNext(c0, ops0, c, op);
      var r := m.InvalidateByRelation(state.def.relation, saves);
      ops := ops0 + [op];
      assert Candidate(t, state.handle);
      AddsOne(ops0, op, t);
      ok := r.Done?;
      if ok {
        MissingGone(c, m.View(), state, saves);
      }
    case Answered(snap, saved) =>
      var data := Metadata(meta.relation, commit.lsn, commit.xid, false);
      ghost var op := OpRefreshKeys(state.handle, snap, keyRows, data);
      ReachNext(c0, ops0, c, op);
      var r := m.RefreshKeysWithMetadata(state.handle, snap, keyRows, data, saved);
      ok := r != SaveFailed;
      if r.Done? {
        ops := ops0 + [op];
        AddsOne(ops0, op, t);
      }
  }

  lemma MissingGone(c: Catalog, d: Catalog, state: Shape, saves: nat)
    requires Ok(c) && Ok(d) && d == InvalidateRelation(c, state.def.relation, saves) && Shrinks(c, d) && SameDef(c, state)
    requires InvalidatedHandles(c, state.def.relation, saves).Done?
    ensures !Live(d, state.handle)
  {
    hide Ok, InvalidateRelation, Sorted, LiveIn, RelationHandles, RelKey;
    forall h | Live(d, h) ensures RelKey(d.byHandle[h].def.relation) != RelKey(state.def.relation) {
      InvalidatedGone(c, state.def.relation, saves, h);
    }
  }

  lemma KeysStayDoneFor(c: Catalog, d: Catalog, ops: seq<Op>, more: seq<Op>, h: string, id: nat, meta: RelationMetadata,
                        keyRows: seq<Row>,
                        commit: Commit, env: Environment)
    requires KeysDoneFor(c, ops, h, id, meta, keyRows, commit, env) && Shrinks(c, d) && ops <= more
    ensures KeysDoneFor(d, more, h, id, meta, keyRows, commit, env)
  {
    if Live(d, h) {
      var op := OpRefreshKeys(h, env.byKeys(h, id).snap, keyRows, Metadata(meta.relation, commit.lsn, commit.xid, false));
      var i :| 0 <= i < |ops| && ops[i] == op;
      assert more[i] == op;
    }
  }

  lemma CopiesKeepDefs(c: Catalog, d: Catalog, states: seq<Shape>, i: nat)
    requires Copies(c, states) && Shrinks(c, d) && i < |states|
    ensures SameDef(d, states[i])
  {
  }

  lemma ExtendsTrans(a: seq<Op>, b: seq<Op>, c: seq<Op>)
    requires Extends(a, b) && Extends(b, c)
    ensures Extends(a, c)
  {
  }

  /** The first `n` candidates are done. */
  ghost predicate ListDone(c: Catalog, ops: seq<Op>, states: seq<Shape>, n: nat, id: nat, meta: RelationMetadata, keyRows: seq<Row>,
                           commit: Commit, env: Environment)
    requires n <= |states|
  {
    forall k | 0 <= k < n && Targeted(states[k].def) :: KeysDoneFor(c, ops, states[k].handle, id, meta, keyRows, commit, env)
  }

  lemma ListStaysDone(c: Catalog, d: Catalog, ops: seq<Op>, more: seq<Op>, states: seq<Shape>, n: nat, id: nat, meta: RelationMetadata,
                      keyRows: seq<Row>, commit: Commit, env: Environment)
    requires n <= |states| && ListDone(c, ops, states, n, id, meta, keyRows, commit, env) && Shrinks(c, d) && ops <= more
    ensures ListDone(d, more, states, n, id, meta, keyRows, commit, env)
  {
    hide Targeted, KeysDoneFor;
    forall k | 0 <= k < n && Targeted(states[k].def) ensures KeysDoneFor(d, more, states[k].handle, id, meta, keyRows, commit, env) {
      KeysStayDoneFor(c, d, ops, more, states[k].handle, id, meta, keyRows, commit, env);
    }
  }

  lemma AllListedDone(c: Catalog, d: Catalog, ops: seq<Op>, states: seq<Shape>, id: nat, meta: RelationMetadata, keyRows: seq<Row>,
                      commit: Commit, env: Environment)
    requires Copies(c, states) && Shrinks(c, d) && forall h | Live(c, h) && OnRelation(c.byHandle[h].def, meta) :: Lists(states, h)
    requires ListDone(d, ops, states, |states|, id, meta, keyRows, commit, env)
    ensures KeysDone(d, ops, id, meta, keyRows, commit, env)
  {
    hide Targeted, OnRelation;
    forall h | Live(d, h) && Targeted(d.byHandle[h].def) && OnRelation(d.byHandle[h].def, meta)
      ensures KeysDoneFor(d, ops, h, id, meta, keyRows, commit, env)
    {
      assert Lists(states, h);
      var i :| 0 <= i < |states| && states[i].handle == h;
      assert states[i] == c.byHandle[h];
    }
  }

  /** The loop of applyChangeBatch over the candidates of one relation. */
  method RefreshCandidates(m: Manager, id: nat, meta: RelationMetadata, keyRows: seq<Row>, commit: Commit, env: Environment,
                           ghost c0: Catalog, ghost ops0: seq<Op>) returns (ok: bool, ghost ops: seq<Op>)
    requires m.Valid() && Reached(c0, ops0, m.View())
    modifies m
    ensures m.Valid() && Reached(c0, ops, m.View()) && Shrinks(old(m.View()), m.View()) && Extends(ops0, ops)
    ensures Adds(ops0, ops, Turn(c0, id, meta, keyRows, commit, env))
    ensures ok ==> KeysDone(m.View(), ops, id, meta, keyRows, commit, env)
    ensures Healthy(env) ==> ok
  {
    hide Reached, m.Valid, Shrinks, Extends, Targeted, OnRelation, Copies, Lists, ListDone, KeysDone, KeysDoneFor, SameDef, Adds, Known,
      RelKey;
    ghost var c, t := m.View(), Turn(c0, id, meta, keyRows, commit, env);
    ReachedOk(c0, ops0, c);
    ReachedShrinks(c0, ops0, c);
    AddsNothing(ops0, t);
    var states := CandidateShapes(m, meta);
    ops := ops0;
    Unmoved(c, ops0);
    NoneDone(c, ops0, states, id, meta, keyRows, commit, env);
    for i := 0 to |states|
      invariant m.Valid() && Reached(c0, ops, m.View()) && Shrinks(c, m.View()) && Extends(ops0, ops) && Adds(ops0, ops, t)
      invariant ListDone(m.View(), ops, states, i, id, meta, keyRows, commit, env)
    {
      ghost var d, before := m.View(), ops;
      var targeted := SupportsTargetedRefresh(states[i].def);
      if targeted {
        CopiesKeepDefs(c, d, states, i);
        CopiesKnown(c0, c, states, i);
        ok, ops := RefreshOne(m, states[i], c0, id, meta, keyRows, commit, env, ops);
        ShrinksTrans(c, d, m.View());
        ExtendsTrans(ops0, before, ops);
        AddsTrans(ops0, before, ops, t);
        if !ok {
          return;
        }
        ExtendsPrefix(before, ops);
        ListStaysDone(d, m.View(), before, ops, states, i, id, meta, keyRows, commit, env);
      }
      OneMoreDone(m.View(), ops, states, i, id, meta, keyRows, commit, env);
    }
    AllListedDone(c, m.View(), ops, states, id, meta, keyRows, commit, env);
    ok := true;
  }

  lemma ReachedOk(c: Catalog, ops: seq<Op>, d: Catalog)
    requires Reached(c, ops, d)
    ensures Ok(d)
  {
    hide Ok;
  }

  lemma ReachedShrinks(c: Catalog, ops: seq<Op>, d: Catalog)
    requires Reached(c, ops, d)
    ensures Shrinks(c, d)
  {
    hide Ok;
  }

  lemma Unmoved(c: Catalog, ops: seq<Op>)
    ensures Shrinks(c, c) && Extends(ops, ops)
  {
  }

  lemma ExtendsPrefix(ops: seq<Op>, more: seq<Op>)
    requires Extends(ops, more)
    ensures ops <= more
  {
  }

  lemma NoneDone(c: Catalog, ops: seq<Op>, states: seq<Shape>, id: nat, meta: RelationMetadata, keyRows: seq<Row>, commit: Commit,
                 env: Environment)
    ensures ListDone(c, ops, states, 0, id, meta, keyRows, commit, env)
  {
  }

  lemma OneMoreDone(c: Catalog, ops: seq<Op>, states: seq<Shape>, i: nat, id: nat, meta: RelationMetadata, keyRows: seq<Row>,
                    commit: Commit, env: Environment)
    requires i < |states| && ListDone(c, ops, states, i, id, meta, keyRows, commit, env)
    requires Targeted(states[i].def) ==> KeysDoneFor(c, ops, states[i].handle, id, meta, keyRows, commit, env)
    ensures ListDone(c, ops, states, i + 1, id, meta, keyRows, commit, env)
  {
    hide Targeted, KeysDoneFor;
  }

  // ---- refreshing dependent shapes ----

  /** `refreshed` is the set of handles that the commit has already dealt with as dependents. */
  ghost predicate Marked(c: Catalog, ops: seq<Op>, refreshed: set<string>)
  {
    (forall h | WasRefreshed(ops, h) :: h in refreshed) &&
    forall h | h in refreshed && Live(c, h) :: DependentRefresh(c.byHandle[h].def) && WasRefreshed(ops, h)
  }

  lemma MarkedAfter(c: Catalog, d: Catalog, ops: seq<Op>, more: seq<Op>, refreshed: set<string>)
    requires Marked(c, ops, refreshed) && Shrinks(c, d) && Extends(ops, more)
    ensures Marked(d, more, refreshed)
  {
    hide WasRefreshed, DependentRefresh;
    forall h ensures WasRefreshed(ops, h) <==> WasRefreshed(more, h) {
      OnceExtends(ops, more, h);
      if WasRefreshed(ops, h) { StillRefreshed(ops, more, h); }
    }
  }

  /** One more whole refresh, of a handle not yet refreshed. */
  lemma MarkRefresh(c: Catalog, d: Catalog, ops: seq<Op>, op: Op, refreshed: set<string>)
    requires Marked(c, ops, refreshed) && Shrinks(c, d) && op.OpRefresh? && op.handle !in refreshed && OncePerShape(ops)
    requires Live(c, op.handle) ==> DependentRefresh(c.byHandle[op.handle].def)
    ensures Marked(d, ops + [op], refreshed + {op.handle}) && OncePerShape(ops + [op])
  {
    hide DependentRefresh;
    var more := ops + [op];
    forall h ensures WasRefreshed(more, h) <==> WasRefreshed(ops, h) || h == op.handle {
      if WasRefreshed(ops, h) { StillRefreshed(ops, more, h); }
      if h == op.handle { assert more[|ops|] == op; }
      if WasRefreshed(more, h) && h != op.handle {
        var i :| 0 <= i < |more| && more[i].OpRefresh? && more[i].handle == h;
        assert ops[i] == more[i];
      }
    }
    forall i, j | 0 <= i < j < |more| && more[i].OpRefresh? && more[j].OpRefresh? ensures more[i].handle != more[j].handle {
      if j == |ops| {
        assert more[i] == ops[i];
        assert WasRefreshed(ops, ops[i].handle);
      }
    }
  }

  /** A step that removes a shape marks it as dealt with. */
  lemma MarkDropped(c: Catalog, d: Catalog, ops: seq<Op>, op: Op, refreshed: set<string>, h: string)
    requires Marked(c, ops, refreshed) && Shrinks(c, d) && !op.OpRefresh? && !Live(d, h)
    ensures Marked(d, ops + [op], refreshed + {h}) && Extends(ops, ops + [op])
  {
    hide WasRefreshed, DependentRefresh;
    MarkedAfter(c, d, ops, ops + [op], refreshed);
  }

  /** What holds of a run while dependents are refreshed. */
  ghost predicate Progress(c0: Catalog, ops: seq<Op>, d: Catalog, refreshed: set<string>)
  {
    Reached(c0, ops, d) && Marked(d, ops, refreshed) && OncePerShape(ops)
  }

  /** Delete on a live shape, with its tombstone saved or not. */
  method Drop(m: Manager, h: string, saved: bool, ghost c0: Catalog, ghost ops0: seq<Op>, refreshed: set<string>)
    returns (ok: bool, ghost ops: seq<Op>)
    requires m.Valid() && Progress(c0, ops0, m.View(), refreshed) && Live(m.View(), h)
    modifies m
    ensures m.Valid() && Shrinks(old(m.View()), m.View()) && ok == saved
    ensures ops == if ok then ops0 + [OpDelete(h)] else ops0
    ensures ok ==> Progress(c0, ops, m.View(), refreshed + {h}) && !Live(m.View(), h)
    ensures !ok ==> Progress(c0, ops, m.View(), refreshed) && m.View() == old(m.View())
    ensures forall g | g != h && Live(old(m.View()), g) :: Live(m.View(), g)
  {
    hide Ok, SoundRun, Run, m.Valid, Killed, Marked, OncePerShape, Shrinks, Canonical.Canonicalize;
    ghost var c := m.View();
    Unmoved(c, ops0);
    ReachNext(c0, ops0, c, OpDelete(h));
    var r := m.Delete(h, saved);
    ops := ops0;
    ok := saved;
    if saved {
      MarkDropped(c, m.View(), ops0, OpDelete(h), refreshed, h);
      ops := ops0 + [OpDelete(h)];
      OnceExtends(ops0, ops, h);
    }
  }

  /** What becomes of one triggered shape: nothing when a query or save fails, otherwise one operation. It is deleted when
      it cannot be refreshed or its query found no table, and refreshed with the answer otherwise. */
  function DependentOp(h: string, def: Definition, id: nat, meta: RelationMetadata, commit: Commit, env: Environment): Option<Op>
  {
    if !DependentRefresh(def) then if env.drops(h, id) then Some(OpDelete(h)) else None
    else
      match env.whole(h, id)
      case QueryFailed => None
      case Missing(saves) => if saves > 0 then Some(OpDelete(h)) else None
      case Answered(snap, saved) =>
        if saved then Some(OpRefresh(h, snap, Metadata(meta.relation, commit.lsn, commit.xid, true))) else None
  }

  lemma DependentOpJustified(t: Turn, state: Shape)
    requires Known(t.start, state) && TriggeredBy(state.def, t.meta.relation, t.meta.root)
    ensures var op := DependentOp(state.handle, state.def, t.id, t.meta, t.commit, t.env); op.Some? ==> Justified(op.value, t)
  {
    hide DependentRefresh, TriggeredBy;
  }

  /** One dependent shape: refreshed as a whole, or dropped. A shape that can be refreshed and whose query is answered
      survives, and so do all others. */
  method RefreshDependent(m: Manager, state: Shape, ghost c0: Catalog, id: nat, meta: RelationMetadata, commit: Commit, env: Environment,
                          ghost ops0: seq<Op>, refreshed: set<string>) returns (ok: bool, ghost ops: seq<Op>)
    requires m.Valid() && Progress(c0, ops0, m.View(), refreshed) && Live(m.View(), state.handle) && state.handle !in refreshed
    requires m.byHandle[state.handle].def == state.def
    modifies m
    ensures m.Valid() && Shrinks(old(m.View()), m.View())
    ensures var op := DependentOp(state.handle, state.def, id, meta, commit, env);
      ok == op.Some? && ops == if ok then ops0 + [op.value] else ops0
    ensures ok ==> Progress(c0, ops, m.View(), refreshed + {state.handle})
    ensures !ok ==> Progress(c0, ops, m.View(), refreshed)
    ensures forall g | g != state.handle && Live(old(m.View()), g) :: Live(m.View(), g)
    ensures DependentRefresh(state.def) && env.whole(state.handle, id).Answered? ==> Live(m.View(), state.handle)
    ensures ok && !DependentRefresh(state.def) ==> !Live(m.View(), state.handle)
  {
    hide m.Valid, Progress, Shrinks, DependentRefresh;
    var supported := SupportsDependentRefresh(state.def);
    if !supported {
      ok, ops := Drop(m, state.handle, env.drops(state.handle, id), c0, ops0, refreshed);
      return;
    }
    match env.whole(state.handle, id)
    case QueryFailed =>
      Unmoved(m.View(), ops0);
      ok, ops := false, ops0;
    case Missing(saves) =>
      ok, ops := Drop(m, state.handle, saves > 0, c0, ops0, refreshed);
    case Answered(snap, saved) =>
      var data := Metadata(meta.relation, commit.lsn, commit.xid, true);
      ok, ops := RefreshWhole(m, state.handle, snap, data, saved, c0, ops0, refreshed);
  }

  method RefreshWhole(m: Manager, h: string, snap: Snapshot, data: Metadata, saved: bool, ghost c0: Catalog, ghost ops0: seq<Op>,
                      refreshed: set<string>) returns (ok: bool, ghost ops: seq<Op>)
    requires m.Valid() && Progress(c0, ops0, m.View(), refreshed) && Live(m.View(), h) && h !in refreshed
    requires DependentRefresh(m.byHandle[h].def)
    modifies m
    ensures m.Valid() && Shrinks(old(m.View()), m.View()) && ok == saved
    ensures ops == if ok then ops0 + [OpRefresh(h, snap, data)] else ops0
    ensures ok ==> Progress(c0, ops, m.View(), refreshed + {h})
    ensures !ok ==> Progress(c0, ops, m.View(), refreshed)
    ensures forall g | Live(old(m.View()), g) :: Live(m.View(), g)
  {
    hide Ok, SoundRun, Run, m.Valid, Refresh, Marked, OncePerShape, Shrinks, Refreshed, DependentRefresh;
    ghost var c := m.View();
    Unmoved(c, ops0);
    ReachNext(c0, ops0, c, OpRefresh(h, snap, data));
    var r := m.RefreshWithMetadata(h, snap, data, saved);
    ops := ops0;
    ok := saved;
    if saved {
      MarkRefresh(c, m.View(), ops0, OpRefresh(h, snap, data), refreshed);
      ops := ops0 + [OpRefresh(h, snap, data)];
    }
  }

  /** The first `n` listed shapes have been dealt with, and the others are still live. */
  ghost predicate DependentsDone(c: Catalog, states: seq<Shape>, n: nat, meta: RelationMetadata, refreshed: set<string>)
    requires n <= |states|
  {
    (forall k | 0 <= k < n && TriggeredBy(states[k].def, meta.relation, meta.root) :: states[k].handle in refreshed) &&
    forall k | n <= k < |states| :: Live(c, states[k].handle)
  }

  lemma DependentsStart(c: Catalog, states: seq<Shape>, meta: RelationMetadata, refreshed: set<string>)
    requires Copies(c, states)
    ensures DependentsDone(c, states, 0, meta, refreshed)
  {
  }

  lemma DependentsNext(c: Catalog, d: Catalog, start: Catalog, states: seq<Shape>, i: nat, meta: RelationMetadata, before: set<string>,
                       after: set<string>)
    requires i < |states| && Copies(start, states) && DependentsDone(c, states, i, meta, before) && before <= after
    requires forall g | g != states[i].handle && Live(c, g) :: Live(d, g)
    requires TriggeredBy(states[i].def, meta.relation, meta.root) ==> states[i].handle in after
    ensures DependentsDone(d, states, i + 1, meta, after)
  {
    hide TriggeredBy;
  }

  lemma DependentsEnd(c: Catalog, d: Catalog, states: seq<Shape>, ops: seq<Op>, meta: RelationMetadata, refreshed: set<string>)
    requires Copies(c, states) && Shrinks(c, d) && forall h | Live(c, h) :: Lists(states, h)
    requires DependentsDone(d, states, |states|, meta, refreshed) && Marked(d, ops, refreshed)
    ensures WholeDone(d, ops, meta)
  {
    hide TriggeredBy, WasRefreshed, DependentRefresh;
    forall h | Live(d, h) && TriggeredBy(d.byHandle[h].def, meta.relation, meta.root)
      ensures DependentRefresh(d.byHandle[h].def) && WasRefreshed(ops, h)
    {
      assert Lists(states, h);
      var i :| 0 <= i < |states| && states[i].handle == h;
      assert states[i] == c.byHandle[h];
    }
  }

  lemma TargetedNotTriggered(def: Definition, r: Relation, root: Relation)
    requires Targeted(def)
    ensures !TriggeredBy(def, r, root)
  {
    hide Targeted, LiveDependencies;
    ClassesPartition(def);
  }

  method ListActive(m: Manager) returns (states: seq<Shape>)
    requires Ok(m.View())
    ensures Copies(m.View(), states) && forall h | Live(m.View(), h) :: Lists(states, h)
  {
    hide Ok, Sorted, ShapesAt, Lists, Copies;
    OkNames(m.View());
    SortedCopies(m.View(), LiveHandles(m.View()));
    states := m.ActiveStates();
  }

  /** refreshDependentShapesForRelation. */
  method RefreshDependents(m: Manager, id: nat, meta: RelationMetadata, ghost keyRows: seq<Row>, commit: Commit, env: Environment,
                           refreshed0: set<string>, ghost c0: Catalog, ghost ops0: seq<Op>)
    returns (ok: bool, refreshed: set<string>, ghost ops: seq<Op>)
    requires m.Valid() && Progress(c0, ops0, m.View(), refreshed0)
    modifies m
    ensures m.Valid() && Adds(ops0, ops, Turn(c0, id, meta, keyRows, commit, env)) && Shrinks(old(m.View()), m.View())
    ensures Progress(c0, ops, m.View(), refreshed)
    ensures ok ==> WholeDone(m.View(), ops, meta)
    ensures Healthy(env) ==> ok
  {
    hide m.Valid, Progress, Shrinks, Copies, Lists, DependentsDone, TriggeredBy, Targeted, WholeDone, Ok, Extends, Adds, DependentRefresh;
    ghost var c, t := m.View(), Turn(c0, id, meta, keyRows, commit, env);
    ProgressParts(c0, ops0, c, refreshed0);
    ReachedOk(c0, ops0, c);
    ReachedShrinks(c0, ops0, c);
    var states := ListActive(m);
    refreshed, ops := refreshed0, ops0;
    Unmoved(c, ops0);
    AddsNothing(ops0, t);
    DependentsStart(c, states, meta, refreshed0);
    for i := 0 to |states|
      invariant m.Valid() && Progress(c0, ops, m.View(), refreshed) && Shrinks(c, m.View())
      invariant Adds(ops0, ops, t) && DependentsDone(m.View(), states, i, meta, refreshed)
    {
      ghost var d, before := m.View(), ops;
      ok, refreshed, ops := DependentRound(m, states, i, id, meta, keyRows, commit, env, refreshed, c, c0, ops);
      ShrinksTrans(c, d, m.View());
      AddsTrans(ops0, before, ops, t);
      if !ok {
        return;
      }
    }
    ProgressMarked(c0, ops, m.View(), refreshed);
    DependentsEnd(c, m.View(), states, ops, meta, refreshed);
    ok := true;
  }

  /** One round of the loop over the listed shapes. */
  method DependentRound(m: Manager, states: seq<Shape>, i: nat, id: nat, meta: RelationMetadata, ghost keyRows: seq<Row>, commit: Commit,
                        env: Environment, refreshed0: set<string>, ghost c: Catalog, ghost c0: Catalog, ghost ops0: seq<Op>)
    returns (ok: bool, refreshed: set<string>, ghost ops: seq<Op>)
    requires m.Valid() && Progress(c0, ops0, m.View(), refreshed0) && i < |states| && Shrinks(c0, c) && Shrinks(c, m.View())
    requires Copies(c, states) && DependentsDone(m.View(), states, i, meta, refreshed0)
    modifies m
    ensures m.Valid() && Adds(ops0, ops, Turn(c0, id, meta, keyRows, commit, env)) && Shrinks(old(m.View()), m.View())
    ensures Progress(c0, ops, m.View(), refreshed)
    ensures ok ==> DependentsDone(m.View(), states, i + 1, meta, refreshed)
    ensures Healthy(env) ==> ok
  {
    hide m.Valid, Progress, Shrinks, Copies, DependentsDone, TriggeredBy, Extends, Adds, DependentRefresh, Justified, Known;
    ghost var d, t := m.View(), Turn(c0, id, meta, keyRows, commit, env);
    ok, refreshed, ops := true, refreshed0, ops0;
    Unmoved(d, ops0);
    AddsNothing(ops0, t);
    var due := IsDue(states[i], meta, refreshed0);
    if due {
      PendingLive(d, states, i, meta, refreshed0);
      CopiesKnown(c0, c, states, i);
      PendingDef(c, d, states, i);
      DependentOpJustified(t, states[i]);
      ok, ops := RefreshDependent(m, states[i], c0, id, meta, commit, env, ops0, refreshed0);
      if !ok {
        return;
      }
      AddsOne(ops0, DependentOp(states[i].handle, states[i].def, id, meta, commit, env).value, t);
      refreshed := refreshed0 + {states[i].handle};
    }
    DependentsNext(d, m.View(), c, states, i, meta, refreshed0, refreshed);
  }

  lemma PendingDef(c: Catalog, d: Catalog, states: seq<Shape>, i: nat)
    requires Copies(c, states) && Shrinks(c, d) && i < |states| && Live(d, states[i].handle)
    ensures d.byHandle[states[i].handle].def == states[i].def
  {
  }

  lemma PendingLive(c: Catalog, states: seq<Shape>, i: nat, meta: RelationMetadata, refreshed: set<string>)
    requires i < |states| && DependentsDone(c, states, i, meta, refreshed)
    ensures Live(c, states[i].handle)
  {
  }

  /** The three tests at the head of the loop. */
  method IsDue(state: Shape, meta: RelationMetadata, refreshed: set<string>) returns (due: bool)
    ensures due <==> TriggeredBy(state.def, meta.relation, meta.root) && state.handle !in refreshed
  {
    hide Targeted, TriggeredBy;
    var targeted := SupportsTargetedRefresh(state.def);
    if targeted {
      TargetedNotTriggered(state.def, meta.relation, meta.root);
      return false;
    }
    var triggered := RequiresInvalidation(state.def, meta.relation, meta.root);
    return triggered && state.handle !in refreshed;
  }

  // ---- one commit ----

  function KeyRows(changes: seq<ChangeRecord>): seq<Row>
  {
    if changes == [] then []
    else
      var key := changes[|changes| - 1].primaryKey;
      KeyRows(changes[..|changes| - 1]) + (if key == map[] then [] else [key])
  }

  method CollectKeyRows(changes: seq<ChangeRecord>) returns (keyRows: seq<Row>)
    ensures keyRows == KeyRows(changes)
  {
    keyRows := [];
    for i := 0 to |changes|
      invariant keyRows == KeyRows(changes[..i])
    {
      assert changes[..i + 1][..i] == changes[..i];
      if |changes[i].primaryKey| == 0 {
        assert changes[i].primaryKey == map[];
        continue;
      }
      keyRows := keyRows + [changes[i].primaryKey];
    }
    assert changes[..|changes|] == changes;
  }

  /** Every live shape that the changes of one relation concern has been refreshed. */
  ghost predicate RelationDone(d: Catalog, ops: seq<Op>, id: nat, meta: RelationMetadata, keyRows: seq<Row>,
                               commit: Commit, env: Environment)
  {
    keyRows != [] ==> KeysDone(d, ops, id, meta, keyRows, commit, env) && WholeDone(d, ops, meta)
  }

  lemma RelationStaysDone(d: Catalog, e: Catalog, ops: seq<Op>, more: seq<Op>, id: nat, meta: RelationMetadata, keyRows: seq<Row>,
                          commit: Commit, env: Environment)
    requires RelationDone(d, ops, id, meta, keyRows, commit, env) && Shrinks(d, e) && ops <= more
    ensures RelationDone(e, more, id, meta, keyRows, commit, env)
  {
    hide KeysDone, WholeDone, Shrinks;
    if keyRows != [] {
      KeysStayDone(d, e, ops, more, id, meta, keyRows, commit, env);
      WholeStaysDone(d, e, ops, more, meta);
    }
  }

  /** The relations `ids` of a batch are done. */
  ghost predicate BatchDone(d: Catalog, ops: seq<Op>, ids: seq<nat>, changes: Changes, cache: map<nat, RelationMetadata>, commit: Commit,
                            env: Environment)
  {
    forall id | id in ids && id in cache ::
      RelationDone(d, ops, id, cache[id], KeyRows(ChangesFor(changes, id, commit.lsn, commit.xid)), commit, env)
  }

  lemma BatchStaysDone(d: Catalog, e: Catalog, ops: seq<Op>, more: seq<Op>, ids: seq<nat>, id: nat, changes: Changes,
                       cache: map<nat, RelationMetadata>, commit: Commit, env: Environment)
    requires BatchDone(d, ops, ids, changes, cache, commit, env) && Shrinks(d, e) && ops <= more
    requires id in cache ==> RelationDone(e, more, id, cache[id], KeyRows(ChangesFor(changes, id, commit.lsn, commit.xid)), commit, env)
    ensures BatchDone(e, more, ids + [id], changes, cache, commit, env)
  {
    hide RelationDone, Shrinks, KeyRows, ChangesFor;
    forall x | x in ids + [id] && x in cache
      ensures RelationDone(e, more, x, cache[x], KeyRows(ChangesFor(changes, x, commit.lsn, commit.xid)), commit, env)
    {
      if x != id {
        RelationStaysDone(d, e, ops, more, x, cache[x], KeyRows(ChangesFor(changes, x, commit.lsn, commit.xid)), commit, env);
      }
    }
  }

  lemma ProgressAfterKeys(c0: Catalog, c: Catalog, d: Catalog, ops: seq<Op>, more: seq<Op>, refreshed: set<string>)
    requires Progress(c0, ops, c, refreshed) && Reached(c0, more, d) && Shrinks(c, d) && Extends(ops, more)
    ensures Progress(c0, more, d, refreshed)
  {
    hide Reached, Marked, OncePerShape, Shrinks, Extends;
    MarkedAfter(c, d, ops, more, refreshed);
    OnceExtends(ops, more, "");
  }

  /** One relation of the batch: first the targeted shapes, then the dependent ones. */
  method ApplyRelation(m: Manager, id: nat, meta: RelationMetadata, keyRows: seq<Row>, commit: Commit, env: Environment,
                       refreshed0: set<string>,
                       ghost c0: Catalog, ghost ops0: seq<Op>) returns (ok: bool, refreshed: set<string>, ghost ops: seq<Op>)
    requires m.Valid() && Progress(c0, ops0, m.View(), refreshed0)
    modifies m
    ensures m.Valid() && Adds(ops0, ops, Turn(c0, id, meta, keyRows, commit, env)) && Shrinks(old(m.View()), m.View())
    ensures Progress(c0, ops, m.View(), refreshed)
    ensures Healthy(env) ==> ok
    ensures ok ==> RelationDone(m.View(), ops, id, meta, keyRows, commit, env)
  {
    hide m.Valid, Reached, Marked, OncePerShape, Shrinks, Extends, KeysDone, WholeDone, Adds, Healthy;
    ghost var c, t := m.View(), Turn(c0, id, meta, keyRows, commit, env);
    refreshed := refreshed0;
    ok, ops := RefreshCandidates(m, id, meta, keyRows, commit, env, c0, ops0);
    ghost var d, mid := m.View(), ops;
    ProgressAfterKeys(c0, c, d, ops0, ops, refreshed0);
    if ok {
      ok, refreshed, ops := RefreshDependents(m, id, meta, keyRows, commit, env, refreshed, c0, ops);
      ShrinksTrans(c, d, m.View());
      AddsTrans(ops0, mid, ops, t);
      if ok {
        AddsPrefix(mid, ops, t);
        KeysStayDone(d, m.View(), mid, ops, id, meta, keyRows, commit, env);
      }
    }
  }

  /** What can take a live shape away: its relation's changes trigger it and it cannot be refreshed or its query finds no
      table, or the query of a shape on the same table finds none. */
  ghost predicate Condemned(t: Turn, h: string)
  {
    (Due(t, h) && (!DependentRefresh(t.start.byHandle[h].def) || t.env.whole(h, t.id).Missing?)) ||
    (Live(t.start, h) && exists g :: TableGone(t, g, t.start.byHandle[h].def.relation))
  }

  /** The query of a candidate on the table found no table. */
  ghost predicate TableGone(t: Turn, g: string, relation: Relation)
  {
    Candidate(t, g) && t.env.byKeys(g, t.id).Missing? && RelKey(t.start.byHandle[g].def.relation) == RelKey(relation)
  }

  ghost predicate CondemnedIn(start: Catalog, h: string, changes: Changes, cache: map<nat, RelationMetadata>, commit: Commit,
                              env: Environment)
  {
    exists id :: HasTurn(id, changes, cache, commit) && Condemned(TurnOf(start, id, changes, cache, commit, env), h)
  }

  /** The operation cannot take the shape away. */
  predicate Spares(op: Op, h: string, def: Definition)
  {
    op != OpDelete(h) && (op.OpInvalidateRelation? ==> RelKey(op.relation) != RelKey(def.relation))
  }

  lemma {:induction false} SparedSurvives(c: Catalog, ops: seq<Op>, h: string)
    requires Ok(c) && SoundRun(c, ops) && Live(c, h)
    requires forall i | 0 <= i < |ops| :: Refreshing(ops[i]) && Spares(ops[i], h, c.byHandle[h].def)
    ensures Live(Run(c, ops), h)
    decreases |ops|
  {
    hide Ok, Do, Sound, Refreshing;
    if ops != [] {
      var op, rest := ops[0], ops[1..];
      assert Refreshing(op) && Spares(op, h, c.byHandle[h].def);
      StepShrinks(c, op);
      StepOk(c, op);
      OneSpares(c, op, h);
      forall i | 0 <= i < |rest| ensures Refreshing(rest[i]) && Spares(rest[i], h, c.byHandle[h].def) { assert rest[i] == ops[i + 1]; }
      SparedSurvives(Do(c, op), rest, h);
    }
  }

  lemma OneSpares(c: Catalog, op: Op, h: string)
    requires Ok(c) && Refreshing(op) && Live(c, h) && Spares(op, h, c.byHandle[h].def)
    requires forall d | d in c.byHash :: c.byHash[d] in c.byHandle
    ensures Live(Do(c, op), h)
  {
    StepShrinks(c, op);
    hide Ok, Do, RelKey;
  }

  /** A justified operation that does not spare a shape condemns it. */
  lemma NotSparedCondemned(op: Op, t: Turn, h: string)
    requires Justified(op, t) && Live(t.start, h) && !Spares(op, h, t.start.byHandle[h].def)
    ensures Condemned(t, h)
  {
    hide RelKey, DependentRefresh, TriggeredBy, Targeted;
    if op.OpInvalidateRelation? {
      var g :| Candidate(t, g) && t.start.byHandle[g].def.relation == op.relation && t.env.byKeys(g, t.id) == Missing(op.saves);
      assert TableGone(t, g, t.start.byHandle[h].def.relation);
    }
  }

  /** What a genuine run takes away was condemned. */
  lemma LostWasCondemned(start: Catalog, ops: seq<Op>, d: Catalog, changes: Changes, cache: map<nat, RelationMetadata>, commit: Commit,
                         env: Environment, h: string)
    requires Reached(start, ops, d) && Genuine(ops, start, changes, cache, commit, env) && Live(start, h) && !Live(d, h)
    ensures CondemnedIn(start, h, changes, cache, commit, env)
  {
    hide Ok, SoundRun, Run, Justified, KeyRows, ChangesFor, Condemned, Spares, Refreshing;
    forall i | 0 <= i < |ops| ensures Refreshing(ops[i]) { GenuineRefreshing(ops, start, changes, cache, commit, env, i); }
    if forall i | 0 <= i < |ops| :: Spares(ops[i], h, start.byHandle[h].def) {
      SparedSurvives(start, ops, h);
    } else {
      var i :| 0 <= i < |ops| && !Spares(ops[i], h, start.byHandle[h].def);
      assert JustifiedIn(ops[i], start, changes, cache, commit, env);
      var id :| HasTurn(id, changes, cache, commit) && Justified(ops[i], TurnOf(start, id, changes, cache, commit, env));
      NotSparedCondemned(ops[i], TurnOf(start, id, changes, cache, commit, env), h);
    }
  }

  lemma GenuineRefreshing(ops: seq<Op>, start: Catalog, changes: Changes, cache: map<nat, RelationMetadata>, commit: Commit,
                          env: Environment, i: nat)
    requires Genuine(ops, start, changes, cache, commit, env) && i < |ops|
    ensures Refreshing(ops[i])
  {
    hide HasTurn, TurnOf, DependentRefresh, TriggeredBy, Targeted, Due, Candidate;
    assert JustifiedIn(ops[i], start, changes, cache, commit, env);
  }

  /** applyChangeBatch, up to the checkpoint. Every operation is one that a changed relation calls for, and no shape is
      refreshed as a whole twice. A shape is lost only if it was condemned. If the application succeeds, every live shape
      that depends on a changed relation with keys has been refreshed for it; and it does succeed when every query is
      answered and every save works. */
  method ApplyChangeBatch(m: Manager, batch: ChangeBatch, cache: map<nat, RelationMetadata>, env: Environment)
    returns (ok: bool, ghost ops: seq<Op>)
    requires m.Valid() && Ok(m.View()) && batch.Valid()
    modifies m
    ensures m.Valid() && Reached(old(m.View()), ops, m.View()) && OncePerShape(ops)
    ensures Genuine(ops, old(m.View()), batch.byRelation, cache, Commit(batch.commitLsn, batch.xid), env)
    ensures forall h | Live(old(m.View()), h) && !Live(m.View(), h) ::
      CondemnedIn(old(m.View()), h, batch.byRelation, cache, Commit(batch.commitLsn, batch.xid), env)
    ensures Healthy(env) ==> ok
    ensures ok ==> forall id | id in batch.byRelation && id in cache ::
      RelationDone(m.View(), ops, id, cache[id], KeyRows(ChangesFor(batch.byRelation, id, batch.commitLsn, batch.xid)),
                   Commit(batch.commitLsn, batch.xid), env)
  {
    hide m.Valid, Reached, Marked, OncePerShape, Shrinks, RelationDone, BatchDone, KeyRows, ChangesFor, Progress, Ok, Adds, Genuine,
      Healthy, CondemnedIn;
    ghost var c, changes := m.View(), batch.byRelation;
    var commit := Commit(batch.commitLsn, batch.xid);
    var ids := batch.RelationIds();
    var refreshed: set<string> := {};
    ops := [];
    StartApply(c, changes, cache, commit, env);
    assert ids[..0] == [];
    ok := true;
    for i := 0 to |ids|
      invariant Genuine(ops, c, changes, cache, commit, env) && ok
      invariant m.Valid() && Progress(c, ops, m.View(), refreshed) && BatchDone(m.View(), ops, ids[..i], changes, cache, commit, env)
    {
      ghost var d, before := m.View(), ops;
      Unmoved(d, ops);
      assert ids[..i + 1] == ids[..i] + [ids[i]];
      if ids[i] in cache {
        var records := batch.ChangesForRelation(ids[i]);
        var keyRows := CollectKeyRows(records);
        if |keyRows| > 0 {
          assert ids[i] in ids && HasTurn(ids[i], changes, cache, commit);
          ok, refreshed, ops := ApplyRelation(m, ids[i], cache[ids[i]], keyRows, commit, env, refreshed, c, ops);
          ghost var t := TurnOf(c, ids[i], changes, cache, commit, env);
          GenuineNext(before, ops, ids[i], c, changes, cache, commit, env);
          AddsPrefix(before, ops, t);
          if !ok {
            break;
          }
        } else {
          NothingToDo(d, ops, ids[i], cache[ids[i]], keyRows, commit, env);
        }
      }
      BatchStaysDone(d, m.View(), before, ops, ids[..i], ids[i], changes, cache, commit, env);
    }
    assert ids[..|ids|] == ids;
    ProgressParts(c, ops, m.View(), refreshed);
    if ok {
      BatchParts(m.View(), ops, ids, changes, cache, commit, env);
    }
    forall h | Live(c, h) && !Live(m.View(), h) ensures CondemnedIn(c, h, changes, cache, commit, env) {
      LostWasCondemned(c, ops, m.View(), changes, cache, commit, env, h);
    }
  }

  lemma NothingToDo(d: Catalog, ops: seq<Op>, id: nat, meta: RelationMetadata, keyRows: seq<Row>, commit: Commit, env: Environment)
    requires keyRows == []
    ensures RelationDone(d, ops, id, meta, keyRows, commit, env)
  {
  }

  lemma StartApply(c: Catalog, changes: Changes, cache: map<nat, RelationMetadata>, commit: Commit, env: Environment)
    requires Ok(c)
    ensures Progress(c, [], c, {}) && BatchDone(c, [], [], changes, cache, commit, env) && Genuine([], c, changes, cache, commit, env)
  {
    hide Ok;
  }

  lemma ProgressMarked(c: Catalog, ops: seq<Op>, d: Catalog, refreshed: set<string>)
    requires Progress(c, ops, d, refreshed)
    ensures Marked(d, ops, refreshed)
  {
    hide Reached, Marked, OncePerShape;
  }

  lemma ProgressParts(c: Catalog, ops: seq<Op>, d: Catalog, refreshed: set<string>)
    requires Progress(c, ops, d, refreshed)
    ensures Reached(c, ops, d) && OncePerShape(ops)
  {
    hide Reached, Marked, OncePerShape;
  }

  lemma BatchParts(d: Catalog, ops: seq<Op>, ids: seq<nat>, changes: Changes, cache: map<nat, RelationMetadata>,
                   commit: Commit, env: Environment)
    requires BatchDone(d, ops, ids, changes, cache, commit, env) && forall id :: id in ids <==> id in changes
    ensures forall id | id in changes && id in cache ::
      RelationDone(d, ops, id, cache[id], KeyRows(ChangesFor(changes, id, commit.lsn, commit.xid)), commit, env)
  {
    hide RelationDone, KeyRows, ChangesFor;
  }
}
