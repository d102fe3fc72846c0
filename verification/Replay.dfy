/** Whole epochs: the replay theorem over every run of refreshes, and the theorem that a
    refresh by keys does what a full refresh would do. */
module Replay {
  import opened Strings
  import opened Offsets
  import opened Keys
  import opened Diff
  import opened ShapeLog
  import opened Client

  datatype Step =
    | Full(snap: Snapshot, meta: Metadata)
    | ByKeys(snap: Snapshot, keyRows: seq<Row>, meta: Metadata)

  function Take(s: Shape, step: Step): Shape
  {
    match step
    case Full(snap, meta) => Refreshed(s, snap, meta)
    case ByKeys(snap, keyRows, meta) => KeysRefreshed(s, snap, keyRows, meta)
  }

  function Run(s: Shape, steps: seq<Step>): Shape
  {
    if steps == [] then s else Take(Run(s, steps[..|steps| - 1]), steps[|steps| - 1])
  }

  /** Every key that the shape may have held. */
  function AllKeys(rows: Rows, steps: seq<Step>): set<string>
  {
    if steps == [] then rows.Keys else
      var snap := steps[|steps| - 1].snap;
      AllKeys(rows, steps[..|steps| - 1]) + MaterializedRows(snap.schema, snap.rows).Keys
  }

  /** A shape with a dependency keyword is refreshed only as a whole and with tags; booleans
      are reprinted only in columns of `bools`. */
  ghost predicate StepFits(def: Definition, bools: set<string>, step: Step)
  {
    (HasDependencyKeyword(def) ==> step.Full? && step.meta.dependent) &&
    (step.ByKeys? && step.meta.commitLsn > 0 ==> HasBools(bools, step.snap.schema))
  }

  // ---- the dressings are what the refresh operations apply ----

  lemma {:induction false} DecorateIsDressing(handle: string, related: bool, messages: seq<Message>)
    ensures DecorateEach(handle, related, messages) == DressAll(handle, Dependent(related), messages)
  {
    if messages != [] { DecorateIsDressing(handle, related, messages[1..]); }
  }

  lemma {:induction false} WireIsDressing(handle: string, schema: Schema, messages: seq<Message>)
    ensures WireMessages(schema, messages) == DressAll(handle, Wire(schema), messages)
  {
    if messages != [] { WireIsDressing(handle, schema, messages[1..]); }
  }

  lemma {:induction false} PlainIsDressing(handle: string, messages: seq<Message>)
    ensures messages == DressAll(handle, Plain, messages)
  {
    if messages != [] { PlainIsDressing(handle, messages[1..]); }
  }

  lemma SnapshotEndIsSilent(full: bool, c: State, messages: seq<Message>, ending: seq<Message>)
    requires ending == [] || ending == [SNAPSHOT_END]
    ensures Client.Replay(full, c, messages + ending) == Client.Replay(full, c, messages)
  {
    ReplayConcat(full, c, messages, ending);
    if ending == [] {
      assert Client.Replay(full, Client.Replay(full, c, messages), []) == Client.Replay(full, c, messages);
    } else {
      ReplayOne(full, Client.Replay(full, c, messages), SNAPSHOT_END);
    }
  }

  // ---- one step ----

  lemma FullStepHolds(bools: set<string>, s: Shape, snap: Snapshot, meta: Metadata, c: State, keys: set<string>)
    requires Holds(bools, s.handle, HasDependencyKeyword(s.def), c, s.rows)
    requires StepFits(s.def, bools, Full(snap, meta))
    requires s.rows.Keys <= keys && MaterializedRows(snap.schema, snap.rows).Keys <= keys
    requires HasDependencyKeyword(s.def) ==> TagSafe(keys)
    ensures Holds(bools, s.handle, HasDependencyKeyword(s.def),
                  Client.Replay(s.def.FullReplica(), c, RefreshMessages(s, snap, meta)),
                  MaterializedRows(snap.schema, snap.rows))
  {
    hide DiffRows, Holds, HasDependencyKeyword, TagSafe, MaterializedRows;
    var dep := HasDependencyKeyword(s.def);
    var current := MaterializedRows(snap.schema, snap.rows);
    var diff := DiffRows(s.def, snap.schema, s.def.relation, s.rows, current);
    var related := meta.keyRelation != NO_RELATION && meta.keyRelation != s.def.relation;
    var d := if dep then Dependent(related) else Plain;
    DiffMovesClient(bools, s.handle, dep, d, s.def, snap.schema, s.def.relation, s.rows, current, c, keys);
    if dep {
      DecorateIsDressing(s.handle, related, diff);
      SnapshotEndIsSilent(s.def.FullReplica(), c, DecorateEach(s.handle, related, diff),
                          if related && HasInsert(diff) then [SNAPSHOT_END] else []);
    } else {
      PlainIsDressing(s.handle, diff);
    }
  }

  lemma KeysStepHolds(bools: set<string>, s: Shape, snap: Snapshot, targeted: set<string>, meta: Metadata, c: State)
    requires Holds(bools, s.handle, false, c, s.rows) && !HasDependencyKeyword(s.def)
    requires meta.commitLsn > 0 ==> HasBools(bools, snap.schema)
    ensures Holds(bools, s.handle, false, Client.Replay(s.def.FullReplica(), c, KeysMessages(s, snap, targeted, meta)),
                  Splice(s.rows, targeted, MaterializedRows(snap.schema, snap.rows)))
  {
    hide DiffRows, Holds, HasDependencyKeyword, TagSafe, MaterializedRows;
    var rows := Splice(s.rows, targeted, MaterializedRows(snap.schema, snap.rows));
    var relation := KeyRelation(s.def, meta);
    forall k | k !in targeted ensures SameAt(s.rows, rows, k) {}
    RestrictedDiffIsFullDiff(s.def, snap.schema, relation, targeted, s.rows, rows);
    var diff := DiffRows(s.def, snap.schema, relation, s.rows, rows);
    var d := if meta.commitLsn > 0 then Wire(snap.schema) else Plain;
    DiffMovesClient(bools, s.handle, false, d, s.def, snap.schema, relation, s.rows, rows, c, s.rows.Keys + rows.Keys);
    WireIsDressing(s.handle, snap.schema, diff);
    PlainIsDressing(s.handle, diff);
  }

  lemma ExtendedReplays(full: bool, c: State, s: Shape, schema: Schema, rows: Rows, messages: seq<Message>, meta: Metadata)
    ensures Client.Replay(full, c, Extended(s, schema, rows, messages, meta).changes)
            == Client.Replay(full, Client.Replay(full, c, s.changes), messages)
  {
    var numbered := Numbered(s.offset, messages, meta);
    ReplayConcat(full, c, s.changes, numbered);
    ReplayNumbered(full, Client.Replay(full, c, s.changes), s.offset, messages, meta);
  }

  /** One refresh of either kind keeps "baseline plus log equals rows". */
  lemma StepHolds(bools: set<string>, s: Shape, step: Step, c: State, keys: set<string>)
    requires Holds(bools, s.handle, HasDependencyKeyword(s.def), Client.Replay(s.def.FullReplica(), c, s.changes), s.rows)
    requires StepFits(s.def, bools, step)
    requires s.rows.Keys <= keys && MaterializedRows(step.snap.schema, step.snap.rows).Keys <= keys
    requires HasDependencyKeyword(s.def) ==> TagSafe(keys)
    ensures var t := Take(s, step);
      t.handle == s.handle && t.def == s.def && t.rows.Keys <= keys &&
      Holds(bools, s.handle, HasDependencyKeyword(s.def), Client.Replay(s.def.FullReplica(), c, t.changes), t.rows)
  {
    hide Holds, HasDependencyKeyword, TagSafe, MaterializedRows, KeysMessages, RefreshMessages, TargetedKeys;
    var full := s.def.FullReplica();
    var held := Client.Replay(full, c, s.changes);
    var current := MaterializedRows(step.snap.schema, step.snap.rows);
    match step {
      case Full(snap, meta) =>
        FullStepHolds(bools, s, snap, meta, held, keys);
        ExtendedReplays(full, c, s, snap.schema, current, RefreshMessages(s, snap, meta), meta);
      case ByKeys(snap, keyRows, meta) =>
        var targeted := TargetedKeys(snap.schema, keyRows, snap.rows);
        if targeted != {} {
          KeysStepHolds(bools, s, snap, targeted, meta, held);
          ExtendedReplays(full, c, s, snap.schema, Splice(s.rows, targeted, current), KeysMessages(s, snap, targeted, meta), meta);
          assert Splice(s.rows, targeted, current).Keys <= s.rows.Keys + current.Keys;
        }
    }
  }

  // ---- whole epochs ----

  lemma {:induction false} RunHolds(bools: set<string>, s: Shape, steps: seq<Step>, c: State, keys: set<string>)
    requires Holds(bools, s.handle, HasDependencyKeyword(s.def), Client.Replay(s.def.FullReplica(), c, s.changes), s.rows)
    requires forall i | 0 <= i < |steps| :: StepFits(s.def, bools, steps[i])
    requires AllKeys(s.rows, steps) <= keys
    requires HasDependencyKeyword(s.def) ==> TagSafe(keys)
    ensures var t := Run(s, steps);
      t.handle == s.handle && t.def == s.def && t.rows.Keys <= keys &&
      Holds(bools, s.handle, HasDependencyKeyword(s.def), Client.Replay(s.def.FullReplica(), c, t.changes), t.rows)
  {
    hide Holds, HasDependencyKeyword, TagSafe, MaterializedRows, StepFits, Take;
    if steps != [] {
      var n := |steps| - 1;
      RunHolds(bools, s, steps[..n], c, keys);
      StepHolds(bools, Run(s, steps[..n]), steps[n], c, keys);
    }
  }

  lemma {:induction false} BaselineHolds(bools: set<string>, handle: string, def: Definition, schema: Schema, rows: seq<Row>)
    ensures Holds(bools, handle, HasDependencyKeyword(def),
                  Client.Replay(def.FullReplica(), map[], SnapshotMessages(handle, def, schema, rows)),
                  MaterializedRows(schema, rows))
  {
    hide HasDependencyKeyword, TagValue, PrimaryKeySignature, MessageKey;
    if rows == [] {
      assert Client.Replay(def.FullReplica(), map[], []) == map[];
    } else {
      var n := |rows| - 1;
      BaselineHolds(bools, handle, def, schema, rows[..n]);
      var before := SnapshotMessages(handle, def, schema, rows[..n]);
      var m := SnapshotMessage(handle, def, schema, rows[n]);
      assert SnapshotMessages(handle, def, schema, rows)[..|before|] == before;
      var current := MaterializedRows(schema, rows);
      PutHolds(bools, handle, HasDependencyKeyword(def), Client.Replay(def.FullReplica(), map[], before),
               MaterializedRows(schema, rows[..n]), m.internalKey, rows[n], TagSet(m), current);
      assert Moved(MaterializedRows(schema, rows[..n]), m.internalKey, current) == current;
    }
  }

  /** The rows of the upsert as messages, followed by the log, rebuild the shape's rows. */
  lemma RowsPlusLog(bools: set<string>, before: Shape, def: Definition, snap: Snapshot, offset: string, steps: seq<Step>)
    requires forall i | 0 <= i < |steps| :: StepFits(def, bools, steps[i])
    requires HasDependencyKeyword(def) ==> TagSafe(AllKeys(MaterializedRows(snap.schema, snap.rows), steps))
    ensures var s := Run(Upserted(before, def, snap, offset), steps);
      var baseline := SnapshotMessages(before.handle, def, snap.schema, snap.rows);
      Holds(bools, before.handle, HasDependencyKeyword(def),
            Client.Replay(def.FullReplica(), map[], baseline + s.changes), s.rows)
  {
    hide Holds, HasDependencyKeyword, TagSafe, MaterializedRows, StepFits, Take, SnapshotMessages;
    var start := Upserted(before, def, snap, offset);
    var baseline := SnapshotMessages(before.handle, def, snap.schema, snap.rows);
    var c := Client.Replay(def.FullReplica(), map[], baseline);
    BaselineHolds(bools, before.handle, def, snap.schema, snap.rows);
    assert Client.Replay(def.FullReplica(), c, []) == c;
    RunHolds(bools, start, steps, c, AllKeys(start.rows, steps));
    ReplayConcat(def.FullReplica(), map[], baseline, Run(start, steps).changes);
  }

  /** A shape that logs only changes sends no snapshot, so its clients start right only without rows. */
  predicate BaselineSent(def: Definition, snap: Snapshot)
  {
    def.log != "changes_only" || snap.rows == []
  }

  lemma TakeKeepsSnapshot(s: Shape, step: Step)
    ensures Take(s, step).snapshot == s.snapshot
  {
    hide MaterializedRows, RefreshMessages, KeysMessages, TargetedKeys, Splice, Numbered;
  }

  lemma {:induction false} RunKeepsSnapshot(s: Shape, steps: seq<Step>)
    ensures Run(s, steps).snapshot == s.snapshot
  {
    hide Take;
    if steps != [] {
      RunKeepsSnapshot(s, steps[..|steps| - 1]);
      TakeKeepsSnapshot(Run(s, steps[..|steps| - 1]), steps[|steps| - 1]);
    }
  }

  lemma SentSnapshot(before: Shape, def: Definition, snap: Snapshot, offset: string)
    ensures BaselineSent(def, snap) ==>
      Upserted(before, def, snap, offset).snapshot == SnapshotMessages(before.handle, def, snap.schema, snap.rows)
    ensures !BaselineSent(def, snap) ==> Upserted(before, def, snap, offset).snapshot == []
  {
    hide SnapshotMessage, MaterializedRows;
  }

  /** Baseline plus log equals state. For every upsert and every run of refreshes after it, the snapshot
      that the shape sends followed by its log rebuilds exactly the shape's rows, if the rows it starts
      with are sent; if they are not, already the start is wrong. Missing columns read as NULL and boolean
      columns are equal up to their two spellings. For a dependent shape the log speaks in tags, and no two
      keys may share one. */
  lemma BaselinePlusLog(bools: set<string>, before: Shape, def: Definition, snap: Snapshot, offset: string, steps: seq<Step>)
    requires forall i | 0 <= i < |steps| :: StepFits(def, bools, steps[i])
    requires HasDependencyKeyword(def) ==> TagSafe(AllKeys(MaterializedRows(snap.schema, snap.rows), steps))
    ensures var s := Run(Upserted(before, def, snap, offset), steps);
      BaselineSent(def, snap) ==>
      Holds(bools, before.handle, HasDependencyKeyword(def), Client.Replay(def.FullReplica(), map[], s.snapshot + s.changes), s.rows)
    ensures var s := Upserted(before, def, snap, offset);
      Holds(bools, before.handle, HasDependencyKeyword(def), Client.Replay(def.FullReplica(), map[], s.snapshot + s.changes), s.rows)
      <==> BaselineSent(def, snap)
  {
    hide Holds, HasDependencyKeyword, TagSafe, StepFits, Take, SnapshotMessages, BaselineSent, AllKeys, PrimaryKeySignature;
    var start := Upserted(before, def, snap, offset);
    SentSnapshot(before, def, snap, offset);
    RunKeepsSnapshot(start, steps);
    RowsPlusLog(bools, before, def, snap, offset, steps);
    BaselineHolds(bools, before.handle, def, snap.schema, snap.rows);
    assert start.snapshot + start.changes == start.snapshot;
    if !BaselineSent(def, snap) {
      UnsentRows(def, snap);
      EmptyHoldsNothing(bools, before.handle, HasDependencyKeyword(def), start.rows);
      assert Client.Replay(def.FullReplica(), map[], []) == map[];
    }
  }

  lemma UnsentRows(def: Definition, snap: Snapshot)
    requires !BaselineSent(def, snap)
    ensures MaterializedRows(snap.schema, snap.rows) != map[]
  {
    hide PrimaryKeySignature;
    assert PrimaryKeySignature(snap.schema, snap.rows[|snap.rows| - 1]) in MaterializedRows(snap.schema, snap.rows);
  }

  lemma EmptyHoldsNothing(bools: set<string>, handle: string, dependent: bool, rows: Rows)
    requires rows != map[]
    ensures !Holds(bools, handle, dependent, map[], rows)
  {
    assert rows.Keys != {};
  }

  // ---- when tags are safe ----

  lemma PlainKeysAreTagSafe(keys: set<string>)
    requires forall k | k in keys :: k != "" && '=' !in k
    ensures TagSafe(keys)
  {
  }

  /** A move-out withdraws the one row it names exactly when no other row has the same tag
      value; keys `a=1` and `b=1` have. */
  lemma MoveOutExactIff(bools: set<string>, handle: string, c: State, rows: Rows, k: string)
    requires Holds(bools, handle, true, c, rows) && k in rows && k != ""
    ensures (map x | x in c && DependentTag(handle, k) !in c[x].tags :: c[x]) == c - {k}
            <==> forall x | x in rows && x != "" && x != k :: TagValue(x) != TagValue(k)
  {
    hide TagValue, SameRow;
    var left := map x | x in c && DependentTag(handle, k) !in c[x].tags :: c[x];
    forall x | x in c && x != "" ensures DependentTag(handle, k) in c[x].tags <==> TagValue(x) == TagValue(k) {
      TagsDistinguish(handle, x, k);
    }
    if left == c - {k} {
      forall x | x in rows && x != "" && x != k ensures TagValue(x) != TagValue(k) {
        assert x in c - {k};
        assert x in left;
      }
    }
  }

  lemma ValueKeysCollide(handle: string)
    ensures DependentTag(handle, "a=1") == DependentTag(handle, "b=1")
    ensures !TagSafe({"a=1", "b=1"})
  {
    assert "a=1"[1..] == "=1" && "b=1"[1..] == "=1";
    assert FirstIndex("a=1", '=') == 1 && FirstIndex("b=1", '=') == 1;
    assert "a=1"[2..] == "1" && "b=1"[2..] == "1";
    assert "a=1"[0] != "b=1"[0];
  }
}
