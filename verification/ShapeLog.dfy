/** One shape: its rows, its change log and its offset, and the operations that extend or
    read the log. Models the per-shape part of internal/shapes/manager.go. */
module ShapeLog {
  import opened Strings
  import opened Offsets
  import opened Keys
  import opened Diff
  import Sanitizer

  datatype Snapshot = Snapshot(schema: Schema, rows: seq<Row>)

  datatype Metadata = Metadata(keyRelation: Relation, commitLsn: nat, xid: nat, dependent: bool)

  const NO_RELATION := Relation("", "")
  const NO_METADATA := Metadata(NO_RELATION, 0, 0, false)

  /** `hash` is the canonical form of the definition, standing for its digest. */
  datatype Shape = Shape(handle: string, hash: Definition, def: Definition, schema: Schema, snapshot: seq<Message>,
                         changes: seq<Message>, rows: Rows, offset: string, generation: nat, deleted: bool)

  // ---- rows ----

  /** Rows by signature; a later row replaces an earlier one with the same signature. */
  function MaterializedRows(schema: Schema, rows: seq<Row>): Rows
  {
    if rows == [] then map[] else
      var last := rows[|rows| - 1];
      MaterializedRows(schema, rows[..|rows| - 1])[PrimaryKeySignature(schema, last) := last]
  }

  method BuildMaterialized(schema: Schema, rows: seq<Row>) returns (result: Rows)
    ensures result == MaterializedRows(schema, rows)
  {
    result := map[];
    for i := 0 to |rows|
      invariant result == MaterializedRows(schema, rows[..i])
    {
      assert rows[..i + 1][..i] == rows[..i];
      result := result[PrimaryKeySignature(schema, rows[i]) := rows[i]];
    }
    assert rows[..|rows|] == rows;
  }

  /** Nonempty signatures of the key rows and of the queried rows. */
  function TargetedKeys(schema: Schema, keyRows: seq<Row>, rows: seq<Row>): set<string>
  {
    (set i | 0 <= i < |keyRows| && PrimaryKeySignature(schema, keyRows[i]) != "" :: PrimaryKeySignature(schema, keyRows[i])) +
    (set i | 0 <= i < |rows| && PrimaryKeySignature(schema, rows[i]) != "" :: PrimaryKeySignature(schema, rows[i]))
  }

  /** `rows` with exactly the part under `keys` replaced by what `current` has there. */
  function Splice(rows: Rows, keys: set<string>, current: Rows): (r: Rows)
    ensures forall k :: if k in keys then SameAt(r, current, k) else SameAt(r, rows, k)
  {
    (map k | k in rows && k !in keys :: rows[k]) + (map k | k in current && k in keys :: current[k])
  }

  // ---- dependent shapes: tags, move-ins and move-outs ----

  predicate HasDependencyKeyword(def: Definition)
  {
    Sanitizer.ContainsDependencyKeyword(def.where_) ||
    (def.subset.Some? &&
     (Sanitizer.ContainsDependencyKeyword(def.subset.value.where_) ||
      Sanitizer.ContainsDependencyKeyword(def.subset.value.whereExpr) ||
      Sanitizer.ContainsDependencyKeyword(def.subset.value.orderBy) ||
      Sanitizer.ContainsDependencyKeyword(def.subset.value.orderByExpr)))
  }

  /** A key of the form `name=value` without a bar is tagged by its value alone. */
  function TagValue(key: string): string
  {
    if '|' !in key && '=' in key then key[FirstIndex(key, '=') + 1..] else key
  }

  /** The text whose digest is the tag; the digest is taken to be injective. */
  function DependentTag(handle: string, key: string): string
  {
    handle + "v:" + TagValue(key)
  }

  function Tagged(handle: string, m: Message): Message
  {
    if m.internalKey == "" then m else m.(tags := [DependentTag(handle, m.internalKey)])
  }

  function MoveOutMessage(handle: string, key: string): Message
  {
    Message(MoveOut(DependentTag(handle, key)), "", key, [], false, None, "")
  }

  const SNAPSHOT_END := Message(SnapshotEnd, "", "", [], false, None, "")

  function DecorateOne(handle: string, related: bool, m: Message): Message
  {
    if related && m.body.Change? && m.body.op == Delete then MoveOutMessage(handle, m.internalKey)
    else if related && m.body.Change? && m.body.op == Insert then Tagged(handle, m).(moveIn := true)
    else Tagged(handle, m)
  }

  function DecorateEach(handle: string, related: bool, messages: seq<Message>): (r: seq<Message>)
    ensures |r| == |messages|
  {
    if messages == [] then [] else
      [DecorateOne(handle, related, messages[0])] + DecorateEach(handle, related, messages[1..])
  }

  predicate HasInsert(messages: seq<Message>)
  {
    exists i | 0 <= i < |messages| :: messages[i].body.Change? && messages[i].body.op == Insert
  }

  function Decorated(handle: string, def: Definition, messages: seq<Message>, meta: Metadata): seq<Message>
  {
    if !HasDependencyKeyword(def) then messages else
      var related := meta.keyRelation != NO_RELATION && meta.keyRelation != def.relation;
      DecorateEach(handle, related, messages) + (if related && HasInsert(messages) then [SNAPSHOT_END] else [])
  }

  function SnapshotMessage(handle: string, def: Definition, schema: Schema, row: Row): Message
  {
    var m := RowMessage(Insert, def.relation, schema, row, PrimaryKeySignature(schema, row), row, map[]);
    if HasDependencyKeyword(def) then Tagged(handle, m) else m
  }

  function SnapshotMessages(handle: string, def: Definition, schema: Schema, rows: seq<Row>): seq<Message>
  {
    if rows == [] then [] else
      SnapshotMessages(handle, def, schema, rows[..|rows| - 1]) + [SnapshotMessage(handle, def, schema, rows[|rows| - 1])]
  }

  // ---- numbering ----

  /** Message `i` of a batch as it enters the log. */
  function Stamped(current: string, m: Message, i: nat, last: bool, meta: Metadata): Message
  {
    if meta.commitLsn > 0 then
      m.(offset := FormatLsnOffset(meta.commitLsn, i),
         commit := if meta.dependent then m.commit else Some(CommitHeader(meta.commitLsn, i, meta.xid, last)))
    else if m.offset == "" then m.(offset := NextGeneratedOffset(current, i))
    else m
  }

  function Numbered(current: string, messages: seq<Message>, meta: Metadata): (r: seq<Message>)
    ensures |r| == |messages|
    ensures forall i | 0 <= i < |r| :: r[i] == Stamped(current, messages[i], i, i == |messages| - 1, meta)
  {
    seq(|messages|, i requires 0 <= i < |messages| => Stamped(current, messages[i], i, i == |messages| - 1, meta))
  }

  function LastOffset(current: string, messages: seq<Message>): string
  {
    if messages == [] then current else messages[|messages| - 1].offset
  }

  method StampOne(current: string, m: Message, i: nat, meta: Metadata) returns (r: Message)
    ensures r == Stamped(current, m, i, false, meta)
  {
    r := m;
    if meta.commitLsn > 0 {
      r := r.(offset := FormatLsnOffset(meta.commitLsn, i));
      if !meta.dependent {
        r := r.(commit := Some(CommitHeader(meta.commitLsn, i, meta.xid, false)));
      }
    } else if r.offset == "" {
      r := r.(offset := NextGeneratedOffset(current, i));
    }
  }

  /** Only the last message of a commit carries the `last` mark. */
  function MarkLast(m: Message, meta: Metadata): Message
  {
    if meta.commitLsn > 0 && !meta.dependent && m.commit.Some? then m.(commit := Some(m.commit.value.(last := true))) else m
  }

  /** applyChangeOffsets: numbers the messages in place and returns the last offset. */
  method ApplyChangeOffsets(current: string, messages: array<Message>, meta: Metadata) returns (offset: string)
    modifies messages
    ensures messages[..] == Numbered(current, old(messages[..]), meta)
    ensures offset == LastOffset(current, messages[..])
  {
    var n := messages.Length;
    for i := 0 to n
      invariant forall k | 0 <= k < i :: messages[k] == Stamped(current, old(messages[k]), k, false, meta)
      invariant forall k | i <= k < n :: messages[k] == old(messages[k])
    {
      messages[i] := StampOne(current, messages[i], i, meta);
    }
    if n == 0 {
      return current;
    }
    messages[n - 1] := MarkLast(messages[n - 1], meta);
    offset := messages[n - 1].offset;
    ghost var was := old(messages[..]);
    assert |was| == n && forall k | 0 <= k < n :: was[k] == old(messages[k]);
    assert forall k | 0 <= k < n :: messages[..][k] == Numbered(current, was, meta)[k];
  }

  // ---- operations on a live shape ----

  function Extended(s: Shape, schema: Schema, rows: Rows, messages: seq<Message>, meta: Metadata): Shape
  {
    var numbered := Numbered(s.offset, messages, meta);
    s.(schema := schema, rows := rows, changes := s.changes + numbered, offset := LastOffset(s.offset, numbered))
  }

  /** The unnumbered messages of a full refresh. */
  function RefreshMessages(s: Shape, snap: Snapshot, meta: Metadata): seq<Message>
  {
    var diff := DiffRows(s.def, snap.schema, s.def.relation, s.rows, MaterializedRows(snap.schema, snap.rows));
    if meta.dependent then Decorated(s.handle, s.def, diff, meta) else diff
  }

  function Refreshed(s: Shape, snap: Snapshot, meta: Metadata): Shape
  {
    Extended(s, snap.schema, MaterializedRows(snap.schema, snap.rows), RefreshMessages(s, snap, meta), meta)
  }

  /** Live messages print booleans as `t` and `f`. */
  function WireCell(schema: Schema, column: string, cell: Option<string>): Option<string>
  {
    if column in schema && schema[column].typ == "bool" then
      if cell == Some("true") then Some("t") else if cell == Some("false") then Some("f") else cell
    else cell
  }

  function WireRow(schema: Schema, row: Row): Row
  {
    map c | c in row :: WireCell(schema, c, row[c])
  }

  function WireMessage(schema: Schema, m: Message): Message
  {
    if m.body.Change? then
      m.(body := Change(m.body.op, WireRow(schema, m.body.value), WireRow(schema, m.body.oldValue)))
    else m
  }

  function WireMessages(schema: Schema, messages: seq<Message>): (r: seq<Message>)
    ensures |r| == |messages|
  {
    if messages == [] then [] else [WireMessage(schema, messages[0])] + WireMessages(schema, messages[1..])
  }

  function KeyRelation(def: Definition, meta: Metadata): Relation
  {
    if meta.keyRelation == NO_RELATION then def.relation else meta.keyRelation
  }

  function KeysMessages(s: Shape, snap: Snapshot, keys: set<string>, meta: Metadata): seq<Message>
  {
    var rows := Splice(s.rows, keys, MaterializedRows(snap.schema, snap.rows));
    var diff := DiffRows(s.def, snap.schema, KeyRelation(s.def, meta), Restrict(s.rows, keys), Restrict(rows, keys));
    if meta.commitLsn > 0 then WireMessages(snap.schema, diff) else diff
  }

  /** A refresh of only the rows whose keys were touched. */
  function KeysRefreshed(s: Shape, snap: Snapshot, keyRows: seq<Row>, meta: Metadata): Shape
  {
    var keys := TargetedKeys(snap.schema, keyRows, snap.rows);
    if keys == {} then s else
      Extended(s, snap.schema, Splice(s.rows, keys, MaterializedRows(snap.schema, snap.rows)),
               KeysMessages(s, snap, keys, meta), meta)
  }

  /** A new epoch of the shape: new baseline rows, an empty log, the given offset. */
  function Upserted(s: Shape, def: Definition, snap: Snapshot, offset: string): Shape
  {
    s.(def := def, schema := snap.schema, changes := [],
       snapshot := if def.log == "changes_only" then [] else SnapshotMessages(s.handle, def, snap.schema, snap.rows),
       rows := MaterializedRows(snap.schema, snap.rows), offset := offset, deleted := false)
  }

  // ---- appending given messages ----

  function AppliedRows(rows: Rows, m: Message): Rows
  {
    var key := if m.internalKey == "" then m.key else m.internalKey;
    if !m.body.Change? then rows
    else if m.body.op == Delete then rows - {key}
    else rows[key := m.body.value]
  }

  function AppendOne(s: Shape, m: Message, i: nat): Shape
  {
    var numbered := if m.offset == "" then m.(offset := NextGeneratedOffset(s.offset, i)) else m;
    s.(changes := s.changes + [numbered], rows := AppliedRows(s.rows, numbered),
       offset := if CompareOffsets(numbered.offset, s.offset) > 0 then numbered.offset else s.offset)
  }

  function Appended(s: Shape, messages: seq<Message>): Shape
  {
    if messages == [] then s else
      AppendOne(Appended(s, messages[..|messages| - 1]), messages[|messages| - 1], |messages| - 1)
  }

  method AppendMessages(s: Shape, messages: seq<Message>) returns (r: Shape)
    ensures r == Appended(s, messages)
  {
    r := s;
    for i := 0 to |messages|
      invariant r == Appended(s, messages[..i])
    {
      assert messages[..i + 1][..i] == messages[..i];
      r := AppendOne(r, messages[i], i);
    }
    assert messages[..|messages|] == messages;
  }

  // ---- reading ----

  datatype ReadResult = Messages(messages: seq<Message>) | OutOfRange | ShapeDeleted

  function After(changes: seq<Message>, offset: string): seq<Message>
  {
    if changes == [] then [] else
      var last := changes[|changes| - 1];
      After(changes[..|changes| - 1], offset) + (if CompareOffsets(last.offset, offset) > 0 then [last] else [])
  }

  function ReadLog(s: Shape, offset: string): ReadResult
  {
    if s.deleted then ShapeDeleted
    else if ParseOffset(offset).Invalid? || CompareOffsets(offset, s.offset) > 0 then OutOfRange
    else if CompareOffsets(offset, s.offset) == 0 then Messages([])
    else Messages(After(s.changes, offset))
  }

  /** The filtering loop of readLocked. */
  method ReadLocked(s: Shape, offset: string) returns (r: ReadResult)
    ensures r == ReadLog(s, offset)
  {
    hide ParseOffset, CompareParsed;
    if s.deleted {
      return ShapeDeleted;
    }
    if ParseOffset(offset).Invalid? {
      return OutOfRange;
    }
    var comparison := CompareOffsets(offset, s.offset);
    if comparison > 0 {
      return OutOfRange;
    }
    if comparison == 0 {
      return Messages([]);
    }
    var filtered := [];
    for i := 0 to |s.changes|
      invariant filtered == After(s.changes[..i], offset)
    {
      assert s.changes[..i + 1][..i] == s.changes[..i];
      if CompareOffsets(s.changes[i].offset, offset) > 0 {
        filtered := filtered + [s.changes[i]];
      }
    }
    assert s.changes[..|s.changes|] == s.changes;
    return Messages(filtered);
  }
}
