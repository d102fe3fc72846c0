/** What one refresh tells a client: which rows entered, changed or left, as the rows before and after have it, with the
    tags, the move-ins and move-outs of dependent shapes and the printing of booleans. */
module RefreshContents {
  import opened Strings
  import opened Keys
  import opened Diff
  import opened ShapeLog
  import opened DiffContents
  import Sanitizer

  // ---- which shapes are tagged ----

  /** The texts of a definition that may name another table. */
  function Texts(def: Definition): seq<string>
  {
    [def.where_] + (match def.subset case None => [] case Some(s) => [s.where_, s.whereExpr, s.orderBy, s.orderByExpr])
  }

  ghost predicate Queries(text: string)
  {
    exists w :: Sanitizer.DependencyWord(w) && Sanitizer.StandsIn(Sanitizer.Sanitized(Sanitizer.Normal, text), w)
  }

  /** One of the seven words stands in one of the texts. */
  ghost predicate Dependent(def: Definition)
  {
    exists i :: 0 <= i < |Texts(def)| && Queries(Texts(def)[i])
  }

  lemma TaggedIff(def: Definition)
    ensures HasDependencyKeyword(def) <==> Dependent(def)
  {
    hide Sanitizer.ContainsDependencyKeyword, Queries;
    var texts := Texts(def);
    forall i | 0 <= i < |texts| ensures Sanitizer.ContainsDependencyKeyword(texts[i]) <==> Queries(texts[i]) { QueriesIff(texts[i]); }
    assert texts[0] == def.where_;
    if def.subset.Some? {
      var s := def.subset.value;
      assert texts[1] == s.where_ && texts[2] == s.whereExpr && texts[3] == s.orderBy && texts[4] == s.orderByExpr;
    }
  }

  lemma QueriesIff(text: string)
    ensures Sanitizer.ContainsDependencyKeyword(text) <==> Queries(text)
  {
    hide *;
    Sanitizer.RecognisedIff(text);
    QueriesIs(text);
  }

  lemma QueriesIs(text: string)
    ensures Queries(text) <==>
      exists w :: Sanitizer.DependencyWord(w) && Sanitizer.StandsIn(Sanitizer.Sanitized(Sanitizer.Normal, text), w)
  {
    hide Sanitizer.Sanitized, Sanitizer.StandsIn, Sanitizer.DependencyWord;
  }

  // ---- a full refresh ----

  /** The tag of a key, or none for the empty key. */
  function TagsOf(handle: string, k: string): seq<string>
  {
    if k == "" then [] else [DependentTag(handle, k)]
  }

  /** The change came from another relation than the shape's own. */
  predicate FromOther(def: Definition, meta: Metadata)
  {
    meta.keyRelation != NO_RELATION && meta.keyRelation != def.relation
  }

  /** What message `m` of a dependent refresh from `s.rows` to `now` says. */
  ghost predicate Tells(s: Shape, schema: Schema, now: Rows, other: bool, m: Message)
  {
    var k := m.internalKey;
    match m.body
    case MoveOut(pattern) =>
      other && k in s.rows && k !in now && pattern == DependentTag(s.handle, k) && m.key == "" && m.tags == [] && !m.moveIn &&
      m.commit.None? && m.offset == ""
    case SnapshotEnd => other && m == SNAPSHOT_END && exists x :: x in now && x !in s.rows
    case Change(op, _, _) =>
      Says(s.def, schema, s.def.relation, s.rows, now, m.(tags := [], moveIn := false)) && m.tags == TagsOf(s.handle, k) &&
      (m.moveIn <==> other && op == Insert) && (op == Delete ==> !other)
  }

  lemma {:induction false} DecoratedAt(handle: string, related: bool, messages: seq<Message>, i: nat)
    requires i < |messages|
    ensures DecorateEach(handle, related, messages)[i] == DecorateOne(handle, related, messages[i])
  {
    hide DecorateOne;
    if i > 0 { DecoratedAt(handle, related, messages[1..], i - 1); }
  }

  lemma OneTells(s: Shape, schema: Schema, now: Rows, other: bool, m: Message)
    requires Says(s.def, schema, s.def.relation, s.rows, now, m)
    ensures Tells(s, schema, now, other, DecorateOne(s.handle, other, m)) && !DecorateOne(s.handle, other, m).body.SnapshotEnd?
    ensures DecorateOne(s.handle, other, m).internalKey == m.internalKey
  {
    hide DiffersAt, DeleteSays, UpdateSays, MessageKey, DependentTag;
    var d := DecorateOne(s.handle, other, m);
    assert !d.body.MoveOut? ==> d.(tags := [], moveIn := false) == m;
  }

  /** The keys of the row messages are exactly the keys at which the rows differ, one message each and in order, and a
      control message stands at the end exactly when the change of another relation let a row in. */
  ghost predicate Covers(s: Shape, now: Rows, other: bool, out: seq<Message>)
  {
    var entered := other && exists x :: x in now && x !in s.rows;
    var n := if entered && out != [] then |out| - 1 else |out|;
    (entered ==> out != [] && out[n].body.SnapshotEnd?) &&
    (forall i | 0 <= i < n :: !out[i].body.SnapshotEnd?) &&
    (forall i, j | 0 <= i < j < n :: Less(out[i].internalKey, out[j].internalKey)) &&
    forall k :: Mentions(out[..n], k) <==> DiffersAt(s.rows, now, k)
  }

  /** A diff holds an insert exactly when a key entered. */
  lemma InsertsIff(s: Shape, schema: Schema, now: Rows)
    ensures HasInsert(DiffRows(s.def, schema, s.def.relation, s.rows, now)) <==> exists x :: x in now && x !in s.rows
  {
    hide DiffRows, DeleteSays, UpdateSays, MessageKey;
    DiffIsExact(s.def, schema, s.def.relation, s.rows, now);
    var diff := DiffRows(s.def, schema, s.def.relation, s.rows, now);
    if HasInsert(diff) {
      var i :| 0 <= i < |diff| && diff[i].body.Change? && diff[i].body.op == Insert;
      assert Says(s.def, schema, s.def.relation, s.rows, now, diff[i]);
    }
    if x :| x in now && x !in s.rows {
      assert DiffersAt(s.rows, now, x) && Mentions(diff, x);
      var i :| 0 <= i < |diff| && diff[i].internalKey == x;
      assert Says(s.def, schema, s.def.relation, s.rows, now, diff[i]);
    }
  }

  /** A whole refresh of a dependent shape after a commit of `meta.keyRelation`: a row that left because of another
      relation is moved out by its tag, a row that entered is marked as moved in, every row message has the tag of its
      key, and the batch ends with the control message exactly when a row was moved in. */
  lemma DependentRefreshTells(s: Shape, snap: Snapshot, meta: Metadata)
    requires meta.dependent && Dependent(s.def)
    ensures var out, now, other := RefreshMessages(s, snap, meta), MaterializedRows(snap.schema, snap.rows), FromOther(s.def, meta);
      (forall i | 0 <= i < |out| :: Tells(s, snap.schema, now, other, out[i])) && Covers(s, now, other, out)
  {
    TaggedIff(s.def);
    hide Dependent, HasDependencyKeyword, MaterializedRows, DiffRows, HasInsert, Says, Tells, DecorateOne, Less, DiffersAt;
    var now, other := MaterializedRows(snap.schema, snap.rows), FromOther(s.def, meta);
    var diff := DiffRows(s.def, snap.schema, s.def.relation, s.rows, now);
    var out := RefreshMessages(s, snap, meta);
    DiffIsExact(s.def, snap.schema, s.def.relation, s.rows, now);
    InsertsIff(s, snap.schema, now);
    forall i | 0 <= i < |diff|
      ensures Tells(s, snap.schema, now, other, out[i]) && !out[i].body.SnapshotEnd? && out[i].internalKey == diff[i].internalKey
    {
      DecoratedAt(s.handle, other, diff, i);
      OneTells(s, snap.schema, now, other, diff[i]);
    }
    if |out| > |diff| {
      assert out[|diff|] == SNAPSHOT_END;
      EndTells(s, snap.schema, now);
    }
    SameMentions(diff, out[..|diff|]);
  }

  lemma EndTells(s: Shape, schema: Schema, now: Rows)
    requires exists x :: x in now && x !in s.rows
    ensures Tells(s, schema, now, true, SNAPSHOT_END)
  {
  }

  lemma SameMentions(a: seq<Message>, b: seq<Message>)
    requires |a| == |b| && forall i | 0 <= i < |a| :: a[i].internalKey == b[i].internalKey
    ensures forall k :: Mentions(a, k) <==> Mentions(b, k)
  {
    forall k ensures Mentions(a, k) <==> Mentions(b, k) {
      if Mentions(a, k) {
        var i :| 0 <= i < |a| && a[i].internalKey == k;
        assert b[i].internalKey == k;
      }
      if Mentions(b, k) {
        var i :| 0 <= i < |b| && b[i].internalKey == k;
        assert a[i].internalKey == k;
      }
    }
  }

  /** Any other whole refresh is the bare diff, under the shape's own relation. */
  lemma PlainRefreshTells(s: Shape, snap: Snapshot, meta: Metadata)
    requires !meta.dependent || !Dependent(s.def)
    ensures RefreshMessages(s, snap, meta) ==
      DiffRows(s.def, snap.schema, s.def.relation, s.rows, MaterializedRows(snap.schema, snap.rows))
  {
    TaggedIff(s.def);
    hide Dependent, HasDependencyKeyword, MaterializedRows, DiffRows;
  }

  // ---- a refresh by keys ----

  /** The cell is the original, except that a boolean column shows `t` for true and `f` for false. */
  predicate Shows(schema: Schema, column: string, original: Option<string>, shown: Option<string>)
  {
    var boolean := column in schema && schema[column].typ == "bool";
    if boolean && original == Some("true") then shown == Some("t")
    else if boolean && original == Some("false") then shown == Some("f")
    else shown == original
  }

  ghost predicate ShowsRow(schema: Schema, original: Row, shown: Row)
  {
    original.Keys == shown.Keys && forall c | c in original :: Shows(schema, c, original[c], shown[c])
  }

  /** A live message: what a plain message says, with booleans shown as the replication stream prints them. */
  ghost predicate ShowsMessage(schema: Schema, plain: Message, shown: Message)
  {
    plain.body.Change? && shown.body.Change? && shown == plain.(body := shown.body) && shown.body.op == plain.body.op &&
    ShowsRow(schema, plain.body.value, shown.body.value) && ShowsRow(schema, plain.body.oldValue, shown.body.oldValue)
  }

  lemma {:induction false} WireAt(schema: Schema, messages: seq<Message>, i: nat)
    requires i < |messages|
    ensures WireMessages(schema, messages)[i] == WireMessage(schema, messages[i])
  {
    hide WireMessage;
    if i > 0 { WireAt(schema, messages[1..], i - 1); }
  }

  lemma WireShows(schema: Schema, m: Message)
    requires m.body.Change?
    ensures ShowsMessage(schema, m, WireMessage(schema, m))
  {
  }

  /** A refresh by keys sends one message for each targeted key at which the rows differ, under the relation that
      changed, and prints booleans as `t` and `f` exactly when it is for a commit. */
  lemma KeysRefreshTells(s: Shape, snap: Snapshot, keys: set<string>, meta: Metadata)
    ensures var relation := if meta.keyRelation == NO_RELATION then s.def.relation else meta.keyRelation;
      var now := MaterializedRows(snap.schema, snap.rows);
      var plain := DiffRows(s.def, snap.schema, relation, Restrict(s.rows, keys), Restrict(now, keys));
      var out := KeysMessages(s, snap, keys, meta);
      |out| == |plain| && forall i | 0 <= i < |out| ::
        if meta.commitLsn > 0 then ShowsMessage(snap.schema, plain[i], out[i]) else out[i] == plain[i]
  {
    hide MaterializedRows, DiffRows, WireMessage, Says, ShowsMessage, MessageKey;
    var now, relation := MaterializedRows(snap.schema, snap.rows), KeyRelation(s.def, meta);
    var previous, current := Restrict(s.rows, keys), Restrict(Splice(s.rows, keys, now), keys);
    SplicedPart(s.rows, keys, now);
    var plain := DiffRows(s.def, snap.schema, relation, previous, current);
    DiffIsExact(s.def, snap.schema, relation, previous, current);
    if meta.commitLsn > 0 {
      forall i | 0 <= i < |plain| ensures ShowsMessage(snap.schema, plain[i], KeysMessages(s, snap, keys, meta)[i]) {
        SaysChange(s.def, snap.schema, relation, previous, current, plain[i]);
        WireAt(snap.schema, plain, i);
        WireShows(snap.schema, plain[i]);
      }
    }
  }

  lemma SplicedPart(rows: Rows, keys: set<string>, now: Rows)
    ensures Restrict(Splice(rows, keys, now), keys) == Restrict(now, keys)
  {
    forall k | k in keys ensures SameAt(Splice(rows, keys, now), now, k) {}
  }

  lemma SaysChange(def: Definition, schema: Schema, relation: Relation, previous: Rows, current: Rows, m: Message)
    requires Says(def, schema, relation, previous, current, m)
    ensures m.body.Change?
  {
  }

  // ---- the first rows ----

  /** The snapshot of an epoch has one insert for each queried row, in order, with the tag of its key if the shape is
      dependent, and nothing at all in a log of changes only. */
  lemma {:induction false} SnapshotTells(s: Shape, def: Definition, snap: Snapshot, offset: string)
    ensures var sent := Upserted(s, def, snap, offset).snapshot;
      |sent| == (if def.log == "changes_only" then 0 else |snap.rows|) &&
      forall i | 0 <= i < |sent| :: SendsRow(s.handle, def, snap.schema, snap.rows[i], sent[i])
  {
    hide SnapshotMessages, MaterializedRows, SendsRow;
    if def.log != "changes_only" { MessagesTell(s.handle, def, snap.schema, snap.rows); }
  }

  ghost predicate SendsRow(handle: string, def: Definition, schema: Schema, row: Row, m: Message)
  {
    m.body == Change(Insert, row, map[]) && m.key == MessageKey(def.relation, schema, row) &&
    m.internalKey == PrimaryKeySignature(schema, row) && !m.moveIn && m.commit.None? && m.offset == "" &&
    m.tags == if Dependent(def) then TagsOf(handle, m.internalKey) else []
  }

  lemma {:induction false} MessagesTell(handle: string, def: Definition, schema: Schema, rows: seq<Row>)
    ensures var sent := SnapshotMessages(handle, def, schema, rows);
      |sent| == |rows| && forall i | 0 <= i < |sent| :: SendsRow(handle, def, schema, rows[i], sent[i])
  {
    hide SendsRow, SnapshotMessage;
    if rows != [] {
      var n := |rows| - 1;
      MessagesTell(handle, def, schema, rows[..n]);
      MessageTells(handle, def, schema, rows[n]);
    }
  }

  lemma MessageTells(handle: string, def: Definition, schema: Schema, row: Row)
    ensures SendsRow(handle, def, schema, row, SnapshotMessage(handle, def, schema, row))
  {
    TaggedIff(def);
    hide Dependent, HasDependencyKeyword, MessageKey, PrimaryKeySignature, DependentTag;
  }
}
