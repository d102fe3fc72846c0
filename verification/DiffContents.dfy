/** What the messages of a diff carry: one message for each key that changed and no other, in key order, and in full
    replica mode enough to go back from the new rows to the old ones. */
module DiffContents {
  import opened Strings
  import opened Keys
  import opened Diff
  import opened ShapeLog
  import opened Client

  // ---- one message per changed key ----

  /** The two row maps differ at `k`: one lacks it, or some column differs, a missing one being NULL in the old row. */
  ghost predicate DiffersAt(previous: Rows, current: Rows, k: string)
  {
    if k in previous && k in current then
      (exists c :: c in current[k] && Cell(previous[k], c) != current[k][c]) || (exists c :: c in previous[k] && c !in current[k])
    else k in previous || k in current
  }

  lemma ChangedIff(oldRow: Row, newRow: Row)
    ensures ChangedColumns(oldRow, newRow) != {} <==>
      (exists c :: c in newRow && Cell(oldRow, c) != newRow[c]) || (exists c :: c in oldRow && c !in newRow)
  {
    if ChangedColumns(oldRow, newRow) != {} {
      var c :| c in ChangedColumns(oldRow, newRow);
    }
    if exists c :: c in newRow && Cell(oldRow, c) != newRow[c] {
      var c :| c in newRow && Cell(oldRow, c) != newRow[c];
      assert c in ChangedColumns(oldRow, newRow);
    }
    if exists c :: c in oldRow && c !in newRow {
      var c :| c in oldRow && c !in newRow;
      assert c in ChangedColumns(oldRow, newRow);
    }
  }

  /** What a message says about its key, column by column. */
  ghost predicate Says(def: Definition, schema: Schema, relation: Relation, previous: Rows, current: Rows, m: Message)
  {
    var k := m.internalKey;
    m.body.Change? && DiffersAt(previous, current, k) && m.tags == [] && !m.moveIn && m.commit.None? && m.offset == "" &&
    match m.body.op
    case Insert => k !in previous && k in current && m.body.value == current[k] && m.body.oldValue == map[] &&
                   m.key == MessageKey(relation, schema, current[k])
    case Delete => k in previous && k !in current && m.body.oldValue == map[] && m.key == MessageKey(relation, schema, previous[k]) &&
                   DeleteSays(def, schema, previous[k], m.body.value)
    case Update => k in previous && k in current && m.key == MessageKey(relation, schema, current[k]) &&
                   UpdateSays(def, schema, previous[k], current[k], m.body.value, m.body.oldValue)
  }

  /** A delete carries the whole row in full mode, and exactly its key columns otherwise. */
  ghost predicate DeleteSays(def: Definition, schema: Schema, row: Row, value: Row)
  {
    (forall c :: c in value <==> c in row && (def.replica == "full" || IsPk(schema, c))) && forall c | c in value :: value[c] == row[c]
  }

  /** An update carries, in full mode, the new row and what the changed columns were; otherwise the key columns and the
      changed ones, and no old values. */
  ghost predicate UpdateSays(def: Definition, schema: Schema, oldRow: Row, newRow: Row, value: Row, oldValue: Row)
  {
    (forall c :: c in value <==> if def.replica == "full" then c in newRow
                                 else (c in newRow && IsPk(schema, c)) || Differs(oldRow, newRow, c)) &&
    (forall c | c in value :: value[c] == Cell(newRow, c)) &&
    (forall c :: c in oldValue <==> def.replica == "full" && c in oldRow && Differs(oldRow, newRow, c)) &&
    forall c | c in oldValue :: oldValue[c] == oldRow[c]
  }

  predicate Differs(oldRow: Row, newRow: Row, c: string)
  {
    (c in newRow && Cell(oldRow, c) != newRow[c]) || (c in oldRow && c !in newRow)
  }

  lemma KeySays(def: Definition, schema: Schema, relation: Relation, k: string, previous: Rows, current: Rows)
    ensures var messages := DiffKey(def, schema, relation, k, previous, current);
      |messages| <= 1 && (messages != [] <==> DiffersAt(previous, current, k)) &&
      (messages != [] ==> messages[0].internalKey == k && Says(def, schema, relation, previous, current, messages[0]))
  {
    hide MessageKey, UpdateValue, UpdateOldValue, DeleteValue, ChangedColumns, UpdateSays, DeleteSays;
    if k in previous && k in current {
      ChangedIff(previous[k], current[k]);
      UpdateFits(def, schema, previous[k], current[k]);
    } else if k in previous {
      DeleteFits(def, schema, previous[k]);
    }
  }

  lemma UpdateFits(def: Definition, schema: Schema, oldRow: Row, newRow: Row)
    ensures UpdateSays(def, schema, oldRow, newRow, UpdateValue(def, schema, oldRow, newRow), UpdateOldValue(def, oldRow, newRow))
  {
    assert forall c :: c in ChangedColumns(oldRow, newRow) <==> Differs(oldRow, newRow, c);
  }

  lemma DeleteFits(def: Definition, schema: Schema, row: Row)
    ensures DeleteSays(def, schema, row, DeleteValue(def, schema, row))
  {
  }

  /** The messages are about keys of the list, in ascending order, and say what they should. */
  ghost predicate AllSay(def: Definition, schema: Schema, relation: Relation, previous: Rows, current: Rows, messages: seq<Message>,
                         keys: seq<string>)
  {
    (forall i | 0 <= i < |messages| :: messages[i].internalKey in keys && Says(def, schema, relation, previous, current, messages[i])) &&
    (forall i, j | 0 <= i < j < |messages| :: Less(messages[i].internalKey, messages[j].internalKey))
  }

  lemma AllSayFirst(def: Definition, schema: Schema, relation: Relation, previous: Rows, current: Rows, head: seq<Message>,
                    tail: seq<Message>, keys: seq<string>)
    requires Ascending(keys) && keys != [] && AllSay(def, schema, relation, previous, current, tail, keys[1..]) && |head| <= 1
    requires head != [] ==> head[0].internalKey == keys[0] && Says(def, schema, relation, previous, current, head[0])
    ensures AllSay(def, schema, relation, previous, current, head + tail, keys)
  {
    hide Says, Less;
    forall i | 0 <= i < |tail| ensures Less(keys[0], tail[i].internalKey) && tail[i].internalKey in keys {
      assert tail[i].internalKey in keys[1..];
      var j :| 0 <= j < |keys[1..]| && keys[1..][j] == tail[i].internalKey;
      assert keys[j + 1] == tail[i].internalKey;
    }
  }

  lemma {:induction false} DiffSays(def: Definition, schema: Schema, relation: Relation, keys: seq<string>, previous: Rows, current: Rows)
    requires Ascending(keys)
    ensures AllSay(def, schema, relation, previous, current, DiffKeys(def, schema, relation, keys, previous, current), keys)
  {
    hide DiffKey, Says, Less;
    if keys != [] {
      KeySays(def, schema, relation, keys[0], previous, current);
      DiffSays(def, schema, relation, keys[1..], previous, current);
      hide AllSay;
      AllSayFirst(def, schema, relation, previous, current, DiffKey(def, schema, relation, keys[0], previous, current),
                  DiffKeys(def, schema, relation, keys[1..], previous, current), keys);
    }
  }

  ghost predicate Mentions(messages: seq<Message>, k: string)
  {
    exists i | 0 <= i < |messages| :: messages[i].internalKey == k
  }

  lemma {:induction false} DiffMentions(def: Definition, schema: Schema, relation: Relation, keys: seq<string>, previous: Rows,
                                        current: Rows, k: string)
    requires k in keys && DiffersAt(previous, current, k)
    ensures Mentions(DiffKeys(def, schema, relation, keys, previous, current), k)
  {
    hide DiffKey, DiffersAt, Says;
    var messages := DiffKeys(def, schema, relation, keys, previous, current);
    var head := DiffKey(def, schema, relation, keys[0], previous, current);
    var tail := DiffKeys(def, schema, relation, keys[1..], previous, current);
    if k == keys[0] {
      KeySays(def, schema, relation, k, previous, current);
      assert messages[0] == head[0];
    } else {
      DiffMentions(def, schema, relation, keys[1..], previous, current, k);
      var i :| 0 <= i < |tail| && tail[i].internalKey == k;
      assert messages[|head| + i] == tail[i];
    }
  }

  /** A diff has exactly one message for each key at which the rows differ, in ascending key order, and each says
      exactly what its mode promises. */
  lemma DiffIsExact(def: Definition, schema: Schema, relation: Relation, previous: Rows, current: Rows)
    ensures var messages := DiffRows(def, schema, relation, previous, current);
      (forall i | 0 <= i < |messages| :: Says(def, schema, relation, previous, current, messages[i])) &&
      (forall i, j | 0 <= i < j < |messages| :: Less(messages[i].internalKey, messages[j].internalKey)) &&
      forall k :: Mentions(messages, k) <==> DiffersAt(previous, current, k)
  {
    hide DiffKeys, Says, Less, Sorted;
    var keys := Sorted(previous.Keys + current.Keys);
    DiffSays(def, schema, relation, keys, previous, current);
    var messages := DiffRows(def, schema, relation, previous, current);
    forall k ensures Mentions(messages, k) <==> DiffersAt(previous, current, k) {
      if DiffersAt(previous, current, k) {
        DiffMentions(def, schema, relation, keys, previous, current, k);
      }
      if Mentions(messages, k) {
        var i :| 0 <= i < |messages| && messages[i].internalKey == k;
        SaysDiffers(def, schema, relation, previous, current, messages[i]);
      }
    }
  }

  lemma SaysDiffers(def: Definition, schema: Schema, relation: Relation, previous: Rows, current: Rows, m: Message)
    requires Says(def, schema, relation, previous, current, m)
    ensures DiffersAt(previous, current, m.internalKey)
  {
  }

  // ---- going back ----

  /** Undoing one message: an insert is removed, a deleted row restored, and an update puts the old values back. */
  function UndoOne(rows: Rows, m: Message): Rows
  {
    var k := m.internalKey;
    match m.body
    case Change(Insert, _, _) => rows - {k}
    case Change(Delete, value, _) => rows[k := value]
    case Change(Update, _, oldValue) => rows[k := (if k in rows then rows[k] else map[]) + oldValue]
    case _ => rows
  }

  /** Undoing a list of messages, the last one first. */
  function Undo(rows: Rows, messages: seq<Message>): Rows
    decreases |messages|
  {
    if messages == [] then rows else Undo(UndoOne(rows, messages[|messages| - 1]), messages[..|messages| - 1])
  }

  ghost predicate SameRowAt(bools: set<string>, a: Rows, b: Rows, k: string)
  {
    (k in a <==> k in b) && (k in a ==> SameRow(bools, a[k], b[k]))
  }

  ghost predicate SameRows(bools: set<string>, a: Rows, b: Rows)
  {
    forall k :: SameRowAt(bools, a, b, k)
  }

  lemma {:induction false} UndoLeaves(rows: Rows, messages: seq<Message>, k: string)
    requires forall i | 0 <= i < |messages| :: messages[i].internalKey != k
    ensures SameAt(Undo(rows, messages), rows, k)
    decreases |messages|
  {
    if messages != [] {
      var n := |messages| - 1;
      assert messages[n].internalKey != k;
      UndoLeaves(UndoOne(rows, messages[n]), messages[..n], k);
    }
  }

  /** With one message per key, undoing the list does at each key what undoing its message does. */
  lemma {:induction false} UndoAt(rows: Rows, messages: seq<Message>, i: nat)
    requires i < |messages| && forall a, b | 0 <= a < b < |messages| :: messages[a].internalKey != messages[b].internalKey
    ensures SameAt(Undo(rows, messages), UndoOne(rows, messages[i]), messages[i].internalKey)
    decreases |messages|
  {
    hide Undo;
    var n, k := |messages| - 1, messages[i].internalKey;
    var back := UndoOne(rows, messages[n]);
    assert Undo(rows, messages) == Undo(back, messages[..n]) by { UndoStep(rows, messages); }
    if i == n {
      UndoLeaves(back, messages[..n], k);
    } else {
      UndoAt(back, messages[..n], i);
      assert messages[..n][i] == messages[i];
      OneKeyOnly(rows, back, messages[i]);
    }
  }

  lemma UndoStep(rows: Rows, messages: seq<Message>)
    requires messages != []
    ensures Undo(rows, messages) == Undo(UndoOne(rows, messages[|messages| - 1]), messages[..|messages| - 1])
  {
    hide UndoOne;
  }

  lemma OneKeyOnly(a: Rows, b: Rows, m: Message)
    requires SameAt(a, b, m.internalKey)
    ensures SameAt(UndoOne(a, m), UndoOne(b, m), m.internalKey)
  {
  }

  /** The new row has a value in a column that the old row does not have. */
  ghost predicate AddsColumn(oldRow: Row, newRow: Row)
  {
    exists c :: c in newRow && newRow[c].Some? && c !in oldRow
  }

  /** An update can be undone from its message exactly when the row gained no column. */
  lemma UpdateUndoneIff(bools: set<string>, oldRow: Row, newRow: Row, oldValue: Row)
    requires forall c :: c in oldValue <==> c in oldRow && Differs(oldRow, newRow, c)
    requires forall c | c in oldValue :: Norm(bools, c, oldValue[c]) == Norm(bools, c, oldRow[c])
    ensures SameRow(bools, newRow + oldValue, oldRow) <==> !AddsColumn(oldRow, newRow)
  {
    var back := newRow + oldValue;
    if AddsColumn(oldRow, newRow) {
      var c :| c in newRow && newRow[c].Some? && c !in oldRow;
      assert Cell(back, c) == newRow[c] && Cell(oldRow, c) == None;
      assert Norm(bools, c, Cell(back, c)) != Norm(bools, c, Cell(oldRow, c));
    } else {
      forall c ensures Norm(bools, c, Cell(back, c)) == Norm(bools, c, Cell(oldRow, c)) {
        if c in oldValue {
          assert Cell(back, c) == oldValue[c];
        } else {
          assert Cell(back, c) == Cell(newRow, c);
          assert Cell(newRow, c) == Cell(oldRow, c);
        }
      }
    }
  }

  /** No key kept gains a column; the rows of one query all have the same ones. */
  ghost predicate SameColumns(previous: Rows, current: Rows)
  {
    forall k | k in previous && k in current :: !AddsColumn(previous[k], current[k])
  }

  lemma SilentKeySame(bools: set<string>, previous: Rows, current: Rows, k: string)
    requires !DiffersAt(previous, current, k)
    ensures SameRowAt(bools, current, previous, k)
    ensures k in previous && k in current ==> !AddsColumn(previous[k], current[k])
  {
    if k in previous && k in current {
      forall c ensures Cell(current[k], c) == Cell(previous[k], c) {
        if c in current[k] { assert Cell(previous[k], c) == current[k][c]; }
      }
    }
  }

  /** Undoing one message of a full diff, plain or with booleans reprinted, restores the old row exactly when it gained
      no column. */
  lemma MessageUndone(bools: set<string>, handle: string, d: Dressing, def: Definition, schema: Schema, relation: Relation,
                      previous: Rows, current: Rows, m: Message)
    requires def.replica == "full" && (d.Plain? || (d.Wire? && HasBools(bools, d.schema)))
    requires Says(def, schema, relation, previous, current, m)
    ensures var k := m.internalKey;
      Dress(handle, d, m).internalKey == k &&
      (SameRowAt(bools, UndoOne(current, Dress(handle, d, m)), previous, k)
       <==> (k in previous && k in current ==> !AddsColumn(previous[k], current[k])))
  {
    hide MessageKey;
    var k, dressed := m.internalKey, Dress(handle, d, m);
    if d.Wire? {
      WireSameCells(bools, d.schema, m.body.value);
      WireSameCells(bools, d.schema, m.body.oldValue);
    }
    match m.body.op {
      case Insert =>
      case Delete => SameCellsSameRow(bools, dressed.body.value, previous[k]);
      case Update => UpdateUndoneIff(bools, previous[k], current[k], dressed.body.oldValue);
    }
  }

  lemma SameCellsSameRow(bools: set<string>, a: Row, b: Row)
    requires a.Keys == b.Keys && forall c | c in a :: Norm(bools, c, a[c]) == Norm(bools, c, b[c])
    ensures SameRow(bools, a, b)
  {
  }

  lemma {:induction false} DressAllAt(handle: string, d: Dressing, messages: seq<Message>)
    ensures forall i | 0 <= i < |messages| :: DressAll(handle, d, messages)[i] == Dress(handle, d, messages[i])
  {
    hide Dress;
    if messages != [] { DressAllAt(handle, d, messages[1..]); }
  }

  /** In full mode a diff can be run backwards: undoing its messages on the new rows gives the old rows exactly when no
      row gained a column, whether the messages are plain or have their booleans reprinted. */
  lemma DiffUndoneIff(bools: set<string>, handle: string, d: Dressing, def: Definition, schema: Schema, relation: Relation,
                      previous: Rows, current: Rows)
    requires def.replica == "full" && (d.Plain? || (d.Wire? && HasBools(bools, d.schema)))
    ensures var messages := DressAll(handle, d, DiffRows(def, schema, relation, previous, current));
      SameRows(bools, Undo(current, messages), previous) <==> SameColumns(previous, current)
  {
    hide SameRowAt, AddsColumn, Undo, DressAll, DiffRows, KeepsColumns, SameColumns;
    var back := Undo(current, DressAll(handle, d, DiffRows(def, schema, relation, previous, current)));
    forall k ensures SameRowAt(bools, back, previous, k) <==> KeepsColumns(previous, current, k) {
      KeyUndoneIff(bools, handle, d, def, schema, relation, previous, current, k);
    }
    EveryKeyKeeps(previous, current);
    if SameRows(bools, back, previous) {
      forall k ensures KeepsColumns(previous, current, k) { assert SameRowAt(bools, back, previous, k); }
    }
  }

  lemma EveryKeyKeeps(previous: Rows, current: Rows)
    ensures SameColumns(previous, current) <==> forall k :: KeepsColumns(previous, current, k)
  {
    hide AddsColumn;
    if forall k :: KeepsColumns(previous, current, k) {
      forall k | k in previous && k in current ensures !AddsColumn(previous[k], current[k]) { assert KeepsColumns(previous, current, k); }
    }
  }

  ghost predicate KeepsColumns(previous: Rows, current: Rows, k: string)
  {
    k in previous && k in current ==> !AddsColumn(previous[k], current[k])
  }

  lemma KeyUndoneIff(bools: set<string>, handle: string, d: Dressing, def: Definition, schema: Schema, relation: Relation,
                     previous: Rows, current: Rows, k: string)
    requires def.replica == "full" && (d.Plain? || (d.Wire? && HasBools(bools, d.schema)))
    ensures SameRowAt(bools, Undo(current, DressAll(handle, d, DiffRows(def, schema, relation, previous, current))), previous, k)
            <==> KeepsColumns(previous, current, k)
  {
    hide DiffRows, Says, Undo, UndoOne, Less, Dress, SameRowAt, AddsColumn, DiffersAt, DressAll;
    var diff := DiffRows(def, schema, relation, previous, current);
    var messages := DressAll(handle, d, diff);
    DiffIsExact(def, schema, relation, previous, current);
    DressAllAt(handle, d, diff);
    forall i | 0 <= i < |diff| ensures messages[i].internalKey == diff[i].internalKey {
      MessageUndone(bools, handle, d, def, schema, relation, previous, current, diff[i]);
    }
    forall i, j | 0 <= i < j < |messages| ensures messages[i].internalKey != messages[j].internalKey {
      assert Less(diff[i].internalKey, diff[j].internalKey);
      LessIrreflexive(diff[i].internalKey);
    }
    if DiffersAt(previous, current, k) {
      assert Mentions(diff, k);
      var i :| 0 <= i < |diff| && diff[i].internalKey == k;
      UndoAt(current, messages, i);
      MessageUndone(bools, handle, d, def, schema, relation, previous, current, diff[i]);
      SameAtSameRow(bools, Undo(current, messages), UndoOne(current, messages[i]), previous, k);
    } else {
      forall i | 0 <= i < |messages| ensures messages[i].internalKey != k { assert Mentions(diff, diff[i].internalKey); }
      UndoLeaves(current, messages, k);
      SilentKeySame(bools, previous, current, k);
      SameAtSameRow(bools, Undo(current, messages), current, previous, k);
    }
  }

  lemma SameAtSameRow(bools: set<string>, a: Rows, b: Rows, c: Rows, k: string)
    requires SameAt(a, b, k)
    ensures SameRowAt(bools, a, c, k) <==> SameRowAt(bools, b, c, k)
  {
  }
}
