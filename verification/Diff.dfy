/** Row diffing: how two row maps become an ordered list of insert, update and delete
    messages. Models diffRows, updateValues, deleteValue and the message types of
    internal/shapes/manager.go and backend.go. */
module Diff {
  import opened Strings
  import opened Keys

  datatype Subset = Subset(where_: string, params: map<string, string>, limit: Option<int>, offset: Option<int>,
                           orderBy: string, whereExpr: string, orderByExpr: string)

  datatype Definition = Definition(relation: Relation, where_: string, params: map<string, string>,
                                   columns: seq<string>, replica: string, log: string, subset: Option<Subset>)
  {
    predicate FullReplica() { replica == "full" }
  }

  datatype Operation = Insert | Update | Delete

  /** A log entry either changes a row, withdraws every row carrying a tag, or closes a
      batch of moved-in rows. */
  datatype Body =
    | Change(op: Operation, value: Row, oldValue: Row)
    | MoveOut(pattern: string)
    | SnapshotEnd

  datatype CommitHeader = CommitHeader(lsn: nat, position: nat, xid: nat, last: bool)

  datatype Message = Message(body: Body, key: string, internalKey: string, tags: seq<string>,
                             moveIn: bool, commit: Option<CommitHeader>, offset: string)

  type Rows = map<string, Row>

  // ---- one row ----

  function ChangedColumns(oldRow: Row, newRow: Row): set<string>
  {
    (set c | c in newRow && Cell(oldRow, c) != newRow[c]) + (set c | c in oldRow && c !in newRow)
  }

  function PrimaryKeyRow(schema: Schema, row: Row): Row
  {
    map c | c in row && IsPk(schema, c) :: row[c]
  }

  function UpdateValue(def: Definition, schema: Schema, oldRow: Row, newRow: Row): Row
  {
    if def.FullReplica() then newRow else
      PrimaryKeyRow(schema, newRow) + map c | c in ChangedColumns(oldRow, newRow) :: Cell(newRow, c)
  }

  function UpdateOldValue(def: Definition, oldRow: Row, newRow: Row): Row
  {
    if def.FullReplica() then map c | c in ChangedColumns(oldRow, newRow) && c in oldRow :: oldRow[c] else map[]
  }

  function DeleteValue(def: Definition, schema: Schema, row: Row): Row
  {
    if def.FullReplica() then row else PrimaryKeyRow(schema, row)
  }

  function RowMessage(op: Operation, relation: Relation, schema: Schema, keyRow: Row, internalKey: string,
                      value: Row, oldValue: Row): Message
  {
    Message(Change(op, value, oldValue), MessageKey(relation, schema, keyRow), internalKey, [], false, None, "")
  }

  /** The messages, at most one, that key `k` contributes. */
  function DiffKey(def: Definition, schema: Schema, relation: Relation, k: string, previous: Rows, current: Rows): seq<Message>
  {
    if k !in previous && k in current then
      [RowMessage(Insert, relation, schema, current[k], k, current[k], map[])]
    else if k in previous && k !in current then
      [RowMessage(Delete, relation, schema, previous[k], k, DeleteValue(def, schema, previous[k]), map[])]
    else if k in previous && k in current && ChangedColumns(previous[k], current[k]) != {} then
      [RowMessage(Update, relation, schema, current[k], k,
                  UpdateValue(def, schema, previous[k], current[k]), UpdateOldValue(def, previous[k], current[k]))]
    else
      []
  }

  function DiffKeys(def: Definition, schema: Schema, relation: Relation, keys: seq<string>, previous: Rows, current: Rows): seq<Message>
  {
    if keys == [] then [] else
      DiffKey(def, schema, relation, keys[0], previous, current) + DiffKeys(def, schema, relation, keys[1..], previous, current)
  }

  /** All changed rows, in key order. */
  function DiffRows(def: Definition, schema: Schema, relation: Relation, previous: Rows, current: Rows): seq<Message>
  {
    DiffKeys(def, schema, relation, Sorted(previous.Keys + current.Keys), previous, current)
  }

  /** The switch of diffRows for one key of the union. */
  method DiffOneKey(def: Definition, schema: Schema, relation: Relation, key: string, previous: Rows, current: Rows)
    returns (messages: seq<Message>)
    requires key in previous || key in current
    ensures messages == DiffKey(def, schema, relation, key, previous, current)
  {
    messages := [];
    if key !in previous {
      messages := [RowMessage(Insert, relation, schema, current[key], key, current[key], map[])];
    } else if key !in current {
      messages := [RowMessage(Delete, relation, schema, previous[key], key,
                              DeleteValue(def, schema, previous[key]), map[])];
    } else if previous[key] != current[key] {
      if ChangedColumns(previous[key], current[key]) != {} {
        messages := [RowMessage(Update, relation, schema, current[key], key,
                                UpdateValue(def, schema, previous[key], current[key]),
                                UpdateOldValue(def, previous[key], current[key]))];
      }
    }
  }

  lemma DiffAdvances(def: Definition, schema: Schema, relation: Relation, keys: seq<string>, i: nat,
                     previous: Rows, current: Rows, written: seq<Message>)
    requires i < |keys|
    ensures written + DiffKeys(def, schema, relation, keys[i..], previous, current)
            == (written + DiffKey(def, schema, relation, keys[i], previous, current))
               + DiffKeys(def, schema, relation, keys[i + 1..], previous, current)
  {
    assert keys[i..][1..] == keys[i + 1..];
  }

  /** The loop of diffRows over its sorted keys. */
  method DiffKeyList(def: Definition, schema: Schema, relation: Relation, keys: seq<string>, previous: Rows, current: Rows)
    returns (messages: seq<Message>)
    requires forall i | 0 <= i < |keys| :: keys[i] in previous || keys[i] in current
    ensures messages == DiffKeys(def, schema, relation, keys, previous, current)
  {
    messages := [];
    assert keys[0..] == keys;
    for i := 0 to |keys|
      invariant messages + DiffKeys(def, schema, relation, keys[i..], previous, current)
                == DiffKeys(def, schema, relation, keys, previous, current)
    {
      DiffAdvances(def, schema, relation, keys, i, previous, current, messages);
      var one := DiffOneKey(def, schema, relation, keys[i], previous, current);
      messages := messages + one;
    }
    assert keys[|keys|..] == [];
  }

  method BuildDiff(def: Definition, schema: Schema, relation: Relation, previous: Rows, current: Rows)
    returns (messages: seq<Message>)
    ensures messages == DiffRows(def, schema, relation, previous, current)
  {
    var keys := Sorted(previous.Keys + current.Keys);
    assert forall i | 0 <= i < |keys| :: keys[i] in keys;
    messages := DiffKeyList(def, schema, relation, keys, previous, current);
  }

  // ---- what a diff depends on ----

  /** Two row maps say the same about key `k`. */
  predicate SameAt(a: Rows, b: Rows, k: string)
  {
    (k in a <==> k in b) && (k in a ==> a[k] == b[k])
  }

  lemma UnchangedKeyIsSilent(def: Definition, schema: Schema, relation: Relation, k: string, previous: Rows, current: Rows)
    requires SameAt(previous, current, k)
    ensures DiffKey(def, schema, relation, k, previous, current) == []
  {
  }

  lemma {:induction false} DiffDependsOnItsKeys(def: Definition, schema: Schema, relation: Relation, keys: seq<string>,
                                                p1: Rows, c1: Rows, p2: Rows, c2: Rows)
    requires forall k | k in keys :: SameAt(p1, p2, k) && SameAt(c1, c2, k)
    ensures DiffKeys(def, schema, relation, keys, p1, c1) == DiffKeys(def, schema, relation, keys, p2, c2)
  {
    if keys != [] {
      assert keys[0] in keys;
      DiffDependsOnItsKeys(def, schema, relation, keys[1..], p1, c1, p2, c2);
    }
  }

  /** Keys that did not change can be left out of the sorted key list. */
  lemma {:induction false} DiffIgnoresUnchanged(def: Definition, schema: Schema, relation: Relation,
                                                big: set<string>, small: set<string>, previous: Rows, current: Rows)
    requires small <= big
    requires forall k | k in big && k !in small :: SameAt(previous, current, k)
    ensures DiffKeys(def, schema, relation, Sorted(big), previous, current)
            == DiffKeys(def, schema, relation, Sorted(small), previous, current)
    decreases |big|
  {
    if big == {} {
      assert small == {};
    } else {
      var m := Least(big);
      assert Sorted(big)[1..] == Sorted(big - {m});
      if m in small {
        LessTotal(m, Least(small));
        assert Least(small) == m;
        assert Sorted(small)[1..] == Sorted(small - {m});
        DiffIgnoresUnchanged(def, schema, relation, big - {m}, small - {m}, previous, current);
      } else {
        DiffIgnoresUnchanged(def, schema, relation, big - {m}, small, previous, current);
        UnchangedKeyIsSilent(def, schema, relation, m, previous, current);
      }
    }
  }

  function Restrict(rows: Rows, keys: set<string>): (r: Rows)
    ensures r.Keys == rows.Keys * keys
  {
    map k | k in rows && k in keys :: rows[k]
  }

  /** Diffing only the part under `keys` gives the whole diff when nothing else changed. */
  lemma RestrictedDiffIsFullDiff(def: Definition, schema: Schema, relation: Relation, keys: set<string>,
                                 previous: Rows, current: Rows)
    requires forall k | k !in keys :: SameAt(previous, current, k)
    ensures DiffRows(def, schema, relation, Restrict(previous, keys), Restrict(current, keys))
            == DiffRows(def, schema, relation, previous, current)
  {
    var big := previous.Keys + current.Keys;
    var small := Restrict(previous, keys).Keys + Restrict(current, keys).Keys;
    assert small == big * keys;
    assert forall k | k in big && k !in small :: k !in keys;
    DiffIgnoresUnchanged(def, schema, relation, big, small, previous, current);
    RestrictSaysTheSame(keys, Sorted(small), previous, current);
    DiffDependsOnItsKeys(def, schema, relation, Sorted(small), Restrict(previous, keys), Restrict(current, keys), previous, current);
  }

  lemma RestrictSaysTheSame(keys: set<string>, list: seq<string>, previous: Rows, current: Rows)
    requires forall k | k in list :: k in keys
    ensures forall k | k in list :: SameAt(Restrict(previous, keys), previous, k) && SameAt(Restrict(current, keys), current, k)
  {
  }
}
