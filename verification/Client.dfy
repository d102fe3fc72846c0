/** A client that applies the log, and the theorem that baseline plus log equals the shape's
    rows: over any run of refreshes, in both replica modes, with and without dependent tags. */
module Client {
  import opened Strings
  import opened Keys
  import opened Diff
  import opened ShapeLog

  datatype Entry = Entry(row: Row, tags: set<string>)

  type State = map<string, Entry>

  function TagSet(m: Message): set<string>
  {
    set t | t in m.tags
  }

  /** Applying one message: an update merges in default mode and replaces in full mode, a
      move-out withdraws every row that carries the tag. */
  function Apply(full: bool, c: State, m: Message): State
  {
    match m.body
    case Change(Insert, value, _) => c[m.internalKey := Entry(value, TagSet(m))]
    case Change(Update, value, _) =>
      var row := if m.internalKey in c && !full then c[m.internalKey].row + value else value;
      c[m.internalKey := Entry(row, TagSet(m))]
    case Change(Delete, _, _) => c - {m.internalKey}
    case MoveOut(pattern) => map k | k in c && pattern !in c[k].tags :: c[k]
    case SnapshotEnd => c
  }

  function Replay(full: bool, c: State, messages: seq<Message>): State
  {
    if messages == [] then c else Apply(full, Replay(full, c, messages[..|messages| - 1]), messages[|messages| - 1])
  }

  lemma {:induction false} ReplayConcat(full: bool, c: State, a: seq<Message>, b: seq<Message>)
    ensures Replay(full, c, a + b) == Replay(full, Replay(full, c, a), b)
  {
    if b == [] {
      assert a + b == a;
    } else {
      assert (a + b)[..|a + b| - 1] == a + b[..|b| - 1];
      ReplayConcat(full, c, a, b[..|b| - 1]);
    }
  }

  /** Numbering does not matter to the client. */
  predicate SameEffect(a: Message, b: Message)
  {
    a.body == b.body && a.internalKey == b.internalKey && a.tags == b.tags
  }

  lemma {:induction false} ReplaySameEffect(full: bool, c: State, a: seq<Message>, b: seq<Message>)
    requires |a| == |b| && forall i | 0 <= i < |a| :: SameEffect(a[i], b[i])
    ensures Replay(full, c, a) == Replay(full, c, b)
  {
    if a != [] {
      var n := |a| - 1;
      ReplaySameEffect(full, c, a[..n], b[..n]);
      assert SameEffect(a[n], b[n]);
    }
  }

  lemma ReplayNumbered(full: bool, c: State, offset: string, messages: seq<Message>, meta: Metadata)
    ensures Replay(full, c, Numbered(offset, messages, meta)) == Replay(full, c, messages)
  {
    var numbered := Numbered(offset, messages, meta);
    forall i | 0 <= i < |messages| ensures SameEffect(numbered[i], messages[i]) {}
    ReplaySameEffect(full, c, numbered, messages);
  }

  // ---- agreement of a client with a row map ----

  /** Cells agree up to the printing of booleans in the columns `bools`. */
  function Norm(bools: set<string>, column: string, cell: Option<string>): Option<string>
  {
    if column in bools then
      if cell == Some("true") then Some("t") else if cell == Some("false") then Some("f") else cell
    else cell
  }

  /** Same value in every column, a missing column being NULL. */
  ghost predicate SameRow(bools: set<string>, a: Row, b: Row)
  {
    forall c :: Norm(bools, c, Cell(a, c)) == Norm(bools, c, Cell(b, c))
  }

  predicate TagsFit(handle: string, dependent: bool, key: string, tags: set<string>)
  {
    tags == if dependent && key != "" then {DependentTag(handle, key)} else {}
  }

  /** The client holds exactly `rows`, each with the tag its key has. */
  ghost predicate Holds(bools: set<string>, handle: string, dependent: bool, c: State, rows: Rows)
  {
    c.Keys == rows.Keys &&
    forall k | k in rows :: SameRow(bools, c[k].row, rows[k]) && TagsFit(handle, dependent, k, c[k].tags)
  }

  ghost predicate HasBools(bools: set<string>, schema: Schema)
  {
    forall c | c in schema && schema[c].typ == "bool" :: c in bools
  }

  // ---- one message ----

  /** A replacement for `value` that prints some booleans differently. */
  ghost predicate SameCells(bools: set<string>, a: Row, b: Row)
  {
    a.Keys == b.Keys && forall c | c in a :: Norm(bools, c, a[c]) == Norm(bools, c, b[c])
  }

  lemma WireSameCells(bools: set<string>, schema: Schema, row: Row)
    requires HasBools(bools, schema)
    ensures SameCells(bools, WireRow(schema, row), row)
  {
  }

  /** An update message carries enough to turn the old row into the new one. */
  lemma UpdateRebuilds(bools: set<string>, def: Definition, schema: Schema, held: Row, oldRow: Row, newRow: Row, value: Row)
    requires SameRow(bools, held, oldRow)
    requires SameCells(bools, value, UpdateValue(def, schema, oldRow, newRow))
    ensures SameRow(bools, if def.FullReplica() then value else held + value, newRow)
  {
    if !def.FullReplica() {
      var full := UpdateValue(def, schema, oldRow, newRow);
      forall c ensures Norm(bools, c, Cell(held + value, c)) == Norm(bools, c, Cell(newRow, c)) {
        if c in full {
          assert full[c] == Cell(newRow, c);
          assert Cell(held + value, c) == value[c];
        } else {
          assert c !in ChangedColumns(oldRow, newRow);
          assert Cell(oldRow, c) == Cell(newRow, c);
          assert Cell(held + value, c) == Cell(held, c);
        }
      }
    }
  }

  lemma SilentUpdateSame(bools: set<string>, held: Row, oldRow: Row, newRow: Row)
    requires SameRow(bools, held, oldRow) && ChangedColumns(oldRow, newRow) == {}
    ensures SameRow(bools, held, newRow)
  {
    forall c ensures Cell(oldRow, c) == Cell(newRow, c) {
      assert c !in ChangedColumns(oldRow, newRow);
    }
  }

  /** `rows` with key `k` taken from `current`. */
  function Moved(rows: Rows, k: string, current: Rows): (r: Rows)
    ensures forall x :: if x == k then SameAt(r, current, x) else SameAt(r, rows, x)
  {
    if k in current then rows[k := current[k]] else rows - {k}
  }

  /** No two keys of `keys` share a tag, and none is empty. */
  ghost predicate TagSafe(keys: set<string>)
  {
    "" !in keys && forall a, b | a in keys && b in keys && TagValue(a) == TagValue(b) :: a == b
  }

  lemma TagsDistinguish(handle: string, a: string, b: string)
    ensures DependentTag(handle, a) == DependentTag(handle, b) <==> TagValue(a) == TagValue(b)
  {
    var p := handle + "v:";
    assert DependentTag(handle, a)[|p|..] == TagValue(a) && DependentTag(handle, b)[|p|..] == TagValue(b);
  }

  /** The messages that key `k` contributes to a refresh, after decoration or wire formatting. */
  datatype Dressing = Plain | Wire(schema: Schema) | Dependent(related: bool)

  function Dress(handle: string, d: Dressing, m: Message): Message
  {
    match d
    case Plain => m
    case Wire(schema) => WireMessage(schema, m)
    case Dependent(related) => DecorateOne(handle, related, m)
  }

  function DressAll(handle: string, d: Dressing, messages: seq<Message>): (r: seq<Message>)
    ensures |r| == |messages|
  {
    if messages == [] then [] else [Dress(handle, d, messages[0])] + DressAll(handle, d, messages[1..])
  }

  lemma {:induction false} DressConcat(handle: string, d: Dressing, a: seq<Message>, b: seq<Message>)
    ensures DressAll(handle, d, a + b) == DressAll(handle, d, a) + DressAll(handle, d, b)
  {
    if a == [] {
      assert a + b == b;
    } else {
      assert (a + b)[1..] == a[1..] + b;
      DressConcat(handle, d, a[1..], b);
    }
  }

  ghost predicate DressingFits(bools: set<string>, dependent: bool, d: Dressing, keys: set<string>)
  {
    (d.Wire? ==> HasBools(bools, d.schema)) &&
    (dependent <==> d.Dependent?) &&
    (d.Dependent? ==> TagSafe(keys))
  }

  lemma ReplayOne(full: bool, c: State, m: Message)
    ensures Replay(full, c, [m]) == Apply(full, c, m)
  {
    assert [m][..0] == [];
    assert Replay(full, c, [][..0]) == c;
  }

  lemma PutHolds(bools: set<string>, handle: string, dependent: bool, c: State, rows: Rows, k: string,
                 row: Row, tags: set<string>, current: Rows)
    requires Holds(bools, handle, dependent, c, rows) && k in current
    requires SameRow(bools, row, current[k]) && TagsFit(handle, dependent, k, tags)
    ensures Holds(bools, handle, dependent, c[k := Entry(row, tags)], Moved(rows, k, current))
  {
  }

  lemma DropHolds(bools: set<string>, handle: string, dependent: bool, c: State, rows: Rows, k: string, current: Rows)
    requires Holds(bools, handle, dependent, c, rows) && k !in current
    ensures Holds(bools, handle, dependent, c - {k}, Moved(rows, k, current))
  {
  }

  /** Withdrawing the tag of `k` removes the row of `k` and no other. */
  lemma MoveOutDropsOne(bools: set<string>, handle: string, c: State, rows: Rows, k: string, keys: set<string>)
    requires Holds(bools, handle, true, c, rows) && TagSafe(keys) && rows.Keys <= keys && k in keys
    ensures (map x | x in c && DependentTag(handle, k) !in c[x].tags :: c[x]) == c - {k}
  {
    hide TagValue, SameRow;
    forall x | x in c ensures DependentTag(handle, k) in c[x].tags <==> x == k {
      TagsDistinguish(handle, x, k);
    }
  }

  lemma DressedTags(handle: string, dependent: bool, d: Dressing, m: Message)
    requires m.body.Change? && m.tags == [] && (dependent <==> d.Dependent?)
    requires Dress(handle, d, m).body.Change?
    ensures TagsFit(handle, dependent, m.internalKey, TagSet(Dress(handle, d, m)))
    ensures Dress(handle, d, m).internalKey == m.internalKey
    ensures Dress(handle, d, m).body.op == m.body.op
  {
  }

  lemma DressedValue(bools: set<string>, handle: string, dependent: bool, d: Dressing, m: Message, keys: set<string>)
    requires m.body.Change? && DressingFits(bools, dependent, d, keys)
    requires Dress(handle, d, m).body.Change?
    ensures SameCells(bools, Dress(handle, d, m).body.value, m.body.value)
  {
    if d.Wire? { WireSameCells(bools, d.schema, m.body.value); }
  }

  /** One key of a diff, dressed in any way, moves the client's copy of that key. */
  lemma KeyStep(bools: set<string>, handle: string, dependent: bool, d: Dressing, def: Definition, schema: Schema,
                relation: Relation, k: string, previous: Rows, current: Rows, c: State, rows: Rows, keys: set<string>)
    requires DressingFits(bools, dependent, d, keys) && rows.Keys <= keys && k in keys
    requires Holds(bools, handle, dependent, c, rows) && SameAt(rows, previous, k)
    ensures Holds(bools, handle, dependent,
                  Replay(def.FullReplica(), c, DressAll(handle, d, DiffKey(def, schema, relation, k, previous, current))),
                  Moved(rows, k, current))
  {
    var diff := DiffKey(def, schema, relation, k, previous, current);
    if diff == [] {
      assert Replay(def.FullReplica(), c, []) == c;
      if k in rows { SilentUpdateSame(bools, c[k].row, previous[k], current[k]); }
    } else {
      var m := diff[0];
      var dressed := Dress(handle, d, m);
      assert diff == [m] && diff[1..] == [];
      assert DressAll(handle, d, diff) == [dressed];
      ReplayOne(def.FullReplica(), c, dressed);
      MessageStep(bools, handle, dependent, d, def, schema, relation, k, previous, current, c, rows, keys);
    }
  }

  lemma MessageStep(bools: set<string>, handle: string, dependent: bool, d: Dressing, def: Definition, schema: Schema,
                    relation: Relation, k: string, previous: Rows, current: Rows, c: State, rows: Rows, keys: set<string>)
    requires DressingFits(bools, dependent, d, keys) && rows.Keys <= keys && k in keys
    requires Holds(bools, handle, dependent, c, rows) && SameAt(rows, previous, k)
    requires DiffKey(def, schema, relation, k, previous, current) != []
    ensures var m := DiffKey(def, schema, relation, k, previous, current)[0];
      Holds(bools, handle, dependent, Apply(def.FullReplica(), c, Dress(handle, d, m)), Moved(rows, k, current))
  {
    hide MessageKey, TagValue;
    var m := DiffKey(def, schema, relation, k, previous, current)[0];
    var dressed := Dress(handle, d, m);
    if dressed.body.MoveOut? {
      MoveOutDropsOne(bools, handle, c, rows, k, keys);
      DropHolds(bools, handle, dependent, c, rows, k, current);
    } else {
      DressedTags(handle, dependent, d, m);
      DressedValue(bools, handle, dependent, d, m, keys);
      var value := dressed.body.value;
      match m.body.op {
        case Insert =>
          PutHolds(bools, handle, dependent, c, rows, k, value, TagSet(dressed), current);
        case Update =>
          UpdateRebuilds(bools, def, schema, c[k].row, previous[k], current[k], value);
          var row := if def.FullReplica() then value else c[k].row + value;
          PutHolds(bools, handle, dependent, c, rows, k, row, TagSet(dressed), current);
        case Delete =>
          DropHolds(bools, handle, dependent, c, rows, k, current);
      }
    }
  }

  // ---- a whole diff ----

  ghost function MovedAll(rows: Rows, list: seq<string>, current: Rows): Rows
    decreases |list|
  {
    if list == [] then rows else MovedAll(Moved(rows, list[0], current), list[1..], current)
  }

  lemma {:induction false} MovedAllAt(rows: Rows, list: seq<string>, current: Rows, x: string)
    ensures if x in list then SameAt(MovedAll(rows, list, current), current, x)
            else SameAt(MovedAll(rows, list, current), rows, x)
    decreases |list|
  {
    if list != [] {
      MovedAllAt(Moved(rows, list[0], current), list[1..], current, x);
      assert list == [list[0]] + list[1..];
    }
  }

  lemma {:induction false} ListStep(bools: set<string>, handle: string, dependent: bool, d: Dressing, def: Definition,
                                    schema: Schema, relation: Relation, list: seq<string>, previous: Rows, current: Rows,
                                    c: State, rows: Rows, keys: set<string>)
    requires DressingFits(bools, dependent, d, keys) && rows.Keys <= keys && current.Keys <= keys
    requires Ascending(list) && forall i | 0 <= i < |list| :: list[i] in keys && SameAt(rows, previous, list[i])
    requires Holds(bools, handle, dependent, c, rows)
    ensures Holds(bools, handle, dependent,
                  Replay(def.FullReplica(), c, DressAll(handle, d, DiffKeys(def, schema, relation, list, previous, current))),
                  MovedAll(rows, list, current))
  {
    hide DiffKey, TagValue;
    if list == [] {
      assert Replay(def.FullReplica(), c, []) == c;
    } else {
      var k := list[0];
      var head := DiffKey(def, schema, relation, k, previous, current);
      var tail := DiffKeys(def, schema, relation, list[1..], previous, current);
      KeyStep(bools, handle, dependent, d, def, schema, relation, k, previous, current, c, rows, keys);
      var c1 := Replay(def.FullReplica(), c, DressAll(handle, d, head));
      LessIrreflexive(k);
      forall i | 0 <= i < |list[1..]| ensures list[1..][i] in keys && SameAt(Moved(rows, k, current), previous, list[1..][i]) {
        assert list[1..][i] == list[i + 1];
      }
      ListStep(bools, handle, dependent, d, def, schema, relation, list[1..], previous, current, c1, Moved(rows, k, current), keys);
      DressConcat(handle, d, head, tail);
      ReplayConcat(def.FullReplica(), c, DressAll(handle, d, head), DressAll(handle, d, tail));
    }
  }

  lemma SameEverywhere(a: Rows, b: Rows)
    requires forall k :: SameAt(a, b, k)
    ensures a == b
  {
    assert forall k :: k in a <==> k in b by { forall k ensures k in a <==> k in b { assert SameAt(a, b, k); } }
    assert forall k | k in a :: a[k] == b[k] by { forall k | k in a ensures a[k] == b[k] { assert SameAt(a, b, k); } }
  }

  /** A diff of the part under `part`, dressed in any way, turns a client that holds `previous`
      into one that holds `current`, provided nothing outside `part` changed. */
  lemma DiffMovesClient(bools: set<string>, handle: string, dependent: bool, d: Dressing, def: Definition, schema: Schema,
                        relation: Relation, previous: Rows, current: Rows, c: State, keys: set<string>)
    requires DressingFits(bools, dependent, d, keys) && previous.Keys <= keys && current.Keys <= keys
    requires Holds(bools, handle, dependent, c, previous)
    ensures Holds(bools, handle, dependent,
                  Replay(def.FullReplica(), c, DressAll(handle, d, DiffRows(def, schema, relation, previous, current))), current)
  {
    hide DiffKey, TagValue;
    var list := Sorted(previous.Keys + current.Keys);
    forall i | 0 <= i < |list| ensures list[i] in keys { assert list[i] in list; }
    ListStep(bools, handle, dependent, d, def, schema, relation, list, previous, current, c, previous, keys);
    forall k ensures SameAt(MovedAll(previous, list, current), current, k) {
      MovedAllAt(previous, list, current, k);
    }
    SameEverywhere(MovedAll(previous, list, current), current);
  }
}
