/** A refresh by keys against a full refresh, and the column projection it rests on.
    Models the key handling of internal/shapes/manager.go and projectedColumns of
    internal/pg/runtime.go. */
module Targeted {
  import opened Strings
  import opened Offsets
  import opened Keys
  import opened Diff
  import opened ShapeLog

  // ---- the rows a targeted query returns ----

  /** The rows whose signature is in `keys`, in their order. */
  function RowsUnder(schema: Schema, rows: seq<Row>, keys: set<string>): seq<Row>
  {
    if rows == [] then [] else
      var last := rows[|rows| - 1];
      RowsUnder(schema, rows[..|rows| - 1], keys) + (if PrimaryKeySignature(schema, last) in keys then [last] else [])
  }

  lemma {:induction false} MaterializedUnder(schema: Schema, rows: seq<Row>, keys: set<string>)
    ensures MaterializedRows(schema, RowsUnder(schema, rows, keys)) == Restrict(MaterializedRows(schema, rows), keys)
  {
    hide PrimaryKeySignature;
    if rows != [] {
      var n := |rows| - 1;
      MaterializedUnder(schema, rows[..n], keys);
      var under := RowsUnder(schema, rows[..n], keys);
      var sig := PrimaryKeySignature(schema, rows[n]);
      var before := MaterializedRows(schema, rows[..n]);
      if sig in keys {
        assert (under + [rows[n]])[..|under|] == under;
        assert Restrict(before[sig := rows[n]], keys) == Restrict(before, keys)[sig := rows[n]];
      } else {
        assert under + [] == under;
        assert Restrict(before[sig := rows[n]], keys) == Restrict(before, keys);
      }
    }
  }

  lemma {:induction false} RowsUnderKeys(schema: Schema, rows: seq<Row>, keys: set<string>)
    ensures forall i | 0 <= i < |RowsUnder(schema, rows, keys)| ::
              PrimaryKeySignature(schema, RowsUnder(schema, rows, keys)[i]) in keys
  {
    hide PrimaryKeySignature;
    if rows != [] { RowsUnderKeys(schema, rows[..|rows| - 1], keys); }
  }

  function Signatures(schema: Schema, keyRows: seq<Row>): set<string>
  {
    set i | 0 <= i < |keyRows| :: PrimaryKeySignature(schema, keyRows[i])
  }

  lemma TargetedAreTouched(schema: Schema, keyRows: seq<Row>, rows: seq<Row>)
    ensures TargetedKeys(schema, keyRows, RowsUnder(schema, rows, Signatures(schema, keyRows)))
            == Signatures(schema, keyRows) - {""}
  {
    hide PrimaryKeySignature, RowsUnder;
    var touched := Signatures(schema, keyRows);
    RowsUnderKeys(schema, rows, touched);
    var under := RowsUnder(schema, rows, touched);
    forall k ensures k in TargetedKeys(schema, keyRows, under) <==> k in touched - {""} {
      if k in touched && k != "" {
        var i :| 0 <= i < |keyRows| && PrimaryKeySignature(schema, keyRows[i]) == k;
      }
    }
  }

  /** Targeted refresh refines full refresh. Let a full snapshot agree with the shape's rows
      outside the touched keys, and let the targeted query return the snapshot's rows under those
      keys. Then refreshing by keys and refreshing in full leave the same rows exactly when no row
      with an empty signature changed; and then the logs, offsets and messages are the same too. */
  lemma TargetedRefinesFull(s: Shape, full: Snapshot, keyRows: seq<Row>)
    requires forall k | k !in Signatures(full.schema, keyRows) :: SameAt(s.rows, MaterializedRows(full.schema, full.rows), k)
    ensures var part := Snapshot(full.schema, RowsUnder(full.schema, full.rows, Signatures(full.schema, keyRows)));
      var byKeys := KeysRefreshed(s, part, keyRows, NO_METADATA);
      var whole := Refreshed(s, full, NO_METADATA);
      (byKeys.rows == whole.rows <==> SameAt(s.rows, whole.rows, "")) &&
      (byKeys.rows == whole.rows ==> byKeys.(schema := full.schema) == whole)
  {
    hide PrimaryKeySignature, RowsUnder, MaterializedRows, TargetedKeys, Signatures, DiffRows, Numbered;
    var touched := Signatures(full.schema, keyRows);
    var part := Snapshot(full.schema, RowsUnder(full.schema, full.rows, touched));
    var current := MaterializedRows(full.schema, full.rows);
    MaterializedUnder(full.schema, full.rows, touched);
    TargetedAreTouched(full.schema, keyRows, full.rows);
    var keys := touched - {""};
    assert TargetedKeys(full.schema, keyRows, part.rows) == keys;
    var spliced := Splice(s.rows, keys, Restrict(current, touched));
    SplicedRows(s.rows, current, touched);
    if SameAt(s.rows, current, "") {
      forall k | k !in keys ensures SameAt(s.rows, current, k) {}
      RestrictedDiffIsFullDiff(s.def, full.schema, s.def.relation, keys, s.rows, current);
      if keys == {} {
        SilentDiff(s.def, full.schema, s.def.relation, s.rows);
      }
    }
  }

  lemma SplicedRows(rows: Rows, current: Rows, touched: set<string>)
    requires forall k | k !in touched :: SameAt(rows, current, k)
    ensures Splice(rows, touched - {""}, Restrict(current, touched)) == current <==> SameAt(rows, current, "")
    ensures touched - {""} == {} ==> (rows == current <==> SameAt(rows, current, ""))
  {
    var r := Splice(rows, touched - {""}, Restrict(current, touched));
    if SameAt(rows, current, "") {
      forall k ensures SameAt(r, current, k) {}
      assert r.Keys == current.Keys by { forall k ensures k in r <==> k in current { assert SameAt(r, current, k); } }
      forall k | k in r ensures r[k] == current[k] { assert SameAt(r, current, k); }
      if touched - {""} == {} {
        assert rows.Keys == current.Keys by {
          forall k ensures k in rows <==> k in current { assert SameAt(rows, current, k); }
        }
        forall k | k in rows ensures rows[k] == current[k] { assert SameAt(rows, current, k); }
      }
    } else {
      assert SameAt(r, rows, "");
    }
  }

  lemma SilentDiff(def: Definition, schema: Schema, relation: Relation, rows: Rows)
    ensures DiffRows(def, schema, relation, rows, rows) == []
  {
    DiffIgnoresUnchanged(def, schema, relation, rows.Keys + rows.Keys, {}, rows, rows);
  }

  // ---- projection keeps the key columns ----

  datatype Described = Described(name: string, column: Column)

  ghost predicate DistinctNames(columns: seq<Described>)
  {
    forall i, j | 0 <= i < j < |columns| :: columns[i].name != columns[j].name
  }

  /** Which described columns a definition with the column list `explicit` selects. */
  predicate Selected(c: Described, explicit: seq<string>)
  {
    explicit == [] || c.name in explicit || c.column.pkIndex.Some?
  }

  /** projectedColumns: the named columns, then every key column not yet taken. */
  method ProjectedColumns(described: seq<Described>, explicit: seq<string>) returns (columns: seq<Described>)
    requires DistinctNames(described)
    ensures forall c :: c in columns <==> c in described && Selected(c, explicit)
    ensures DistinctNames(columns)
  {
    if |explicit| == 0 {
      return described;
    }
    var seen: set<string> := {};
    columns := [];
    for i := 0 to |explicit|
      invariant forall c | c in columns :: c in described && c.name in explicit && c.name in seen
      invariant forall c | c in described && c.name in explicit[..i] :: c in columns
      invariant forall n | n in seen :: exists c | c in columns :: c.name == n
      invariant DistinctNames(columns)
    {
      columns, seen := TakeNamed(described, explicit[i], columns, seen);
      assert explicit[..i + 1] == explicit[..i] + [explicit[i]];
    }
    assert explicit[..|explicit|] == explicit;
    ghost var named := columns;
    for j := 0 to |described|
      invariant forall c | c in columns :: c in described && Selected(c, explicit) && c.name in seen
      invariant forall c | c in named :: c in columns
      invariant forall i | 0 <= i < j && described[i].column.pkIndex.Some? :: described[i] in columns
      invariant forall n | n in seen :: exists c | c in columns :: c.name == n
      invariant DistinctNames(columns)
    {
      var c := described[j];
      if c.column.pkIndex.Some? && c.name !in seen {
        columns := columns + [c];
        seen := seen + {c.name};
        assert c in columns;
      } else if c.column.pkIndex.Some? {
        var d :| d in columns && d.name == c.name;
        SameNameSame(described, c, d);
      }
    }
  }

  /** The inner loop: every described column of one name, once. */
  method TakeNamed(described: seq<Described>, name: string, columns0: seq<Described>, seen0: set<string>)
    returns (columns: seq<Described>, seen: set<string>)
    requires DistinctNames(described) && DistinctNames(columns0)
    requires forall c | c in columns0 :: c in described && c.name in seen0
    requires forall n | n in seen0 :: exists c | c in columns0 :: c.name == n
    ensures DistinctNames(columns)
    ensures forall c | c in columns0 :: c in columns
    ensures forall c | c in columns :: c in columns0 || (c in described && c.name == name)
    ensures forall c | c in columns :: c.name in seen
    ensures forall c | c in described && c.name == name :: c in columns
    ensures forall n | n in seen :: exists c | c in columns :: c.name == n
  {
    columns, seen := columns0, seen0;
    for j := 0 to |described|
      invariant DistinctNames(columns)
      invariant forall c | c in columns0 :: c in columns
      invariant forall c | c in columns :: c in columns0 || (c in described && c.name == name)
      invariant forall c | c in columns :: c in described && c.name in seen
      invariant forall i | 0 <= i < j && described[i].name == name :: described[i] in columns
      invariant forall n | n in seen :: exists c | c in columns :: c.name == n
    {
      var c := described[j];
      if c.name == name && c.name !in seen {
        columns := columns + [c];
        seen := seen + {name};
        assert c in columns;
      } else if c.name == name {
        var d :| d in columns && d.name == c.name;
        SameNameSame(described, c, d);
      }
    }
  }

  lemma SameNameSame(columns: seq<Described>, c: Described, d: Described)
    requires DistinctNames(columns) && c in columns && d in columns && c.name == d.name
    ensures c == d
  {
    var i :| 0 <= i < |columns| && columns[i] == c;
    var j :| 0 <= j < |columns| && columns[j] == d;
    assert i == j;
  }

  function SchemaFor(columns: seq<Described>): (s: Schema)
    ensures forall n :: n in s ==> Described(n, s[n]) in columns
    ensures forall c :: c in columns ==> c.name in s
  {
    if columns == [] then map[] else
      var last := columns[|columns| - 1];
      SchemaFor(columns[..|columns| - 1])[last.name := last.column]
  }

  ghost predicate SameKeyColumns(a: Schema, b: Schema)
  {
    forall n :: (IsPk(a, n) <==> IsPk(b, n)) && (IsPk(a, n) ==> a[n].pkIndex == b[n].pkIndex)
  }

  lemma {:induction false} SameKeyOrder(a: Schema, b: Schema, s: set<string>)
    requires SameKeyColumns(a, b) && s <= PkColumns(a)
    ensures s <= PkColumns(b) && PkOrder(a, s) == PkOrder(b, s)
  {
    forall n | n in s ensures n in PkColumns(b) { assert n in PkColumns(a); assert IsPk(a, n); }
    if s != {} {
      var m := FirstPk(a, s);
      forall x | x in s && x != m ensures PkBefore(b, m, x) {
        assert IsPk(a, m) && IsPk(a, x) && PkBefore(a, m, x);
      }
      LessTotal(m, FirstPk(b, s));
      SameKeyOrder(a, b, s - {m});
    }
  }

  /** A row and its projection have the same signature: the projected schema has the same key
      columns, in the same order. */
  lemma ProjectionKeepsSignature(described: seq<Described>, explicit: seq<string>, columns: seq<Described>, row: Row, projected: Row)
    requires DistinctNames(described) && DistinctNames(columns)
    requires forall c :: c in columns <==> c in described && Selected(c, explicit)
    requires forall c | c in columns :: Cell(projected, c.name) == Cell(row, c.name)
    ensures PrimaryKeySignature(SchemaFor(columns), projected) == PrimaryKeySignature(SchemaFor(described), row)
  {
    var a, b := SchemaFor(described), SchemaFor(columns);
    forall n ensures (IsPk(a, n) <==> IsPk(b, n)) && (IsPk(a, n) ==> a[n].pkIndex == b[n].pkIndex) {
      ProjectionAt(described, explicit, columns, n);
    }
    SameKeyOrder(a, b, PkColumns(a));
    assert PkColumns(a) == PkColumns(b);
    var names := PkNames(a);
    forall i | 0 <= i < |names| ensures Cell(projected, names[i]) == Cell(row, names[i]) {
      assert names[i] in names;
      assert IsPk(b, names[i]);
      assert Described(names[i], b[names[i]]) in columns;
    }
    assert KeyValues(names, projected) == KeyValues(names, row);
  }

  lemma ProjectionAt(described: seq<Described>, explicit: seq<string>, columns: seq<Described>, n: string)
    requires DistinctNames(described)
    requires forall c :: c in columns <==> c in described && Selected(c, explicit)
    ensures var a, b := SchemaFor(described), SchemaFor(columns);
      (IsPk(a, n) <==> IsPk(b, n)) && (IsPk(a, n) ==> a[n].pkIndex == b[n].pkIndex)
  {
    var a, b := SchemaFor(described), SchemaFor(columns);
    if n in b {
      var c := Described(n, b[n]);
      assert c in columns && c in described;
      assert n in a;
      SameNameSame(described, c, Described(n, a[n]));
    }
    if IsPk(a, n) {
      var c := Described(n, a[n]);
      assert c in described && Selected(c, explicit);
      assert c in columns;
    }
  }
}
