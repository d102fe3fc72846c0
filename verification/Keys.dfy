/** Relations, schemas, rows and the two keys a row has: the internal signature and
    the quoted wire key. Models internal/shapes/keys.go and the types it reads. */
module Keys {
  import opened Strings

  datatype Relation = Relation(schema: string, table: string)

  datatype Column = Column(typ: string, notNull: bool, pkIndex: Option<int>)

  type Schema = map<string, Column>

  /** A column holds text or NULL; a column missing from the map reads as NULL. */
  type Row = map<string, Option<string>>

  const SEPARATOR: char := '\U{001f}'

  function Cell(row: Row, column: string): Option<string>
  {
    if column in row then row[column] else None
  }

  // ---- primary key columns, in key order ----

  predicate IsPk(schema: Schema, name: string)
  {
    name in schema && schema[name].pkIndex.Some?
  }

  function PkColumns(schema: Schema): (s: set<string>)
    ensures forall n :: n in s <==> IsPk(schema, n)
  {
    set n | n in schema && schema[n].pkIndex.Some?
  }

  /** Key order: by index, a tie going to the smaller name. */
  predicate PkBefore(schema: Schema, a: string, b: string)
    requires IsPk(schema, a) && IsPk(schema, b)
  {
    schema[a].pkIndex.value < schema[b].pkIndex.value ||
    (schema[a].pkIndex.value == schema[b].pkIndex.value && Less(a, b))
  }

  predicate IsFirstPk(schema: Schema, m: string, s: set<string>)
    requires s <= PkColumns(schema)
  {
    m in s && forall x | x in s && x != m :: PkBefore(schema, m, x)
  }

  lemma {:induction false} FirstPkExists(schema: Schema, s: set<string>)
    requires s != {} && s <= PkColumns(schema)
    ensures exists m :: IsFirstPk(schema, m, s)
  {
    var x :| x in s;
    var rest := s - {x};
    if rest == {} {
      assert s == {x};
      assert IsFirstPk(schema, x, s);
    } else {
      FirstPkExists(schema, rest);
      var m :| IsFirstPk(schema, m, rest);
      LessTotal(x, m);
      if PkBefore(schema, x, m) {
        forall y | y in s && y != x ensures PkBefore(schema, x, y) {
          if y != m {
            assert PkBefore(schema, m, y);
            if Less(x, m) && Less(m, y) { LessTransitive(x, m, y); }
          }
        }
        assert IsFirstPk(schema, x, s);
      } else {
        assert IsFirstPk(schema, m, s);
      }
    }
  }

  function FirstPk(schema: Schema, s: set<string>): (m: string)
    requires s != {} && s <= PkColumns(schema)
    ensures IsFirstPk(schema, m, s)
  {
    FirstPkExists(schema, s);
    assert forall a, b | IsFirstPk(schema, a, s) && IsFirstPk(schema, b, s) :: a == b by {
      forall a, b | IsFirstPk(schema, a, s) && IsFirstPk(schema, b, s) ensures a == b { LessTotal(a, b); }
    }
    var m :| m in s && IsFirstPk(schema, m, s);
    m
  }

  function PkOrder(schema: Schema, s: set<string>): (names: seq<string>)
    requires s <= PkColumns(schema)
    ensures |names| == |s|
    ensures forall n :: n in names <==> n in s
  {
    if s == {} then [] else
      var m := FirstPk(schema, s);
      [m] + PkOrder(schema, s - {m})
  }

  function PkNames(schema: Schema): (names: seq<string>)
    ensures forall n :: n in names <==> IsPk(schema, n)
  {
    PkOrder(schema, PkColumns(schema))
  }

  /** A missing or NULL key column contributes the empty string. */
  function KeyText(cell: Option<string>): string
  {
    match cell case None => "" case Some(v) => v
  }

  function KeyValues(names: seq<string>, row: Row): (values: seq<string>)
    ensures |values| == |names|
    ensures forall i | 0 <= i < |names| :: values[i] == KeyText(Cell(row, names[i]))
  {
    seq(|names|, i requires 0 <= i < |names| => KeyText(Cell(row, names[i])))
  }

  function PrimaryKeyValues(schema: Schema, row: Row): (values: seq<string>)
  {
    KeyValues(PkNames(schema), row)
  }

  // ---- the internal signature ----

  function PrimaryKeySignature(schema: Schema, row: Row): string
  {
    Join(PrimaryKeyValues(schema, row), [SEPARATOR])
  }

  predicate NoSeparator(values: seq<string>)
  {
    forall i | 0 <= i < |values| :: SEPARATOR !in values[i]
  }

  /** Where the first separator stands fixes the first component. */
  lemma FirstComponent(a: string, x: string, b: string, y: string)
    requires SEPARATOR !in a && SEPARATOR !in b
    requires a + [SEPARATOR] + x == b + [SEPARATOR] + y
    ensures a == b && x == y
  {
    SplitFirst(a, SEPARATOR, x);
    SplitFirst(b, SEPARATOR, y);
  }

  lemma {:induction false} JoinDecodes(vs: seq<string>, ws: seq<string>)
    requires |vs| == |ws| && NoSeparator(vs) && NoSeparator(ws)
    requires Join(vs, [SEPARATOR]) == Join(ws, [SEPARATOR])
    ensures vs == ws
  {
    if |vs| > 1 {
      FirstComponent(vs[0], Join(vs[1..], [SEPARATOR]), ws[0], Join(ws[1..], [SEPARATOR]));
      JoinDecodes(vs[1..], ws[1..]);
    }
  }

  function CountSeparators(s: string): nat
  {
    if s == [] then 0 else (if s[0] == SEPARATOR then 1 else 0) + CountSeparators(s[1..])
  }

  lemma {:induction false} CountAppend(a: string, b: string)
    ensures CountSeparators(a + b) == CountSeparators(a) + CountSeparators(b)
  {
    if a == [] {
      assert a + b == b;
    } else {
      assert (a + b)[1..] == a[1..] + b;
      CountAppend(a[1..], b);
    }
  }

  lemma {:induction false} CountZero(s: string)
    ensures CountSeparators(s) == 0 <==> SEPARATOR !in s
  {
    if s != [] {
      CountZero(s[1..]);
      assert s == [s[0]] + s[1..];
    }
  }

  lemma {:induction false} CountJoin(vs: seq<string>)
    requires vs != []
    ensures CountSeparators(Join(vs, [SEPARATOR])) >= |vs| - 1
    ensures CountSeparators(Join(vs, [SEPARATOR])) == |vs| - 1 <==> NoSeparator(vs)
  {
    CountZero(vs[0]);
    if |vs| == 1 {
      assert NoSeparator(vs) <==> SEPARATOR !in vs[0];
    } else {
      var rest := Join(vs[1..], [SEPARATOR]);
      CountJoin(vs[1..]);
      CountAppend(vs[0] + [SEPARATOR], rest);
      CountAppend(vs[0], [SEPARATOR]);
      assert [SEPARATOR][1..] == [];
      assert vs == [vs[0]] + vs[1..];
      assert NoSeparator(vs) <==> SEPARATOR !in vs[0] && NoSeparator(vs[1..]);
    }
  }

  /** Moving text across one boundary of a composite key. */
  function Shifted(vs: seq<string>, i: nat, p: nat): (ws: seq<string>)
    requires i + 1 < |vs| && p < |vs[i]|
    ensures |ws| == |vs|
  {
    vs[i := vs[i][..p]][i + 1 := vs[i][p + 1..] + [SEPARATOR] + vs[i + 1]]
  }

  lemma {:induction false} ShiftedJoins(vs: seq<string>, i: nat, p: nat)
    requires i + 1 < |vs| && p < |vs[i]| && vs[i][p] == SEPARATOR
    ensures Join(Shifted(vs, i, p), [SEPARATOR]) == Join(vs, [SEPARATOR])
  {
    var ws := Shifted(vs, i, p);
    if i == 0 {
      assert vs[0] == vs[0][..p] + [SEPARATOR] + vs[0][p + 1..];
      assert ws[1..][1..] == vs[1..][1..];
      assert Join(ws[1..], [SEPARATOR]) == vs[0][p + 1..] + [SEPARATOR] + Join(vs[1..], [SEPARATOR]);
    } else {
      assert ws[1..] == Shifted(vs[1..], i - 1, p);
      ShiftedJoins(vs[1..], i - 1, p);
    }
  }

  /** Some other key of the same width has the same signature. */
  ghost predicate Ambiguous(vs: seq<string>)
  {
    exists ws: seq<string> :: |ws| == |vs| && ws != vs && Join(ws, [SEPARATOR]) == Join(vs, [SEPARATOR])
  }

  lemma SeparatorMakesAmbiguous(vs: seq<string>, i: nat, p: nat)
    requires |vs| > 1 && i < |vs| && p < |vs[i]| && vs[i][p] == SEPARATOR
    ensures Ambiguous(vs)
  {
    if i + 1 < |vs| {
      ShiftedJoins(vs, i, p);
      assert |Shifted(vs, i, p)[i]| == p;
    } else {
      var ws := LastMovedBack(vs, p);
    }
  }

  /** The same construction at the last component, read backwards. */
  lemma LastMovedBack(vs: seq<string>, p: nat) returns (ws: seq<string>)
    requires |vs| > 1 && p < |vs[|vs| - 1]| && vs[|vs| - 1][p] == SEPARATOR
    ensures |ws| == |vs| && ws != vs && Join(ws, [SEPARATOR]) == Join(vs, [SEPARATOR])
  {
    var i := |vs| - 1;
    var a, b := vs[i - 1], vs[i];
    var moved := a + [SEPARATOR] + b[..p];
    ws := vs[i - 1 := moved][i := b[p + 1..]];
    assert moved[..|a|] == a && moved[|a| + 1..] == b[..p];
    assert b == b[..p] + [SEPARATOR] + b[p + 1..];
    assert Shifted(ws, i - 1, |a|) == vs;
    ShiftedJoins(ws, i - 1, |a|);
    assert |ws[i - 1]| > |vs[i - 1]|;
  }

  /** A key signature stands for one key exactly when the key has a single column or
      no component holds the separator. */
  lemma SignatureAmbiguity(vs: seq<string>)
    requires vs != []
    ensures Ambiguous(vs) <==> |vs| > 1 && !NoSeparator(vs)
  {
    if NoSeparator(vs) {
      forall ws: seq<string> | |ws| == |vs| && Join(ws, [SEPARATOR]) == Join(vs, [SEPARATOR]) ensures ws == vs {
        CountJoin(vs);
        CountJoin(ws);
        JoinDecodes(vs, ws);
      }
    } else if |vs| > 1 {
      var i :| 0 <= i < |vs| && SEPARATOR in vs[i];
      var p :| 0 <= p < |vs[i]| && vs[i][p] == SEPARATOR;
      SeparatorMakesAmbiguous(vs, i, p);
    }
  }

  // ---- the quoted wire key ----

  function Doubled(v: string): string
  {
    if v == [] then [] else (if v[0] == '"' then "\"\"" else [v[0]]) + Doubled(v[1..])
  }

  function QuoteIdentifier(v: string): string
  {
    "\"" + Doubled(v) + "\""
  }

  function QuoteRelation(r: Relation): string
  {
    QuoteIdentifier(r.schema) + "." + QuoteIdentifier(r.table)
  }

  /** Quotes become `\"`; a backslash is copied as it is. */
  function Escaped(v: string): string
  {
    if v == [] then [] else (if v[0] == '"' then "\\\"" else [v[0]]) + Escaped(v[1..])
  }

  function QuoteKeyValue(v: string): string
  {
    "\"" + Escaped(v) + "\""
  }

  function KeyTail(values: seq<string>): string
  {
    if values == [] then "" else "/" + QuoteKeyValue(values[0]) + KeyTail(values[1..])
  }

  function KeyOfValues(relation: Relation, values: seq<string>): string
  {
    if values == [] then "" else QuoteRelation(relation) + KeyTail(values)
  }

  function MessageKey(relation: Relation, schema: Schema, row: Row): string
  {
    KeyOfValues(relation, PrimaryKeyValues(schema, row))
  }

  /** The loop of `MessageKey`: quoted parts joined by slashes. */
  method BuildMessageKey(relation: Relation, schema: Schema, row: Row) returns (key: string)
    ensures key == MessageKey(relation, schema, row)
  {
    hide PrimaryKeyValues, QuoteRelation, QuoteKeyValue, KeyTail;
    var values := PrimaryKeyValues(schema, row);
    if values == [] {
      return "";
    }
    key := QuoteRelation(relation);
    for i := 0 to |values|
      invariant key + KeyTail(values[i..]) == QuoteRelation(relation) + KeyTail(values)
    {
      TailAdvances(key, values, i);
      key := key + "/" + QuoteKeyValue(values[i]);
    }
    NoTail(key, values);
  }

  lemma TailAdvances(key: string, values: seq<string>, i: nat)
    requires i < |values|
    ensures key + KeyTail(values[i..]) == key + "/" + QuoteKeyValue(values[i]) + KeyTail(values[i + 1..])
  {
    hide QuoteKeyValue;
    assert values[i..][1..] == values[i + 1..];
    assert key + ("/" + QuoteKeyValue(values[i]) + KeyTail(values[i + 1..]))
           == key + "/" + QuoteKeyValue(values[i]) + KeyTail(values[i + 1..]);
  }

  lemma NoTail(key: string, values: seq<string>)
    ensures key + KeyTail(values[|values|..]) == key
  {
  }

  /** `DoubledThen(v, k)`, `EscapedThen(v, k)` and `TailText(vs)` are the same texts built from
      the left, one character at a time, so that two readings can be compared step by step. */
  function DoubledThen(v: string, k: string): string
  {
    if v == [] then ['"'] + k
    else if v[0] == '"' then ['"'] + (['"'] + DoubledThen(v[1..], k))
    else [v[0]] + DoubledThen(v[1..], k)
  }

  function EscapedThen(v: string, k: string): string
  {
    if v == [] then ['"'] + k
    else if v[0] == '"' then ['\\'] + (['"'] + EscapedThen(v[1..], k))
    else [v[0]] + EscapedThen(v[1..], k)
  }

  function TailText(values: seq<string>): string
  {
    if values == [] then [] else ['/'] + (['"'] + EscapedThen(values[0], TailText(values[1..])))
  }

  lemma {:induction false} DoubledThenIs(v: string, k: string)
    ensures DoubledThen(v, k) == Doubled(v) + "\"" + k
  {
    if v != [] { DoubledThenIs(v[1..], k); }
  }

  lemma {:induction false} EscapedThenIs(v: string, k: string)
    ensures EscapedThen(v, k) == Escaped(v) + "\"" + k
  {
    if v != [] { EscapedThenIs(v[1..], k); }
  }

  lemma {:induction false} TailTextIs(values: seq<string>)
    ensures TailText(values) == KeyTail(values)
  {
    if values != [] {
      TailTextIs(values[1..]);
      EscapedThenIs(values[0], KeyTail(values[1..]));
    }
  }

  /** A doubled identifier ends at the first quote that is not followed by a quote. */
  lemma {:induction false} DoubledDecodes(a: string, x: string, b: string, y: string)
    requires (x != [] ==> x[0] != '"') && (y != [] ==> y[0] != '"')
    requires DoubledThen(a, x) == DoubledThen(b, y)
    ensures a == b && x == y
  {
    if a == [] || b == [] {
      EndMatchesEnd(a, x, b, y);
    } else if a[0] == '"' {
      ConsEqual('"', ['"'] + DoubledThen(a[1..], x), DoubledThen(b, y)[0], DoubledThen(b, y)[1..]);
      assert b[0] == '"';
      ConsEqual('"', DoubledThen(a[1..], x), '"', DoubledThen(b[1..], y));
      DoubledDecodes(a[1..], x, b[1..], y);
    } else {
      assert DoubledThen(a, x)[0] == a[0] && DoubledThen(b, y)[0] == b[0];
      ConsEqual(a[0], DoubledThen(a[1..], x), b[0], DoubledThen(b[1..], y));
      DoubledDecodes(a[1..], x, b[1..], y);
    }
  }

  lemma EndMatchesEnd(a: string, x: string, b: string, y: string)
    requires a == [] || b == []
    requires (x != [] ==> x[0] != '"') && (y != [] ==> y[0] != '"')
    requires DoubledThen(a, x) == DoubledThen(b, y)
    ensures a == b == [] && x == y
  {
    var l, r := DoubledThen(a, x), DoubledThen(b, y);
    assert a == [] ==> l[1..] == x;
    assert b == [] ==> r[1..] == y;
    assert l[0] == r[0];
    InnerQuoteIsDoubled(a, x);
    InnerQuoteIsDoubled(b, y);
  }

  lemma InnerQuoteIsDoubled(v: string, k: string)
    ensures v != [] && DoubledThen(v, k)[0] == '"' ==> |DoubledThen(v, k)| > 1 && DoubledThen(v, k)[1] == '"'
  {
    if v != [] && v[0] == '"' {
      assert DoubledThen(v, k)[1..] == ['"'] + DoubledThen(v[1..], k);
    }
  }

  /** Two readings of the text that disagree on whether a quote closes a value can never
      agree again: each close is met by an open of the other reading, one slash further on,
      for ever, and the text is finite. */
  lemma {:induction false} ReadingsCannotDrift(vs: seq<string>, w: string, ws: seq<string>)
    ensures TailText(vs) != EscapedThen(w, TailText(ws))
    decreases |TailText(vs)|
  {
    if TailText(vs) == EscapedThen(w, TailText(ws)) {
      var inner := EscapedThen(vs[0], TailText(vs[1..]));
      assert TailText(vs)[0] == '/';
      assert w != [] && w[0] == '/';
      ConsEqual('/', ['"'] + inner, '/', EscapedThen(w[1..], TailText(ws)));
      assert (['"'] + inner)[0] == '"';
      assert w[1..] == [];
      ConsEqual('"', inner, '"', TailText(ws));
      ReadingsCannotDrift(ws, vs[0], vs[1..]);
    }
  }

  lemma {:induction false} ValueDecodes(v: string, vs: seq<string>, w: string, ws: seq<string>)
    requires EscapedThen(v, TailText(vs)) == EscapedThen(w, TailText(ws))
    ensures v == w && TailText(vs) == TailText(ws)
  {
    var l, r := EscapedThen(v, TailText(vs)), EscapedThen(w, TailText(ws));
    assert l[0] == r[0];
    if v == [] || w == [] {
      ConsEqual('"', TailText(vs), '"', TailText(ws));
    } else if v[0] == w[0] {
      if v[0] == '"' {
        ConsEqual('\\', ['"'] + EscapedThen(v[1..], TailText(vs)), '\\', ['"'] + EscapedThen(w[1..], TailText(ws)));
        ConsEqual('"', EscapedThen(v[1..], TailText(vs)), '"', EscapedThen(w[1..], TailText(ws)));
      } else {
        ConsEqual(v[0], EscapedThen(v[1..], TailText(vs)), w[0], EscapedThen(w[1..], TailText(ws)));
      }
      ValueDecodes(v[1..], vs, w[1..], ws);
    } else if v[0] == '"' {
      BackslashDrift(w, ws, v, vs);
    } else {
      BackslashDrift(v, vs, w, ws);
    }
  }

  /** A value that starts with a bare backslash against one that starts with a quote. */
  lemma BackslashDrift(v: string, vs: seq<string>, w: string, ws: seq<string>)
    requires v != [] && w != [] && v[0] != w[0] && v[0] != '"'
    ensures EscapedThen(v, TailText(vs)) != EscapedThen(w, TailText(ws))
  {
    if EscapedThen(v, TailText(vs)) == EscapedThen(w, TailText(ws)) {
      var rest := EscapedThen(w[1..], TailText(ws));
      assert EscapedThen(w, TailText(ws))[0] == v[0];
      assert w[0] == '"';
      ConsEqual('\\', EscapedThen(v[1..], TailText(vs)), '\\', ['"'] + rest);
      assert (['"'] + rest)[0] == '"';
      assert v[1..] == [];
      ConsEqual('"', TailText(vs), '"', rest);
      ReadingsCannotDrift(vs, w[1..], ws);
    }
  }

  lemma {:induction false} TailDecodes(vs: seq<string>, ws: seq<string>)
    requires TailText(vs) == TailText(ws)
    ensures vs == ws
  {
    if vs != [] && ws != [] {
      var x, y := EscapedThen(vs[0], TailText(vs[1..])), EscapedThen(ws[0], TailText(ws[1..]));
      ConsEqual('/', ['"'] + x, '/', ['"'] + y);
      ConsEqual('"', x, '"', y);
      ValueDecodes(vs[0], vs[1..], ws[0], ws[1..]);
      TailDecodes(vs[1..], ws[1..]);
    }
  }

  /** The whole key, built from the left. */
  function KeyFromLeft(r: Relation, vs: seq<string>): string
  {
    ['"'] + DoubledThen(r.schema, ['.'] + (['"'] + DoubledThen(r.table, TailText(vs))))
  }

  lemma KeyFromLeftIs(r: Relation, vs: seq<string>)
    requires vs != []
    ensures KeyFromLeft(r, vs) == KeyOfValues(r, vs)
  {
    hide DoubledThen, Doubled, TailText, KeyTail;
    TailTextIs(vs);
    DoubledThenIs(r.table, KeyTail(vs));
    DoubledThenIs(r.schema, ['.'] + (['"'] + DoubledThen(r.table, TailText(vs))));
  }

  /** Wire keys are uniquely decodable: for all relations and all nonempty key lists, equal
      text means equal relation and equal values, although backslash is never escaped. */
  lemma MessageKeyDecodes(r1: Relation, vs: seq<string>, r2: Relation, ws: seq<string>)
    requires vs != [] && ws != []
    requires KeyOfValues(r1, vs) == KeyOfValues(r2, ws)
    ensures r1 == r2 && vs == ws
  {
    KeyFromLeftIs(r1, vs);
    KeyFromLeftIs(r2, ws);
    var t1, t2 := DoubledThen(r1.table, TailText(vs)), DoubledThen(r2.table, TailText(ws));
    var s1, s2 := ['.'] + (['"'] + t1), ['.'] + (['"'] + t2);
    ConsEqual('"', DoubledThen(r1.schema, s1), '"', DoubledThen(r2.schema, s2));
    DoubledDecodes(r1.schema, s1, r2.schema, s2);
    ConsEqual('.', ['"'] + t1, '.', ['"'] + t2);
    ConsEqual('"', t1, '"', t2);
    DoubledDecodes(r1.table, TailText(vs), r2.table, TailText(ws));
    TailDecodes(vs, ws);
  }

  /** Within one relation and schema with a primary key, the wire key names the same row as
      the internal signature, as long as the key has one column or no key value holds the separator. */
  lemma WireKeyMatchesSignature(relation: Relation, schema: Schema, a: Row, b: Row)
    requires PkNames(schema) != []
    requires |PkNames(schema)| == 1 || (NoSeparator(PrimaryKeyValues(schema, a)) && NoSeparator(PrimaryKeyValues(schema, b)))
    ensures MessageKey(relation, schema, a) == MessageKey(relation, schema, b)
            <==> PrimaryKeySignature(schema, a) == PrimaryKeySignature(schema, b)
  {
    var vs, ws := PrimaryKeyValues(schema, a), PrimaryKeyValues(schema, b);
    if MessageKey(relation, schema, a) == MessageKey(relation, schema, b) {
      MessageKeyDecodes(relation, vs, relation, ws);
    }
    if PrimaryKeySignature(schema, a) == PrimaryKeySignature(schema, b) {
      if |vs| == 1 {
        assert vs == [vs[0]] && ws == [ws[0]];
      } else {
        JoinDecodes(vs, ws);
      }
    }
  }

  lemma {:induction false} PlainUnchanged(v: string)
    requires '"' !in v
    ensures Doubled(v) == v && Escaped(v) == v
  {
    if v != [] {
      assert v[0] in v && v[0] != '"' && forall c | c in v[1..] :: c in v;
      PlainUnchanged(v[1..]);
      assert v == [v[0]] + v[1..];
    }
  }

  /** The key of a row with one key column, when no name and no value holds a double quote: "schema"."table"/"value". */
  lemma PlainKeyText(r: Relation, v: string)
    requires '"' !in r.schema && '"' !in r.table && '"' !in v
    ensures KeyOfValues(r, [v]) == "\"" + r.schema + "\".\"" + r.table + "\"/\"" + v + "\""
  {
    hide Doubled, Escaped;
    PlainUnchanged(r.schema);
    PlainUnchanged(r.table);
    PlainUnchanged(v);
    assert KeyTail([v]) == "/\"" + v + "\"" by { assert [v][1..] == []; }
    assert QuoteRelation(r) == "\"" + r.schema + "\".\"" + r.table + "\"";
    assert "\"" + "/\"" == "\"/\"";
  }
}
