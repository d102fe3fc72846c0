/** The client as it is: it knows rows only by the wire keys of the messages it receives. Over every run of
    refreshes it holds the shape's rows exactly as long as it is sent the baseline and every update and
    delete prints the relation under which its row was last inserted. */
module WireClient {
  import opened Strings
  import opened Offsets
  import opened Keys
  import opened Diff
  import opened ShapeLog
  import opened Client
  import opened Replay
  import opened EpochOrder

  // ---- wire keys as a function of signatures ----

  /** The parts of a signature between separators. */
  function SplitKey(s: string): (r: seq<string>)
    ensures r != []
  {
    var i := FirstIndex(s, SEPARATOR);
    if i == |s| then [s] else [s[..i]] + SplitKey(s[i + 1..])
  }

  lemma JoinFront(part: string, rest: seq<string>)
    requires rest != []
    ensures Join([part] + rest, [SEPARATOR]) == part + [SEPARATOR] + Join(rest, [SEPARATOR])
  {
    assert ([part] + rest)[1..] == rest;
  }

  lemma {:induction false} JoinSplit(s: string)
    ensures Join(SplitKey(s), [SEPARATOR]) == s
  {
    hide FirstIndex;
    var i := FirstIndex(s, SEPARATOR);
    if i < |s| {
      JoinSplit(s[i + 1..]);
      JoinFront(s[..i], SplitKey(s[i + 1..]));
      hide Join;
      assert s == s[..i] + [SEPARATOR] + s[i + 1..];
    }
  }

  lemma SplitFront(part: string, rest: string)
    requires SEPARATOR !in part
    ensures SplitKey(part + [SEPARATOR] + rest) == [part] + SplitKey(rest)
  {
    hide FirstIndex;
    SplitFirst(part, SEPARATOR, rest);
  }

  lemma JoinSingle(part: string)
    requires SEPARATOR !in part
    ensures Join([part], [SEPARATOR]) == part && SplitKey(part) == [part]
  {
    hide FirstIndex;
  }

  lemma {:induction false} SplitJoin(vs: seq<string>)
    requires vs != [] && NoSeparator(vs)
    ensures SplitKey(Join(vs, [SEPARATOR])) == vs
  {
    hide FirstIndex, SplitKey, Join;
    assert SEPARATOR !in vs[0];
    if |vs| > 1 {
      assert NoSeparator(vs[1..]);
      SplitJoin(vs[1..]);
      assert vs == [vs[0]] + vs[1..];
      JoinFront(vs[0], vs[1..]);
      SplitFront(vs[0], Join(vs[1..], [SEPARATOR]));
    } else {
      JoinSingle(vs[0]);
      assert vs == [vs[0]];
    }
  }

  /** The key values that a signature of `n` columns stands for. */
  function ValuesOf(n: nat, key: string): (r: seq<string>)
    ensures r != []
  {
    if n == 1 then [key] else SplitKey(key)
  }

  function WireKey(names: seq<string>, relation: Relation, key: string): string
  {
    if names == [] then "" else KeyOfValues(relation, ValuesOf(|names|, key))
  }

  lemma WireKeyDecides(names: seq<string>, r1: Relation, k1: string, r2: Relation, k2: string)
    requires names != [] && WireKey(names, r1, k1) == WireKey(names, r2, k2)
    ensures r1 == r2 && k1 == k2
  {
    hide KeyOfValues, SplitKey;
    MessageKeyDecodes(r1, ValuesOf(|names|, k1), r2, ValuesOf(|names|, k2));
    JoinSplit(k1);
    JoinSplit(k2);
  }

  /** The row has this signature, and its key values can be read back from it: one column, or none that
      holds the separator. */
  ghost predicate Keyed(names: seq<string>, key: string, row: Row)
  {
    var values := KeyValues(names, row);
    key == Join(values, [SEPARATOR]) && (|names| <= 1 || NoSeparator(values))
  }

  lemma KeyedWireKey(names: seq<string>, schema: Schema, relation: Relation, key: string, row: Row)
    requires PkNames(schema) == names && Keyed(names, key, row)
    ensures MessageKey(relation, schema, row) == WireKey(names, relation, key)
  {
    hide QuoteRelation, KeyTail, SplitKey, PkNames;
    var values := KeyValues(names, row);
    if |names| == 1 {
      assert values == [values[0]];
    } else if |names| > 1 {
      SplitJoin(values);
    } else {
      assert values == [];
    }
  }

  ghost predicate RowsKeyed(names: seq<string>, rows: Rows)
  {
    forall k | k in rows :: Keyed(names, k, rows[k])
  }

  // ---- the client ----

  /** What a client does with a message: rows are found by the key in the message. */
  function ApplyWire(full: bool, w: State, m: Message): State
  {
    Apply(full, w, m.(internalKey := m.key))
  }

  function ReplayWire(full: bool, w: State, messages: seq<Message>): State
  {
    if messages == [] then w else ApplyWire(full, ReplayWire(full, w, messages[..|messages| - 1]), messages[|messages| - 1])
  }

  lemma {:induction false} ReplayWireConcat(full: bool, w: State, a: seq<Message>, b: seq<Message>)
    ensures ReplayWire(full, w, a + b) == ReplayWire(full, ReplayWire(full, w, a), b)
  {
    hide ApplyWire;
    if b == [] {
      assert a + b == a;
    } else {
      assert (a + b)[..|a + b| - 1] == a + b[..|b| - 1];
      ReplayWireConcat(full, w, a, b[..|b| - 1]);
    }
  }

  // ---- agreement with a client that sees signatures ----

  /** The message is keyed as rows of `relation` are. */
  ghost predicate KeyFits(names: seq<string>, relation: Relation, m: Message)
  {
    m.body.Change? ==> m.key == WireKey(names, relation, m.internalKey) && (names == [] ==> m.internalKey == "")
  }

  ghost predicate AllFit(names: seq<string>, relation: Relation, messages: seq<Message>)
  {
    forall i | 0 <= i < |messages| :: KeyFits(names, relation, messages[i])
  }

  /** For each signature, the relation that its wire key prints. */
  type Owners = string -> Relation

  /** The same entries under wire keys and under signatures. */
  ghost predicate Mirrors(names: seq<string>, own: Owners, w: State, c: State)
  {
    (forall k | k in c :: WireKey(names, own(k), k) in w && w[WireKey(names, own(k), k)] == c[k]) &&
    (forall x | x in w :: exists k :: k in c && x == WireKey(names, own(k), k)) &&
    (names == [] ==> c.Keys <= {""})
  }

  lemma SameWire(names: seq<string>, r1: Relation, a: string, r2: Relation, b: string)
    requires names == [] ==> a == b == ""
    ensures WireKey(names, r1, a) == WireKey(names, r2, b) ==> a == b && (names == [] || r1 == r2)
  {
    if names != [] && WireKey(names, r1, a) == WireKey(names, r2, b) {
      WireKeyDecides(names, r1, a, r2, b);
    }
  }

  lemma MirrorPut(names: seq<string>, own: Owners, after: Owners, relation: Relation, w: State, c: State, k: string, e: Entry)
    requires Mirrors(names, own, w, c) && (names == [] ==> k == "") && (k !in c || own(k) == relation)
    requires after(k) == relation && forall x | x != k :: after(x) == own(x)
    ensures Mirrors(names, after, w[WireKey(names, relation, k) := e], c[k := e])
  {
    hide WireKey;
    var x', c' := WireKey(names, relation, k), c[k := e];
    var w' := w[x' := e];
    forall x | x in c' ensures WireKey(names, after(x), x) in w' && w'[WireKey(names, after(x), x)] == c'[x] {
      SameWire(names, after(x), x, relation, k);
    }
    forall x | x in w' ensures exists y :: y in c' && x == WireKey(names, after(y), y) {
      if x == x' {
        assert k in c' && x == WireKey(names, after(k), k);
      } else {
        var y :| y in c && x == WireKey(names, own(y), y);
        assert y != k;
        assert y in c' && x == WireKey(names, after(y), y);
      }
    }
  }

  lemma MirrorDrop(names: seq<string>, own: Owners, w: State, c: State, k: string)
    requires Mirrors(names, own, w, c) && (names == [] ==> k == "")
    ensures Mirrors(names, own, w - {WireKey(names, own(k), k)}, c - {k})
  {
    hide WireKey;
    var w', c' := w - {WireKey(names, own(k), k)}, c - {k};
    forall x | x in c' ensures WireKey(names, own(x), x) in w' && w'[WireKey(names, own(x), x)] == c'[x] {
      SameWire(names, own(x), x, own(k), k);
    }
    forall x | x in w' ensures exists y :: y in c' && x == WireKey(names, own(y), y) {
      var y :| y in c && x == WireKey(names, own(y), y);
      assert y in c';
    }
  }

  lemma MirrorFilter(names: seq<string>, own: Owners, w: State, c: State, pattern: string)
    requires Mirrors(names, own, w, c)
    ensures Mirrors(names, own, map x | x in w && pattern !in w[x].tags :: w[x], map k | k in c && pattern !in c[k].tags :: c[k])
  {
    hide WireKey;
    var w', c' := map x | x in w && pattern !in w[x].tags :: w[x], map k | k in c && pattern !in c[k].tags :: c[k];
    forall x | x in w' ensures exists y :: y in c' && x == WireKey(names, own(y), y) {
      var y :| y in c && x == WireKey(names, own(y), y);
      assert y in c';
    }
  }

  /** A key printed for `relation` is held exactly when its signature is, under that relation. */
  lemma MirrorLookup(names: seq<string>, own: Owners, relation: Relation, w: State, c: State, k: string)
    requires Mirrors(names, own, w, c) && (names == [] ==> k == "")
    ensures WireKey(names, relation, k) in w <==> k in c && (names == [] || own(k) == relation)
    ensures k in c && own(k) == relation ==> w[WireKey(names, relation, k)] == c[k]
  {
    if WireKey(names, relation, k) in w {
      var y :| y in c && WireKey(names, relation, k) == WireKey(names, own(y), y);
      SameWire(names, relation, k, own(y), y);
    }
  }

  /** A message printed for `relation` meets the row where the client has it: an insert finds none or its
      own, an update or delete finds its own. */
  ghost predicate Meets(own: Owners, relation: Relation, c: State, m: Message)
  {
    m.body.Change? ==> own(m.internalKey) == relation || (m.body.op == Insert && m.internalKey !in c)
  }

  predicate IsInsert(m: Message, k: string)
  {
    m.body.Change? && m.body.op == Insert && m.internalKey == k
  }

  lemma MirrorStep(names: seq<string>, own: Owners, after: Owners, relation: Relation, full: bool, w: State, c: State, m: Message)
    requires Mirrors(names, own, w, c) && KeyFits(names, relation, m) && Meets(own, relation, c, m)
    requires forall x :: after(x) == if IsInsert(m, x) then relation else own(x)
    ensures Mirrors(names, after, ApplyWire(full, w, m), Apply(full, c, m))
  {
    hide Mirrors, WireKey;
    var k := m.internalKey;
    match m.body
    case MoveOut(pattern) =>
      MirrorFilter(names, own, w, c, pattern);
      SameMirror(names, own, after, ApplyWire(full, w, m), Apply(full, c, m));
    case SnapshotEnd => SameMirror(names, own, after, w, c);
    case Change(op, value, _) =>
      MirrorLookup(names, own, relation, w, c, k);
      match op {
        case Insert => MirrorPut(names, own, after, relation, w, c, k, Entry(value, TagSet(m)));
        case Update =>
          var row := if k in c && !full then c[k].row + value else value;
          MirrorPut(names, own, after, relation, w, c, k, Entry(row, TagSet(m)));
        case Delete =>
          MirrorDrop(names, own, w, c, k);
          SameMirror(names, own, after, w - {WireKey(names, own(k), k)}, c - {k});
      }
  }

  lemma SameMirror(names: seq<string>, own: Owners, after: Owners, w: State, c: State)
    requires Mirrors(names, own, w, c) && forall x :: after(x) == own(x)
    ensures Mirrors(names, after, w, c)
  {
    hide WireKey;
    forall x | x in w ensures exists k :: k in c && x == WireKey(names, after(k), k) {
      var k :| k in c && x == WireKey(names, own(k), k);
    }
  }

  // ---- a batch of messages that print one relation ----

  ghost predicate Inserts(messages: seq<Message>, k: string)
  {
    exists i | 0 <= i < |messages| :: IsInsert(messages[i], k)
  }

  /** A key that a batch inserts is from then on printed for the relation of the batch. */
  ghost function OwnersAfter(own: Owners, relation: Relation, messages: seq<Message>): Owners
  {
    k => if Inserts(messages, k) then relation else own(k)
  }

  ghost predicate MeetsAll(own: Owners, relation: Relation, full: bool, c: State, messages: seq<Message>)
  {
    forall n | 0 <= n < |messages| ::
      Meets(OwnersAfter(own, relation, messages[..n]), relation, Client.Replay(full, c, messages[..n]), messages[n])
  }

  lemma InsertsNext(messages: seq<Message>, k: string)
    requires messages != []
    ensures var n := |messages| - 1; Inserts(messages, k) <==> Inserts(messages[..n], k) || IsInsert(messages[n], k)
  {
    hide IsInsert;
    var n := |messages| - 1;
    if Inserts(messages[..n], k) {
      var i :| 0 <= i < n && IsInsert(messages[..n][i], k);
      assert IsInsert(messages[i], k);
    }
    if Inserts(messages, k) && !IsInsert(messages[n], k) {
      var i :| 0 <= i < |messages| && IsInsert(messages[i], k);
      assert IsInsert(messages[..n][i], k);
    }
  }

  lemma {:induction false} MirrorReplay(names: seq<string>, own: Owners, relation: Relation, full: bool, w: State, c: State,
                                        messages: seq<Message>)
    requires Mirrors(names, own, w, c) && AllFit(names, relation, messages) && MeetsAll(own, relation, full, c, messages)
    ensures Mirrors(names, OwnersAfter(own, relation, messages), ReplayWire(full, w, messages), Client.Replay(full, c, messages))
  {
    hide Mirrors, KeyFits, ApplyWire, Apply, Meets, IsInsert;
    if messages == [] {
      SameMirror(names, own, OwnersAfter(own, relation, messages), w, c);
    } else {
      var n := |messages| - 1;
      forall i | 0 <= i < n ensures messages[..n][..i] == messages[..i] && messages[..n][i] == messages[i] {}
      MirrorReplay(names, own, relation, full, w, c, messages[..n]);
      forall x ensures OwnersAfter(own, relation, messages)(x) ==
                       if IsInsert(messages[n], x) then relation else OwnersAfter(own, relation, messages[..n])(x)
      {
        InsertsNext(messages, x);
      }
      MirrorStep(names, OwnersAfter(own, relation, messages[..n]), OwnersAfter(own, relation, messages), relation, full,
                 ReplayWire(full, w, messages[..n]), Client.Replay(full, c, messages[..n]), messages[n]);
    }
  }

  /** If every key is printed for one relation, its messages always meet their rows. */
  lemma OneOwnerMeets(own: Owners, relation: Relation, full: bool, c: State, messages: seq<Message>)
    requires forall k :: own(k) == relation
    ensures MeetsAll(own, relation, full, c, messages)
    ensures forall k :: OwnersAfter(own, relation, messages)(k) == relation
  {
  }

  // ---- the batch of a diff ----

  /** Each message changes one row, no two the same; a new row is inserted and a held one updated or deleted. */
  ghost predicate Batch(messages: seq<Message>, held: set<string>)
  {
    (forall i | 0 <= i < |messages| ::
       messages[i].body.Change? && (messages[i].body.op == Insert <==> messages[i].internalKey !in held)) &&
    forall i, j | 0 <= i < j < |messages| :: messages[i].internalKey != messages[j].internalKey
  }

  /** The message updates or deletes a row that the client has under another relation. */
  predicate Misses(own: Owners, relation: Relation, m: Message)
  {
    m.body.Change? && m.body.op != Insert && own(m.internalKey) != relation
  }

  /** Updates and deletes print the relation under which the client has their rows. */
  ghost predicate PrintsOwners(own: Owners, relation: Relation, messages: seq<Message>)
  {
    forall i | 0 <= i < |messages| :: !Misses(own, relation, messages[i])
  }

  lemma BatchPrefix(messages: seq<Message>, held: set<string>, n: nat)
    requires Batch(messages, held) && n <= |messages|
    ensures Batch(messages[..n], held)
    ensures n < |messages| ==> forall i | 0 <= i < n :: messages[..n][i].internalKey != messages[n].internalKey
  {
  }

  /** Changes to other rows leave the entry of `k` alone. */
  lemma {:induction false} OthersLeave(full: bool, c: State, messages: seq<Message>, k: string)
    requires forall i | 0 <= i < |messages| :: messages[i].body.Change? && messages[i].internalKey != k
    ensures k in Client.Replay(full, c, messages) <==> k in c
    ensures k in c ==> Client.Replay(full, c, messages)[k] == c[k]
  {
    if messages != [] {
      var n := |messages| - 1;
      OthersLeave(full, c, messages[..n], k);
      assert messages[n].body.Change? && messages[n].internalKey != k;
    }
  }

  lemma BatchMeets(own: Owners, relation: Relation, full: bool, c: State, messages: seq<Message>)
    requires Batch(messages, c.Keys) && PrintsOwners(own, relation, messages)
    ensures MeetsAll(own, relation, full, c, messages)
  {
    forall n | 0 <= n < |messages|
      ensures Meets(OwnersAfter(own, relation, messages[..n]), relation, Client.Replay(full, c, messages[..n]), messages[n])
    {
      BatchPrefix(messages, c.Keys, n);
      OthersLeave(full, c, messages[..n], messages[n].internalKey);
    }
  }

  // ---- counting entries ----

  lemma {:induction false} OneToOneSize<A, B>(f: map<A, B>, bs: set<B>)
    requires (forall a, b | a in f && b in f && f[a] == f[b] :: a == b) && (forall a | a in f :: f[a] in bs)
    requires forall y | y in bs :: exists a :: a in f && f[a] == y
    ensures |f| == |bs|
    decreases |f|
  {
    if f.Keys == {} {
      assert f == map[] && bs == {};
    } else {
      var a :| a in f.Keys;
      var g := map x | x in f && x != a :: f[x];
      assert g.Keys == f.Keys - {a};
      assert |g| == |g.Keys| && |f| == |f.Keys|;
      forall y | y in bs - {f[a]} ensures exists x :: x in g && g[x] == y {
        var x :| x in f && f[x] == y;
        assert x in g;
      }
      OneToOneSize(g, bs - {f[a]});
    }
  }

  lemma MirrorSize(names: seq<string>, own: Owners, w: State, c: State)
    requires Mirrors(names, own, w, c)
    ensures |w| == |c|
  {
    hide WireKey;
    var f := map k | k in c :: WireKey(names, own(k), k);
    forall a, b | a in f && b in f && f[a] == f[b] ensures a == b { SameWire(names, own(a), a, own(b), b); }
    forall y | y in w.Keys ensures exists k :: k in f && f[k] == y {
      var k :| k in c && y == WireKey(names, own(k), k);
      assert k in f;
    }
    OneToOneSize(f, w.Keys);
    assert f.Keys == c.Keys;
    assert |f| == |f.Keys| && |c| == |c.Keys| && |w| == |w.Keys|;
  }

  lemma PutSize(w: State, x: string, e: Entry)
    ensures |w[x := e]| == |w| + (if x in w then 0 else 1)
  {
    assert w[x := e].Keys == w.Keys + {x};
    assert |w[x := e]| == |w[x := e].Keys| && |w| == |w.Keys|;
  }

  lemma DropSize(w: State, x: string)
    ensures |w - {x}| == |w| - (if x in w then 1 else 0)
  {
    assert (w - {x}).Keys == w.Keys - {x};
    assert |w - {x}| == |(w - {x}).Keys| && |w| == |w.Keys|;
  }

  function Missed(own: Owners, relation: Relation, messages: seq<Message>): nat
  {
    if messages == [] then 0 else
      Missed(own, relation, messages[..|messages| - 1]) + (if Misses(own, relation, messages[|messages| - 1]) then 1 else 0)
  }

  lemma {:induction false} NoneMissed(own: Owners, relation: Relation, messages: seq<Message>)
    ensures Missed(own, relation, messages) == 0 <==> PrintsOwners(own, relation, messages)
  {
    hide Misses;
    if messages != [] {
      var n := |messages| - 1;
      NoneMissed(own, relation, messages[..n]);
      assert forall i | 0 <= i < n :: messages[..n][i] == messages[i];
    }
  }

  /** Messages about other rows do not touch the entry of `k` under any relation. */
  lemma {:induction false} OthersLeaveWire(names: seq<string>, relation: Relation, full: bool, w: State, messages: seq<Message>,
                                           r: Relation, k: string)
    requires names != [] && AllFit(names, relation, messages)
    requires forall i | 0 <= i < |messages| :: messages[i].body.Change? && messages[i].internalKey != k
    ensures WireKey(names, r, k) in ReplayWire(full, w, messages) <==> WireKey(names, r, k) in w
  {
    hide WireKey;
    if messages != [] {
      var n := |messages| - 1;
      OthersLeaveWire(names, relation, full, w, messages[..n], r, k);
      assert KeyFits(names, relation, messages[n]) && messages[n].body.Change? && messages[n].internalKey != k;
      if WireKey(names, r, k) == messages[n].key { WireKeyDecides(names, r, k, relation, messages[n].internalKey); }
    }
  }

  /** How many entries a change at key `k` adds to a client. */
  function Added(op: Operation, held: bool): int
  {
    if op == Delete then (if held then -1 else 0) else if held then 0 else 1
  }

  lemma CountApply(full: bool, c: State, m: Message)
    requires m.body.Change?
    ensures |Apply(full, c, m)| == |c| + Added(m.body.op, m.internalKey in c)
  {
    var k, u := m.internalKey, Apply(full, c, m);
    if m.body.op == Delete {
      DropSize(c, k);
    } else {
      PutSize(c, k, u[k]);
      assert u == c[k := u[k]];
    }
  }

  lemma CountWire(full: bool, w: State, m: Message)
    requires m.body.Change?
    ensures |ApplyWire(full, w, m)| == |w| + Added(m.body.op, m.key in w)
  {
    hide Apply;
    CountApply(full, w, m.(internalKey := m.key));
  }

  /** Each update or delete that prints another relation leaves the client with one entry too many. */
  lemma {:induction false} CountBatch(names: seq<string>, own: Owners, relation: Relation, full: bool, w: State, c: State,
                                      messages: seq<Message>)
    requires names != [] && Mirrors(names, own, w, c) && AllFit(names, relation, messages) && Batch(messages, c.Keys)
    ensures |ReplayWire(full, w, messages)| == |Client.Replay(full, c, messages)| + Missed(own, relation, messages)
  {
    hide Mirrors, WireKey, ApplyWire, Apply;
    if messages == [] {
      MirrorSize(names, own, w, c);
    } else {
      var n := |messages| - 1;
      var m := messages[n];
      BatchPrefix(messages, c.Keys, n);
      CountBatch(names, own, relation, full, w, c, messages[..n]);
      OthersLeave(full, c, messages[..n], m.internalKey);
      OthersLeaveWire(names, relation, full, w, messages[..n], relation, m.internalKey);
      MirrorLookup(names, own, relation, w, c, m.internalKey);
      assert KeyFits(names, relation, m) && m.body.Change? && (m.body.op == Insert <==> m.internalKey !in c.Keys);
      CountApply(full, Client.Replay(full, c, messages[..n]), m);
      CountWire(full, ReplayWire(full, w, messages[..n]), m);
    }
  }

  // ---- the messages of snapshots and refreshes ----

  /** The key columns of the snapshot are `names`, and the key values of its rows can be read back. */
  ghost predicate SnapKeyed(names: seq<string>, snap: Snapshot)
  {
    PkNames(snap.schema) == names &&
    forall i | 0 <= i < |snap.rows| :: Keyed(names, PrimaryKeySignature(snap.schema, snap.rows[i]), snap.rows[i])
  }

  /** With one key column any snapshot is; with several, one without separators in its key values. */
  lemma SnapKeyedIf(names: seq<string>, snap: Snapshot)
    requires PkNames(snap.schema) == names
    requires |names| <= 1 || forall i | 0 <= i < |snap.rows| :: NoSeparator(KeyValues(names, snap.rows[i]))
    ensures SnapKeyed(names, snap)
  {
    hide PkNames, Join;
  }

  lemma {:induction false} MaterializedKeyed(names: seq<string>, snap: Snapshot, rows: seq<Row>)
    requires forall i | 0 <= i < |rows| :: Keyed(names, PrimaryKeySignature(snap.schema, rows[i]), rows[i])
    ensures RowsKeyed(names, MaterializedRows(snap.schema, rows))
  {
    hide Keyed, PrimaryKeySignature;
    if rows != [] {
      MaterializedKeyed(names, snap, rows[..|rows| - 1]);
    }
  }

  lemma {:induction false} SnapshotFits(names: seq<string>, handle: string, def: Definition, snap: Snapshot, rows: seq<Row>)
    requires PkNames(snap.schema) == names
    requires forall i | 0 <= i < |rows| :: Keyed(names, PrimaryKeySignature(snap.schema, rows[i]), rows[i])
    ensures AllFit(names, def.relation, SnapshotMessages(handle, def, snap.schema, rows))
  {
    hide Keyed, PrimaryKeySignature, PkNames, WireKey, MessageKey, HasDependencyKeyword, DependentTag;
    if rows != [] {
      var n := |rows| - 1;
      SnapshotFits(names, handle, def, snap, rows[..n]);
      KeyedWireKey(names, snap.schema, def.relation, PrimaryKeySignature(snap.schema, rows[n]), rows[n]);
      KeylessIsEmpty(names, PrimaryKeySignature(snap.schema, rows[n]), rows[n]);
    }
  }

  lemma KeylessIsEmpty(names: seq<string>, key: string, row: Row)
    requires Keyed(names, key, row)
    ensures names == [] ==> key == ""
  {
  }

  lemma KeyMessageFits(names: seq<string>, def: Definition, schema: Schema, relation: Relation, k: string, previous: Rows, current: Rows)
    requires PkNames(schema) == names && RowsKeyed(names, previous) && RowsKeyed(names, current)
    ensures AllFit(names, relation, DiffKey(def, schema, relation, k, previous, current))
  {
    hide PkNames, WireKey, MessageKey, Keyed, UpdateValue, UpdateOldValue, DeleteValue, ChangedColumns;
    if k in current {
      KeyedWireKey(names, schema, relation, k, current[k]);
      KeylessIsEmpty(names, k, current[k]);
    }
    if k in previous {
      KeyedWireKey(names, schema, relation, k, previous[k]);
      KeylessIsEmpty(names, k, previous[k]);
    }
  }

  lemma {:induction false} DiffFits(names: seq<string>, def: Definition, schema: Schema, relation: Relation, keys: seq<string>,
                                    previous: Rows, current: Rows)
    requires PkNames(schema) == names && RowsKeyed(names, previous) && RowsKeyed(names, current)
    ensures AllFit(names, relation, DiffKeys(def, schema, relation, keys, previous, current))
  {
    hide PkNames, KeyFits, RowsKeyed, DiffKey;
    if keys != [] {
      KeyMessageFits(names, def, schema, relation, keys[0], previous, current);
      DiffFits(names, def, schema, relation, keys[1..], previous, current);
    }
  }

  lemma {:induction false} DecorateFits(names: seq<string>, relation: Relation, handle: string, related: bool, messages: seq<Message>)
    requires AllFit(names, relation, messages)
    ensures AllFit(names, relation, DecorateEach(handle, related, messages))
  {
    hide WireKey, DependentTag;
    if messages != [] {
      DecorateFits(names, relation, handle, related, messages[1..]);
      assert KeyFits(names, relation, messages[0]);
    }
  }

  lemma {:induction false} LiveFits(names: seq<string>, relation: Relation, schema: Schema, messages: seq<Message>)
    requires AllFit(names, relation, messages)
    ensures AllFit(names, relation, WireMessages(schema, messages))
  {
    hide WireKey, WireRow;
    if messages != [] {
      LiveFits(names, relation, schema, messages[1..]);
      assert KeyFits(names, relation, messages[0]);
    }
  }

  lemma NumberedFits(names: seq<string>, relation: Relation, offset: string, messages: seq<Message>, meta: Metadata)
    requires AllFit(names, relation, messages)
    ensures AllFit(names, relation, Numbered(offset, messages, meta))
  {
    hide WireKey, FormatLsnOffset, NextGeneratedOffset;
    var numbered := Numbered(offset, messages, meta);
    forall i | 0 <= i < |numbered| ensures KeyFits(names, relation, numbered[i]) {
      assert KeyFits(names, relation, messages[i]);
    }
  }

  /** The relation whose keys a refresh prints. */
  function PrintedRelation(def: Definition, step: Step): Relation
  {
    if step.Full? then def.relation else KeyRelation(def, step.meta)
  }

  lemma FullFits(names: seq<string>, s: Shape, snap: Snapshot, meta: Metadata)
    requires SnapKeyed(names, snap) && RowsKeyed(names, s.rows)
    ensures AllFit(names, s.def.relation, RefreshMessages(s, snap, meta))
  {
    hide KeyFits, PkNames, Keyed, MaterializedRows, HasDependencyKeyword, DecorateEach, DiffKeys, Sorted, HasInsert;
    var current := MaterializedRows(snap.schema, snap.rows);
    MaterializedKeyed(names, snap, snap.rows);
    DiffFits(names, s.def, snap.schema, s.def.relation, Sorted(s.rows.Keys + current.Keys), s.rows, current);
    var diff := DiffRows(s.def, snap.schema, s.def.relation, s.rows, current);
    DecorateFits(names, s.def.relation, s.handle, meta.keyRelation != NO_RELATION && meta.keyRelation != s.def.relation, diff);
    EndFits(names, s.def.relation);
  }

  lemma EndFits(names: seq<string>, relation: Relation)
    ensures KeyFits(names, relation, SNAPSHOT_END)
  {
  }

  lemma SpliceKeyed(names: seq<string>, rows: Rows, keys: set<string>, current: Rows)
    requires RowsKeyed(names, rows) && RowsKeyed(names, current)
    ensures RowsKeyed(names, Splice(rows, keys, current)) && RowsKeyed(names, Restrict(rows, keys))
  {
    hide Keyed;
  }

  lemma KeysFit(names: seq<string>, s: Shape, snap: Snapshot, keys: set<string>, meta: Metadata)
    requires SnapKeyed(names, snap) && RowsKeyed(names, s.rows)
    ensures AllFit(names, KeyRelation(s.def, meta), KeysMessages(s, snap, keys, meta))
  {
    hide KeyFits, PkNames, Keyed, MaterializedRows, DiffKeys, Sorted, Restrict, Splice, WireMessages;
    var current := MaterializedRows(snap.schema, snap.rows);
    MaterializedKeyed(names, snap, snap.rows);
    SpliceKeyed(names, s.rows, keys, current);
    var rows := Splice(s.rows, keys, current);
    SpliceKeyed(names, rows, keys, current);
    var before, after := Restrict(s.rows, keys), Restrict(rows, keys);
    var relation := KeyRelation(s.def, meta);
    DiffFits(names, s.def, snap.schema, relation, Sorted(before.Keys + after.Keys), before, after);
    LiveFits(names, relation, snap.schema, DiffRows(s.def, snap.schema, relation, before, after));
  }

  lemma StepFitsKeys(names: seq<string>, s: Shape, step: Step)
    requires SnapKeyed(names, step.snap) && RowsKeyed(names, s.rows)
    ensures AllFit(names, PrintedRelation(s.def, step), StepMessages(s, step))
    ensures RowsKeyed(names, Take(s, step).rows)
  {
    hide KeyFits, PkNames, Keyed, MaterializedRows, RefreshMessages, KeysMessages, TargetedKeys, Splice, Numbered;
    MaterializedKeyed(names, step.snap, step.snap.rows);
    match step
    case Full(snap, meta) => FullFits(names, s, snap, meta);
    case ByKeys(snap, keyRows, meta) =>
      var keys := TargetedKeys(snap.schema, keyRows, snap.rows);
      if keys != {} {
        KeysFit(names, s, snap, keys, meta);
        SpliceKeyed(names, s.rows, keys, MaterializedRows(snap.schema, snap.rows));
      }
  }

  // ---- the messages of a step are a batch ----

  lemma {:induction false} DiffBatch(def: Definition, schema: Schema, relation: Relation, keys: seq<string>,
                                     previous: Rows, current: Rows)
    requires forall i, j | 0 <= i < j < |keys| :: keys[i] != keys[j]
    ensures var messages := DiffKeys(def, schema, relation, keys, previous, current);
      Batch(messages, previous.Keys) && forall i | 0 <= i < |messages| :: messages[i].internalKey in keys
  {
    hide MessageKey, UpdateValue, UpdateOldValue, DeleteValue, ChangedColumns;
    if keys != [] {
      var head, tail := DiffKey(def, schema, relation, keys[0], previous, current),
                        DiffKeys(def, schema, relation, keys[1..], previous, current);
      DiffBatch(def, schema, relation, keys[1..], previous, current);
      assert keys[0] !in keys[1..] && forall k | k in keys[1..] :: k in keys;
      hide DiffKeys;
      assert |head| <= 1 && forall i | 0 <= i < |head| :: head[i].internalKey == keys[0];
    }
  }

  lemma SortedDistinct(s: set<string>)
    ensures forall i, j | 0 <= i < j < |Sorted(s)| :: Sorted(s)[i] != Sorted(s)[j]
  {
    hide Sorted;
    forall i, j | 0 <= i < j < |Sorted(s)| ensures Sorted(s)[i] != Sorted(s)[j] {
      assert Less(Sorted(s)[i], Sorted(s)[j]);
      LessIrreflexive(Sorted(s)[i]);
    }
  }

  lemma {:induction false} LiveBatch(schema: Schema, messages: seq<Message>)
    ensures var live := WireMessages(schema, messages);
      forall i | 0 <= i < |messages| ::
        live[i].internalKey == messages[i].internalKey && (messages[i].body.Change? <==> live[i].body.Change?) &&
        (messages[i].body.Change? ==> live[i].body.op == messages[i].body.op)
  {
    hide WireRow;
    if messages != [] { LiveBatch(schema, messages[1..]); }
  }

  lemma WiderBatch(messages: seq<Message>, a: set<string>, b: set<string>)
    requires Batch(messages, a) && forall i | 0 <= i < |messages| :: messages[i].internalKey in a <==> messages[i].internalKey in b
    ensures Batch(messages, b)
  {
  }

  lemma KeysBatch(s: Shape, snap: Snapshot, keys: set<string>, meta: Metadata)
    ensures Batch(KeysMessages(s, snap, keys, meta), s.rows.Keys)
  {
    hide MaterializedRows, DiffKeys, Sorted, WireMessages, Splice, Less;
    var rows := Splice(s.rows, keys, MaterializedRows(snap.schema, snap.rows));
    var before, after := Restrict(s.rows, keys), Restrict(rows, keys);
    var relation, list := KeyRelation(s.def, meta), Sorted(before.Keys + after.Keys);
    SortedDistinct(before.Keys + after.Keys);
    DiffBatch(s.def, snap.schema, relation, list, before, after);
    var diff := DiffRows(s.def, snap.schema, relation, before, after);
    forall i | 0 <= i < |diff| ensures diff[i].internalKey in before.Keys <==> diff[i].internalKey in s.rows.Keys {
      assert diff[i].internalKey in list;
    }
    WiderBatch(diff, before.Keys, s.rows.Keys);
    LiveBatch(snap.schema, diff);
  }

  lemma StepBatch(s: Shape, step: Step)
    requires !HasDependencyKeyword(s.def)
    ensures Batch(StepMessages(s, step), s.rows.Keys)
  {
    hide HasDependencyKeyword, MaterializedRows, DiffKeys, Sorted, KeysMessages, TargetedKeys;
    match step
    case Full(snap, meta) =>
      var current := MaterializedRows(snap.schema, snap.rows);
      SortedDistinct(s.rows.Keys + current.Keys);
      DiffBatch(s.def, snap.schema, s.def.relation, Sorted(s.rows.Keys + current.Keys), s.rows, current);
    case ByKeys(snap, keyRows, meta) => KeysBatch(s, snap, TargetedKeys(snap.schema, keyRows, snap.rows), meta);
  }

  // ---- what a client holds ----

  ghost predicate Matches(bools: set<string>, f: map<string, string>, w: State, rows: Rows)
  {
    f.Keys == rows.Keys &&
    (forall a, b | a in f && b in f && f[a] == f[b] :: a == b) &&
    (forall x | x in w :: exists k :: k in f && f[k] == x) &&
    forall k | k in rows :: f[k] in w && SameRow(bools, w[f[k]].row, rows[k])
  }

  /** The client's entries and the rows match one to one, with equal values, under whatever keys. */
  ghost predicate HoldsRows(bools: set<string>, w: State, rows: Rows)
  {
    exists f :: Matches(bools, f, w, rows)
  }

  lemma MatchesSize(bools: set<string>, f: map<string, string>, w: State, rows: Rows)
    requires Matches(bools, f, w, rows)
    ensures |w| == |rows|
  {
    hide SameRow;
    OneToOneSize(f, w.Keys);
    hide Matches;
    assert |f| == |f.Keys| && |rows| == |rows.Keys| && |w| == |w.Keys|;
  }

  lemma HoldsRowsSize(bools: set<string>, w: State, rows: Rows)
    requires HoldsRows(bools, w, rows)
    ensures |w| == |rows|
  {
    hide Matches;
    var f :| Matches(bools, f, w, rows);
    MatchesSize(bools, f, w, rows);
  }

  lemma MirrorHolds(names: seq<string>, own: Owners, bools: set<string>, handle: string, dependent: bool, w: State, c: State, rows: Rows)
    requires Mirrors(names, own, w, c) && Holds(bools, handle, dependent, c, rows)
    ensures HoldsRows(bools, w, rows)
  {
    hide WireKey, SameRow, TagsFit;
    var f := map k | k in rows :: WireKey(names, own(k), k);
    forall a, b | a in f && b in f && f[a] == f[b] ensures a == b { SameWire(names, own(a), a, own(b), b); }
    forall x | x in w ensures exists k :: k in f && f[k] == x {
      var k :| k in c && x == WireKey(names, own(k), k);
      assert k in f;
    }
    assert Matches(bools, f, w, rows);
  }

  // ---- numbering ----

  predicate SameOnWire(a: Message, b: Message)
  {
    a.body == b.body && a.key == b.key && a.tags == b.tags
  }

  lemma {:induction false} ReplaySameOnWire(full: bool, w: State, a: seq<Message>, b: seq<Message>)
    requires |a| == |b| && forall i | 0 <= i < |a| :: SameOnWire(a[i], b[i])
    ensures ReplayWire(full, w, a) == ReplayWire(full, w, b)
  {
    if a != [] {
      var n := |a| - 1;
      ReplaySameOnWire(full, w, a[..n], b[..n]);
      assert SameOnWire(a[n], b[n]);
    }
  }

  lemma ReplayWireNumbered(full: bool, w: State, offset: string, messages: seq<Message>, meta: Metadata)
    ensures ReplayWire(full, w, Numbered(offset, messages, meta)) == ReplayWire(full, w, messages)
  {
    hide FormatLsnOffset, NextGeneratedOffset;
    var numbered := Numbered(offset, messages, meta);
    forall i | 0 <= i < |messages| ensures SameOnWire(numbered[i], messages[i]) {}
    ReplaySameOnWire(full, w, numbered, messages);
  }

  // ---- runs ----

  lemma TakeKeeps(s: Shape, step: Step)
    ensures Take(s, step).def == s.def && Take(s, step).handle == s.handle && Take(s, step).snapshot == s.snapshot
    ensures Take(s, step).changes == s.changes + Numbered(s.offset, StepMessages(s, step), step.meta)
  {
    hide RefreshMessages, KeysMessages, MaterializedRows, TargetedKeys, Splice, Stamped;
    if step.ByKeys? && TargetedKeys(step.snap.schema, step.keyRows, step.snap.rows) == {} {
      assert s.changes + Numbered(s.offset, [], step.meta) == s.changes;
    }
  }

  ghost predicate StepsKeyed(names: seq<string>, steps: seq<Step>)
  {
    forall i | 0 <= i < |steps| :: SnapKeyed(names, steps[i].snap)
  }

  lemma {:induction false} RunKeyed(names: seq<string>, s: Shape, steps: seq<Step>, i: nat)
    requires StepsKeyed(names, steps) && RowsKeyed(names, s.rows) && i <= |steps|
    ensures var t := Run(s, steps[..i]);
      RowsKeyed(names, t.rows) && t.def == s.def && t.handle == s.handle && t.snapshot == s.snapshot
    decreases i
  {
    hide SnapKeyed, RowsKeyed, Take;
    if i == 0 {
      assert steps[..0] == [];
    } else {
      RunKeyed(names, s, steps, i - 1);
      EpochOrder.RunNext(s, steps, i - 1);
      StepFitsKeys(names, Run(s, steps[..i - 1]), steps[i - 1]);
      TakeKeeps(Run(s, steps[..i - 1]), steps[i - 1]);
    }
  }

  /** For each key, the relation under which it was last inserted: by the log, or else by the snapshot. */
  ghost function LastInserted(s: Shape, steps: seq<Step>, n: nat): Owners
    requires n <= |steps|
    decreases n
  {
    if n == 0 then k => s.def.relation else
      OwnersAfter(LastInserted(s, steps, n - 1), PrintedRelation(s.def, steps[n - 1]), StepMessages(Run(s, steps[..n - 1]), steps[n - 1]))
  }

  /** Every update and delete of refresh `i` prints the relation under which its row was last inserted. */
  ghost predicate Consistent(s: Shape, steps: seq<Step>, i: nat)
    requires i < |steps|
  {
    PrintsOwners(LastInserted(s, steps, i), PrintedRelation(s.def, steps[i]), StepMessages(Run(s, steps[..i]), steps[i]))
  }

  // ---- the theorem ----

  /** What the client holds after the snapshot and the log of state `t`. */
  function ClientAt(t: Shape): State
  {
    ReplayWire(t.def.FullReplica(), map[], t.snapshot + t.changes)
  }

  /** What a client that sees signatures would hold. */
  function InnerAt(t: Shape): State
  {
    Client.Replay(t.def.FullReplica(), map[], t.snapshot + t.changes)
  }

  /** What the run theorem asks of an epoch: the same key columns throughout, key values that can be read
      back, and what a client that sees signatures needs. */
  ghost predicate EpochFits(names: seq<string>, bools: set<string>, def: Definition, snap: Snapshot, steps: seq<Step>)
  {
    SnapKeyed(names, snap) && StepsKeyed(names, steps) &&
    (forall i | 0 <= i < |steps| :: StepFits(def, bools, steps[i])) &&
    (HasDependencyKeyword(def) ==> TagSafe(AllKeys(MaterializedRows(snap.schema, snap.rows), steps)))
  }

  /** In the state after `i` refreshes the client holds exactly the shape's rows. */
  ghost predicate RightAt(bools: set<string>, s: Shape, steps: seq<Step>, i: nat)
    requires i <= |steps|
  {
    var t := Run(s, steps[..i]); HoldsRows(bools, ClientAt(t), t.rows)
  }

  lemma {:induction false} FewerKeys(rows: Rows, steps: seq<Step>, i: nat)
    requires i <= |steps|
    ensures AllKeys(rows, steps[..i]) <= AllKeys(rows, steps)
    decreases |steps| - i
  {
    hide MaterializedRows;
    if i == |steps| {
      assert steps[..i] == steps;
    } else {
      assert steps[..i + 1][..i] == steps[..i];
      FewerKeys(rows, steps, i + 1);
    }
  }

  lemma PrefixFits(names: seq<string>, bools: set<string>, def: Definition, snap: Snapshot, steps: seq<Step>, i: nat)
    requires EpochFits(names, bools, def, snap, steps) && i <= |steps|
    ensures forall j | 0 <= j < i :: StepFits(def, bools, steps[..i][j])
    ensures HasDependencyKeyword(def) ==> TagSafe(AllKeys(MaterializedRows(snap.schema, snap.rows), steps[..i]))
  {
    hide SnapKeyed, StepFits, HasDependencyKeyword, MaterializedRows, AllKeys, TagValue;
    FewerKeys(MaterializedRows(snap.schema, snap.rows), steps, i);
  }

  lemma StartFits(names: seq<string>, before: Shape, def: Definition, snap: Snapshot, offset: string)
    requires SnapKeyed(names, snap)
    ensures var s := Upserted(before, def, snap, offset);
      RowsKeyed(names, s.rows) && s.def == def && s.handle == before.handle && s.changes == [] && AllFit(names, def.relation, s.snapshot)
  {
    hide KeyFits, Keyed, MaterializedRows, PkNames, SnapshotMessage;
    MaterializedKeyed(names, snap, snap.rows);
    SnapshotFits(names, before.handle, def, snap, snap.rows);
  }

  /** The client that sees signatures holds the rows, with their tags. */
  lemma InnerHolds(names: seq<string>, bools: set<string>, before: Shape, def: Definition, snap: Snapshot, offset: string,
                   steps: seq<Step>, i: nat)
    requires EpochFits(names, bools, def, snap, steps) && i <= |steps| && BaselineSent(def, snap)
    ensures var t := Run(Upserted(before, def, snap, offset), steps[..i]);
      Holds(bools, before.handle, HasDependencyKeyword(def), InnerAt(t), t.rows)
  {
    PrefixFits(names, bools, def, snap, steps, i);
    StartFits(names, before, def, snap, offset);
    BaselinePlusLog(bools, before, def, snap, offset, steps[..i]);
    hide EpochFits, StepFits, HasDependencyKeyword, TagSafe, AllKeys, Holds, MaterializedRows, SnapshotMessages, KeyFits,
      RowsKeyed, Take, Upserted;
    FitsParts(names, bools, def, snap, steps);
    RunKeyed(names, Upserted(before, def, snap, offset), steps, i);
  }

  lemma FitsParts(names: seq<string>, bools: set<string>, def: Definition, snap: Snapshot, steps: seq<Step>)
    requires EpochFits(names, bools, def, snap, steps)
    ensures SnapKeyed(names, snap) && StepsKeyed(names, steps)
    ensures HasDependencyKeyword(def) ==> forall i | 0 <= i < |steps| :: PrintedRelation(def, steps[i]) == def.relation
    ensures forall i | 0 <= i < |steps| :: names == [] && steps[i].ByKeys? ==>
              TargetedKeys(steps[i].snap.schema, steps[i].keyRows, steps[i].snap.rows) == {}
  {
    hide HasDependencyKeyword, MaterializedRows, AllKeys, TagSafe, Keyed, PkNames;
    forall i | 0 <= i < |steps|
      ensures HasDependencyKeyword(def) ==> PrintedRelation(def, steps[i]) == def.relation
      ensures names == [] && steps[i].ByKeys? ==> TargetedKeys(steps[i].snap.schema, steps[i].keyRows, steps[i].snap.rows) == {}
    {
      assert StepFits(def, bools, steps[i]) && SnapKeyed(names, steps[i].snap);
      if names == [] && steps[i].ByKeys? { KeylessTargetsNothing(steps[i].snap.schema, steps[i].keyRows, steps[i].snap.rows); }
    }
  }

  /** Without key columns no key is targeted. */
  lemma KeylessTargetsNothing(schema: Schema, keyRows: seq<Row>, rows: seq<Row>)
    requires PkNames(schema) == []
    ensures TargetedKeys(schema, keyRows, rows) == {}
  {
    hide PkNames;
  }

  /** The first `n` refreshes that have messages print the keys of the definition's own relation. */
  ghost predicate OwnKeys(s: Shape, steps: seq<Step>, n: nat)
    requires n <= |steps|
  {
    forall i | 0 <= i < n :: StepMessages(Run(s, steps[..i]), steps[i]) != [] ==> PrintedRelation(s.def, steps[i]) == s.def.relation
  }

  lemma {:induction false} OneOwner(s: Shape, steps: seq<Step>, n: nat)
    requires n <= |steps| && OwnKeys(s, steps, n)
    ensures forall k :: LastInserted(s, steps, n)(k) == s.def.relation
    decreases n
  {
    hide StepMessages, Run, PrintedRelation;
    if n > 0 { OneOwner(s, steps, n - 1); }
  }

  lemma ClientNext(t: Shape, step: Step)
    ensures ClientAt(Take(t, step)) == ReplayWire(t.def.FullReplica(), ClientAt(t), StepMessages(t, step))
    ensures InnerAt(Take(t, step)) == Client.Replay(t.def.FullReplica(), InnerAt(t), StepMessages(t, step))
  {
    TakeKeeps(t, step);
    hide Take, StepMessages, Numbered, ReplayWire, Client.Replay;
    var full, messages := t.def.FullReplica(), StepMessages(t, step);
    var numbered := Numbered(t.offset, messages, step.meta);
    assert t.snapshot + (t.changes + numbered) == (t.snapshot + t.changes) + numbered;
    ReplayWireConcat(full, map[], t.snapshot + t.changes, numbered);
    ReplayConcat(full, map[], t.snapshot + t.changes, numbered);
    ReplayWireNumbered(full, ClientAt(t), t.offset, messages, step.meta);
    ReplayNumbered(full, InnerAt(t), t.offset, messages, step.meta);
  }

  lemma StartMirrors(names: seq<string>, before: Shape, def: Definition, snap: Snapshot, offset: string)
    requires SnapKeyed(names, snap)
    ensures var s := Upserted(before, def, snap, offset); Mirrors(names, k => def.relation, ClientAt(s), InnerAt(s))
  {
    StartFits(names, before, def, snap, offset);
    hide Upserted, SnapshotMessages, KeyFits, RowsKeyed, SnapKeyed, MaterializedRows, Mirrors;
    var s := Upserted(before, def, snap, offset);
    var own: Owners, full := k => def.relation, def.FullReplica();
    assert s.snapshot + s.changes == s.snapshot;
    EmptyMirrors(names, own);
    OneOwnerMeets(own, def.relation, full, map[], s.snapshot);
    MirrorReplay(names, own, def.relation, full, map[], map[], s.snapshot);
    SameMirror(names, OwnersAfter(own, def.relation, s.snapshot), own, ClientAt(s), InnerAt(s));
  }

  lemma EmptyMirrors(names: seq<string>, own: Owners)
    ensures Mirrors(names, own, map[], map[])
  {
  }

  /** One consistent refresh keeps the two clients alike. */
  lemma StepMirrors(names: seq<string>, own: Owners, s: Shape, step: Step)
    requires SnapKeyed(names, step.snap) && RowsKeyed(names, s.rows) && Mirrors(names, own, ClientAt(s), InnerAt(s))
    requires if HasDependencyKeyword(s.def) then forall k :: own(k) == PrintedRelation(s.def, step) else InnerAt(s).Keys == s.rows.Keys
    requires PrintsOwners(own, PrintedRelation(s.def, step), StepMessages(s, step))
    ensures var after := OwnersAfter(own, PrintedRelation(s.def, step), StepMessages(s, step));
      Mirrors(names, after, ClientAt(Take(s, step)), InnerAt(Take(s, step)))
  {
    StepFitsKeys(names, s, step);
    ClientNext(s, step);
    if !HasDependencyKeyword(s.def) { StepBatch(s, step); }
    hide StepMessages, Take, Mirrors, HasDependencyKeyword, SnapKeyed, RowsKeyed, ClientAt, InnerAt, KeyFits,
      Batch, MeetsAll, PrintedRelation;
    var relation, full, messages := PrintedRelation(s.def, step), s.def.FullReplica(), StepMessages(s, step);
    if HasDependencyKeyword(s.def) {
      OneOwnerMeets(own, relation, full, InnerAt(s), messages);
    } else {
      BatchMeets(own, relation, full, InnerAt(s), messages);
    }
    MirrorReplay(names, own, relation, full, ClientAt(s), InnerAt(s), messages);
  }

  lemma {:induction false} RunMirrors(names: seq<string>, bools: set<string>, before: Shape, def: Definition, snap: Snapshot,
                                      offset: string, steps: seq<Step>, i: nat)
    requires EpochFits(names, bools, def, snap, steps) && i <= |steps| && BaselineSent(def, snap)
    requires forall j | 0 <= j < i :: Consistent(Upserted(before, def, snap, offset), steps, j)
    ensures var s := Upserted(before, def, snap, offset);
      var t := Run(s, steps[..i]);
      Mirrors(names, LastInserted(s, steps, i), ClientAt(t), InnerAt(t))
    decreases i
  {
    hide EpochFits, SnapKeyed, HasDependencyKeyword, RowsKeyed, KeyFits, Take, StepMessages, Upserted, SnapshotMessages, MaterializedRows,
      Mirrors, ClientAt, InnerAt, PrintedRelation, PrintsOwners, Keyed, TargetedKeys;
    var s := Upserted(before, def, snap, offset);
    FitsParts(names, bools, def, snap, steps);
    StartFits(names, before, def, snap, offset);
    if i == 0 {
      assert steps[..0] == [];
      StartMirrors(names, before, def, snap, offset);
      SameMirror(names, k => def.relation, LastInserted(s, steps, 0), ClientAt(s), InnerAt(s));
    } else {
      var t, step := Run(s, steps[..i - 1]), steps[i - 1];
      RunMirrors(names, bools, before, def, snap, offset, steps, i - 1);
      RunKeyed(names, s, steps, i - 1);
      InnerHolds(names, bools, before, def, snap, offset, steps, i - 1);
      if HasDependencyKeyword(def) {
        assert OwnKeys(s, steps, i - 1);
        OneOwner(s, steps, i - 1);
      } else {
        HoldsKeys(bools, before.handle, InnerAt(t), t.rows);
      }
      assert Consistent(s, steps, i - 1);
      StepMirrors(names, LastInserted(s, steps, i - 1), t, step);
      EpochOrder.RunNext(s, steps, i - 1);
    }
  }

  lemma HoldsKeys(bools: set<string>, handle: string, c: State, rows: Rows)
    requires Holds(bools, handle, false, c, rows)
    ensures c.Keys == rows.Keys
  {
  }

  /** As long as every refresh so far was consistent, the client holds the rows. */
  lemma ConsistentIsRight(names: seq<string>, bools: set<string>, before: Shape, def: Definition, snap: Snapshot, offset: string,
                          steps: seq<Step>, i: nat)
    requires EpochFits(names, bools, def, snap, steps) && i <= |steps| && BaselineSent(def, snap)
    requires forall j | 0 <= j < i :: Consistent(Upserted(before, def, snap, offset), steps, j)
    ensures RightAt(bools, Upserted(before, def, snap, offset), steps, i)
  {
    hide EpochFits, Consistent, Upserted, Run, Mirrors, Holds, HoldsRows, ClientAt, InnerAt, HasDependencyKeyword, LastInserted;
    var s := Upserted(before, def, snap, offset);
    var t := Run(s, steps[..i]);
    RunMirrors(names, bools, before, def, snap, offset, steps, i);
    InnerHolds(names, bools, before, def, snap, offset, steps, i);
    MirrorHolds(names, LastInserted(s, steps, i), bools, before.handle, HasDependencyKeyword(def), ClientAt(t), InnerAt(t), t.rows);
  }

  /** After the first inconsistent refresh the client has more entries than the shape has rows: a second copy
      of an updated row, or a deleted one. */
  lemma InconsistentIsWrong(names: seq<string>, bools: set<string>, before: Shape, def: Definition, snap: Snapshot, offset: string,
                            steps: seq<Step>, i: nat)
    requires EpochFits(names, bools, def, snap, steps) && i < |steps| && BaselineSent(def, snap)
    requires forall j | 0 <= j < i :: Consistent(Upserted(before, def, snap, offset), steps, j)
    requires !Consistent(Upserted(before, def, snap, offset), steps, i)
    ensures var t := Run(Upserted(before, def, snap, offset), steps[..i + 1]); |ClientAt(t)| > |t.rows|
    ensures !RightAt(bools, Upserted(before, def, snap, offset), steps, i + 1)
  {
    hide EpochFits, SnapKeyed, HasDependencyKeyword, RowsKeyed, KeyFits, Take, Upserted, SnapshotMessages, MaterializedRows,
      Mirrors, ClientAt, InnerAt, Keyed, TargetedKeys, LastInserted, Run, RefreshMessages, KeysMessages, HoldsRows, StepMessages;
    var s := Upserted(before, def, snap, offset);
    var t, step := Run(s, steps[..i]), steps[i];
    var own, relation, messages := LastInserted(s, steps, i), PrintedRelation(def, step), StepMessages(t, step);
    FitsParts(names, bools, def, snap, steps);
    StartFits(names, before, def, snap, offset);
    RunKeyed(names, s, steps, i);
    RunMirrors(names, bools, before, def, snap, offset, steps, i);
    InnerHolds(names, bools, before, def, snap, offset, steps, i);
    InnerHolds(names, bools, before, def, snap, offset, steps, i + 1);
    EpochOrder.RunNext(s, steps, i);
    forall j | 0 <= j <= i ensures Run(s, steps[..j]).def == s.def { RunKeyed(names, s, steps, j); }
    InconsistentParts(names, bools, s, snap, steps, i);
    HoldsKeys(bools, before.handle, InnerAt(t), t.rows);
    HoldsKeys(bools, before.handle, InnerAt(Take(t, step)), Take(t, step).rows);
    WrongCount(names, own, t, step);
    if RightAt(bools, s, steps, i + 1) { HoldsRowsSize(bools, ClientAt(Take(t, step)), Take(t, step).rows); }
  }

  /** Only a refresh by keys of a shape with key columns and without a dependency keyword can be inconsistent. */
  lemma InconsistentParts(names: seq<string>, bools: set<string>, s: Shape, snap: Snapshot, steps: seq<Step>, i: nat)
    requires i < |steps| && EpochFits(names, bools, s.def, snap, steps) && !Consistent(s, steps, i)
    requires forall j | 0 <= j <= i :: Run(s, steps[..j]).def == s.def
    ensures !HasDependencyKeyword(s.def) && names != []
  {
    hide EpochFits, HasDependencyKeyword, Run, LastInserted, RefreshMessages, KeysMessages, TargetedKeys, SnapKeyed;
    FitsParts(names, bools, s.def, snap, steps);
    if HasDependencyKeyword(s.def) || names == [] {
      assert OwnKeys(s, steps, i + 1);
      OneOwner(s, steps, i);
    }
  }

  lemma WrongCount(names: seq<string>, own: Owners, s: Shape, step: Step)
    requires names != [] && SnapKeyed(names, step.snap) && RowsKeyed(names, s.rows) && !HasDependencyKeyword(s.def)
    requires Mirrors(names, own, ClientAt(s), InnerAt(s)) && InnerAt(s).Keys == s.rows.Keys
    requires InnerAt(Take(s, step)).Keys == Take(s, step).rows.Keys
    requires !PrintsOwners(own, PrintedRelation(s.def, step), StepMessages(s, step))
    ensures |ClientAt(Take(s, step))| > |Take(s, step).rows|
  {
    StepFitsKeys(names, s, step);
    ClientNext(s, step);
    StepBatch(s, step);
    hide StepMessages, Take, Mirrors, HasDependencyKeyword, SnapKeyed, RowsKeyed, ClientAt, InnerAt, KeyFits,
      Batch, PrintedRelation, PrintsOwners;
    var relation, full, messages := PrintedRelation(s.def, step), s.def.FullReplica(), StepMessages(s, step);
    CountBatch(names, own, relation, full, ClientAt(s), InnerAt(s), messages);
    NoneMissed(own, relation, messages);
    var c, rows := InnerAt(Take(s, step)), Take(s, step).rows;
    assert |c| == |c.Keys| && |rows| == |rows.Keys|;
  }

  lemma NotSentIsWrong(bools: set<string>, before: Shape, def: Definition, snap: Snapshot, offset: string, steps: seq<Step>)
    requires !BaselineSent(def, snap)
    ensures !RightAt(bools, Upserted(before, def, snap, offset), steps, 0)
  {
    hide HoldsRows, BaselineSent, MaterializedRows, SnapshotMessages;
    var s := Upserted(before, def, snap, offset);
    SentSnapshot(before, def, snap, offset);
    UnsentRows(def, snap);
    assert steps[..0] == [] && s.snapshot + s.changes == [];
    assert ClientAt(s) == map[];
    if RightAt(bools, s, steps, 0) { HoldsRowsSize(bools, ClientAt(s), s.rows); }
  }

  lemma {:induction false} RightMeansConsistent(names: seq<string>, bools: set<string>, before: Shape, def: Definition, snap: Snapshot,
                                                offset: string, steps: seq<Step>, n: nat)
    requires EpochFits(names, bools, def, snap, steps) && n <= |steps| && BaselineSent(def, snap)
    requires forall i | 0 <= i <= |steps| :: RightAt(bools, Upserted(before, def, snap, offset), steps, i)
    ensures forall j | 0 <= j < n :: Consistent(Upserted(before, def, snap, offset), steps, j)
    decreases n
  {
    hide EpochFits, RightAt, Upserted, Consistent, Run, ClientAt;
    if n > 0 {
      RightMeansConsistent(names, bools, before, def, snap, offset, steps, n - 1);
      if !Consistent(Upserted(before, def, snap, offset), steps, n - 1) {
        InconsistentIsWrong(names, bools, before, def, snap, offset, steps, n - 1);
      }
    }
  }

  /** Snapshot plus log equals state, on the wire. For every upsert and every run of refreshes after it, a
      client that applies the snapshot it is sent and then the log, finding rows by the keys in the messages,
      holds exactly the shape's rows in every state of the run, if and only if it is sent the baseline and
      every update and delete prints the relation under which its row was last inserted. */
  lemma WireReplayIff(names: seq<string>, bools: set<string>, before: Shape, def: Definition, snap: Snapshot,
                      offset: string, steps: seq<Step>)
    requires EpochFits(names, bools, def, snap, steps)
    ensures var s := Upserted(before, def, snap, offset);
      (forall i | 0 <= i <= |steps| :: RightAt(bools, s, steps, i))
      <==> BaselineSent(def, snap) && forall i | 0 <= i < |steps| :: Consistent(s, steps, i)
  {
    hide EpochFits, RightAt, Upserted, Consistent, BaselineSent;
    var s := Upserted(before, def, snap, offset);
    if !BaselineSent(def, snap) {
      NotSentIsWrong(bools, before, def, snap, offset, steps);
    } else {
      if forall i | 0 <= i < |steps| :: Consistent(s, steps, i) {
        forall i | 0 <= i <= |steps| ensures RightAt(bools, s, steps, i) {
          ConsistentIsRight(names, bools, before, def, snap, offset, steps, i);
        }
      }
      if forall i | 0 <= i <= |steps| :: RightAt(bools, s, steps, i) {
        RightMeansConsistent(names, bools, before, def, snap, offset, steps, |steps|);
      }
    }
  }

  /** In particular it is enough that every refresh with messages prints the definition's own relation. */
  lemma OwnKeysAreRight(names: seq<string>, bools: set<string>, before: Shape, def: Definition, snap: Snapshot, offset: string,
                        steps: seq<Step>, i: nat)
    requires EpochFits(names, bools, def, snap, steps) && i <= |steps| && BaselineSent(def, snap)
    requires OwnKeys(Upserted(before, def, snap, offset), steps, |steps|)
    ensures RightAt(bools, Upserted(before, def, snap, offset), steps, i)
  {
    hide EpochFits, Upserted, StepMessages, Run, RightAt, PrintedRelation, LastInserted;
    var s := Upserted(before, def, snap, offset);
    forall j | 0 <= j < |steps| ensures Consistent(s, steps, j) { OneOwner(s, steps, j); }
    WireReplayIff(names, bools, before, def, snap, offset, steps);
  }

  // ---- one relation throughout ----

  lemma {:induction false} DiffInserts(def: Definition, schema: Schema, relation: Relation, keys: seq<string>, previous: Rows,
                                       current: Rows, k: string)
    requires k in keys && k !in previous && k in current
    ensures Inserts(DiffKeys(def, schema, relation, keys, previous, current), k)
  {
    hide MessageKey, UpdateValue, UpdateOldValue, DeleteValue, ChangedColumns;
    var messages := DiffKeys(def, schema, relation, keys, previous, current);
    var head := DiffKey(def, schema, relation, keys[0], previous, current);
    if k == keys[0] {
      assert IsInsert(messages[0], k);
    } else {
      DiffInserts(def, schema, relation, keys[1..], previous, current, k);
      var tail := DiffKeys(def, schema, relation, keys[1..], previous, current);
      var i :| 0 <= i < |tail| && IsInsert(tail[i], k);
      assert messages[|head| + i] == tail[i];
    }
  }

  /** A row that a refresh brings in comes with an insert. */
  lemma StepInserts(s: Shape, step: Step, k: string)
    requires !HasDependencyKeyword(s.def) && k !in s.rows && k in Take(s, step).rows
    ensures Inserts(StepMessages(s, step), k)
  {
    hide HasDependencyKeyword, MaterializedRows, DiffKeys, Sorted, WireMessages, TargetedKeys, Numbered, IsInsert;
    var current := MaterializedRows(step.snap.schema, step.snap.rows);
    match step
    case Full(snap, meta) =>
      DiffInserts(s.def, snap.schema, s.def.relation, Sorted(s.rows.Keys + current.Keys), s.rows, current, k);
    case ByKeys(snap, keyRows, meta) =>
      var keys := TargetedKeys(snap.schema, keyRows, snap.rows);
      hide KeysMessages, Restrict;
      if keys != {} { KeysInsert(s, snap, keys, meta, k); }
  }

  lemma KeysInsert(s: Shape, snap: Snapshot, keys: set<string>, meta: Metadata, k: string)
    requires k !in s.rows && k in Splice(s.rows, keys, MaterializedRows(snap.schema, snap.rows))
    ensures Inserts(KeysMessages(s, snap, keys, meta), k)
  {
    hide MaterializedRows, DiffKeys, Sorted, WireMessages, Inserts;
    var rows := Splice(s.rows, keys, MaterializedRows(snap.schema, snap.rows));
    var before, after := Restrict(s.rows, keys), Restrict(rows, keys);
    var relation := KeyRelation(s.def, meta);
    DiffInserts(s.def, snap.schema, relation, Sorted(before.Keys + after.Keys), before, after, k);
    LiveInserts(snap.schema, DiffRows(s.def, snap.schema, relation, before, after), k);
  }

  lemma LiveInserts(schema: Schema, messages: seq<Message>, k: string)
    requires Inserts(messages, k)
    ensures Inserts(WireMessages(schema, messages), k)
  {
    LiveBatch(schema, messages);
    var i :| 0 <= i < |messages| && IsInsert(messages[i], k);
    assert IsInsert(WireMessages(schema, messages)[i], k);
  }

  /** The first `n` refreshes that have messages print the keys of `r`. */
  ghost predicate PrintsOnly(s: Shape, steps: seq<Step>, r: Relation, n: nat)
    requires n <= |steps|
  {
    forall i | 0 <= i < n :: StepMessages(Run(s, steps[..i]), steps[i]) != [] ==> PrintedRelation(s.def, steps[i]) == r
  }

  lemma {:induction false} RowsOf(s: Shape, steps: seq<Step>, r: Relation, n: nat, k: string)
    requires n <= |steps| && PrintsOnly(s, steps, r, n) && !HasDependencyKeyword(s.def) && s.rows == map[]
    requires forall i | 0 <= i <= n :: Run(s, steps[..i]).def == s.def
    ensures k in Run(s, steps[..n]).rows ==> LastInserted(s, steps, n)(k) == r
    decreases n
  {
    hide HasDependencyKeyword, StepMessages, Take, PrintedRelation, Inserts;
    if n == 0 {
      assert steps[..0] == [];
    } else {
      var t, step := Run(s, steps[..n - 1]), steps[n - 1];
      RowsOf(s, steps, r, n - 1, k);
      EpochOrder.RunNext(s, steps, n - 1);
      if k !in t.rows && k in Take(t, step).rows {
        StepInserts(t, step, k);
        assert StepMessages(t, step) != [] by { InsertsSome(StepMessages(t, step), k); }
      } else if k in t.rows && Inserts(StepMessages(t, step), k) {
        InsertsSome(StepMessages(t, step), k);
      }
    }
  }

  lemma InsertsSome(messages: seq<Message>, k: string)
    requires Inserts(messages, k)
    ensures messages != []
  {
  }

  /** A shape that starts without rows and whose log prints one relation throughout, be it a partition's, is
      always right for its clients: what matters is not which relation is printed but that it stays. */
  lemma OneRelationIsRight(names: seq<string>, bools: set<string>, before: Shape, def: Definition, snap: Snapshot, offset: string,
                           steps: seq<Step>, r: Relation, i: nat)
    requires EpochFits(names, bools, def, snap, steps) && i <= |steps| && snap.rows == [] && !HasDependencyKeyword(def)
    requires PrintsOnly(Upserted(before, def, snap, offset), steps, r, |steps|)
    ensures RightAt(bools, Upserted(before, def, snap, offset), steps, i)
  {
    hide EpochFits, RightAt, StepMessages, LastInserted, HasDependencyKeyword, Take, SnapKeyed, RowsKeyed, KeyFits, PrintedRelation, Run;
    var s := Upserted(before, def, snap, offset);
    assert s.rows == map[];
    FitsParts(names, bools, def, snap, steps);
    StartFits(names, before, def, snap, offset);
    hide Upserted;
    forall j | 0 <= j <= |steps| ensures Run(s, steps[..j]).def == s.def { RunKeyed(names, s, steps, j); }
    forall j | 0 <= j < |steps| ensures Consistent(s, steps, j) {
      var t := Run(s, steps[..j]);
      var messages := StepMessages(t, steps[j]);
      StepBatch(t, steps[j]);
      forall n | 0 <= n < |messages| && messages[n].body.Change? && messages[n].body.op != Insert
        ensures LastInserted(s, steps, j)(messages[n].internalKey) == PrintedRelation(s.def, steps[j])
      {
        RowsOf(s, steps, r, j, messages[n].internalKey);
      }
    }
    WireReplayIff(names, bools, before, def, snap, offset, steps);
  }

  // ---- a partition ----

  const ROOT := Relation("public", "events")
  const LEAF := Relation("public", "events_1")
  const COLUMNS: Schema := map["id" := Column("int4", true, Some(0)), "name" := Column("text", false, None)]

  function Events(): Definition { Definition(ROOT, "", map[], [], "", "", None) }

  function EventRow(name: string): Row { map["id" := Some("1"), "name" := Some(name)] }

  function EventSnapshot(): Snapshot { Snapshot(COLUMNS, [EventRow("a")]) }

  /** A commit on the leaf updates the row, or deletes it; the shape on the root is refreshed by its key. */
  function LeafStep(deleted: bool): Step
  {
    ByKeys(Snapshot(COLUMNS, if deleted then [] else [EventRow("b")]), [EventRow("b")], Metadata(LEAF, 200, 7, false))
  }

  lemma OneKeyColumn(name: string)
    ensures PkNames(COLUMNS) == ["id"] && PrimaryKeySignature(COLUMNS, EventRow(name)) == "1" && Keyed(["id"], "1", EventRow(name))
  {
    var names := PkNames(COLUMNS);
    assert PkColumns(COLUMNS) == {"id"};
    assert "id" in names && |names| == 1;
    assert names == ["id"];
    assert KeyValues(names, EventRow(name)) == ["1"];
  }

  lemma OneRow(name: string)
    ensures MaterializedRows(COLUMNS, [EventRow(name)]) == map["1" := EventRow(name)]
    ensures MaterializedRows(COLUMNS, []) == map[]
  {
    OneKeyColumn(name);
    hide PkNames, PrimaryKeySignature;
    var rows := [EventRow(name)];
    assert rows[..0] == [] && rows[0] == EventRow(name);
    assert MaterializedRows(COLUMNS, rows) == MaterializedRows(COLUMNS, rows[..0])[PrimaryKeySignature(COLUMNS, rows[0]) := rows[0]];
  }

  lemma OneKeyDiff(def: Definition, schema: Schema, relation: Relation, k: string, before: Rows, after: Rows)
    requires before.Keys == {k} && after.Keys <= {k} && (k !in after || ChangedColumns(before[k], after[k]) != {})
    ensures var messages := DiffRows(def, schema, relation, before, after);
      |messages| == 1 && messages[0].body.Change? && messages[0].body.op != Insert
  {
    hide MessageKey, Sorted, UpdateValue, UpdateOldValue, DeleteValue, ChangedColumns;
    assert before.Keys + after.Keys == {k};
    SortedUnique([k], {k});
    assert [k][1..] == [];
    assert DiffKeys(def, schema, relation, [k][1..], before, after) == [];
  }

  /** A refresh of one held key that changed has one message, and it is not an insert. */
  lemma OneKeyMessage(s: Shape, snap: Snapshot, k: string, meta: Metadata)
    requires k in s.rows
    requires var current := MaterializedRows(snap.schema, snap.rows); k !in current || ChangedColumns(s.rows[k], current[k]) != {}
    ensures var messages := KeysMessages(s, snap, {k}, meta);
      |messages| == 1 && messages[0].body.Change? && messages[0].body.op != Insert
  {
    hide DiffRows, MaterializedRows, ChangedColumns, WireMessages;
    var current := MaterializedRows(snap.schema, snap.rows);
    var before, after := Restrict(s.rows, {k}), Restrict(Splice(s.rows, {k}, current), {k});
    OneKeyDiff(s.def, snap.schema, KeyRelation(s.def, meta), k, before, after);
    LiveBatch(snap.schema, DiffRows(s.def, snap.schema, KeyRelation(s.def, meta), before, after));
  }

  lemma NameChanges()
    ensures ChangedColumns(EventRow("a"), EventRow("b")) != {}
  {
    assert EventRow("a")["name"] == Some("a") && EventRow("b")["name"] == Some("b") && "a" != "b";
    assert "name" in ChangedColumns(EventRow("a"), EventRow("b"));
  }

  lemma LeafTargets(deleted: bool)
    ensures var step := LeafStep(deleted); TargetedKeys(COLUMNS, step.keyRows, step.snap.rows) == {"1"}
  {
    OneKeyColumn("b");
    hide PkNames, PrimaryKeySignature;
    var step := LeafStep(deleted);
    assert PrimaryKeySignature(COLUMNS, step.keyRows[0]) == "1";
    assert forall i | 0 <= i < |step.snap.rows| :: step.snap.rows[i] == EventRow("b");
  }

  lemma LeafMessage(s: Shape, deleted: bool)
    requires s.rows == map["1" := EventRow("a")]
    ensures var messages := StepMessages(s, LeafStep(deleted));
      |messages| == 1 && messages[0].body.Change? && messages[0].body.op != Insert
  {
    LeafTargets(deleted);
    OneRow("b");
    NameChanges();
    hide MaterializedRows, ChangedColumns, KeysMessages, TargetedKeys, EventRow;
    OneKeyMessage(s, LeafStep(deleted).snap, "1", LeafStep(deleted).meta);
  }

  /** A first refresh that updates or deletes a row of the snapshot under another relation is inconsistent. */
  lemma FirstInconsistent(s: Shape, step: Step)
    requires StepMessages(s, step) != [] && PrintedRelation(s.def, step) != s.def.relation
    requires var m := StepMessages(s, step)[0]; m.body.Change? && m.body.op != Insert
    ensures !Consistent(s, [step], 0)
  {
    hide StepMessages, PrintedRelation, Take;
    assert [step][..0] == [] && Run(s, []) == s;
    assert LastInserted(s, [step], 0)(StepMessages(s, step)[0].internalKey) == s.def.relation;
  }

  lemma NoKeywordsInEmptyText(def: Definition)
    requires def.where_ == "" && def.subset.None?
    ensures !HasDependencyKeyword(def)
  {
  }

  lemma PartitionFits(deleted: bool)
    ensures EpochFits(["id"], {}, Events(), EventSnapshot(), [LeafStep(deleted)])
  {
    OneKeyColumn("a");
    OneKeyColumn("b");
    NoKeywordsInEmptyText(Events());
    hide PkNames, PrimaryKeySignature, Keyed, HasDependencyKeyword, AllKeys, TagSafe, MaterializedRows;
    var snap := LeafStep(deleted).snap;
    assert forall i | 0 <= i < |snap.rows| :: snap.rows[i] == EventRow("b");
  }

  lemma EventsStart(before: Shape, offset: string)
    ensures var s := Upserted(before, Events(), EventSnapshot(), offset);
      s.rows == map["1" := EventRow("a")] && s.def == Events() && BaselineSent(Events(), EventSnapshot())
  {
    OneRow("a");
    hide MaterializedRows, SnapshotMessages;
  }

  lemma LeafIsForeign(deleted: bool)
    ensures PrintedRelation(Events(), LeafStep(deleted)) != Events().relation
  {
    assert |"events"| != |"events_1"|;
  }

  /** A client of a shape on a partitioned table that was sent a row and then its update, or its deletion,
      through the partition: it holds a second copy of the row, or the deleted one. */
  lemma PartitionChangeGoesWrong(before: Shape, offset: string, deleted: bool)
    ensures EpochFits(["id"], {}, Events(), EventSnapshot(), [LeafStep(deleted)])
    ensures var s, steps := Upserted(before, Events(), EventSnapshot(), offset), [LeafStep(deleted)];
      RightAt({}, s, steps, 0) && !RightAt({}, s, steps, 1) && |ClientAt(Run(s, steps[..1]))| > |Run(s, steps[..1]).rows|
  {
    PartitionFits(deleted);
    EventsStart(before, offset);
    LeafIsForeign(deleted);
    hide EpochFits, RightAt, StepMessages, ClientAt, Upserted, Consistent, Run, EventRow, EventSnapshot, Events, LeafStep,
      PrintedRelation, BaselineSent;
    var s, step := Upserted(before, Events(), EventSnapshot(), offset), LeafStep(deleted);
    LeafMessage(s, deleted);
    FirstInconsistent(s, step);
    ConsistentIsRight(["id"], {}, before, Events(), EventSnapshot(), offset, [step], 0);
    InconsistentIsWrong(["id"], {}, before, Events(), EventSnapshot(), offset, [step], 0);
  }
}
