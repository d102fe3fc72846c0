/** What the dependency scan returns on the query grammar, exactly: the tables found, folded into its map
    in textual order, and never the wildcard; and when that is every table named. */
module ScanExact {
  import opened Strings
  import opened Keys
  import opened DependencyScan
  import opened QueryGrammar
  import Sanitizer

  // ---- single tokens ----

  lemma StepOver(t: Token, k: seq<Token>, f: Flags, cx: Context, rels: Relations, w: bool)
    requires !f.expectName
    ensures Scan([t] + k, f, cx, rels, w) == Scan(k, Next(f, t), cx, rels, w)
  {
    assert ([t] + k)[1..] == k;
  }

  lemma QuietOutside(t: Token, f: Flags)
    requires Quiet(t) && !f.inFrom && !f.expectName
    ensures Next(f, t) == f
  {
  }

  ghost predicate InList(f: Flags) { f.inFrom && f.depth == f.fromDepth && !f.expectName }

  /** Outside a FROM list the remembered depth does not matter. */
  lemma {:induction false} FromDepthIdle(rest: seq<Token>, f: Flags, d: nat, cx: Context, rels: Relations, w: bool)
    requires !f.inFrom
    ensures Scan(rest, f, cx, rels, w) == Scan(rest, f.(fromDepth := d), cx, rels, w)
    decreases |rest|
  {
    hide Consume;
    if rest != [] {
      if f.expectName {
        var c := Consume(rest, cx, rels);
        FromDepthIdle(c.rest, f.(expectName := false), d, cx, c.relations, w || c.unknown);
      } else {
        NextIdle(f, rest[0], d);
        var g := Next(f, rest[0]);
        if !g.inFrom { FromDepthIdle(rest[1..], g, d, cx, rels, w); }
      }
    }
  }

  lemma NextIdle(f: Flags, t: Token, d: nat)
    requires !f.inFrom && !f.expectName
    ensures Next(f.(fromDepth := d), t) == if Next(f, t).inFrom then Next(f, t) else Next(f, t).(fromDepth := d)
  {
  }

  // ---- names and aliases ----

  lemma AliasSkipped(a: Alias, k: seq<Token>)
    requires AliasFits(a) && Stops(k)
    ensures SkipAlias(AliasThen(a, k)) == k
  {
    hide SkipBalanced;
    var text := AliasThen(a, k);
    match a {
      case NoAlias =>
      case Plain(n) => assert text[0] == n && text[1..] == k;
      case As(w, n) => assert text[0] == w && text[1] == n && text[2..] == k;
    }
  }

  lemma AliasOpens(a: Alias, k: seq<Token>)
    requires AliasFits(a) && Stops(k)
    ensures var t := AliasThen(a, k); t == [] || (!IsSym(t[0], "(") && !IsSym(t[0], "."))
  {
  }

  predicate NoDotAhead(k: seq<Token>) { k == [] || !IsSym(k[0], ".") }

  function Width(n: Name): nat { if n.Bare? then 1 else 3 }

  lemma ReadsName(n: Name, k: seq<Token>, cx: Context)
    requires NameFits(n, cx) && NoDotAhead(k)
    ensures ReadReference(NameThen(n, k), cx) == Reference(Some(NameRelation(n, cx)), Width(n))
    ensures NameThen(n, k)[Width(n)..] == k && |NameThen(n, k)| == Width(n) + |k|
  {
    var text := NameThen(n, k);
    match n {
      case Bare(t) => assert text[0] == t && text[1..] == k;
      case Qualified(s, t) => assert text[0] == s && text[1] == DOT && text[2] == t && text[3..] == k;
    }
  }

  lemma NameStarts(n: Name, k: seq<Token>, cx: Context)
    requires NameFits(n, cx)
    ensures NameThen(n, k) != [] && SkipOnly(NameThen(n, k)) == NameThen(n, k) && !IsSym(NameThen(n, k)[0], "(")
  {
  }

  lemma {:induction false} PrefixSkipped(prefix: seq<Token>, k: seq<Token>)
    requires forall i | 0 <= i < |prefix| :: IsKeyword(prefix[i], "only") || IsKeyword(prefix[i], "lateral")
    ensures SkipOnly(prefix + k) == SkipOnly(k)
  {
    if prefix == [] {
      assert prefix + k == k;
    } else {
      assert (prefix + k)[0] == prefix[0] && (prefix + k)[1..] == prefix[1..] + k;
      PrefixSkipped(prefix[1..], k);
    }
  }

  // ---- a query in parentheses is never mistaken for a name ----

  lemma {:induction false} PiecesLength(p: Pieces, k: seq<Token>)
    ensures |PiecesThen(p, k)| >= |k| + (if p.Done? then 0 else 1)
    ensures p.Done? ==> PiecesThen(p, k) == k
  {
    hide PiecesThen;
    PiecesSplits(p, k);
    PiecesNonempty(p);
  }

  lemma PiecesNonempty(p: Pieces)
    ensures p.Done? || |PiecesThen(p, [])| >= 1
    ensures p.Done? ==> forall k :: PiecesThen(p, k) == k
  {
  }

  lemma ItemsNonempty(i: Items)
    ensures |ItemsThen(i, [])| >= 1
  {
    var f := i.factor;
    FactorNonempty(f);
    match i
    case One(_, joins) => FactorSplits(f, JoinsThen(joins, []));
    case Comma(_, joins, rest) => FactorSplits(f, JoinsThen(joins, [COMMA] + ItemsThen(rest, [])));
  }

  lemma FactorNonempty(f: Factor)
    ensures |FactorThen(f, [])| >= 1
  {
    match f
    case Table(prefix, name, alias) => NameSplits(name, AliasThen(alias, []));
    case _ =>
  }

  lemma QueryIsNoName(q: Query, cx: Context)
    requires QueryFits(q, cx)
    ensures OnlyReference(QueryThen(q, []), cx) == None
  {
    hide PiecesThen, ItemsThen, TailThen;
    var items := ItemsThen(q.items, TailThen(q.tail, []));
    ItemsSplits(q.items, TailThen(q.tail, []));
    ItemsNonempty(q.items);
    var body := [q.from] + items;
    PiecesLength(q.head, body);
    var text := QueryThen(q, []);
    assert text[1..] == PiecesThen(q.head, body);
    if q.head.Done? {
      assert text[1] == q.from;
    }
  }

  // ---- factors ----

  lemma {:induction false} FactorConsumed(f: Factor, k: seq<Token>, cx: Context, rels: Relations)
    requires FactorFits(f, cx) && Stops(k)
    ensures FactorThen(f, k) != []
    ensures Consume(FactorThen(f, k), cx, rels) == Consumed(k, false, AddAll(rels, FactorFound(f, cx, false)))
    decreases f, 1
  {
    match f
    case Table(prefix, name, alias) => TableConsumed(prefix, name, alias, k, cx, rels);
    case ParenTable(name, alias) => ParenTableConsumed(name, alias, k, cx, rels);
    case CteName(prefix, cte, alias) => CteConsumed(prefix, cte, alias, k, cx, rels);
    case Derived(query, alias) => DerivedConsumed(query, alias, k, cx, rels);
    case Nested(first, joins, alias) => NestedConsumed(first, joins, alias, k, cx, rels);
  }

  lemma AddOne(rels: Relations, r: Relation)
    ensures AddAll(rels, [r]) == Add(rels, r)
  {
    assert [r][1..] == [];
    assert AddAll(Add(rels, r), []) == Add(rels, r);
  }

  lemma TableConsumed(prefix: seq<Token>, name: Name, alias: Alias, k: seq<Token>, cx: Context, rels: Relations)
    requires FactorFits(Table(prefix, name, alias), cx) && Stops(k)
    ensures FactorThen(Table(prefix, name, alias), k) != []
    ensures Consume(FactorThen(Table(prefix, name, alias), k), cx, rels)
            == Consumed(k, false, AddAll(rels, [NameRelation(name, cx)]))
  {
    hide SkipAlias, ReadReference, NameThen, AliasThen, SkipOnly, NameFits, AliasFits;
    var next := AliasThen(alias, k);
    AliasOpens(alias, k);
    AliasSkipped(alias, k);
    var text := NameThen(name, next);
    PrefixSkipped(prefix, text);
    NameStarts(name, next, cx);
    ReadsName(name, next, cx);
    AddOne(rels, NameRelation(name, cx));
    assert |prefix + text| > 0;
  }

  lemma ReadsCte(t: Token, k: seq<Token>, cx: Context)
    requires CteFits(t, cx) && NoDotAhead(k)
    ensures var text := [t] + k;
      ReadReference(text, cx) == Reference(None, 1) && text[1..] == k && SkipOnly(text) == text && !IsSym(text[0], "(")
  {
    assert ([t] + k)[1..] == k;
  }

  /** The name of a common table expression is passed over. */
  lemma CteConsumed(prefix: seq<Token>, t: Token, alias: Alias, k: seq<Token>, cx: Context, rels: Relations)
    requires FactorFits(CteName(prefix, t, alias), cx) && Stops(k)
    ensures FactorThen(CteName(prefix, t, alias), k) != []
    ensures Consume(FactorThen(CteName(prefix, t, alias), k), cx, rels) == Consumed(k, false, AddAll(rels, []))
  {
    hide SkipAlias, ReadReference, AliasThen, SkipOnly, CteFits, AliasFits;
    var next := AliasThen(alias, k);
    AliasOpens(alias, k);
    AliasSkipped(alias, k);
    PrefixSkipped(prefix, [t] + next);
    ReadsCte(t, next, cx);
    assert |prefix + ([t] + next)| > 0;
  }

  /** The group that opens at `[OPEN] + text` and closes right before `after`. */
  lemma GroupIs(inner: seq<Token>, text: seq<Token>, after: seq<Token>, cx: Context, rels: Relations)
    requires text == inner + ([CLOSE] + after) && Passes(text, [CLOSE] + after)
    ensures Consume([OPEN] + text, cx, rels) ==
      match OnlyReference(inner, cx)
      case Some(relation) => Consumed(SkipAlias(after), false, Add(rels, relation))
      case None =>
        var s := Scan(inner, START, cx, rels, false);
        Consumed(SkipAlias(after), s.wildcard, s.relations)
  {
    hide Passes, FindClose, SkipAlias, Scan, OnlyReference;
    PassesParens(text, after);
    var r := [OPEN] + text;
    assert !IsKeyword(OPEN, "only") && !IsKeyword(OPEN, "lateral");
    assert SkipOnly(r) == r;
    assert r[1..] == text;
    assert r[1..|inner| + 1] == inner;
    assert r[|inner| + 2..] == after;
  }

  lemma ParenTableConsumed(name: Name, alias: Alias, k: seq<Token>, cx: Context, rels: Relations)
    requires FactorFits(ParenTable(name, alias), cx) && Stops(k)
    ensures FactorThen(ParenTable(name, alias), k) != []
    ensures Consume(FactorThen(ParenTable(name, alias), k), cx, rels)
            == Consumed(k, false, AddAll(rels, [NameRelation(name, cx)]))
  {
    hide SkipAlias, ReadReference, AliasThen, Passes, Consume;
    var after := AliasThen(alias, k);
    AliasSkipped(alias, k);
    NameSplits(name, [CLOSE] + after);
    NamePasses(name, [CLOSE] + after);
    GroupIs(NameThen(name, []), NameThen(name, [CLOSE] + after), after, cx, rels);
    ReadsName(name, [], cx);
    AddOne(rels, NameRelation(name, cx));
  }

  lemma {:induction false} DerivedConsumed(query: Query, alias: Alias, k: seq<Token>, cx: Context, rels: Relations)
    requires FactorFits(Derived(query, alias), cx) && Stops(k)
    ensures FactorThen(Derived(query, alias), k) != []
    ensures Consume(FactorThen(Derived(query, alias), k), cx, rels)
            == Consumed(k, false, AddAll(rels, QueryFound(query, cx)))
    decreases query, 2
  {
    hide SkipAlias, ReadReference, AliasThen, Passes, Consume, QueryThen, Scan, QueryFound;
    var after := AliasThen(alias, k);
    AliasSkipped(alias, k);
    QuerySplits(query, [CLOSE] + after);
    QueryPasses(query, [CLOSE] + after, cx);
    GroupIs(QueryThen(query, []), QueryThen(query, [CLOSE] + after), after, cx, rels);
    QueryIsNoName(query, cx);
    QueryScanned(query, [], START, cx, rels, false);
    ScanEnd(Exit(query, START), cx, AddAll(rels, QueryFound(query, cx)), false);
  }

  lemma JoinsNonempty(j: Joins)
    requires j.Join?
    ensures |JoinsThen(j, [])| >= 1
  {
    hide FactorThen, PiecesThen;
  }

  /** A factor followed by something is not just a name. */
  lemma FactorIsNoName(f: Factor, k: seq<Token>, cx: Context)
    requires FactorFits(f, cx) && Stops(k) && k != []
    ensures OnlyReference(FactorThen(f, k), cx) == None
  {
    hide AliasThen, QueryThen, JoinsThen, NameThen, AliasFits, NameFits, QueryFits, JoinsFit;
    match f {
      case Table(prefix, name, alias) =>
        var next := AliasThen(alias, k);
        AliasOpens(alias, k);
        AliasSplits(alias, k);
        assert next != [];
        if prefix == [] {
          assert prefix + NameThen(name, next) == NameThen(name, next);
          ReadsName(name, next, cx);
        } else {
          NameHead(name, next, cx);
          PrefixIsNoName(prefix, NameThen(name, next), cx);
        }
      case CteName(prefix, cte, alias) =>
        var next := AliasThen(alias, k);
        AliasOpens(alias, k);
        if prefix == [] {
          assert prefix + ([cte] + next) == [cte] + next;
          ReadsCte(cte, next, cx);
        } else {
          PrefixIsNoName(prefix, [cte] + next, cx);
        }
      case _ =>
    }
  }

  lemma NameHead(n: Name, k: seq<Token>, cx: Context)
    requires NameFits(n, cx)
    ensures NameThen(n, k) != [] && !NameThen(n, k)[0].symbol
  {
  }

  lemma PrefixIsNoName(prefix: seq<Token>, text: seq<Token>, cx: Context)
    requires prefix != [] && forall i | 0 <= i < |prefix| :: IsKeyword(prefix[i], "only") || IsKeyword(prefix[i], "lateral")
    requires text != [] && !IsSym(text[0], ".")
    ensures OnlyReference(prefix + text, cx) == None
  {
    var all := prefix + text;
    if |prefix| > 1 { assert all[1] == prefix[1]; } else { assert all[1] == text[0]; }
  }

  /** A parenthesised join in place of a table: its inside is scanned afresh, so its first table is not expected. */
  lemma {:induction false} NestedConsumed(first: Factor, joins: Joins, alias: Alias, k: seq<Token>, cx: Context, rels: Relations)
    requires FactorFits(Nested(first, joins, alias), cx) && Stops(k)
    ensures FactorThen(Nested(first, joins, alias), k) != []
    ensures Consume(FactorThen(Nested(first, joins, alias), k), cx, rels)
            == Consumed(k, false, AddAll(rels, FactorFound(Nested(first, joins, alias), cx, false)))
    decreases Nested(first, joins, alias), 0, 1
  {
    hide SkipAlias, ReadReference, AliasThen, Passes, Consume, FactorThen, JoinsThen, Scan, FactorFound, JoinsFound,
      OnlyReference, StopToken, JoinsFit, AliasFits;
    var after := AliasThen(alias, k);
    var js := JoinsThen(joins, []);
    var inner, text := FactorThen(first, js), FactorThen(first, JoinsThen(joins, [CLOSE] + after));
    AliasSkipped(alias, k);
    JoinsSplits(joins, [CLOSE] + after);
    FactorSplits(first, js + ([CLOSE] + after));
    FactorSplits(first, js);
    assert text == inner + ([CLOSE] + after);
    JoinsPasses(joins, [CLOSE] + after, cx);
    FactorPasses(first, JoinsThen(joins, [CLOSE] + after), cx);
    PassesTrans(text, JoinsThen(joins, [CLOSE] + after), [CLOSE] + after);
    GroupIs(inner, text, after, cx, rels);
    JoinsNonempty(joins);
    JoinsStop(joins, [], cx);
    FactorIsNoName(first, js, cx);
    NestedInside(Nested(first, joins, alias), [], START, cx, rels, false);
    ScanEnd(START, cx, AddAll(rels, FactorFound(first, cx, true) + JoinsFound(joins, cx)), false);
    NestedText(first, joins, alias, k);
    NestedFound(first, joins, alias, cx, false);
  }

  lemma NestedText(first: Factor, joins: Joins, alias: Alias, k: seq<Token>)
    ensures FactorThen(Nested(first, joins, alias), k) == [OPEN] + FactorThen(first, JoinsThen(joins, [CLOSE] + AliasThen(alias, k)))
  {
    hide JoinsThen, AliasThen;
  }

  lemma NestedFound(first: Factor, joins: Joins, alias: Alias, cx: Context, lost: bool)
    ensures FactorFound(Nested(first, joins, alias), cx, lost) == FactorFound(first, cx, true) + JoinsFound(joins, cx)
  {
    hide JoinsFound;
  }

  /** The inside of a parenthesised join, outside a FROM list. */
  lemma {:induction false} NestedInside(x: Factor, k: seq<Token>, f: Flags, cx: Context, rels: Relations, w: bool)
    requires x.Nested? && FactorFits(x.first, cx) && JoinsFit(x.joins, cx) && Stops(k) && !f.inFrom && !f.expectName
    ensures Scan(FactorThen(x.first, JoinsThen(x.joins, k)), f, cx, rels, w)
            == Scan(k, f, cx, AddAll(rels, FactorFound(x.first, cx, true) + JoinsFound(x.joins, cx)), w)
    decreases x, 0, 0
  {
    hide Scan, FactorThen, JoinsThen, FactorFound, JoinsFound, StopToken, FactorFits, JoinsFit;
    var rels1 := AddAll(rels, FactorFound(x.first, cx, true));
    JoinsStop(x.joins, k, cx);
    FactorSkipped(x.first, JoinsThen(x.joins, k), f, cx, rels, w);
    var g := f.(inFrom := true, fromDepth := f.depth);
    FromDepthIdle(JoinsThen(x.joins, k), f, f.depth, cx, rels1, w);
    assert ListFlags(g, true) == f.(fromDepth := f.depth);
    JoinsScanned(x.joins, k, g, true, cx, rels1, w);
    FromDepthIdle(k, f, f.depth, cx, AddAll(rels1, JoinsFound(x.joins, cx)), w);
    AddAllConcat(rels, FactorFound(x.first, cx, true), JoinsFound(x.joins, cx));
  }

  lemma ScanEnd(f: Flags, cx: Context, rels: Relations, w: bool)
    ensures Scan([], f, cx, rels, w) == Result(rels, w)
  {
  }

  // ---- joins and FROM lists ----

  lemma StopsConcat(a: seq<Token>, k: seq<Token>)
    requires Stops(a) && Stops(k)
    ensures Stops(a + k)
  {
    hide StopToken;
    if a != [] { assert (a + k)[0] == a[0]; } else { assert a + k == k; }
  }

  lemma JoinWordStops(t: Token)
    requires IsKeyword(t, "join")
    ensures StopToken(t)
  {
  }

  lemma OnStops(on: Pieces, k: seq<Token>)
    requires OnStarts(on) && Stops(k)
    ensures Stops(PiecesThen(on, k))
  {
    hide StopToken;
  }

  lemma JoinsStop(j: Joins, k: seq<Token>, cx: Context)
    requires JoinsFit(j, cx) && Stops(k)
    ensures Stops(JoinsThen(j, k))
  {
    hide StopToken, FactorThen, FactorFits, PiecesFit, AllQuietInFrom, PiecesThen;
    if j.Join? {
      JoinWordStops(j.word);
      var tail := [j.word] + FactorThen(j.factor, PiecesThen(j.on, JoinsThen(j.rest, k)));
      assert tail[0] == j.word;
      StopsConcat(j.kind, tail);
    }
  }

  /** The flags in a FROM list, or after the scanner has forgotten that it is in one. */
  function ListFlags(f: Flags, lost: bool): Flags
  {
    if lost then f.(inFrom := false) else f
  }

  lemma QuietInState(t: Token, f: Flags, lost: bool)
    requires QuietInFrom(t) && InList(f)
    ensures Next(ListFlags(f, lost), t) == ListFlags(f, lost)
  {
  }

  lemma {:induction false} KindSkipped(ts: seq<Token>, k: seq<Token>, f: Flags, lost: bool, cx: Context, rels: Relations, w: bool)
    requires AllQuietInFrom(ts) && InList(f)
    ensures Scan(ts + k, ListFlags(f, lost), cx, rels, w) == Scan(k, ListFlags(f, lost), cx, rels, w)
  {
    hide Scan;
    if ts == [] {
      assert ts + k == k;
    } else {
      assert ts + k == [ts[0]] + (ts[1..] + k);
      StepOver(ts[0], ts[1..] + k, ListFlags(f, lost), cx, rels, w);
      QuietInState(ts[0], f, lost);
      KindSkipped(ts[1..], k, f, lost, cx, rels, w);
    }
  }

  // ---- join conditions ----

  /** Inside parentheses below a FROM list an ordinary token changes nothing. */
  lemma QuietDeep(t: Token, f: Flags)
    requires Quiet(t) && !f.expectName && f.depth >= f.fromDepth && (f.depth == f.fromDepth ==> QuietInFrom(t))
    ensures Next(f, t) == f
  {
  }

  /** A join condition: a subquery in it makes the scanner forget the list. */
  lemma {:induction false} OnScanned(p: Pieces, k: seq<Token>, f: Flags, cx: Context, rels: Relations, w: bool)
    requires PiecesFit(p, cx) && f.inFrom && !f.expectName && f.depth >= f.fromDepth
    requires f.depth == f.fromDepth ==> TopQuiet(p)
    ensures Scan(PiecesThen(p, k), f, cx, rels, w) == Scan(k, ListFlags(f, HasSub(p)), cx, AddAll(rels, PiecesFound(p, cx)), w)
    decreases p, 3
  {
    hide Scan;
    match p {
      case Done => assert AddAll(rels, []) == rels;
      case Word(t, rest) =>
        StepOver(t, PiecesThen(rest, k), f, cx, rels, w);
        QuietDeep(t, f);
        OnScanned(rest, k, f, cx, rels, w);
      case Sub(query, rest) =>
        hide QueryThen, QueryFound, QueryFits;
        SubStep(query, PiecesThen(rest, k), f, cx, rels, w);
        PiecesScanned(rest, k, f.(inFrom := false), cx, AddAll(rels, QueryFound(query, cx)), w);
        AddAllConcat(rels, QueryFound(query, cx), PiecesFound(rest, cx));
      case Group(inner, rest) => OnGroup(inner, rest, k, f, cx, rels, w);
    }
  }

  lemma {:induction false} OnGroup(inner: Pieces, rest: Pieces, k: seq<Token>, f: Flags, cx: Context, rels: Relations, w: bool)
    requires PiecesFit(inner, cx) && PiecesFit(rest, cx) && f.inFrom && !f.expectName && f.depth >= f.fromDepth
    requires f.depth == f.fromDepth ==> TopQuiet(rest)
    ensures Scan(PiecesThen(Group(inner, rest), k), f, cx, rels, w)
            == Scan(k, ListFlags(f, HasSub(Group(inner, rest))), cx, AddAll(rels, PiecesFound(Group(inner, rest), cx)), w)
    decreases Group(inner, rest), 2
  {
    hide Scan;
    var more := PiecesThen(rest, k);
    var pt := PiecesFound(inner, cx);
    var up := f.(depth := f.depth + 1);
    StepOver(OPEN, PiecesThen(inner, [CLOSE] + more), f, cx, rels, w);
    assert Next(f, OPEN) == up;
    OnScanned(inner, [CLOSE] + more, up, cx, rels, w);
    var rels1 := AddAll(rels, pt);
    StepOver(CLOSE, more, ListFlags(up, HasSub(inner)), cx, rels1, w);
    assert Next(ListFlags(up, HasSub(inner)), CLOSE) == ListFlags(f, HasSub(inner));
    if HasSub(inner) {
      PiecesScanned(rest, k, f.(inFrom := false), cx, rels1, w);
    } else {
      OnScanned(rest, k, f, cx, rels1, w);
    }
    AddAllConcat(rels, pt, PiecesFound(rest, cx));
  }

  // ---- joins and lists ----

  lemma FactorScanned(x: Factor, k: seq<Token>, f: Flags, cx: Context, rels: Relations, w: bool)
    requires FactorFits(x, cx) && Stops(k) && f.expectName
    ensures Scan(FactorThen(x, k), f, cx, rels, w)
            == Scan(k, f.(expectName := false), cx, AddAll(rels, FactorFound(x, cx, false)), w)
    decreases x, 2
  {
    hide Consume, FactorThen, FactorFound;
    FactorConsumed(x, k, cx, rels);
  }

  lemma JoinNext(t: Token, f: Flags, lost: bool)
    requires IsKeyword(t, "join") && InList(f)
    ensures Next(ListFlags(f, lost), t) == ListFlags(f, lost).(expectName := true)
  {
  }

  lemma {:induction false} JoinsScanned(j: Joins, k: seq<Token>, f: Flags, lost: bool, cx: Context, rels: Relations, w: bool)
    requires JoinsFit(j, cx) && Stops(k) && InList(f)
    ensures Scan(JoinsThen(j, k), ListFlags(f, lost), cx, rels, w)
            == Scan(k, ListFlags(f, lost || Loses(j)), cx, AddAll(rels, JoinsFound(j, cx)), w)
    decreases j, 0
  {
    hide Scan, FactorThen, FactorFound, PiecesThen, PiecesFound, StopToken, PiecesFit, TopQuiet, FactorFits,
      AllQuietInFrom, IsKeyword, HasSub;
    if j.Join? {
      var rest := JoinsThen(j.rest, k);
      JoinsStop(j.rest, k, cx);
      OnStops(j.on, rest);
      var on := PiecesThen(j.on, rest);
      var factor := FactorThen(j.factor, on);
      var g := ListFlags(f, lost);
      KindSkipped(j.kind, [j.word] + factor, f, lost, cx, rels, w);
      StepOver(j.word, factor, g, cx, rels, w);
      JoinNext(j.word, f, lost);
      FactorScanned(j.factor, on, g.(expectName := true), cx, rels, w);
      var ft, pt := FactorFound(j.factor, cx, false), PiecesFound(j.on, cx);
      var rels1 := AddAll(rels, ft);
      if lost {
        PiecesScanned(j.on, rest, g, cx, rels1, w);
      } else {
        OnScanned(j.on, rest, f, cx, rels1, w);
      }
      var rels2 := AddAll(rels1, pt);
      JoinsScanned(j.rest, k, f, lost || HasSub(j.on), cx, rels2, w);
      AddAllConcat(rels, ft, pt);
      AddAllConcat(rels, ft + pt, JoinsFound(j.rest, cx));
    } else {
      assert AddAll(rels, []) == rels;
    }
  }

  lemma CommaNext(f: Flags, lost: bool)
    requires InList(f)
    ensures Next(ListFlags(f, lost), COMMA) == ItemFlags(f, lost)
  {
  }

  /** The flags at the start of a list item: a name is expected unless the list was forgotten. */
  function ItemFlags(f: Flags, lost: bool): Flags
  {
    if lost then f.(inFrom := false) else f.(expectName := true)
  }

  lemma {:induction false} QuietSkipped(ts: seq<Token>, k: seq<Token>, f: Flags, cx: Context, rels: Relations, w: bool)
    requires (forall i | 0 <= i < |ts| :: Quiet(ts[i])) && !f.inFrom && !f.expectName
    ensures Scan(ts + k, f, cx, rels, w) == Scan(k, f, cx, rels, w)
  {
    hide Scan;
    if ts == [] {
      assert ts + k == k;
    } else {
      assert ts + k == [ts[0]] + (ts[1..] + k);
      StepOver(ts[0], ts[1..] + k, f, cx, rels, w);
      QuietOutside(ts[0], f);
      QuietSkipped(ts[1..], k, f, cx, rels, w);
    }
  }

  lemma NameSkipped(n: Name, k: seq<Token>, f: Flags, cx: Context, rels: Relations, w: bool)
    requires NameFits(n, cx) && !f.inFrom && !f.expectName
    ensures Scan(NameThen(n, k), f, cx, rels, w) == Scan(k, f, cx, rels, w)
  {
    NameSplits(n, k);
    hide Scan;
    QuietSkipped(NameThen(n, []), k, f, cx, rels, w);
  }

  lemma AliasTokensSkipped(a: Alias, k: seq<Token>, f: Flags, cx: Context, rels: Relations, w: bool)
    requires AliasFits(a) && !f.inFrom && !f.expectName
    ensures Scan(AliasThen(a, k), f, cx, rels, w) == Scan(k, f, cx, rels, w)
  {
    AliasSplits(a, k);
    hide Scan;
    QuietSkipped(AliasThen(a, []), k, f, cx, rels, w);
  }

  /** A list item read as ordinary tokens: only what is inside a derived table is found. */
  lemma {:induction false} FactorSkipped(x: Factor, k: seq<Token>, f: Flags, cx: Context, rels: Relations, w: bool)
    requires FactorFits(x, cx) && Stops(k) && !f.inFrom && !f.expectName
    ensures Scan(FactorThen(x, k), f, cx, rels, w) == Scan(k, f, cx, AddAll(rels, FactorFound(x, cx, true)), w)
    decreases x, 2
  {
    hide Scan, NameThen, AliasThen, QueryThen, QueryFound, NameFits, AliasFits;
    assert AddAll(rels, []) == rels;
    var after := AliasThen(x.alias, k);
    match x {
      case Table(prefix, name, alias) =>
        QuietSkipped(prefix, NameThen(name, after), f, cx, rels, w);
        NameSkipped(name, after, f, cx, rels, w);
        AliasTokensSkipped(alias, k, f, cx, rels, w);
      case CteName(prefix, cte, alias) =>
        QuietSkipped(prefix, [cte] + after, f, cx, rels, w);
        QuietSkipped([cte], after, f, cx, rels, w);
        AliasTokensSkipped(alias, k, f, cx, rels, w);
      case ParenTable(name, alias) =>
        var up := f.(depth := f.depth + 1);
        StepOver(OPEN, NameThen(name, [CLOSE] + after), f, cx, rels, w);
        assert Next(f, OPEN) == up;
        NameSkipped(name, [CLOSE] + after, up, cx, rels, w);
        StepOver(CLOSE, after, up, cx, rels, w);
        assert Next(up, CLOSE) == f;
        AliasTokensSkipped(alias, k, f, cx, rels, w);
      case Derived(query, alias) =>
        SubStep(query, after, f, cx, rels, w);
        assert f.(inFrom := false) == f;
        AliasTokensSkipped(alias, k, f, cx, AddAll(rels, QueryFound(query, cx)), w);
      case Nested(first, joins, alias) =>
        hide FactorThen, JoinsThen, FactorFound, JoinsFound, JoinsFit;
        NestedText(first, joins, alias, k);
        NestedFound(first, joins, alias, cx, true);
        var up := f.(depth := f.depth + 1);
        StepOver(OPEN, FactorThen(first, JoinsThen(joins, [CLOSE] + after)), f, cx, rels, w);
        assert Next(f, OPEN) == up && Stops([CLOSE] + after);
        NestedInside(x, [CLOSE] + after, up, cx, rels, w);
        var rels1 := AddAll(rels, FactorFound(first, cx, true) + JoinsFound(joins, cx));
        StepOver(CLOSE, after, up, cx, rels1, w);
        assert Next(up, CLOSE) == f;
        AliasTokensSkipped(alias, k, f, cx, rels1, w);
    }
  }

  lemma {:induction false} ItemScanned(x: Factor, k: seq<Token>, f: Flags, lost: bool, cx: Context, rels: Relations, w: bool)
    requires FactorFits(x, cx) && Stops(k) && InList(f)
    ensures Scan(FactorThen(x, k), ItemFlags(f, lost), cx, rels, w)
            == Scan(k, ListFlags(f, lost), cx, AddAll(rels, FactorFound(x, cx, lost)), w)
    decreases x, 3
  {
    hide Scan, FactorThen, FactorFound;
    if lost {
      FactorSkipped(x, k, f.(inFrom := false), cx, rels, w);
    } else {
      FactorScanned(x, k, f.(expectName := true), cx, rels, w);
    }
  }

  lemma {:induction false} ItemsScanned(i: Items, k: seq<Token>, f: Flags, lost: bool, cx: Context, rels: Relations, w: bool)
    requires ItemsFit(i, cx) && Stops(k) && InList(f)
    ensures Scan(ItemsThen(i, k), ItemFlags(f, lost), cx, rels, w)
            == Scan(k, ListFlags(f, lost || ItemsLose(i)), cx, AddAll(rels, ItemsFound(i, cx, lost)), w)
    decreases i, 0
  {
    hide Scan, FactorThen, JoinsThen, FactorFound, JoinsFound, JoinsFit, FactorFits, Loses;
    var ft, jt := FactorFound(i.factor, cx, lost), JoinsFound(i.joins, cx);
    AddAllConcat(rels, ft, jt);
    match i {
      case One(factor, joins) =>
        JoinsStop(joins, k, cx);
        ItemScanned(factor, JoinsThen(joins, k), f, lost, cx, rels, w);
        JoinsScanned(joins, k, f, lost, cx, AddAll(rels, ft), w);
      case Comma(factor, joins, rest) =>
        var more := [COMMA] + ItemsThen(rest, k);
        var l := lost || Loses(joins);
        assert Stops(more);
        JoinsStop(joins, more, cx);
        ItemScanned(factor, JoinsThen(joins, more), f, lost, cx, rels, w);
        JoinsScanned(joins, more, f, lost, cx, AddAll(rels, ft), w);
        StepOver(COMMA, ItemsThen(rest, k), ListFlags(f, l), cx, AddAll(rels, ft + jt), w);
        CommaNext(f, l);
        ItemsScanned(rest, k, f, l, cx, AddAll(rels, ft + jt), w);
        AddAllConcat(rels, ft + jt, ItemsFound(rest, cx, l));
    }
  }

  // ---- queries and expressions ----

  predicate EndsInFrom(q: Query)
  {
    match q.tail
    case End => !ItemsLose(q.items)
    case Clause(_, _) => false
    case Combined(_, other) => EndsInFrom(other)
  }

  /** The flags after a query: still in its FROM list when nothing follows the list and it was not
      forgotten. */
  function Exit(q: Query, f: Flags): Flags
  {
    if EndsInFrom(q) then f.(inFrom := true, fromDepth := f.depth) else f
  }

  lemma BoundaryNext(t: Token, f: Flags, lost: bool)
    requires FromBoundary(t) && InList(f)
    ensures Next(ListFlags(f, lost), t) == f.(inFrom := false)
  {
  }

  lemma {:induction false} TailScanned(q: Query, k: seq<Token>, f: Flags, cx: Context, rels: Relations, w: bool)
    requires TailFits(q.tail, cx) && Stops(k) && !f.inFrom && !f.expectName
    ensures Scan(TailThen(q.tail, k), ListFlags(f.(inFrom := true, fromDepth := f.depth), ItemsLose(q.items)), cx, rels, w)
            == Scan(k, Exit(q, f), cx, AddAll(rels, TailFound(q.tail, cx)), w)
    ensures Stops(TailThen(q.tail, k))
    decreases q.tail, 0
  {
    hide Scan, PiecesThen, QueryThen, QueryFound, PiecesFound, ItemsLose;
    var lost := ItemsLose(q.items);
    var g := f.(inFrom := true, fromDepth := f.depth);
    var out := f.(fromDepth := f.depth);
    match q.tail {
      case End =>
        assert AddAll(rels, []) == rels;
        FromDepthIdle(k, f, f.depth, cx, rels, w);
      case Clause(word, body) =>
        BoundaryStops(word);
        StepOver(word, PiecesThen(body, k), ListFlags(g, lost), cx, rels, w);
        BoundaryNext(word, g, lost);
        PiecesScanned(body, k, out, cx, rels, w);
        FromDepthIdle(k, f, f.depth, cx, AddAll(rels, PiecesFound(body, cx)), w);
      case Combined(word, other) =>
        BoundaryStops(word);
        StepOver(word, QueryThen(other, k), ListFlags(g, lost), cx, rels, w);
        BoundaryNext(word, g, lost);
        QueryScanned(other, k, out, cx, rels, w);
        if !EndsInFrom(other) {
          FromDepthIdle(k, f, f.depth, cx, AddAll(rels, QueryFound(other, cx)), w);
        }
    }
  }

  lemma BoundaryStops(t: Token)
    requires FromBoundary(t)
    ensures StopToken(t)
  {
  }

  lemma FromNext(t: Token, f: Flags)
    requires IsKeyword(t, "from") && !f.expectName
    ensures Next(f, t) == f.(inFrom := true, fromDepth := f.depth, expectName := true)
  {
  }

  /** Everything up to FROM, outside a list or in parentheses below one. */
  lemma {:induction false} HeadScanned(q: Query, k: seq<Token>, f: Flags, cx: Context, rels: Relations, w: bool)
    requires Quiet(q.first) && PiecesFit(q.head, cx) && IsKeyword(q.from, "from") && !f.expectName
    requires f.inFrom ==> f.depth > f.fromDepth
    ensures Scan([q.first] + PiecesThen(q.head, [q.from] + k), f, cx, rels, w)
            == Scan(k, f.(inFrom := true, fromDepth := f.depth, expectName := true), cx, AddAll(rels, PiecesFound(q.head, cx)), w)
    decreases q, 0
  {
    hide Scan, PiecesThen, PiecesFound, PiecesFit, HasSub, Quiet, IsKeyword;
    var body := [q.from] + k;
    StepOver(q.first, PiecesThen(q.head, body), f, cx, rels, w);
    var rels1 := AddAll(rels, PiecesFound(q.head, cx));
    if f.inFrom {
      QuietDeep(q.first, f);
      OnScanned(q.head, body, f, cx, rels, w);
      StepOver(q.from, k, ListFlags(f, HasSub(q.head)), cx, rels1, w);
      FromNext(q.from, ListFlags(f, HasSub(q.head)));
    } else {
      QuietOutside(q.first, f);
      PiecesScanned(q.head, body, f, cx, rels, w);
      StepOver(q.from, k, f, cx, rels1, w);
      FromNext(q.from, f);
    }
  }

  lemma {:induction false} QueryScanned(q: Query, k: seq<Token>, f: Flags, cx: Context, rels: Relations, w: bool)
    requires QueryFits(q, cx) && Stops(k) && !f.expectName && (f.inFrom ==> f.depth > f.fromDepth)
    ensures Scan(QueryThen(q, k), f, cx, rels, w) == Scan(k, Exit(q, f.(inFrom := false)), cx, AddAll(rels, QueryFound(q, cx)), w)
    decreases q, 1
  {
    hide Scan, PiecesThen, ItemsThen, TailThen, PiecesFound, ItemsFound, TailFound, PiecesFit, ItemsFit, TailFits, ItemsLose;
    var tail := TailThen(q.tail, k);
    var items := ItemsThen(q.items, tail);
    var pt, it, tt := PiecesFound(q.head, cx), ItemsFound(q.items, cx, false), TailFound(q.tail, cx);
    var g := f.(inFrom := true, fromDepth := f.depth);
    HeadScanned(q, items, f, cx, rels, w);
    var rels1 := AddAll(rels, pt);
    TailScanned(q, k, f.(inFrom := false), cx, AddAll(rels1, it), w);
    ItemsScanned(q.items, tail, g, false, cx, rels1, w);
    AddAllConcat(rels, pt, it);
    AddAllConcat(rels, pt + it, tt);
  }

  lemma CloseNext(q: Query, f: Flags)
    requires !f.inFrom && !f.expectName
    ensures !Next(Exit(q, f.(depth := f.depth + 1)), CLOSE).inFrom
    ensures Next(Exit(q, f.(depth := f.depth + 1)), CLOSE).(fromDepth := f.fromDepth) == f
  {
    hide ItemsLose;
  }

  /** A subquery in parentheses, in any expression: its tables are found and no list is open after it. */
  lemma {:induction false} SubStep(query: Query, more: seq<Token>, f: Flags, cx: Context, rels: Relations, w: bool)
    requires QueryFits(query, cx) && !f.expectName && (f.inFrom ==> f.depth >= f.fromDepth)
    ensures Scan([OPEN] + QueryThen(query, [CLOSE] + more), f, cx, rels, w)
            == Scan(more, f.(inFrom := false), cx, AddAll(rels, QueryFound(query, cx)), w)
    decreases query, 2
  {
    hide Scan, QueryThen, QueryFound, QueryFits, Exit;
    var qt := QueryFound(query, cx);
    var up := f.(depth := f.depth + 1);
    StepOver(OPEN, QueryThen(query, [CLOSE] + more), f, cx, rels, w);
    assert Next(f, OPEN) == up;
    assert Stops([CLOSE] + more);
    QueryScanned(query, [CLOSE] + more, up, cx, rels, w);
    var rels1 := AddAll(rels, qt);
    var e := Exit(query, up.(inFrom := false));
    ExitExpectsNothing(query, up.(inFrom := false));
    StepOver(CLOSE, more, e, cx, rels1, w);
    CloseNext(query, f.(inFrom := false));
    FromDepthIdle(more, Next(e, CLOSE), f.fromDepth, cx, rels1, w);
  }

  lemma ExitExpectsNothing(q: Query, f: Flags)
    requires !f.expectName
    ensures !Exit(q, f).expectName
  {
  }

  lemma {:induction false} PiecesScanned(p: Pieces, k: seq<Token>, f: Flags, cx: Context, rels: Relations, w: bool)
    requires PiecesFit(p, cx) && !f.inFrom && !f.expectName
    ensures Scan(PiecesThen(p, k), f, cx, rels, w) == Scan(k, f, cx, AddAll(rels, PiecesFound(p, cx)), w)
    decreases p, 0
  {
    hide Scan;
    match p {
      case Done => assert AddAll(rels, []) == rels;
      case Word(t, rest) =>
        StepOver(t, PiecesThen(rest, k), f, cx, rels, w);
        QuietOutside(t, f);
        PiecesScanned(rest, k, f, cx, rels, w);
      case Sub(query, rest) =>
        hide QueryThen, QueryFound, QueryFits;
        SubStep(query, PiecesThen(rest, k), f, cx, rels, w);
        assert f.(inFrom := false) == f;
        PiecesScanned(rest, k, f, cx, AddAll(rels, QueryFound(query, cx)), w);
        AddAllConcat(rels, QueryFound(query, cx), PiecesFound(rest, cx));
      case Group(inner, rest) => GroupScanned(inner, rest, k, f, cx, rels, w);
    }
  }

  lemma {:induction false} GroupScanned(inner: Pieces, rest: Pieces, k: seq<Token>, f: Flags, cx: Context, rels: Relations, w: bool)
    requires PiecesFit(inner, cx) && PiecesFit(rest, cx) && !f.inFrom && !f.expectName
    ensures Scan(PiecesThen(Group(inner, rest), k), f, cx, rels, w)
            == Scan(k, f, cx, AddAll(rels, PiecesFound(Group(inner, rest), cx)), w)
    decreases Group(inner, rest), 0, 0
  {
    hide Scan;
    var more := PiecesThen(rest, k);
    var pt := PiecesFound(inner, cx);
    var up := f.(depth := f.depth + 1);
    StepOver(OPEN, PiecesThen(inner, [CLOSE] + more), f, cx, rels, w);
    PiecesScanned(inner, [CLOSE] + more, up, cx, rels, w);
    var rels1 := AddAll(rels, pt);
    StepOver(CLOSE, more, up, cx, rels1, w);
    PiecesScanned(rest, k, f, cx, rels1, w);
    AddAllConcat(rels, pt, PiecesFound(rest, cx));
  }

  // ---- the theorems ----

  /** For every clause of the grammar, the scan returns exactly the tables found, folded into the map in
      textual order, and never the wildcard. */
  lemma ScanIsExact(p: Pieces, cx: Context, rels: Relations)
    requires PiecesFit(p, cx)
    ensures Scan(PiecesThen(p, []), START, cx, rels, false) == Result(AddAll(rels, PiecesFound(p, cx)), false)
  {
    hide Scan, PiecesThen, PiecesFound;
    PiecesScanned(p, [], START, cx, rels, false);
    ScanEnd(START, cx, AddAll(rels, PiecesFound(p, cx)), false);
  }

  /** The tables found are the tables named exactly when no named table is the first of a parenthesised join or
      follows, after a comma, a join whose condition holds a subquery; otherwise there are fewer of them. */
  lemma FoundIsNamedIff(p: Pieces, cx: Context)
    ensures PiecesFound(p, cx) == PiecesTables(p, cx) <==> PiecesKept(p)
    ensures !PiecesKept(p) ==> |PiecesFound(p, cx)| < |PiecesTables(p, cx)|
    ensures forall r | r in PiecesFound(p, cx) :: r in PiecesTables(p, cx)
  {
    hide PiecesFound, PiecesTables, PiecesKept;
    PiecesPart(p, cx);
  }

  lemma {:induction false} AddAllKeys(rels: Relations, tables: seq<Relation>)
    ensures forall t | t in tables :: RelationKey(t) in AddAll(rels, tables)
    ensures forall k | k in AddAll(rels, tables) ::
              (k in rels && AddAll(rels, tables)[k] == rels[k]) ||
              (AddAll(rels, tables)[k] in tables && RelationKey(AddAll(rels, tables)[k]) == k)
    ensures forall k | k in rels :: k in AddAll(rels, tables)
    decreases |tables|
  {
    if tables != [] {
      AddAllKeys(Add(rels, tables[0]), tables[1..]);
      assert tables == [tables[0]] + tables[1..];
    }
  }

  /** The relation is filed under its key as itself. */
  predicate Listed(rels: Relations, t: Relation)
  {
    RelationKey(t) in rels && rels[RelationKey(t)] == t
  }

  ghost predicate KeysApart(tables: seq<Relation>)
  {
    forall a, b | a in tables && b in tables && RelationKey(a) == RelationKey(b) :: a == b
  }

  /** All of `tables` are filed by `found`, a part of them, exactly when all are in it and no two of
      them share a key. */
  lemma AllListedIff(found: seq<Relation>, tables: seq<Relation>)
    requires forall r | r in found :: r in tables
    ensures (forall t | t in tables :: Listed(AddAll(map[], found), t)) <==> (forall t | t in tables :: t in found) && KeysApart(tables)
  {
    hide RelationKey;
    AddAllKeys(map[], found);
    hide AddAll;
  }

  /** Completeness. The scan finds every table that a clause names exactly when it loses none and no two
      of them share a key; dots in quoted schema names are how they can. */
  lemma EveryTableFoundIff(p: Pieces, cx: Context)
    requires PiecesFit(p, cx)
    ensures (forall t | t in PiecesTables(p, cx) :: Listed(Scan(PiecesThen(p, []), START, cx, map[], false).relations, t))
            <==> (forall t | t in PiecesTables(p, cx) :: t in PiecesFound(p, cx)) && KeysApart(PiecesTables(p, cx))
  {
    hide Scan, PiecesThen, PiecesTables, PiecesFound, PiecesKept, PiecesFit, AddAll, Listed, KeysApart;
    ScanIsExact(p, cx, map[]);
    FoundIsNamedIff(p, cx);
    AllListedIff(PiecesFound(p, cx), PiecesTables(p, cx));
  }

  /** Without dots in schema names no two tables share a key. */
  lemma UndottedKeysApart(tables: seq<Relation>)
    requires forall r | r in tables :: '.' !in r.schema
    ensures KeysApart(tables)
  {
    forall a, b | a in tables && b in tables && RelationKey(a) == RelationKey(b) ensures a == b { KeyDecodes(a, b); }
  }

  lemma KeyDecodes(a: Relation, b: Relation)
    requires '.' !in a.schema && '.' !in b.schema && RelationKey(a) == RelationKey(b)
    ensures a == b
  {
    assert RelationKey(a) == a.schema + ['.'] + a.table && RelationKey(b) == b.schema + ['.'] + b.table;
    SplitFirst(a.schema, '.', a.table);
    SplitFirst(b.schema, '.', b.table);
  }

  // ---- clauses that are scanned wrongly ----

  function W(word: string): Token { Token(word, false, false) }

  function Q(name: string): Token { Token(name, true, false) }

  function Named(n: Name): Factor { Table([], n, NoAlias) }

  /** `select y from <items>`. */
  function Select(items: Items): Query
  {
    Query(Word(W("y"), Done), W("select"), W("from"), items, End)
  }

  /** `x in (select y from <items>)`. */
  function InSelect(items: Items): Pieces
  {
    Word(W("x"), Word(W("in"), Sub(Select(items), Done)))
  }

  /** A word too short to be a keyword. */
  lemma ShortWord(v: string)
    requires 0 < |v| <= 2
    ensures Quiet(W(v)) && QuietInFrom(W(v)) && !IsKeyword(W(v), "only") && !IsKeyword(W(v), "lateral")
  {
  }

  lemma Spelled()
    ensures IsKeyword(W("from"), "from") && Quiet(W("select")) && IsKeyword(W("join"), "join") && StopToken(W("on"))
    ensures NameOf(W("a")) == "a" && NameOf(W("b")) == "b" && NameOf(W("c")) == "c" && NameOf(W("d")) == "d"
  {
    assert Sanitizer.LowerText("from") == "from" && Sanitizer.LowerText("join") == "join" && Sanitizer.LowerText("on") == "on";
    assert Sanitizer.LowerText("a") == "a" && Sanitizer.LowerText("b") == "b" && Sanitizer.LowerText("c") == "c";
    assert Sanitizer.LowerText("d") == "d";
  }

  lemma SelectIs(items: Items, cx: Context)
    requires ItemsFit(items, cx)
    ensures QueryFits(Select(items), cx) && QueryTables(Select(items), cx) == ItemsTables(items, cx)
    ensures QueryFound(Select(items), cx) == ItemsFound(items, cx, false)
  {
    hide ItemsFit, ItemsTables, ItemsFound, IsKeyword, Quiet;
    Spelled();
    ShortWord("y");
    assert PiecesFit(Word(W("y"), Done), cx);
    assert PiecesTables(Word(W("y"), Done), cx) == [] && PiecesFound(Word(W("y"), Done), cx) == [];
  }

  lemma InSelectIs(items: Items, cx: Context)
    requires ItemsFit(items, cx)
    ensures PiecesFit(InSelect(items), cx) && PiecesTables(InSelect(items), cx) == ItemsTables(items, cx)
    ensures PiecesFound(InSelect(items), cx) == ItemsFound(items, cx, false)
  {
    hide ItemsFit, QueryFits, Quiet;
    SelectIs(items, cx);
    ShortWord("x");
    ShortWord("in");
    var sub := Sub(Select(items), Done);
    assert PiecesTables(Done, cx) == [] && ItemsTables(items, cx) + [] == ItemsTables(items, cx);
    assert PiecesFound(Done, cx) == [] && ItemsFound(items, cx, false) + [] == ItemsFound(items, cx, false);
    assert PiecesTables(sub, cx) == QueryTables(Select(items), cx) + [];
    assert PiecesFound(sub, cx) == QueryFound(Select(items), cx) + [];
    assert PiecesFit(sub, cx) && PiecesTables(sub, cx) == ItemsTables(items, cx) && PiecesFound(sub, cx) == ItemsFound(items, cx, false);
    var rest := Word(W("in"), sub);
    assert PiecesFit(rest, cx) && PiecesTables(rest, cx) == ItemsTables(items, cx);
    assert PiecesFound(rest, cx) == ItemsFound(items, cx, false);
  }

  lemma NoJoinIs(cx: Context)
    ensures JoinsFit(NoJoin, cx) && JoinsTables(NoJoin, cx) == [] == JoinsFound(NoJoin, cx) && !Loses(NoJoin)
  {
  }

  lemma OneIs(factor: Factor, cx: Context, skip: bool)
    requires FactorFits(factor, cx)
    ensures var items := One(factor, NoJoin);
      ItemsFit(items, cx) && ItemsTables(items, cx) == FactorTables(factor, cx) &&
      ItemsFound(items, cx, skip) == FactorFound(factor, cx, skip)
  {
    hide FactorFits, FactorTables, FactorFound;
    NoJoinIs(cx);
    assert FactorTables(factor, cx) + [] == FactorTables(factor, cx);
    assert FactorFound(factor, cx, skip) + [] == FactorFound(factor, cx, skip);
  }

  /** `"a.b".c, a."b.c"` */
  const DOTTED := Comma(Named(Qualified(Q("a.b"), W("c"))), NoJoin, One(Named(Qualified(W("a"), Q("b.c"))), NoJoin))

  lemma DottedIs(cx: Context)
    ensures ItemsFit(DOTTED, cx)
    ensures ItemsTables(DOTTED, cx) == [Relation("a.b", "c"), Relation("a", "b.c")] == ItemsFound(DOTTED, cx, false)
  {
    Spelled();
    ShortWord("a");
    ShortWord("c");
    var first, second := Named(Qualified(Q("a.b"), W("c"))), Named(Qualified(W("a"), Q("b.c")));
    assert FactorFits(second, cx) && FactorTables(second, cx) == [Relation("a", "b.c")] == FactorFound(second, cx, false);
    OneIs(second, cx, false);
    assert FactorFits(first, cx) && FactorTables(first, cx) == [Relation("a.b", "c")] == FactorFound(first, cx, false);
    NoJoinIs(cx);
    assert [Relation("a.b", "c")] + [] == [Relation("a.b", "c")];
  }

  /** Scanning `x in (select y from "a.b".c, a."b.c")` finds only the second table. */
  lemma DottedNamesCollide(cx: Context)
    ensures PiecesTables(InSelect(DOTTED), cx) == [Relation("a.b", "c"), Relation("a", "b.c")]
    ensures Scan(PiecesThen(InSelect(DOTTED), []), START, cx, map[], false) == Result(map["a.b.c" := Relation("a", "b.c")], false)
  {
    hide Scan, PiecesThen, PiecesFit, PiecesFound, PiecesTables;
    var x, y := Relation("a.b", "c"), Relation("a", "b.c");
    DottedIs(cx);
    InSelectIs(DOTTED, cx);
    ScanIsExact(InSelect(DOTTED), cx, map[]);
    assert RelationKey(x) == RelationKey(y) == "a.b.c";
    assert [x, y][1..] == [y];
    AddOne(Add(map[], x), y);
    assert Add(Add(map[], x), y) == map["a.b.c" := y];
  }

  /** `on i in (select y from c)` */
  const ON_SELECT := Word(W("on"), Word(W("i"), Word(W("in"), Sub(Select(One(Named(Bare(W("c"))), NoJoin)), Done))))

  /** `a join b on i in (select y from c), d` */
  const AFTER_ON := Comma(Named(Bare(W("a"))), Join([], W("join"), Named(Bare(W("b"))), ON_SELECT, NoJoin),
                          One(Named(Bare(W("d"))), NoJoin))

  function InDefault(name: string, cx: Context): Relation { Relation(cx.defaultSchema, name) }

  lemma OnSelectIs(cx: Context)
    requires cx.ctes == {}
    ensures PiecesFit(ON_SELECT, cx) && TopQuiet(ON_SELECT) && OnStarts(ON_SELECT) && HasSub(ON_SELECT)
    ensures PiecesTables(ON_SELECT, cx) == [InDefault("c", cx)] == PiecesFound(ON_SELECT, cx)
  {
    Spelled();
    ShortWord("on");
    ShortWord("i");
    ShortWord("in");
    ShortWord("c");
    var c := Named(Bare(W("c")));
    var items := One(c, NoJoin);
    assert FactorFits(c, cx) && FactorTables(c, cx) == [InDefault("c", cx)] == FactorFound(c, cx, false);
    OneIs(c, cx, false);
    SelectIs(items, cx);
    hide QueryFits, QueryTables, QueryFound, Quiet, QuietInFrom, StopToken;
    var sub := Sub(Select(items), Done);
    assert PiecesFit(sub, cx) && TopQuiet(sub) && PiecesTables(sub, cx) == [InDefault("c", cx)] == PiecesFound(sub, cx);
    var rest := Word(W("in"), sub);
    assert PiecesFit(rest, cx) && TopQuiet(rest) && HasSub(rest);
    assert PiecesTables(rest, cx) == [InDefault("c", cx)] == PiecesFound(rest, cx);
    var more := Word(W("i"), rest);
    assert PiecesFit(more, cx) && TopQuiet(more) && HasSub(more);
    assert PiecesTables(more, cx) == [InDefault("c", cx)] == PiecesFound(more, cx);
  }

  lemma AfterOnIs(cx: Context)
    requires cx.ctes == {}
    ensures ItemsFit(AFTER_ON, cx)
    ensures ItemsTables(AFTER_ON, cx) == [InDefault("a", cx), InDefault("b", cx), InDefault("c", cx), InDefault("d", cx)]
    ensures ItemsFound(AFTER_ON, cx, false) == [InDefault("a", cx), InDefault("b", cx), InDefault("c", cx)]
  {
    OnSelectIs(cx);
    Spelled();
    ShortWord("a");
    ShortWord("b");
    ShortWord("d");
    hide PiecesFit, TopQuiet, OnStarts, HasSub;
    var j := Join([], W("join"), Named(Bare(W("b"))), ON_SELECT, NoJoin);
    assert JoinsFit(j, cx) && Loses(j) by { assert j.on == ON_SELECT && HasSub(j.on); }
    NoJoinIs(cx);
    var b, c := [InDefault("b", cx)], [InDefault("c", cx)];
    assert FactorTables(j.factor, cx) == b == FactorFound(j.factor, cx, false);
    assert JoinsTables(j, cx) == b + PiecesTables(j.on, cx) + [] == b + c;
    assert JoinsFound(j, cx) == b + PiecesFound(j.on, cx) + [] == b + c;
    var last := One(Named(Bare(W("d"))), NoJoin);
    assert FactorFits(last.factor, cx);
    assert FactorTables(last.factor, cx) == [InDefault("d", cx)] && FactorFound(last.factor, cx, true) == [];
    OneIs(last.factor, cx, true);
  }

  /** Scanning `x in (select y from a join b on i in (select y from c), d)` finds `a`, `b` and `c`, not
      `d`, and no wildcard stands in for it. */
  lemma ListAfterOnIsLost(cx: Context)
    requires cx.ctes == {}
    ensures InDefault("d", cx) in PiecesTables(InSelect(AFTER_ON), cx)
    ensures var r := Scan(PiecesThen(InSelect(AFTER_ON), []), START, cx, map[], false);
      !r.wildcard && !Listed(r.relations, InDefault("d", cx))
  {
    hide Scan, PiecesThen, PiecesFit, PiecesFound, PiecesTables;
    AfterOnIs(cx);
    InSelectIs(AFTER_ON, cx);
    ScanIsExact(InSelect(AFTER_ON), cx, map[]);
    AddAllKeys(map[], [InDefault("a", cx), InDefault("b", cx), InDefault("c", cx)]);
  }

  /** `a join b on i` */
  const PLAIN_JOIN := Join([], W("join"), Named(Bare(W("b"))), Word(W("on"), Word(W("i"), Done)), NoJoin)

  /** `(a join b on i)` */
  const NESTED := Nested(Named(Bare(W("a"))), PLAIN_JOIN, NoAlias)

  lemma PlainOnIs(cx: Context)
    ensures var on := Word(W("on"), Word(W("i"), Done));
      PiecesFit(on, cx) && TopQuiet(on) && OnStarts(on) && !HasSub(on) && PiecesTables(on, cx) == [] == PiecesFound(on, cx)
  {
    Spelled();
    ShortWord("on");
    ShortWord("i");
    hide Quiet, QuietInFrom, StopToken;
    var rest := Word(W("i"), Done);
    assert PiecesFit(rest, cx) && TopQuiet(rest) && !HasSub(rest) && PiecesTables(rest, cx) == [] == PiecesFound(rest, cx);
  }

  lemma NestedIs(cx: Context)
    requires cx.ctes == {}
    ensures FactorFits(NESTED, cx) && FactorTables(NESTED, cx) == [InDefault("a", cx), InDefault("b", cx)]
    ensures FactorFound(NESTED, cx, false) == [InDefault("b", cx)]
  {
    PlainOnIs(cx);
    Spelled();
    ShortWord("a");
    ShortWord("b");
    NoJoinIs(cx);
    hide PiecesFit, TopQuiet, OnStarts, PiecesTables, PiecesFound;
    var a, b := Named(Bare(W("a"))), Named(Bare(W("b")));
    assert FactorFits(a, cx) && FactorTables(a, cx) == [InDefault("a", cx)] && FactorFound(a, cx, true) == [];
    assert FactorFits(b, cx) && FactorTables(b, cx) == [InDefault("b", cx)] == FactorFound(b, cx, false);
    assert JoinsFit(PLAIN_JOIN, cx);
    assert JoinsTables(PLAIN_JOIN, cx) == [InDefault("b", cx)] + [] + [] == [InDefault("b", cx)];
    assert JoinsFound(PLAIN_JOIN, cx) == [InDefault("b", cx)] + [] + [] == [InDefault("b", cx)];
  }

  /** Scanning `x in (select y from (a join b on i))` finds `b` and not `a`, and no wildcard stands in for it. */
  lemma NestedJoinLosesItsFirst(cx: Context)
    requires cx.ctes == {}
    ensures PiecesTables(InSelect(One(NESTED, NoJoin)), cx) == [InDefault("a", cx), InDefault("b", cx)]
    ensures Scan(PiecesThen(InSelect(One(NESTED, NoJoin)), []), START, cx, map[], false) ==
            Result(map[RelationKey(InDefault("b", cx)) := InDefault("b", cx)], false)
  {
    hide Scan, PiecesThen, PiecesFit, PiecesFound, PiecesTables, FactorFits, FactorTables, FactorFound, RelationKey;
    NestedIs(cx);
    OneIs(NESTED, cx, false);
    InSelectIs(One(NESTED, NoJoin), cx);
    ScanIsExact(InSelect(One(NESTED, NoJoin)), cx, map[]);
    AddOne(map[], InDefault("b", cx));
  }

  // ---- two clauses outside the grammar ----

  /** `from db.public.a` */
  const THREE_PARTS := [W("from"), W("db"), DOT, W("public"), DOT, W("a")]

  /** The scan of `from db.public.a` files table `public` of schema `db`. */
  lemma ThreePartNameMisfiled(cx: Context)
    ensures Scan(THREE_PARTS, START, cx, map[], false) == Result(map["db.public" := Relation("db", "public")], false)
  {
    Spelled();
    assert Sanitizer.LowerText("db") == "db" && Sanitizer.LowerText("public") == "public";
    var name := [W("db"), DOT, W("public"), DOT, W("a")];
    assert THREE_PARTS == [W("from")] + name;
    StepOver(W("from"), name, START, cx, map[], false);
    FromNext(W("from"), START);
    var f := Flags(0, true, 0, true);
    var r := Relation("db", "public");
    ConsumesTwo(cx);
    hide Consume, IsKeyword;
    assert Scan(name, f, cx, map[], false) == Scan([DOT, W("a")], f.(expectName := false), cx, Add(map[], r), false);
    assert [DOT, W("a")] == [DOT] + [W("a")] && [W("a")] == [W("a")] + [];
    ShortWord("a");
    StepOver(DOT, [W("a")], f.(expectName := false), cx, Add(map[], r), false);
    assert Next(f.(expectName := false), DOT) == f.(expectName := false) by { DotIsQuiet(f.(expectName := false)); }
    StepOver(W("a"), [], f.(expectName := false), cx, Add(map[], r), false);
    QuietDeep(W("a"), f.(expectName := false));
    ScanEnd(f.(expectName := false), cx, Add(map[], r), false);
    assert RelationKey(r) == "db.public";
  }

  lemma DotIsQuiet(f: Flags)
    requires !f.expectName
    ensures Next(f, DOT) == f
  {
  }

  lemma ConsumesTwo(cx: Context)
    ensures Consume([W("db"), DOT, W("public"), DOT, W("a")], cx, map[])
            == Consumed([DOT, W("a")], false, Add(map[], Relation("db", "public")))
  {
    assert Sanitizer.LowerText("db") == "db" && Sanitizer.LowerText("public") == "public";
    var name := [W("db"), DOT, W("public"), DOT, W("a")];
    ShortWord("db");
    assert SkipOnly(name) == name;
    assert name[3..] == [DOT, W("a")];
    assert SkipAlias([DOT, W("a")]) == [DOT, W("a")];
  }

  /** `extract(year from ts), d` */
  const EXTRACT := [W("extract"), OPEN, W("year"), W("from"), W("ts"), CLOSE, COMMA, W("d")]

  lemma LongWords()
    ensures Quiet(W("extract")) && Quiet(W("year")) && QuietInFrom(W("extract")) && NameOf(W("ts")) == "ts"
  {
    assert Sanitizer.LowerText("extract") == "extract" && Sanitizer.LowerText("year") == "year" && Sanitizer.LowerText("ts") == "ts";
    assert |"extract"| == 7 && |"year"| == 4 && "year"[0] == 'y' && "extract"[0] == 'e' && "extract"[1] == 'x';
    assert forall w | w in FROM_BOUNDARY :: w != "extract";
  }

  /** In a FROM list, the scan of `extract(year from ts), d` files a table `ts`, does not find `d`, and does not fall
      back to the wildcard. */
  lemma FromInExpressionLosesTheList(cx: Context, rels: Relations)
    requires cx.ctes == {}
    ensures Scan(EXTRACT, Flags(0, true, 0, false), cx, rels, false) == Result(Add(rels, InDefault("ts", cx)), false)
  {
    LongWords();
    Spelled();
    ShortWord("ts");
    ShortWord("d");
    hide Scan, Quiet, QuietInFrom, IsKeyword;
    var f0, f1 := Flags(0, true, 0, false), Flags(1, true, 0, false);
    var from1, out := Flags(1, true, 1, false), Flags(0, false, 1, false);
    var end := [COMMA, W("d")];
    assert EXTRACT == [W("extract")] + ([OPEN] + ([W("year")] + ([W("from")] + ([W("ts")] + ([CLOSE] + end)))));
    StepOver(W("extract"), [OPEN] + ([W("year")] + ([W("from")] + ([W("ts")] + ([CLOSE] + end)))), f0, cx, rels, false);
    QuietDeep(W("extract"), f0);
    StepOver(OPEN, [W("year")] + ([W("from")] + ([W("ts")] + ([CLOSE] + end))), f0, cx, rels, false);
    assert Next(f0, OPEN) == f1;
    StepOver(W("year"), [W("from")] + ([W("ts")] + ([CLOSE] + end)), f1, cx, rels, false);
    QuietDeep(W("year"), f1);
    StepOver(W("from"), [W("ts")] + ([CLOSE] + end), f1, cx, rels, false);
    FromNext(W("from"), f1);
    assert Stops([CLOSE] + end);
    BareScanned("ts", [CLOSE] + end, from1.(expectName := true), cx, rels);
    var rels1 := Add(rels, InDefault("ts", cx));
    StepOver(CLOSE, end, from1, cx, rels1, false);
    assert Next(from1, CLOSE) == out;
    assert end == [COMMA] + [W("d")] && [W("d")] == [W("d")] + [];
    StepOver(COMMA, [W("d")], out, cx, rels1, false);
    CommaUnseen(out);
    StepOver(W("d"), [], out, cx, rels1, false);
    QuietOutside(W("d"), out);
    ScanEnd(out, cx, rels1, false);
  }

  lemma CommaUnseen(f: Flags)
    requires !f.inFrom && !f.expectName
    ensures Next(f, COMMA) == f
  {
  }

  lemma BareScanned(v: string, k: seq<Token>, f: Flags, cx: Context, rels: Relations)
    requires 0 < |v| <= 2 && NameOf(W(v)) == v && cx.ctes == {} && Stops(k) && f.expectName
    ensures Scan([W(v)] + k, f, cx, rels, false) == Scan(k, f.(expectName := false), cx, Add(rels, InDefault(v, cx)), false)
  {
    ShortWord(v);
    var x := Named(Bare(W(v)));
    assert FactorFits(x, cx) && FactorFound(x, cx, false) == [InDefault(v, cx)];
    assert FactorThen(x, k) == [W(v)] + k;
    hide Scan, FactorFits, FactorThen, FactorFound, StopToken;
    FactorScanned(x, k, f, cx, rels, false);
    AddOne(rels, InDefault(v, cx));
  }
}
