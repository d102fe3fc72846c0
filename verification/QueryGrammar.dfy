/** A grammar of queries: its tokens, the tables it names, and those among them that the dependency
    scan finds. Every `...Then(x, k)` is the tokens of `x` followed by `k`. */
module QueryGrammar {
  import opened Strings
  import opened Keys
  import opened DependencyScan
  import Sanitizer

  datatype Name = Bare(table: Token) | Qualified(schema: Token, table: Token)

  datatype Alias = NoAlias | Plain(name: Token) | As(as_: Token, name: Token)

  /** A table (after any ONLY or LATERAL), a parenthesised table name, the name of a common table expression, a derived
      table, or a parenthesised join. */
  datatype Factor =
    | Table(prefix: seq<Token>, name: Name, alias: Alias)
    | ParenTable(name: Name, alias: Alias)
    | CteName(prefix: seq<Token>, cte: Token, alias: Alias)
    | Derived(query: Query, alias: Alias)
    | Nested(first: Factor, joins: Joins, alias: Alias)

  /** Joins that follow a factor; `kind` holds words such as LEFT OUTER, `on` the join condition. */
  datatype Joins = NoJoin | Join(kind: seq<Token>, word: Token, factor: Factor, on: Pieces, rest: Joins)

  datatype Items = One(factor: Factor, joins: Joins) | Comma(factor: Factor, joins: Joins, rest: Items)

  /** After the FROM list: nothing, a clause such as WHERE or GROUP BY, or another query. */
  datatype Tail = End | Clause(word: Token, body: Pieces) | Combined(word: Token, query: Query)

  /** `head` is everything up to FROM, including SELECT. */
  datatype Query = Query(head: Pieces, first: Token, from: Token, items: Items, tail: Tail)

  /** Expressions: ordinary tokens, parenthesised subqueries and parenthesised groups. */
  datatype Pieces =
    | Done
    | Word(token: Token, rest: Pieces)
    | Sub(query: Query, rest: Pieces)
    | Group(inner: Pieces, rest: Pieces)

  const OPEN := Token("(", false, true)
  const CLOSE := Token(")", false, true)
  const DOT := Token(".", false, true)
  const COMMA := Token(",", false, true)

  // ---- rendering ----

  function NameThen(n: Name, k: seq<Token>): seq<Token>
  {
    match n
    case Bare(t) => [t] + k
    case Qualified(s, t) => [s] + ([DOT] + ([t] + k))
  }

  function AliasThen(a: Alias, k: seq<Token>): seq<Token>
  {
    match a
    case NoAlias => k
    case Plain(n) => [n] + k
    case As(w, n) => [w] + ([n] + k)
  }

  function FactorThen(f: Factor, k: seq<Token>): seq<Token>
  {
    match f
    case Table(prefix, name, alias) => prefix + NameThen(name, AliasThen(alias, k))
    case ParenTable(name, alias) => [OPEN] + NameThen(name, [CLOSE] + AliasThen(alias, k))
    case CteName(prefix, cte, alias) => prefix + ([cte] + AliasThen(alias, k))
    case Derived(query, alias) => [OPEN] + QueryThen(query, [CLOSE] + AliasThen(alias, k))
    case Nested(first, joins, alias) => [OPEN] + FactorThen(first, JoinsThen(joins, [CLOSE] + AliasThen(alias, k)))
  }

  function JoinsThen(j: Joins, k: seq<Token>): seq<Token>
  {
    match j
    case NoJoin => k
    case Join(kind, word, factor, on, rest) => kind + ([word] + FactorThen(factor, PiecesThen(on, JoinsThen(rest, k))))
  }

  function ItemsThen(i: Items, k: seq<Token>): seq<Token>
  {
    match i
    case One(factor, joins) => FactorThen(factor, JoinsThen(joins, k))
    case Comma(factor, joins, rest) => FactorThen(factor, JoinsThen(joins, [COMMA] + ItemsThen(rest, k)))
  }

  function TailThen(t: Tail, k: seq<Token>): seq<Token>
  {
    match t
    case End => k
    case Clause(word, body) => [word] + PiecesThen(body, k)
    case Combined(word, query) => [word] + QueryThen(query, k)
  }

  function QueryThen(q: Query, k: seq<Token>): seq<Token>
  {
    [q.first] + PiecesThen(q.head, [q.from] + ItemsThen(q.items, TailThen(q.tail, k)))
  }

  function PiecesThen(p: Pieces, k: seq<Token>): seq<Token>
  {
    match p
    case Done => k
    case Word(t, rest) => [t] + PiecesThen(rest, k)
    case Sub(query, rest) => [OPEN] + QueryThen(query, [CLOSE] + PiecesThen(rest, k))
    case Group(inner, rest) => [OPEN] + PiecesThen(inner, [CLOSE] + PiecesThen(rest, k))
  }

  // ---- the tables a query names, in order ----

  function NameRelation(n: Name, cx: Context): Relation
  {
    match n
    case Bare(t) => Relation(cx.defaultSchema, NameOf(t))
    case Qualified(s, t) => Relation(NameOf(s), NameOf(t))
  }

  function FactorTables(f: Factor, cx: Context): seq<Relation>
  {
    match f
    case Table(_, name, _) => [NameRelation(name, cx)]
    case ParenTable(name, _) => [NameRelation(name, cx)]
    case CteName(_, _, _) => []
    case Derived(query, _) => QueryTables(query, cx)
    case Nested(first, joins, _) => FactorTables(first, cx) + JoinsTables(joins, cx)
  }

  function JoinsTables(j: Joins, cx: Context): seq<Relation>
  {
    match j
    case NoJoin => []
    case Join(_, _, factor, on, rest) => FactorTables(factor, cx) + PiecesTables(on, cx) + JoinsTables(rest, cx)
  }

  function ItemsTables(i: Items, cx: Context): seq<Relation>
  {
    match i
    case One(factor, joins) => FactorTables(factor, cx) + JoinsTables(joins, cx)
    case Comma(factor, joins, rest) => FactorTables(factor, cx) + JoinsTables(joins, cx) + ItemsTables(rest, cx)
  }

  function TailTables(t: Tail, cx: Context): seq<Relation>
  {
    match t
    case End => []
    case Clause(_, body) => PiecesTables(body, cx)
    case Combined(_, query) => QueryTables(query, cx)
  }

  function QueryTables(q: Query, cx: Context): seq<Relation>
  {
    PiecesTables(q.head, cx) + ItemsTables(q.items, cx) + TailTables(q.tail, cx)
  }

  function PiecesTables(p: Pieces, cx: Context): seq<Relation>
  {
    match p
    case Done => []
    case Word(_, rest) => PiecesTables(rest, cx)
    case Sub(query, rest) => QueryTables(query, cx) + PiecesTables(rest, cx)
    case Group(inner, rest) => PiecesTables(inner, cx) + PiecesTables(rest, cx)
  }

  // ---- the tables that the scan finds ----

  /** The expression holds a subquery. */
  predicate HasSub(p: Pieces)
  {
    match p
    case Done => false
    case Word(_, rest) => HasSub(rest)
    case Sub(_, _) => true
    case Group(inner, rest) => HasSub(inner) || HasSub(rest)
  }

  /** The expression holds a subquery that begins with SELECT. */
  predicate HasSelect(p: Pieces)
  {
    match p
    case Done => false
    case Word(_, rest) => HasSelect(rest)
    case Sub(query, rest) => IsKeyword(query.first, "select") || HasSelect(rest)
    case Group(inner, rest) => HasSelect(inner) || HasSelect(rest)
  }

  /** A join condition holds a subquery; the scanner then forgets that it is in a FROM list. */
  predicate Loses(j: Joins)
  {
    match j
    case NoJoin => false
    case Join(_, _, _, on, rest) => HasSub(on) || Loses(rest)
  }

  predicate ItemsLose(i: Items)
  {
    match i
    case One(_, joins) => Loses(joins)
    case Comma(_, joins, rest) => Loses(joins) || ItemsLose(rest)
  }

  /** A table that is not expected is not found, but what is inside parentheses is: a list item after the list
      was forgotten, and the first table of a parenthesised join, which is scanned as an expression. */
  function FactorFound(f: Factor, cx: Context, lost: bool): seq<Relation>
  {
    match f
    case Table(_, name, _) => if lost then [] else [NameRelation(name, cx)]
    case ParenTable(name, _) => if lost then [] else [NameRelation(name, cx)]
    case CteName(_, _, _) => []
    case Derived(query, _) => QueryFound(query, cx)
    case Nested(first, joins, _) => FactorFound(first, cx, true) + JoinsFound(joins, cx)
  }

  function JoinsFound(j: Joins, cx: Context): seq<Relation>
  {
    match j
    case NoJoin => []
    case Join(_, _, factor, on, rest) => FactorFound(factor, cx, false) + PiecesFound(on, cx) + JoinsFound(rest, cx)
  }

  function ItemsFound(i: Items, cx: Context, lost: bool): seq<Relation>
  {
    match i
    case One(factor, joins) => FactorFound(factor, cx, lost) + JoinsFound(joins, cx)
    case Comma(factor, joins, rest) =>
      FactorFound(factor, cx, lost) + JoinsFound(joins, cx) + ItemsFound(rest, cx, lost || Loses(joins))
  }

  function TailFound(t: Tail, cx: Context): seq<Relation>
  {
    match t
    case End => []
    case Clause(_, body) => PiecesFound(body, cx)
    case Combined(_, query) => QueryFound(query, cx)
  }

  function QueryFound(q: Query, cx: Context): seq<Relation>
  {
    PiecesFound(q.head, cx) + ItemsFound(q.items, cx, false) + TailFound(q.tail, cx)
  }

  function PiecesFound(p: Pieces, cx: Context): seq<Relation>
  {
    match p
    case Done => []
    case Word(_, rest) => PiecesFound(rest, cx)
    case Sub(query, rest) => QueryFound(query, cx) + PiecesFound(rest, cx)
    case Group(inner, rest) => PiecesFound(inner, cx) + PiecesFound(rest, cx)
  }

  // ---- when nothing is lost ----

  predicate FactorKept(f: Factor, lost: bool)
  {
    match f
    case Derived(query, _) => QueryKept(query)
    case Nested(first, joins, _) => FactorKept(first, true) && JoinsKept(joins)
    case CteName(_, _, _) => true
    case _ => !lost
  }

  predicate JoinsKept(j: Joins)
  {
    match j
    case NoJoin => true
    case Join(_, _, factor, on, rest) => FactorKept(factor, false) && PiecesKept(on) && JoinsKept(rest)
  }

  predicate ItemsKept(i: Items, lost: bool)
  {
    match i
    case One(factor, joins) => FactorKept(factor, lost) && JoinsKept(joins)
    case Comma(factor, joins, rest) => FactorKept(factor, lost) && JoinsKept(joins) && ItemsKept(rest, lost || Loses(joins))
  }

  predicate TailKept(t: Tail)
  {
    match t
    case End => true
    case Clause(_, body) => PiecesKept(body)
    case Combined(_, query) => QueryKept(query)
  }

  predicate QueryKept(q: Query)
  {
    PiecesKept(q.head) && ItemsKept(q.items, false) && TailKept(q.tail)
  }

  /** No named table is the first of a parenthesised join, or follows in a FROM list, after a comma, a join
      whose condition holds a subquery. */
  predicate PiecesKept(p: Pieces)
  {
    match p
    case Done => true
    case Word(_, rest) => PiecesKept(rest)
    case Sub(query, rest) => QueryKept(query) && PiecesKept(rest)
    case Group(inner, rest) => PiecesKept(inner) && PiecesKept(rest)
  }

  /** `found` is part of `all`, and all of it exactly when `kept`. */
  ghost predicate Part(found: seq<Relation>, all: seq<Relation>, kept: bool)
  {
    |found| <= |all| && (forall r | r in found :: r in all) && (kept <==> |found| == |all|) && (kept ==> found == all)
  }

  lemma PartConcat(a: seq<Relation>, x: seq<Relation>, p: bool, b: seq<Relation>, y: seq<Relation>, q: bool)
    requires Part(a, x, p) && Part(b, y, q)
    ensures Part(a + b, x + y, p && q)
  {
  }

  lemma {:induction false} FactorPart(f: Factor, cx: Context, lost: bool)
    ensures Part(FactorFound(f, cx, lost), FactorTables(f, cx), FactorKept(f, lost))
    decreases f, 1
  {
    match f {
      case Derived(query, _) =>
        hide QueryFound, QueryTables, QueryKept;
        QueryPart(query, cx);
      case Nested(first, joins, _) =>
        FactorPart(first, cx, true);
        JoinsPart(joins, cx);
        hide Part, JoinsFound, JoinsTables, JoinsKept;
        PartConcat(FactorFound(first, cx, true), FactorTables(first, cx), FactorKept(first, true), JoinsFound(joins, cx),
                   JoinsTables(joins, cx), JoinsKept(joins));
      case _ =>
    }
  }

  lemma {:induction false} JoinsPart(j: Joins, cx: Context)
    ensures Part(JoinsFound(j, cx), JoinsTables(j, cx), JoinsKept(j))
    decreases j, 0
  {
    if j.Join? {
      FactorPart(j.factor, cx, false);
      PiecesPart(j.on, cx);
      JoinsPart(j.rest, cx);
      hide Part, FactorFound, FactorTables, FactorKept, PiecesFound, PiecesTables, PiecesKept;
      var a, x := FactorFound(j.factor, cx, false), FactorTables(j.factor, cx);
      var b, y := PiecesFound(j.on, cx), PiecesTables(j.on, cx);
      PartConcat(a, x, FactorKept(j.factor, false), b, y, PiecesKept(j.on));
      PartConcat(a + b, x + y, FactorKept(j.factor, false) && PiecesKept(j.on), JoinsFound(j.rest, cx),
                 JoinsTables(j.rest, cx), JoinsKept(j.rest));
    }
  }

  lemma {:induction false} ItemsPart(i: Items, cx: Context, lost: bool)
    ensures Part(ItemsFound(i, cx, lost), ItemsTables(i, cx), ItemsKept(i, lost))
    decreases i, 0
  {
    FactorPart(i.factor, cx, lost);
    JoinsPart(i.joins, cx);
    if i.Comma? { ItemsPart(i.rest, cx, lost || Loses(i.joins)); }
    hide Part, FactorFound, FactorTables, FactorKept, JoinsFound, JoinsTables, JoinsKept, Loses;
    var a, x, p := FactorFound(i.factor, cx, lost), FactorTables(i.factor, cx), FactorKept(i.factor, lost);
    var b, y, q := JoinsFound(i.joins, cx), JoinsTables(i.joins, cx), JoinsKept(i.joins);
    PartConcat(a, x, p, b, y, q);
    if i.Comma? {
      var l := lost || Loses(i.joins);
      PartConcat(a + b, x + y, p && q, ItemsFound(i.rest, cx, l), ItemsTables(i.rest, cx), ItemsKept(i.rest, l));
    }
  }

  lemma {:induction false} TailPart(t: Tail, cx: Context)
    ensures Part(TailFound(t, cx), TailTables(t, cx), TailKept(t))
    decreases t, 0
  {
    hide PiecesFound, PiecesTables, PiecesKept, QueryFound, QueryTables, QueryKept;
    match t
    case End =>
    case Clause(_, body) => PiecesPart(body, cx);
    case Combined(_, query) => QueryPart(query, cx);
  }

  lemma {:induction false} QueryPart(q: Query, cx: Context)
    ensures Part(QueryFound(q, cx), QueryTables(q, cx), QueryKept(q))
    decreases q, 0
  {
    PiecesPart(q.head, cx);
    ItemsPart(q.items, cx, false);
    TailPart(q.tail, cx);
    hide Part, PiecesFound, PiecesTables, PiecesKept, ItemsFound, ItemsTables, ItemsKept, TailFound, TailTables, TailKept;
    var a, x := PiecesFound(q.head, cx), PiecesTables(q.head, cx);
    var b, y := ItemsFound(q.items, cx, false), ItemsTables(q.items, cx);
    PartConcat(a, x, PiecesKept(q.head), b, y, ItemsKept(q.items, false));
    PartConcat(a + b, x + y, PiecesKept(q.head) && ItemsKept(q.items, false), TailFound(q.tail, cx),
               TailTables(q.tail, cx), TailKept(q.tail));
  }

  lemma {:induction false} PiecesPart(p: Pieces, cx: Context)
    ensures Part(PiecesFound(p, cx), PiecesTables(p, cx), PiecesKept(p))
    decreases p, 0
  {
    if !p.Done? {
      PiecesPart(p.rest, cx);
      match p {
        case Word(_, _) =>
        case Sub(query, rest) =>
          QueryPart(query, cx);
          hide Part, QueryFound, QueryTables, QueryKept;
          PartConcat(QueryFound(query, cx), QueryTables(query, cx), QueryKept(query), PiecesFound(rest, cx),
                     PiecesTables(rest, cx), PiecesKept(rest));
        case Group(inner, rest) =>
          PiecesPart(inner, cx);
          hide Part;
          PartConcat(PiecesFound(inner, cx), PiecesTables(inner, cx), PiecesKept(inner), PiecesFound(rest, cx),
                     PiecesTables(rest, cx), PiecesKept(rest));
      }
    }
  }

  function AddAll(rels: Relations, tables: seq<Relation>): Relations
    decreases |tables|
  {
    if tables == [] then rels else AddAll(Add(rels, tables[0]), tables[1..])
  }

  lemma {:induction false} AddAllConcat(rels: Relations, a: seq<Relation>, b: seq<Relation>)
    ensures AddAll(rels, a + b) == AddAll(AddAll(rels, a), b)
    decreases |a|
  {
    if a == [] {
      assert a + b == b;
    } else {
      assert (a + b)[1..] == a[1..] + b;
      AddAllConcat(Add(rels, a[0]), a[1..], b);
    }
  }

  // ---- which tokens stand where ----

  /** An ordinary token of an expression. */
  predicate Quiet(t: Token)
  {
    !IsSym(t, "(") && !IsSym(t, ")") && !IsKeyword(t, "from") && !IsKeyword(t, "join")
  }

  /** The twelve words that may follow a FROM list. */
  predicate ClauseWord(w: string)
  {
    w == "where" || w == "group" || w == "having" || w == "order" || w == "limit" || w == "offset" || w == "union" ||
    w == "intersect" || w == "except" || w == "window" || w == "returning" || w == "qualify"
  }

  /** The nine words that may follow a table inside a FROM list. */
  predicate JoinWord(w: string)
  {
    w == "on" || w == "using" || w == "join" || w == "inner" || w == "left" || w == "right" ||
    w == "full" || w == "cross" || w == "natural"
  }

  /** An unquoted clause word, in any case. It is what the scan takes for the end of a FROM list. */
  predicate EndsList(t: Token)
    ensures EndsList(t) <==> FromBoundary(t)
  {
    IsIdent(t) && !t.quoted && ClauseWord(Sanitizer.LowerText(t.value))
  }

  /** A clause or join word, in any case and even in quotes. It is what the scan does not take for an alias. */
  predicate EndsReference(t: Token)
    requires IsIdent(t)
    ensures EndsReference(t) <==> AliasBoundary(t)
  {
    ClauseWord(Sanitizer.LowerText(t.value)) || JoinWord(Sanitizer.LowerText(t.value))
  }

  /** An ordinary token directly inside a FROM list. */
  predicate QuietInFrom(t: Token)
  {
    Quiet(t) && !IsSym(t, ",") && !EndsList(t)
  }

  predicate AllQuietInFrom(ts: seq<Token>)
  {
    forall i | 0 <= i < |ts| :: QuietInFrom(ts[i])
  }

  /** The tokens of a join condition outside its parentheses: no commas and no clause words. */
  predicate TopQuiet(p: Pieces)
  {
    match p
    case Done => true
    case Word(t, rest) => QuietInFrom(t) && TopQuiet(rest)
    case Sub(_, rest) => TopQuiet(rest)
    case Group(_, rest) => TopQuiet(rest)
  }

  /** A join condition is empty or begins with a word such as ON. */
  predicate OnStarts(p: Pieces)
  {
    p.Done? || (p.Word? && StopToken(p.token))
  }

  /** A token that ends a table reference: comma, closing parenthesis or a boundary word. */
  predicate StopToken(t: Token)
  {
    IsSym(t, ",") || IsSym(t, ")") || (IsIdent(t) && EndsReference(t) && !IsKeyword(t, "as"))
  }

  predicate Stops(k: seq<Token>) { k == [] || StopToken(k[0]) }

  /** FROM and JOIN are reserved: a name or alias is neither, unless quoted. */
  predicate NameFits(n: Name, cx: Context)
  {
    match n
    case Bare(t) => IsIdent(t) && Quiet(t) && NameOf(t) !in cx.ctes && !IsKeyword(t, "only") && !IsKeyword(t, "lateral")
    case Qualified(s, t) => IsIdent(s) && Quiet(s) && IsIdent(t) && Quiet(t) && !IsKeyword(s, "only") && !IsKeyword(s, "lateral")
  }

  /** The name of a common table expression, which hides any table of that name in the default schema. */
  predicate CteFits(t: Token, cx: Context)
  {
    IsIdent(t) && Quiet(t) && NameOf(t) in cx.ctes && !IsKeyword(t, "only") && !IsKeyword(t, "lateral")
  }

  predicate AliasFits(a: Alias)
  {
    match a
    case NoAlias => true
    case Plain(n) => IsIdent(n) && Quiet(n) && !EndsReference(n) && !IsKeyword(n, "as")
    case As(w, n) => IsKeyword(w, "as") && IsIdent(n) && Quiet(n)
  }

  predicate FactorFits(f: Factor, cx: Context)
  {
    match f
    case Table(prefix, name, alias) =>
      (forall i | 0 <= i < |prefix| :: IsKeyword(prefix[i], "only") || IsKeyword(prefix[i], "lateral")) &&
      NameFits(name, cx) && AliasFits(alias)
    case ParenTable(name, alias) => NameFits(name, cx) && AliasFits(alias)
    case CteName(prefix, cte, alias) =>
      (forall i | 0 <= i < |prefix| :: IsKeyword(prefix[i], "only") || IsKeyword(prefix[i], "lateral")) &&
      CteFits(cte, cx) && AliasFits(alias)
    case Derived(query, alias) => QueryFits(query, cx) && AliasFits(alias)
    case Nested(first, joins, alias) => FactorFits(first, cx) && joins.Join? && JoinsFit(joins, cx) && AliasFits(alias)
  }

  predicate JoinsFit(j: Joins, cx: Context)
  {
    match j
    case NoJoin => true
    case Join(kind, word, factor, on, rest) =>
      AllQuietInFrom(kind) && Stops(kind) && IsKeyword(word, "join") && FactorFits(factor, cx) &&
      PiecesFit(on, cx) && TopQuiet(on) && OnStarts(on) && JoinsFit(rest, cx)
  }

  predicate ItemsFit(i: Items, cx: Context)
  {
    match i
    case One(factor, joins) => FactorFits(factor, cx) && JoinsFit(joins, cx)
    case Comma(factor, joins, rest) => FactorFits(factor, cx) && JoinsFit(joins, cx) && ItemsFit(rest, cx)
  }

  predicate TailFits(t: Tail, cx: Context)
  {
    match t
    case End => true
    case Clause(word, body) => EndsList(word) && PiecesFit(body, cx)
    case Combined(word, query) => EndsList(word) && QueryFits(query, cx)
  }

  predicate QueryFits(q: Query, cx: Context)
  {
    Quiet(q.first) && PiecesFit(q.head, cx) && IsKeyword(q.from, "from") && ItemsFit(q.items, cx) && TailFits(q.tail, cx)
  }

  predicate PiecesFit(p: Pieces, cx: Context)
  {
    match p
    case Done => true
    case Word(t, rest) => Quiet(t) && PiecesFit(rest, cx)
    case Sub(query, rest) => QueryFits(query, cx) && PiecesFit(rest, cx)
    case Group(inner, rest) => PiecesFit(inner, cx) && PiecesFit(rest, cx)
  }

  // ---- rendering is prefixing ----

  lemma Cat2<T>(a: seq<T>, b: seq<T>, k: seq<T>)
    ensures a + (b + k) == (a + b) + k
  {
  }

  lemma Cat3<T>(a: seq<T>, b: seq<T>, c: seq<T>, k: seq<T>)
    ensures a + (b + (c + k)) == (a + (b + c)) + k
  {
  }

  lemma Cat4<T>(a: seq<T>, b: seq<T>, c: seq<T>, d: seq<T>, k: seq<T>)
    ensures a + (b + (c + (d + k))) == (a + (b + (c + d))) + k
  {
    Cat3(b, c, d, k);
    Cat2(a, b + (c + d), k);
  }

  lemma NameSplits(n: Name, k: seq<Token>)
    ensures NameThen(n, k) == NameThen(n, []) + k
  {
  }

  lemma AliasSplits(a: Alias, k: seq<Token>)
    ensures AliasThen(a, k) == AliasThen(a, []) + k
  {
  }

  lemma {:induction false} FactorSplits(f: Factor, k: seq<Token>)
    ensures FactorThen(f, k) == FactorThen(f, []) + k
    decreases f, 1
  {
    hide NameThen, AliasThen, QueryThen;
    AliasSplits(f.alias, k);
    var alias := AliasThen(f.alias, []);
    match f {
      case Table(prefix, name, _) =>
        NameSplits(name, alias + k);
        NameSplits(name, alias);
        Cat3(prefix, NameThen(name, []), alias, k);
      case ParenTable(name, _) =>
        NameSplits(name, [CLOSE] + (alias + k));
        NameSplits(name, [CLOSE] + alias);
        Cat4([OPEN], NameThen(name, []), [CLOSE], alias, k);
      case CteName(prefix, cte, _) =>
        Cat3(prefix, [cte], alias, k);
      case Derived(query, _) =>
        QuerySplits(query, [CLOSE] + (alias + k));
        QuerySplits(query, [CLOSE] + alias);
        Cat4([OPEN], QueryThen(query, []), [CLOSE], alias, k);
      case Nested(_, _, _) => NestedSplits(f, alias, k);
    }
  }

  lemma {:induction false} NestedSplits(f: Factor, alias: seq<Token>, k: seq<Token>)
    requires f.Nested?
    ensures [OPEN] + FactorThen(f.first, JoinsThen(f.joins, [CLOSE] + (alias + k)))
            == ([OPEN] + FactorThen(f.first, JoinsThen(f.joins, [CLOSE] + alias))) + k
    decreases f, 0
  {
    hide FactorThen, JoinsThen;
    var js := JoinsThen(f.joins, []);
    JoinsSplits(f.joins, [CLOSE] + (alias + k));
    JoinsSplits(f.joins, [CLOSE] + alias);
    FactorSplits(f.first, js + ([CLOSE] + (alias + k)));
    FactorSplits(f.first, js + ([CLOSE] + alias));
    Cat2([CLOSE], alias, k);
    Cat4([OPEN], FactorThen(f.first, []), js, [CLOSE] + alias, k);
  }

  lemma {:induction false} JoinsSplits(j: Joins, k: seq<Token>)
    ensures JoinsThen(j, k) == JoinsThen(j, []) + k
  {
    if j.Join? {
      hide FactorThen, PiecesThen;
      JoinsSplits(j.rest, k);
      var rest, on := JoinsThen(j.rest, []), PiecesThen(j.on, []);
      PiecesSplits(j.on, rest + k);
      PiecesSplits(j.on, rest);
      FactorSplits(j.factor, on + (rest + k));
      FactorSplits(j.factor, on + rest);
      Cat2(on, rest, k);
      Cat4(j.kind, [j.word], FactorThen(j.factor, []), on + rest, k);
    }
  }

  lemma {:induction false} ItemsSplits(i: Items, k: seq<Token>)
    ensures ItemsThen(i, k) == ItemsThen(i, []) + k
  {
    hide FactorThen, JoinsThen;
    match i {
      case One(factor, joins) =>
        JoinsSplits(joins, k);
        var js := JoinsThen(joins, []);
        FactorSplits(factor, js + k);
        FactorSplits(factor, js);
        Cat2(FactorThen(factor, []), js, k);
      case Comma(factor, joins, rest) =>
        ItemsSplits(rest, k);
        var js, is_ := JoinsThen(joins, []), ItemsThen(rest, []);
        JoinsSplits(joins, [COMMA] + (is_ + k));
        JoinsSplits(joins, [COMMA] + is_);
        FactorSplits(factor, js + ([COMMA] + (is_ + k)));
        FactorSplits(factor, js + ([COMMA] + is_));
        Cat4(FactorThen(factor, []), js, [COMMA], is_, k);
    }
  }

  lemma {:induction false} TailSplits(t: Tail, k: seq<Token>)
    ensures TailThen(t, k) == TailThen(t, []) + k
  {
    hide PiecesThen, QueryThen;
    match t {
      case End =>
      case Clause(word, body) =>
        PiecesSplits(body, k);
        Cat2([word], PiecesThen(body, []), k);
      case Combined(word, query) =>
        QuerySplits(query, k);
        Cat2([word], QueryThen(query, []), k);
    }
  }

  lemma {:induction false} QuerySplits(q: Query, k: seq<Token>)
    ensures QueryThen(q, k) == QueryThen(q, []) + k
  {
    hide PiecesThen, ItemsThen, TailThen;
    TailSplits(q.tail, k);
    var tail, items := TailThen(q.tail, []), ItemsThen(q.items, []);
    ItemsSplits(q.items, tail + k);
    ItemsSplits(q.items, tail);
    PiecesSplits(q.head, [q.from] + (items + (tail + k)));
    PiecesSplits(q.head, [q.from] + (items + tail));
    Cat2(items, tail, k);
    Cat4([q.first], PiecesThen(q.head, []), [q.from], items + tail, k);
  }

  lemma {:induction false} PiecesSplits(p: Pieces, k: seq<Token>)
    ensures PiecesThen(p, k) == PiecesThen(p, []) + k
  {
    match p {
      case Done =>
      case Word(t, rest) =>
        PiecesSplits(rest, k);
        Cat2([t], PiecesThen(rest, []), k);
      case Sub(query, rest) =>
        hide QueryThen;
        PiecesSplits(rest, k);
        var ps := PiecesThen(rest, []);
        QuerySplits(query, [CLOSE] + (ps + k));
        QuerySplits(query, [CLOSE] + ps);
        Cat4([OPEN], QueryThen(query, []), [CLOSE], ps, k);
      case Group(inner, rest) =>
        PiecesSplits(rest, k);
        var ps := PiecesThen(rest, []);
        PiecesSplits(inner, [CLOSE] + (ps + k));
        PiecesSplits(inner, [CLOSE] + ps);
        Cat4([OPEN], PiecesThen(inner, []), [CLOSE], ps, k);
    }
  }

  ghost predicate SelectIn(ts: seq<Token>)
  {
    exists i | 0 <= i < |ts| :: IsKeyword(ts[i], "select")
  }

  lemma SelectLater(a: seq<Token>, b: seq<Token>)
    requires SelectIn(a) || SelectIn(b)
    ensures SelectIn(a + b)
  {
    hide IsKeyword;
    if SelectIn(a) {
      var i :| 0 <= i < |a| && IsKeyword(a[i], "select");
      assert IsKeyword((a + b)[i], "select");
    } else {
      var i :| 0 <= i < |b| && IsKeyword(b[i], "select");
      assert IsKeyword((a + b)[|a| + i], "select");
    }
  }

  /** Its SELECT is among the tokens. */
  lemma {:induction false} SelectIsToken(p: Pieces, k: seq<Token>)
    requires HasSelect(p) || SelectIn(k)
    ensures SelectIn(PiecesThen(p, k))
    decreases p, 0
  {
    hide IsKeyword, SelectIn;
    match p {
      case Done =>
      case Word(t, rest) =>
        SelectIsToken(rest, k);
        SelectLater([t], PiecesThen(rest, k));
      case Sub(query, rest) =>
        SubSelect(query, rest, k);
      case Group(inner, rest) =>
        var more := [CLOSE] + PiecesThen(rest, k);
        if HasSelect(rest) || SelectIn(k) {
          SelectIsToken(rest, k);
          SelectLater([CLOSE], PiecesThen(rest, k));
        }
        SelectIsToken(inner, more);
        SelectLater([OPEN], PiecesThen(inner, more));
    }
  }

  lemma {:induction false} SubSelect(query: Query, rest: Pieces, k: seq<Token>)
    requires IsKeyword(query.first, "select") || HasSelect(rest) || SelectIn(k)
    ensures SelectIn(PiecesThen(Sub(query, rest), k))
    decreases rest, 1
  {
    hide QueryThen, IsKeyword, SelectIn;
    var more := [CLOSE] + PiecesThen(rest, k);
    QuerySplits(query, more);
    if IsKeyword(query.first, "select") {
      FirstIsToken(query);
      SelectLater(QueryThen(query, []), more);
    } else {
      SelectIsToken(rest, k);
      SelectLater([CLOSE], PiecesThen(rest, k));
      SelectLater(QueryThen(query, []), more);
    }
    SelectLater([OPEN], QueryThen(query, more));
  }

  lemma FirstIsToken(query: Query)
    requires IsKeyword(query.first, "select")
    ensures SelectIn(QueryThen(query, []))
  {
    hide PiecesThen, IsKeyword;
    assert QueryThen(query, [])[0] == query.first;
  }

  // ---- the balanced search passes over rendered text ----

  function Shift(o: Option<nat>, n: nat): Option<nat>
  {
    match o case None => None case Some(k) => Some(k + n)
  }

  ghost predicate Passes(text: seq<Token>, k: seq<Token>)
  {
    |k| <= |text| && forall d: nat | d >= 1 :: FindClose(text, d) == Shift(FindClose(k, d), |text| - |k|)
  }

  lemma PassesOne(t: Token, k: seq<Token>)
    requires !IsSym(t, "(") && !IsSym(t, ")")
    ensures Passes([t] + k, k)
  {
    assert ([t] + k)[1..] == k;
  }

  lemma PassesTrans(a: seq<Token>, b: seq<Token>, c: seq<Token>)
    requires Passes(a, b) && Passes(b, c)
    ensures Passes(a, c)
  {
    hide FindClose;
    forall d: nat | d >= 1 ensures FindClose(a, d) == Shift(FindClose(c, d), |a| - |c|) {
      assert FindClose(a, d) == Shift(FindClose(b, d), |a| - |b|);
      assert FindClose(b, d) == Shift(FindClose(c, d), |b| - |c|);
    }
  }

  lemma OpenStep(text: seq<Token>, d: nat)
    ensures FindClose([OPEN] + text, d) == Shift(FindClose(text, d + 1), 1)
  {
    assert ([OPEN] + text)[1..] == text;
  }

  lemma CloseStep(k: seq<Token>, d: nat)
    requires d >= 1
    ensures FindClose([CLOSE] + k, d) == if d == 1 then Some(0) else Shift(FindClose(k, d - 1), 1)
  {
    assert ([CLOSE] + k)[1..] == k;
  }

  lemma PassesAt(text: seq<Token>, k: seq<Token>, d: nat)
    requires Passes(text, k) && d >= 1
    ensures |k| <= |text| && FindClose(text, d) == Shift(FindClose(k, d), |text| - |k|)
  {
  }

  lemma ParensAt(text: seq<Token>, k: seq<Token>, d: nat)
    requires Passes(text, [CLOSE] + k) && d >= 1
    ensures FindClose([OPEN] + text, d) == Shift(FindClose(k, d), |text| + 1 - |k|)
  {
    hide FindClose, Passes;
    PassesAt(text, [CLOSE] + k, d + 1);
    OpenStep(text, d);
    CloseStep(k, d + 1);
  }

  /** A parenthesised text is passed over when its inside is. */
  lemma PassesParens(text: seq<Token>, k: seq<Token>)
    requires Passes(text, [CLOSE] + k)
    ensures Passes([OPEN] + text, k)
    ensures FindClose(text, 1) == Some(|text| - |k| - 1)
  {
    ParensClose(text, k);
    ParensPass(text, k);
  }

  lemma ParensPass(text: seq<Token>, k: seq<Token>)
    requires Passes(text, [CLOSE] + k) && |k| <= |text|
    ensures Passes([OPEN] + text, k)
  {
    hide FindClose;
    var whole := [OPEN] + text;
    forall d: nat | d >= 1 ensures FindClose(whole, d) == Shift(FindClose(k, d), |whole| - |k|) {
      ParensAt(text, k, d);
    }
  }

  lemma ParensClose(text: seq<Token>, k: seq<Token>)
    requires Passes(text, [CLOSE] + k)
    ensures |k| + 1 <= |text| && FindClose(text, 1) == Some(|text| - |k| - 1)
  {
    hide FindClose, Passes;
    PassesAt(text, [CLOSE] + k, 1);
    CloseStep(k, 1);
  }

  lemma {:induction false} PassesQuiet(ts: seq<Token>, k: seq<Token>)
    requires forall i | 0 <= i < |ts| :: !IsSym(ts[i], "(") && !IsSym(ts[i], ")")
    ensures Passes(ts + k, k)
  {
    if ts == [] {
      assert ts + k == k;
    } else {
      hide Passes;
      assert ts + k == [ts[0]] + (ts[1..] + k);
      PassesQuiet(ts[1..], k);
      PassesOne(ts[0], ts[1..] + k);
      PassesTrans(ts + k, ts[1..] + k, k);
    }
  }

  lemma NamePasses(n: Name, k: seq<Token>)
    requires match n case Bare(t) => IsIdent(t) case Qualified(s, t) => IsIdent(s) && IsIdent(t)
    ensures Passes(NameThen(n, k), k)
  {
    hide Passes;
    match n
    case Bare(t) => PassesOne(t, k);
    case Qualified(s, t) =>
      PassesOne(t, k);
      PassesOne(DOT, [t] + k);
      PassesOne(s, [DOT] + ([t] + k));
      PassesTrans([DOT] + ([t] + k), [t] + k, k);
      PassesTrans(NameThen(n, k), [DOT] + ([t] + k), k);
  }

  lemma AliasPasses(a: Alias, k: seq<Token>)
    requires AliasFits(a)
    ensures Passes(AliasThen(a, k), k)
  {
    match a
    case NoAlias =>
    case Plain(n) => PassesOne(n, k);
    case As(w, n) =>
      PassesOne(n, k);
      PassesOne(w, [n] + k);
      PassesTrans(AliasThen(a, k), [n] + k, k);
  }

  lemma {:induction false} FactorPasses(f: Factor, k: seq<Token>, cx: Context)
    requires FactorFits(f, cx)
    ensures Passes(FactorThen(f, k), k)
  {
    hide Passes, NameThen, AliasThen, QueryThen, IsKeyword;
    AliasPasses(f.alias, k);
    var ak := AliasThen(f.alias, k);
    match f {
      case Table(prefix, name, _) =>
        NamePasses(name, ak);
        PassesTrans(NameThen(name, ak), ak, k);
        KeywordsAreNotParens(prefix);
        PassesQuiet(prefix, NameThen(name, ak));
        PassesTrans(FactorThen(f, k), NameThen(name, ak), k);
      case ParenTable(name, _) =>
        NamePasses(name, [CLOSE] + ak);
        PassesParens(NameThen(name, [CLOSE] + ak), ak);
        PassesTrans(FactorThen(f, k), ak, k);
      case CteName(prefix, cte, _) =>
        PassesOne(cte, ak);
        PassesTrans([cte] + ak, ak, k);
        KeywordsAreNotParens(prefix);
        PassesQuiet(prefix, [cte] + ak);
        PassesTrans(FactorThen(f, k), [cte] + ak, k);
      case Derived(query, _) =>
        QueryPasses(query, [CLOSE] + ak, cx);
        PassesParens(QueryThen(query, [CLOSE] + ak), ak);
        PassesTrans(FactorThen(f, k), ak, k);
      case Nested(first, joins, _) =>
        hide JoinsThen;
        var js := JoinsThen(joins, [CLOSE] + ak);
        JoinsPasses(joins, [CLOSE] + ak, cx);
        FactorPasses(first, js, cx);
        PassesTrans(FactorThen(first, js), js, [CLOSE] + ak);
        PassesParens(FactorThen(first, js), ak);
        PassesTrans(FactorThen(f, k), ak, k);
    }
  }

  lemma KeywordsAreNotParens(ts: seq<Token>)
    requires forall i | 0 <= i < |ts| :: IsKeyword(ts[i], "only") || IsKeyword(ts[i], "lateral")
    ensures forall i | 0 <= i < |ts| :: !IsSym(ts[i], "(") && !IsSym(ts[i], ")")
  {
  }

  lemma {:induction false} JoinsPasses(j: Joins, k: seq<Token>, cx: Context)
    requires JoinsFit(j, cx)
    ensures Passes(JoinsThen(j, k), k)
  {
    if j.Join? {
      hide Passes, FactorThen, FindClose, PiecesThen;
      var rest := JoinsThen(j.rest, k);
      var on := PiecesThen(j.on, rest);
      JoinsPasses(j.rest, k, cx);
      PiecesPasses(j.on, rest, cx);
      PassesTrans(on, rest, k);
      FactorPasses(j.factor, on, cx);
      var f := FactorThen(j.factor, on);
      PassesTrans(f, on, k);
      PassesOne(j.word, f);
      PassesTrans([j.word] + f, f, k);
      PassesQuiet(j.kind, [j.word] + f);
      PassesTrans(JoinsThen(j, k), [j.word] + f, k);
    }
  }

  lemma {:induction false} ItemsPasses(i: Items, k: seq<Token>, cx: Context)
    requires ItemsFit(i, cx)
    ensures Passes(ItemsThen(i, k), k)
  {
    hide Passes, FactorThen, JoinsThen;
    match i {
      case One(factor, joins) =>
        JoinsPasses(joins, k, cx);
        FactorPasses(factor, JoinsThen(joins, k), cx);
        PassesTrans(ItemsThen(i, k), JoinsThen(joins, k), k);
      case Comma(factor, joins, rest) =>
        ItemsPasses(rest, k, cx);
        var more := [COMMA] + ItemsThen(rest, k);
        PassesOne(COMMA, ItemsThen(rest, k));
        PassesTrans(more, ItemsThen(rest, k), k);
        JoinsPasses(joins, more, cx);
        PassesTrans(JoinsThen(joins, more), more, k);
        FactorPasses(factor, JoinsThen(joins, more), cx);
        PassesTrans(ItemsThen(i, k), JoinsThen(joins, more), k);
    }
  }

  lemma {:induction false} TailPasses(t: Tail, k: seq<Token>, cx: Context)
    requires TailFits(t, cx)
    ensures Passes(TailThen(t, k), k)
  {
    match t {
      case End =>
      case Clause(word, body) =>
        hide Passes, PiecesThen;
        PiecesPasses(body, k, cx);
        PassesOne(word, PiecesThen(body, k));
        PassesTrans(TailThen(t, k), PiecesThen(body, k), k);
      case Combined(word, query) =>
        hide Passes, QueryThen;
        QueryPasses(query, k, cx);
        PassesOne(word, QueryThen(query, k));
        PassesTrans(TailThen(t, k), QueryThen(query, k), k);
    }
  }

  lemma {:induction false} QueryPasses(q: Query, k: seq<Token>, cx: Context)
    requires QueryFits(q, cx)
    ensures Passes(QueryThen(q, k), k)
  {
    hide Passes, PiecesThen, ItemsThen, TailThen;
    var tail := TailThen(q.tail, k);
    var items := ItemsThen(q.items, tail);
    var body := [q.from] + items;
    TailPasses(q.tail, k, cx);
    ItemsPasses(q.items, tail, cx);
    PassesTrans(items, tail, k);
    PassesOne(q.from, items);
    PassesTrans(body, items, k);
    PiecesPasses(q.head, body, cx);
    PassesTrans(PiecesThen(q.head, body), body, k);
    PassesOne(q.first, PiecesThen(q.head, body));
    PassesTrans(QueryThen(q, k), PiecesThen(q.head, body), k);
  }

  lemma {:induction false} PiecesPasses(p: Pieces, k: seq<Token>, cx: Context)
    requires PiecesFit(p, cx)
    ensures Passes(PiecesThen(p, k), k)
  {
    if !p.Done? {
      hide Passes;
      PiecesPasses(p.rest, k, cx);
      var rest := PiecesThen(p.rest, k);
      match p {
        case Word(t, _) => PassesOne(t, rest);
        case Sub(query, _) =>
          hide QueryThen;
          QueryPasses(query, [CLOSE] + rest, cx);
          PassesParens(QueryThen(query, [CLOSE] + rest), rest);
        case Group(inner, _) =>
          PiecesPasses(inner, [CLOSE] + rest, cx);
          PassesParens(PiecesThen(inner, [CLOSE] + rest), rest);
      }
      PassesTrans(PiecesThen(p, k), rest, k);
    }
  }
}
