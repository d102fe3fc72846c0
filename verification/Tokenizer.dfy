/** From clause text to tokens, the collection of common table expression names, and the whole
    relation scan. Models the tokenizer half of internal/pg/dependency_scan.go. */
module Tokenizer {
  import opened Strings
  import opened Keys
  import opened DependencyScan
  import opened QueryGrammar
  import opened ScanExact
  import Sanitizer

  predicate IsSpace(c: char) { c == ' ' || c == '\t' || c == '\n' || c == '\r' || c == '\U{000c}' }

  predicate IsWordStart(c: char) { 'a' <= c <= 'z' || 'A' <= c <= 'Z' || c == '_' || c == '$' }

  predicate IsWordPart(c: char) { IsWordStart(c) || IsDigit(c) }

  predicate IsSymbol(c: char) { c == '(' || c == ')' || c == ',' || c == '.' }

  function WordLength(s: string): (n: nat)
    ensures n <= |s|
  {
    if s == [] || !IsWordPart(s[0]) then 0 else 1 + WordLength(s[1..])
  }

  /** The rest of a quoted identifier after its opening quote: its value and the text after it. */
  datatype QuotedRead = Unterminated | Quoted(value: string, rest: string)

  function ReadQuoted(s: string): (r: QuotedRead)
    ensures r.Quoted? ==> |r.rest| < |s|
    decreases |s|
  {
    if s == [] then Unterminated
    else if s[0] == '"' then
      if |s| > 1 && s[1] == '"' then Prepend('"', ReadQuoted(s[2..])) else Quoted("", s[1..])
    else Prepend(s[0], ReadQuoted(s[1..]))
  }

  function Prepend(c: char, r: QuotedRead): QuotedRead
  {
    match r case Unterminated => Unterminated case Quoted(v, rest) => Quoted([c] + v, rest)
  }

  function Tokens(s: string): seq<Token>
    decreases |s|
  {
    if s == [] then []
    else if IsSpace(s[0]) then Tokens(s[1..])
    else if s[0] == '"' then
      match ReadQuoted(s[1..])
      case Unterminated => [Token("\"", false, true)] + Tokens(s[1..])
      case Quoted(v, rest) => [Token(v, true, false)] + Tokens(rest)
    else if IsWordStart(s[0]) then
      var n := 1 + WordLength(s[1..]);
      [Token(s[..n], false, false)] + Tokens(s[n..])
    else if IsSymbol(s[0]) then [Token([s[0]], false, true)] + Tokens(s[1..])
    else Tokens(s[1..])
  }

  // ---- the loops ----

  /** `r` with the text read before it put in front. */
  function Onto(text: string, r: QuotedRead): QuotedRead
  {
    match r case Unterminated => Unterminated case Quoted(v, rest) => Quoted(text + v, rest)
  }

  lemma QuotedAdvances(value: string, index: nat, text: string)
    requires index < |value|
    ensures value[index] != '"' ==>
              Onto(text, ReadQuoted(value[index..])) == Onto(text + [value[index]], ReadQuoted(value[index + 1..]))
    ensures value[index] == '"' && index + 1 < |value| && value[index + 1] == '"' ==>
              Onto(text, ReadQuoted(value[index..])) == Onto(text + ['"'], ReadQuoted(value[index + 2..]))
    ensures value[index] == '"' && !(index + 1 < |value| && value[index + 1] == '"') ==>
              Onto(text, ReadQuoted(value[index..])) == Quoted(text, value[index + 1..])
  {
    var rest := value[index..];
    assert rest[1..] == value[index + 1..];
    if |rest| > 1 { assert rest[2..] == value[index + 2..]; }
  }

  method ReadQuotedIdentifier(value: string, start: nat) returns (text: string, next: nat, ok: bool)
    requires start < |value|
    ensures match ReadQuoted(value[start + 1..])
            case Unterminated => !ok
            case Quoted(v, rest) => ok && text == v && start < next <= |value| && value[next..] == rest
  {
    text := [];
    var index := start + 1;
    ghost var goal := ReadQuoted(value[start + 1..]);
    while index < |value|
      invariant start < index <= |value|
      invariant goal == Onto(text, ReadQuoted(value[index..]))
    {
      hide ReadQuoted, Onto;
      QuotedAdvances(value, index, text);
      if value[index] == '"' {
        if index + 1 < |value| && value[index + 1] == '"' {
          text := text + ['"'];
          index := index + 2;
        } else {
          return text, index + 1, true;
        }
      } else {
        text := text + [value[index]];
        index := index + 1;
      }
    }
    return "", start, false;
  }

  method TokenizeClause(clause: string) returns (tokens: seq<Token>)
    ensures tokens == Tokens(clause)
  {
    tokens := [];
    var index := 0;
    assert clause[0..] == clause;
    while index < |clause|
      invariant 0 <= index <= |clause|
      invariant tokens + Tokens(clause[index..]) == Tokens(clause)
    {
      ghost var before, rest := tokens, clause[index..];
      var found;
      found, index := OneToken(clause, index);
      tokens := tokens + found;
      assert tokens + Tokens(clause[index..]) == before + (found + Tokens(clause[index..]));
    }
  }

  /** One round of the tokenizer loop: at most one token, and progress. */
  method OneToken(clause: string, start: nat) returns (found: seq<Token>, next: nat)
    requires start < |clause|
    ensures start < next <= |clause|
    ensures Tokens(clause[start..]) == found + Tokens(clause[next..])
  {
    var ch := clause[start];
    found, next := [], start + 1;
    assert clause[start..][1..] == clause[start + 1..];
    if IsSpace(ch) {
      return;
    }
    if ch == '"' {
      var text, after, ok := ReadQuotedIdentifier(clause, start);
      if ok {
        found, next := [Token(text, true, false)], after;
      } else {
        found := [Token([ch], false, true)];
      }
    } else if IsWordStart(ch) {
      while next < |clause| && IsWordPart(clause[next])
        invariant start < next <= |clause|
        invariant WordLength(clause[start + 1..]) == next - start - 1 + WordLength(clause[next..])
      {
        assert clause[next..][1..] == clause[next + 1..];
        next := next + 1;
      }
      assert clause[start..][..next - start] == clause[start..next];
      assert clause[start..][next - start..] == clause[next..];
      found := [Token(clause[start..next], false, false)];
    } else if IsSymbol(ch) {
      found := [Token([ch], false, true)];
    }
  }

  // ---- common table expressions ----

  function DropKeyword(rest: seq<Token>, word: string): (r: seq<Token>)
    ensures |r| <= |rest|
  {
    if rest != [] && IsKeyword(rest[0], word) then rest[1..] else rest
  }

  datatype CteList = CteList(names: set<string>, rest: seq<Token>)

  /** The comma-separated entries after WITH. */
  function CteEntries(rest: seq<Token>): (r: CteList)
    ensures |r.rest| <= |rest|
    decreases |rest|
  {
    if rest == [] || !IsIdent(rest[0]) then CteList({}, rest) else
      var after := SkipColumns(DropKeyword(SkipColumns(rest[1..]), "as"));
      if after != [] && IsSym(after[0], ",") then
        var more := CteEntries(after[1..]);
        CteList({NameOf(rest[0])} + more.names, more.rest)
      else CteList({NameOf(rest[0])}, after)
  }

  /** collectDependencyCTENames; the token that ends a list is skipped with it. */
  function CteNames(rest: seq<Token>): set<string>
    decreases |rest|
  {
    if rest == [] then {}
    else if !IsKeyword(rest[0], "with") then CteNames(rest[1..])
    else
      var entries := CteEntries(DropKeyword(rest[1..], "recursive"));
      entries.names + (if entries.rest == [] then {} else CteNames(entries.rest[1..]))
  }

  lemma {:induction false} NoWithNoNames(rest: seq<Token>)
    requires forall i | 0 <= i < |rest| :: !IsKeyword(rest[i], "with")
    ensures CteNames(rest) == {}
  {
    if rest != [] {
      assert !IsKeyword(rest[0], "with");
      forall i | 0 <= i < |rest[1..]| ensures !IsKeyword(rest[1..][i], "with") { assert rest[1..][i] == rest[i + 1]; }
      NoWithNoNames(rest[1..]);
    }
  }

  // ---- what WITH introduces ----

  /** One common table expression: `name (columns) AS (query)`, the columns possibly missing. */
  datatype Cte = Cte(name: Token, columns: Option<seq<Token>>, as_: Token, query: Query)

  function CteThen(e: Cte, k: seq<Token>): seq<Token>
  {
    var rest := [e.as_] + ([OPEN] + QueryThen(e.query, [CLOSE] + k));
    [e.name] + if e.columns.Some? then [OPEN] + (e.columns.value + ([CLOSE] + rest)) else rest
  }

  function CtesThen(es: seq<Cte>, k: seq<Token>): seq<Token>
    requires es != []
    decreases |es|
  {
    if |es| == 1 then CteThen(es[0], k) else CteThen(es[0], [COMMA] + CtesThen(es[1..], k))
  }

  predicate CteHeadFits(e: Cte, cx: Context)
  {
    IsIdent(e.name) && IsKeyword(e.as_, "as") && QueryFits(e.query, cx) &&
    (e.columns.Some? ==> forall i | 0 <= i < |e.columns.value| :: !IsSym(e.columns.value[i], "(") && !IsSym(e.columns.value[i], ")"))
  }

  lemma GroupSkipped(inner: seq<Token>, k: seq<Token>)
    requires Passes(inner + ([CLOSE] + k), [CLOSE] + k)
    ensures SkipColumns([OPEN] + (inner + ([CLOSE] + k))) == k
  {
    hide Passes, FindClose;
    var text := inner + ([CLOSE] + k);
    ParensClose(text, k);
    var all := [OPEN] + text;
    assert all[1..] == text;
    assert all[|inner| + 2..] == k;
  }

  lemma {:induction false} CteRead(e: Cte, k: seq<Token>, cx: Context)
    requires CteHeadFits(e, cx)
    ensures var text := CteThen(e, k);
      text != [] && text[0] == e.name && SkipColumns(DropKeyword(SkipColumns(text[1..]), "as")) == k
  {
    hide SkipColumns, QueryThen, QueryFits, Passes;
    var body := QueryThen(e.query, [CLOSE] + k);
    var rest := [e.as_] + ([OPEN] + body);
    QueryPasses(e.query, [CLOSE] + k, cx);
    QuerySplits(e.query, [CLOSE] + k);
    GroupSkipped(QueryThen(e.query, []), k);
    assert CteThen(e, k)[1..] == if e.columns.Some? then [OPEN] + (e.columns.value + ([CLOSE] + rest)) else rest;
    if e.columns.Some? {
      PassesQuiet(e.columns.value, [CLOSE] + rest);
      GroupSkipped(e.columns.value, rest);
    } else {
      NoColumns(rest);
    }
    assert rest[1..] == [OPEN] + body;
  }

  lemma NoColumns(rest: seq<Token>)
    requires rest != [] && !IsSym(rest[0], "(")
    ensures SkipColumns(rest) == rest
  {
  }

  lemma {:induction false} CtesRead(es: seq<Cte>, k: seq<Token>, cx: Context)
    requires es != [] && (forall i | 0 <= i < |es| :: CteHeadFits(es[i], cx)) && (k == [] || !IsSym(k[0], ","))
    ensures CteEntries(CtesThen(es, k)) == CteList(set i | 0 <= i < |es| :: NameOf(es[i].name), k)
    decreases |es|
  {
    hide SkipColumns, DropKeyword, CteThen;
    if |es| == 1 {
      CteRead(es[0], k, cx);
    } else {
      var more := [COMMA] + CtesThen(es[1..], k);
      CteRead(es[0], more, cx);
      CtesRead(es[1..], k, cx);
      assert more[1..] == CtesThen(es[1..], k);
      var names, rest := set i | 0 <= i < |es| :: NameOf(es[i].name), set i | 0 <= i < |es[1..]| :: NameOf(es[1..][i].name);
      assert names == {NameOf(es[0].name)} + rest by {
        forall n | n in names ensures n in {NameOf(es[0].name)} + rest {
          var i :| 0 <= i < |es| && n == NameOf(es[i].name);
          if i > 0 { assert es[1..][i - 1] == es[i]; }
        }
        forall n | n in rest ensures n in names {
          var i :| 0 <= i < |es[1..]| && n == NameOf(es[1..][i].name);
          assert es[1..][i] == es[i + 1];
        }
      }
    }
  }

  lemma {:induction false} BeforeWith(prefix: seq<Token>, k: seq<Token>)
    requires forall i | 0 <= i < |prefix| :: !IsKeyword(prefix[i], "with")
    ensures CteNames(prefix + k) == CteNames(k)
  {
    if prefix == [] {
      assert prefix + k == k;
    } else {
      assert (prefix + k)[0] == prefix[0] && (prefix + k)[1..] == prefix[1..] + k;
      BeforeWith(prefix[1..], k);
    }
  }

  /** What WITH introduces: in `WITH [RECURSIVE] a (..) AS (..), b AS (..) rest`, wherever it stands, exactly the names
      of the list, and whatever the rest introduces after its first token. */
  lemma WithNamesAre(prefix: seq<Token>, with_: Token, recursive: seq<Token>, es: seq<Cte>, k: seq<Token>, cx: Context)
    requires (forall i | 0 <= i < |prefix| :: !IsKeyword(prefix[i], "with")) && IsKeyword(with_, "with")
    requires es != [] && (forall i | 0 <= i < |es| :: CteHeadFits(es[i], cx)) && (k == [] || !IsSym(k[0], ","))
    requires if recursive == [] then !IsKeyword(es[0].name, "recursive") else |recursive| == 1 && IsKeyword(recursive[0], "recursive")
    ensures CteNames(prefix + ([with_] + (recursive + CtesThen(es, k)))) ==
            (set i | 0 <= i < |es| :: NameOf(es[i].name)) + (if k == [] then {} else CteNames(k[1..]))
  {
    hide CteEntries, CtesThen, CteHeadFits, CteNames, IsKeyword, NameOf;
    var list := CtesThen(es, k);
    BeforeWith(prefix, [with_] + (recursive + list));
    CtesRead(es, k, cx);
    FirstName(es, k);
    AtWith(with_, recursive, list);
  }

  lemma AtWith(with_: Token, recursive: seq<Token>, list: seq<Token>)
    requires IsKeyword(with_, "with") && list != []
    requires if recursive == [] then !IsKeyword(list[0], "recursive") else |recursive| == 1 && IsKeyword(recursive[0], "recursive")
    ensures CteNames([with_] + (recursive + list)) ==
            var entries := CteEntries(list); entries.names + (if entries.rest == [] then {} else CteNames(entries.rest[1..]))
  {
    hide CteEntries, IsKeyword;
    var all := [with_] + (recursive + list);
    assert all[0] == with_ && all[1..] == recursive + list;
    if recursive == [] {
      assert recursive + list == list;
    } else {
      assert (recursive + list)[0] == recursive[0] && (recursive + list)[1..] == list;
    }
  }

  lemma FirstName(es: seq<Cte>, k: seq<Token>)
    requires es != []
    ensures CtesThen(es, k) != [] && CtesThen(es, k)[0] == es[0].name
  {
    hide QueryThen;
  }

  /** scanDependencyRelations: the relations in key order, and the wildcard. */
  method ScanRelations(clause: string, defaultSchema: string) returns (relations: seq<Relation>, wildcard: bool)
    ensures var tokens := Tokens(clause);
      var scan := Scan(tokens, START, Context(defaultSchema, CteNames(tokens)), map[], false);
      wildcard == scan.wildcard && |relations| == |scan.relations.Keys| &&
      forall i | 0 <= i < |relations| ::
        var key := Sorted(scan.relations.Keys)[i];
        key in scan.relations && relations[i] == scan.relations[key]
  {
    hide Scan, CteNames;
    var tokens := TokenizeClause(clause);
    var scan := ScanTokens(tokens, Context(defaultSchema, CteNames(tokens)), map[]);
    wildcard := scan.wildcard;
    var keys := Sorted(scan.relations.Keys);
    relations := [];
    for i := 0 to |keys|
      invariant |relations| == i
      invariant forall j | 0 <= j < i :: keys[j] in scan.relations && relations[j] == scan.relations[keys[j]]
    {
      assert keys[i] in keys;
      relations := relations + [scan.relations[keys[i]]];
    }
  }

  // ---- tokenizing undoes printing ----

  function Printed(t: Token): string
  {
    if t.quoted then "\"" + (Doubled(t.value) + "\"") else t.value
  }

  function PrintAll(ts: seq<Token>): string
  {
    if ts == [] then [] else Printed(ts[0]) + ([' '] + PrintAll(ts[1..]))
  }

  predicate Printable(t: Token)
  {
    if t.quoted then !t.symbol
    else if t.symbol then |t.value| == 1 && IsSymbol(t.value[0])
    else t.value != [] && IsWordStart(t.value[0]) && forall i | 0 <= i < |t.value| :: IsWordPart(t.value[i])
  }

  lemma {:induction false} ReadsDoubled(v: string, rest: string)
    requires rest == [] || rest[0] != '"'
    ensures ReadQuoted(DoubledThen(v, rest)) == Quoted(v, rest)
  {
    var s := DoubledThen(v, rest);
    if v == [] {
      assert s[1..] == rest;
    } else if v[0] == '"' {
      assert s[0] == '"' && s[1] == '"' && s[2..] == DoubledThen(v[1..], rest);
      ReadsDoubled(v[1..], rest);
    } else {
      assert s[1..] == DoubledThen(v[1..], rest);
      ReadsDoubled(v[1..], rest);
    }
  }

  lemma {:induction false} WordEnds(w: string, rest: string)
    requires forall i | 0 <= i < |w| :: IsWordPart(w[i])
    requires rest == [] || !IsWordPart(rest[0])
    ensures WordLength(w + rest) == |w|
  {
    if w == [] {
      assert w + rest == rest;
    } else {
      assert (w + rest)[1..] == w[1..] + rest;
      WordEnds(w[1..], rest);
    }
  }

  lemma QuotedThen(v: string, tail: string)
    requires tail != [] && tail[0] == ' '
    ensures Tokens("\"" + (Doubled(v) + "\"") + tail) == [Token(v, true, false)] + Tokens(tail)
  {
    var s := "\"" + (Doubled(v) + "\"") + tail;
    DoubledThenIs(v, tail);
    assert s[1..] == DoubledThen(v, tail);
    ReadsDoubled(v, tail);
    assert s[0] == '"';
  }

  lemma WordThen(w: string, tail: string)
    requires w != [] && IsWordStart(w[0]) && forall i | 0 <= i < |w| :: IsWordPart(w[i])
    requires tail != [] && tail[0] == ' '
    ensures Tokens(w + tail) == [Token(w, false, false)] + Tokens(tail)
  {
    var s := w + tail;
    assert s[0] == w[0];
    assert s[1..] == w[1..] + tail;
    WordEnds(w[1..], tail);
    assert s[..|w|] == w;
    assert s[|w|..] == tail;
  }

  lemma SymbolThen(c: char, tail: string)
    requires IsSymbol(c)
    ensures Tokens([c] + tail) == [Token([c], false, true)] + Tokens(tail)
  {
    assert ([c] + tail)[1..] == tail;
  }

  lemma TokenThenSpace(t: Token, rest: string)
    requires Printable(t)
    ensures Tokens(Printed(t) + ([' '] + rest)) == [t] + Tokens([' '] + rest)
  {
    hide Tokens;
    var tail := [' '] + rest;
    if t.quoted {
      QuotedThen(t.value, tail);
    } else if t.symbol {
      assert t.value == [t.value[0]];
      SymbolThen(t.value[0], tail);
    } else {
      WordThen(t.value, tail);
    }
  }

  /** Tokenizing the printed form of any printable tokens gives them back. */
  lemma {:induction false} TokenizePrinted(ts: seq<Token>)
    requires forall i | 0 <= i < |ts| :: Printable(ts[i])
    ensures Tokens(PrintAll(ts)) == ts
  {
    hide Printed, Printable;
    if ts != [] {
      TokenThenSpace(ts[0], PrintAll(ts[1..]));
      var tail := [' '] + PrintAll(ts[1..]);
      assert tail[1..] == PrintAll(ts[1..]);
      TokenizePrinted(ts[1..]);
    }
  }

  /** How the tokens of a clause are read: names that some WITH in it introduces are no tables, anywhere in it. */
  function ContextOf(clause: string, defaultSchema: string): Context
  {
    Context(defaultSchema, CteNames(Tokens(clause)))
  }

  /** From text to tables: whatever the spacing and the ignored characters of a clause, if its tokens are those of the
      grammar, scanning it finds every table it names exactly when the scan loses none and no two share a key. */
  lemma ClauseTablesFoundIff(clause: string, p: Pieces, defaultSchema: string)
    requires PiecesFit(p, ContextOf(clause, defaultSchema)) && Tokens(clause) == PiecesThen(p, [])
    ensures var cx := ContextOf(clause, defaultSchema);
      var scan := Scan(Tokens(clause), START, cx, map[], false);
      scan == Result(AddAll(map[], PiecesFound(p, cx)), false) &&
      ((forall t | t in PiecesTables(p, cx) :: Listed(scan.relations, t))
       <==> (forall t | t in PiecesTables(p, cx) :: t in PiecesFound(p, cx)) && KeysApart(PiecesTables(p, cx)))
  {
    hide Scan, PiecesThen, PiecesTables, PiecesFound, RelationKey, CteNames, PiecesFit, Listed, KeysApart, AddAll, Tokens;
    var cx := ContextOf(clause, defaultSchema);
    ScanIsExact(p, cx, map[]);
    EveryTableFoundIff(p, cx);
  }

  // ---- a name that WITH introduces, outside its query ----

  const A_NAME := CteName([], W("a"), NoAlias)

  /** `b` in a FROM list. */
  const FROM_B := One(Named(Bare(W("b"))), NoJoin)

  /** `or x in (select y from a)` */
  const OR_FROM_A := Word(W("or"), InSelect(One(A_NAME, NoJoin)))

  /** `select y` */
  const SELECT_Y := Word(W("select"), Word(W("y"), Done))

  /** `with a as (select y from b) select y from a` */
  const WITH_A := Query(Word(W("a"), Word(W("as"), Sub(Select(FROM_B), SELECT_Y))), W("with"), W("from"), One(A_NAME, NoJoin), End)

  /** `x in (with a as (select y from b) select y from a) or x in (select y from a)` */
  const HIDING := Word(W("x"), Word(W("in"), Sub(WITH_A, OR_FROM_A)))

  lemma ANameIs(cx: Context)
    requires cx.ctes == {"a"}
    ensures var items := One(A_NAME, NoJoin); ItemsFit(items, cx) && ItemsFound(items, cx, false) == []
  {
    Spelled();
    ShortWord("a");
    OneIs(A_NAME, cx, false);
  }

  lemma FromBIs(cx: Context)
    requires cx.ctes == {"a"}
    ensures ItemsFit(FROM_B, cx) && ItemsFound(FROM_B, cx, false) == [InDefault("b", cx)]
  {
    Spelled();
    ShortWord("b");
    OneIs(Named(Bare(W("b"))), cx, false);
  }

  lemma WithAIs(cx: Context)
    requires cx.ctes == {"a"}
    ensures QueryFits(WITH_A, cx) && QueryFound(WITH_A, cx) == [InDefault("b", cx)]
  {
    Spelled();
    WithSpelled();
    ShortWord("a");
    ShortWord("as");
    ShortWord("y");
    ANameIs(cx);
    FromBIs(cx);
    SelectIs(FROM_B, cx);
    hide ItemsFit, ItemsFound, Quiet, IsKeyword;
    var q := Select(FROM_B);
    hide QueryFits, QueryFound;
    assert PiecesFit(Word(W("y"), Done), cx) && PiecesFound(Word(W("y"), Done), cx) == [];
    assert PiecesFit(SELECT_Y, cx) && PiecesFound(SELECT_Y, cx) == [];
    var sub := Sub(q, SELECT_Y);
    assert PiecesFit(sub, cx) && PiecesFound(sub, cx) == [InDefault("b", cx)] + [] == [InDefault("b", cx)];
    var as_ := Word(W("as"), sub);
    assert PiecesFit(as_, cx) && PiecesFound(as_, cx) == [InDefault("b", cx)];
    assert PiecesFit(WITH_A.head, cx) && PiecesFound(WITH_A.head, cx) == [InDefault("b", cx)];
    WithAParts(cx);
  }

  lemma WithAParts(cx: Context)
    ensures QueryFits(WITH_A, cx) == (Quiet(W("with")) && PiecesFit(WITH_A.head, cx) && IsKeyword(W("from"), "from") &&
                                      ItemsFit(One(A_NAME, NoJoin), cx))
    ensures QueryFound(WITH_A, cx) == PiecesFound(WITH_A.head, cx) + ItemsFound(One(A_NAME, NoJoin), cx, false)
  {
    hide PiecesFit, ItemsFit, PiecesFound, ItemsFound, Quiet, IsKeyword;
    assert TailFits(End, cx) && TailFound(End, cx) == [];
  }

  lemma WithSpelled()
    ensures Quiet(W("with")) && IsKeyword(W("with"), "with") && IsKeyword(W("as"), "as") && !IsKeyword(W("a"), "recursive")
    ensures forall w | w in {"x", "in", "or", "y", "a"} :: !IsKeyword(W(w), "with")
    ensures !IsKeyword(W("select"), "with") && !IsKeyword(W("from"), "with") && !IsKeyword(OPEN, "with") && !IsKeyword(CLOSE, "with")
  {
    assert Sanitizer.LowerText("with") == "with" && Sanitizer.LowerText("as") == "as";
    assert Sanitizer.LowerText("select") == "select" && Sanitizer.LowerText("from") == "from";
    assert |"select"| == 6 && "from"[0] == 'f' && "with"[0] == 'w' && "join"[0] == 'j';
  }

  lemma HidingIs(cx: Context)
    requires cx.ctes == {"a"}
    ensures PiecesFit(HIDING, cx) && PiecesFound(HIDING, cx) == [InDefault("b", cx)]
  {
    WithAIs(cx);
    ANameIs(cx);
    InSelectIs(One(A_NAME, NoJoin), cx);
    ShortWord("x");
    ShortWord("in");
    ShortWord("or");
    hide QueryFits, QueryFound, Quiet, InSelect;
    assert PiecesFit(OR_FROM_A, cx) && PiecesFound(OR_FROM_A, cx) == [];
    var sub := Sub(WITH_A, OR_FROM_A);
    assert PiecesFit(sub, cx) && PiecesFound(sub, cx) == [InDefault("b", cx)] + [] == [InDefault("b", cx)];
    var in_ := Word(W("in"), sub);
    assert PiecesFit(in_, cx) && PiecesFound(in_, cx) == [InDefault("b", cx)];
  }

  /** What follows the expression in `HIDING`. */
  const AFTER_WITH := [W("y"), W("from"), W("a"), CLOSE, W("or"), W("x"), W("in"), OPEN, W("select"), W("y"), W("from"), W("a"), CLOSE]

  lemma ANameText(k: seq<Token>)
    ensures ItemsThen(One(A_NAME, NoJoin), k) == [W("a")] + k
  {
    assert FactorThen(A_NAME, k) == [] + ([W("a")] + k);
  }

  /** `y from a` */
  lemma YFromAText(k: seq<Token>)
    ensures PiecesThen(Word(W("y"), Done), [W("from")] + ItemsThen(One(A_NAME, NoJoin), k)) == [W("y"), W("from"), W("a")] + k
  {
    hide ItemsThen;
    ANameText(k);
    var rest := [W("from")] + ([W("a")] + k);
    assert PiecesThen(Done, rest) == rest;
    assert PiecesThen(Word(W("y"), Done), rest) == [W("y")] + rest;
  }

  /** `(select y from a)` */
  lemma SubTextIs()
    ensures PiecesThen(Sub(Select(One(A_NAME, NoJoin)), Done), []) == [OPEN, W("select"), W("y"), W("from"), W("a"), CLOSE]
  {
    var items := One(A_NAME, NoJoin);
    assert TailThen(End, [CLOSE]) == [CLOSE];
    var y := Word(W("y"), Done);
    assert QueryThen(Select(items), [CLOSE]) == [W("select")] + PiecesThen(y, [W("from")] + ItemsThen(items, [CLOSE])) by {
      hide PiecesThen, ItemsThen;
    }
    YFromAText([CLOSE]);
    hide QueryThen, ItemsThen;
    assert [CLOSE] + PiecesThen(Done, []) == [CLOSE];
  }

  lemma OrFromAText()
    ensures PiecesThen(OR_FROM_A, []) == [W("or"), W("x"), W("in"), OPEN, W("select"), W("y"), W("from"), W("a"), CLOSE]
  {
    hide QueryThen;
    SubTextIs();
    var sub := Sub(Select(One(A_NAME, NoJoin)), Done);
    assert PiecesThen(Word(W("in"), sub), []) == [W("in")] + PiecesThen(sub, []);
    assert PiecesThen(InSelect(One(A_NAME, NoJoin)), []) == [W("x")] + PiecesThen(Word(W("in"), sub), []);
  }

  lemma AfterWithIs()
    ensures var rest := [CLOSE] + PiecesThen(OR_FROM_A, []);
      PiecesThen(Word(W("y"), Done), [W("from")] + ItemsThen(One(A_NAME, NoJoin), rest)) == AFTER_WITH
  {
    hide PiecesThen, ItemsThen;
    OrFromAText();
    YFromAText([CLOSE] + PiecesThen(OR_FROM_A, []));
  }

  /** `a as (select y from b) select y`, as the head of a query and as a common table expression. */
  lemma WithAHead(k: seq<Token>)
    ensures PiecesThen(WITH_A.head, k) == CteThen(Cte(W("a"), None, W("as"), Select(FROM_B)), PiecesThen(SELECT_Y, k))
  {
    hide QueryThen;
    var sub := Sub(Select(FROM_B), SELECT_Y);
    assert PiecesThen(sub, k) == [OPEN] + QueryThen(Select(FROM_B), [CLOSE] + PiecesThen(SELECT_Y, k));
    assert PiecesThen(Word(W("as"), sub), k) == [W("as")] + PiecesThen(sub, k);
  }

  lemma WithAText(rest: seq<Token>)
    ensures QueryThen(WITH_A, rest) == [W("with")] + PiecesThen(WITH_A.head, [W("from")] + ItemsThen(One(A_NAME, NoJoin), rest))
  {
    hide PiecesThen, ItemsThen;
    assert TailThen(End, rest) == rest;
  }

  lemma HidingIsText()
    ensures PiecesThen(HIDING, []) == [W("x")] + ([W("in")] + ([OPEN] + QueryThen(WITH_A, [CLOSE] + PiecesThen(OR_FROM_A, []))))
  {
    hide QueryThen, InSelect;
    var sub := Sub(WITH_A, OR_FROM_A);
    assert PiecesThen(sub, []) == [OPEN] + QueryThen(WITH_A, [CLOSE] + PiecesThen(OR_FROM_A, []));
    assert PiecesThen(Word(W("in"), sub), []) == [W("in")] + PiecesThen(sub, []);
  }

  lemma HidingText()
    ensures var e := Cte(W("a"), None, W("as"), Select(FROM_B));
      PiecesThen(HIDING, []) == [W("x"), W("in"), OPEN] + ([W("with")] + ([] + CtesThen([e], [W("select")] + AFTER_WITH)))
  {
    var k := [W("from")] + ItemsThen(One(A_NAME, NoJoin), [CLOSE] + PiecesThen(OR_FROM_A, []));
    assert PiecesThen(SELECT_Y, k) == [W("select")] + PiecesThen(Word(W("y"), Done), k);
    hide ItemsThen, PiecesThen, QueryThen, CteThen;
    AfterWithIs();
    WithAHead(k);
    WithAText([CLOSE] + PiecesThen(OR_FROM_A, []));
    HidingIsText();
    var text := CteThen(Cte(W("a"), None, W("as"), Select(FROM_B)), [W("select")] + AFTER_WITH);
    assert [W("x")] + ([W("in")] + ([OPEN] + ([W("with")] + text))) == [W("x"), W("in"), OPEN] + ([W("with")] + ([] + text));
  }

  lemma HidingNames()
    ensures CteNames(PiecesThen(HIDING, [])) == {"a"}
  {
    hide CteNames, CtesThen, PiecesThen, QueryFits, IsKeyword, ItemsFit, ItemsFound, QueryFound, QueryTables, ItemsTables, Quiet;
    WithSpelled();
    Spelled();
    HidingText();
    var e, cx := Cte(W("a"), None, W("as"), Select(FROM_B)), Context("", {"a"});
    FromBIs(cx);
    SelectIs(FROM_B, cx);
    assert CteHeadFits(e, cx);
    WithNamesAre([W("x"), W("in"), OPEN], W("with"), [], [e], [W("select")] + AFTER_WITH, cx);
    assert ([W("select")] + AFTER_WITH)[1..] == AFTER_WITH;
    NoWithNoNames(AFTER_WITH);
    assert (set i | 0 <= i < |[e]| :: NameOf([e][i].name)) == {"a"} by { assert [e][0] == e; }
  }

  /** A name that WITH introduces hides the table of that name everywhere in the clause, not only in the query of the
      WITH. The scan of `x in (with a as (select y from b) select y from a) or x in (select y from a)` does not find the
      table `a`, and does not fall back to the wildcard. */
  lemma CteHidesTable(defaultSchema: string)
    ensures var tokens := PiecesThen(HIDING, []);
      var cx := Context(defaultSchema, CteNames(tokens));
      Scan(tokens, START, cx, map[], false) ==
      Result(map[RelationKey(Relation(defaultSchema, "b")) := Relation(defaultSchema, "b")], false)
  {
    hide Scan, PiecesThen, PiecesFit, PiecesFound, CteNames, RelationKey;
    HidingNames();
    var cx := Context(defaultSchema, CteNames(PiecesThen(HIDING, [])));
    HidingIs(cx);
    ScanIsExact(HIDING, cx, map[]);
    AddOne(map[], InDefault("b", cx));
  }

  // ---- tokens stand in the text ----

  /** The word stands in the text at `i`; a digit may be right before it. */
  predicate Found(s: string, i: nat, w: string)
  {
    i + |w| <= |s| && Sanitizer.Spells(s[i..i + |w|], w) &&
    (i == 0 || !Sanitizer.WordLetter(s[i - 1]) || '0' <= s[i - 1] <= '9') &&
    (i + |w| == |s| || !Sanitizer.WordLetter(s[i + |w|]))
  }

  ghost predicate FoundIn(s: string, w: string)
  {
    exists i :: 0 <= i < |s| && Found(s, i, w)
  }

  /** What a word found in the rest of a text needs of the character before the rest. */
  lemma FoundLater(s: string, n: nat, w: string)
    requires 0 < n <= |s| && FoundIn(s[n..], w)
    requires !Sanitizer.WordLetter(s[n - 1]) || '0' <= s[n - 1] <= '9' || n == |s| || !Sanitizer.WordLetter(s[n])
    requires Sanitizer.LowerLetters(w) && w != []
    ensures FoundIn(s, w)
  {
    var rest := s[n..];
    var i :| 0 <= i < |rest| && Found(rest, i, w);
    var j := n + i;
    assert s[j..j + |w|] == rest[i..i + |w|];
    assert Sanitizer.WordLetter(rest[i]) by { assert rest[i..i + |w|][0] == rest[i]; }
    assert i > 0 ==> s[j - 1] == rest[i - 1];
    assert j + |w| < |s| ==> s[j + |w|] == rest[i + |w|];
    assert Found(s, j, w);
  }

  lemma WordEnd(s: string)
    ensures WordLength(s) < |s| ==> !IsWordPart(s[WordLength(s)])
  {
  }

  /** A keyword among the tokens of a text stands in the text, maybe right after a digit. */
  lemma {:induction false} TokenStands(s: string, k: nat, w: string)
    requires k < |Tokens(s)| && IsKeyword(Tokens(s)[k], w) && Sanitizer.LowerLetters(w) && w != []
    ensures FoundIn(s, w)
    decreases |s|
  {
    hide Sanitizer.LowerText, Found, FoundIn;
    if IsSpace(s[0]) {
      TokenStands(s[1..], k, w);
      FoundLater(s, 1, w);
    } else if s[0] == '"' {
      QuotedStands(s, k, w);
    } else if IsWordStart(s[0]) {
      WordStands(s, k, w);
    } else if IsSymbol(s[0]) {
      SymbolStands(s, k, w);
    } else {
      TokenStands(s[1..], k, w);
      FoundLater(s, 1, w);
    }
  }

  lemma {:induction false} SymbolStands(s: string, k: nat, w: string)
    requires s != [] && IsSymbol(s[0]) && k < |Tokens(s)| && IsKeyword(Tokens(s)[k], w) && Sanitizer.LowerLetters(w) && w != []
    ensures FoundIn(s, w)
    decreases |s|, 0
  {
    hide Sanitizer.LowerText, Found, FoundIn;
    assert Tokens(s) == [Token([s[0]], false, true)] + Tokens(s[1..]);
    TokenStands(s[1..], k - 1, w);
    FoundLater(s, 1, w);
  }

  lemma {:induction false} QuotedStands(s: string, k: nat, w: string)
    requires s != [] && s[0] == '"' && k < |Tokens(s)| && IsKeyword(Tokens(s)[k], w) && Sanitizer.LowerLetters(w) && w != []
    ensures FoundIn(s, w)
    decreases |s|, 0
  {
    hide Sanitizer.LowerText, Found, FoundIn;
    match ReadQuoted(s[1..]) {
      case Unterminated =>
        assert Tokens(s) == [Token("\"", false, true)] + Tokens(s[1..]);
        TokenStands(s[1..], k - 1, w);
        FoundLater(s, 1, w);
      case Quoted(v, rest) =>
        assert Tokens(s) == [Token(v, true, false)] + Tokens(rest);
        TokenStands(rest, k - 1, w);
        QuotedEnds(s[1..]);
        var n := |s| - |rest|;
        assert rest == s[n..] && s[n - 1] == '"';
        FoundLater(s, n, w);
    }
  }

  /** What follows a quoted identifier is the end of the text, after a closing quote. */
  lemma {:induction false} QuotedEnds(s: string)
    ensures ReadQuoted(s).Quoted? ==>
      var rest := ReadQuoted(s).rest;
      |rest| < |s| && rest == s[|s| - |rest|..] && s[|s| - |rest| - 1] == '"'
    decreases |s|
  {
    if s != [] {
      if s[0] == '"' {
        if |s| > 1 && s[1] == '"' { QuotedEnds(s[2..]); }
      } else {
        QuotedEnds(s[1..]);
      }
    }
  }

  lemma {:induction false} WordStands(s: string, k: nat, w: string)
    requires s != [] && IsWordStart(s[0]) && k < |Tokens(s)| && IsKeyword(Tokens(s)[k], w) && Sanitizer.LowerLetters(w) && w != []
    ensures FoundIn(s, w)
    decreases |s|, 0
  {
    var n := 1 + WordLength(s[1..]);
    WordEnd(s[1..]);
    assert n < |s| ==> !IsWordPart(s[n]);
    assert Tokens(s) == [Token(s[..n], false, false)] + Tokens(s[n..]);
    if k == 0 {
      Sanitizer.SpellsIff(s[..n], w);
      assert s[0..0 + |w|] == s[..n];
      assert Found(s, 0, w);
    } else {
      TokenStands(s[n..], k - 1, w);
      FoundLater(s, n, w);
    }
  }

  // ---- the classes of characters ----

  predicate AsciiLetter(c: char) { 'a' <= c <= 'z' || 'A' <= c <= 'Z' }

  /** A name of ASCII letters, digits, underscores and dollar signs that does not start with a digit is one token. */
  lemma NameIsOneToken(s: string, tail: string)
    requires s != [] && (AsciiLetter(s[0]) || s[0] == '_' || s[0] == '$')
    requires forall i | 0 <= i < |s| :: AsciiLetter(s[i]) || '0' <= s[i] <= '9' || s[i] == '_' || s[i] == '$'
    requires tail == [] || !(AsciiLetter(tail[0]) || '0' <= tail[0] <= '9' || tail[0] == '_' || tail[0] == '$')
    ensures Tokens(s + tail) == [Token(s, false, false)] + Tokens(tail)
  {
    WordLengthIs(s[1..], tail);
    assert (s + tail)[1..] == s[1..] + tail;
    assert (s + tail)[..|s|] == s && (s + tail)[|s|..] == tail;
  }

  lemma {:induction false} WordLengthIs(s: string, tail: string)
    requires (forall i | 0 <= i < |s| :: IsWordPart(s[i])) && (tail == [] || !IsWordPart(tail[0]))
    ensures WordLength(s + tail) == |s|
  {
    if s == [] {
      assert s + tail == tail;
    } else {
      assert (s + tail)[1..] == s[1..] + tail;
      WordLengthIs(s[1..], tail);
    }
  }

  /** Parentheses, commas and dots are tokens of their own; every other character outside names is passed over. */
  lemma OtherCharacters(c: char, tail: string)
    requires !AsciiLetter(c) && c != '_' && c != '$' && c != '"'
    ensures Tokens([c] + tail) ==
            if c == '(' || c == ')' || c == ',' || c == '.' then [Token([c], false, true)] + Tokens(tail) else Tokens(tail)
  {
    assert ([c] + tail)[1..] == tail;
  }
}
