/** The scanner that finds which relations a clause mentions: token predicates, the mutually
    recursive scan and consume, and the balanced-parenthesis search. Models
    internal/pg/dependency_scan.go on token lists. */
module DependencyScan {
  import opened Strings
  import opened Keys
  import Sanitizer

  datatype Token = Token(value: string, quoted: bool, symbol: bool)

  type Relations = map<string, Relation>

  datatype Context = Context(defaultSchema: string, ctes: set<string>)

  // ---- tokens ----

  predicate IsIdent(t: Token) { !t.symbol && t.value != "" }

  predicate IsKeyword(t: Token, word: string)
  {
    IsIdent(t) && !t.quoted && Sanitizer.LowerText(t.value) == word
  }

  predicate IsSym(t: Token, s: string) { t.symbol && t.value == s }

  function NameOf(t: Token): string
  {
    if t.quoted then t.value else Sanitizer.LowerText(t.value)
  }

  const FROM_BOUNDARY: set<string> :=
    {"where", "group", "having", "order", "limit", "offset", "union", "intersect", "except", "window", "returning", "qualify"}

  const ALIAS_BOUNDARY: set<string> :=
    {"on", "using", "where", "join", "inner", "left", "right", "full", "cross", "natural", "group", "having", "order",
     "limit", "offset", "union", "intersect", "except", "window", "returning", "qualify"}

  predicate FromBoundary(t: Token)
  {
    IsIdent(t) && !t.quoted && Sanitizer.LowerText(t.value) in FROM_BOUNDARY
  }

  predicate AliasBoundary(t: Token)
  {
    if t.symbol then t.value == "," || t.value == ")" || t.value == "." else Sanitizer.LowerText(t.value) in ALIAS_BOUNDARY
  }

  function RelationKey(r: Relation): string { r.schema + "." + r.table }

  function Add(rels: Relations, r: Relation): Relations { rels[RelationKey(r) := r] }

  // ---- helpers on the remaining tokens ----

  /** Offset of the parenthesis that closes `depth` open ones. */
  function FindClose(rest: seq<Token>, depth: nat): (k: Option<nat>)
    ensures k.Some? ==> k.value < |rest|
  {
    if rest == [] then None
    else if IsSym(rest[0], ")") && depth <= 1 then Some(0)
    else
      var d := if IsSym(rest[0], "(") then depth + 1 else if IsSym(rest[0], ")") then depth - 1 else depth;
      match FindClose(rest[1..], d)
      case None => None
      case Some(k) => Some(k + 1)
  }

  /** What follows the group that `rest` opens; only the opening token when it never closes. */
  function SkipBalanced(rest: seq<Token>): (r: seq<Token>)
    requires rest != []
    ensures |r| < |rest|
  {
    match FindClose(rest[1..], 1)
    case None => rest[1..]
    case Some(k) => rest[k + 2..]
  }

  function SkipColumns(rest: seq<Token>): (r: seq<Token>)
    ensures |r| <= |rest|
  {
    if rest != [] && IsSym(rest[0], "(") then SkipBalanced(rest) else rest
  }

  function SkipAlias(rest: seq<Token>): (r: seq<Token>)
    ensures |r| <= |rest|
  {
    if rest != [] && IsKeyword(rest[0], "as") then
      if |rest| > 1 && IsIdent(rest[1]) then SkipColumns(rest[2..]) else SkipColumns(rest[1..])
    else if rest != [] && IsIdent(rest[0]) && !AliasBoundary(rest[0]) then SkipColumns(rest[1..])
    else rest
  }

  function SkipOnly(rest: seq<Token>): (r: seq<Token>)
    ensures |r| <= |rest|
  {
    if rest != [] && (IsKeyword(rest[0], "only") || IsKeyword(rest[0], "lateral")) then SkipOnly(rest[1..]) else rest
  }

  /** `relation` is absent when the name is that of a common table expression. */
  datatype Reference = NoReference | Reference(relation: Option<Relation>, width: nat)

  function ReadReference(rest: seq<Token>, cx: Context): (r: Reference)
    ensures r.Reference? ==> 1 <= r.width <= |rest|
  {
    if rest == [] || !IsIdent(rest[0]) then NoReference
    else if |rest| > 2 && IsSym(rest[1], ".") && IsIdent(rest[2]) then
      Reference(Some(Relation(NameOf(rest[0]), NameOf(rest[2]))), 3)
    else if NameOf(rest[0]) in cx.ctes then Reference(None, 1)
    else Reference(Some(Relation(cx.defaultSchema, NameOf(rest[0]))), 1)
  }

  /** The tokens are exactly one relation name. */
  function OnlyReference(tokens: seq<Token>, cx: Context): Option<Relation>
  {
    match ReadReference(tokens, cx)
    case NoReference => None
    case Reference(r, width) => if width == |tokens| then r else None
  }

  // ---- the scan ----

  /** The flags of the scan loop. */
  datatype Flags = Flags(depth: nat, inFrom: bool, fromDepth: nat, expectName: bool)

  const START := Flags(0, false, 0, false)

  datatype Result = Result(relations: Relations, wildcard: bool)

  datatype Consumed = Consumed(rest: seq<Token>, unknown: bool, relations: Relations)

  /** The flags after an ordinary token. */
  function Next(f: Flags, t: Token): Flags
    requires !f.expectName
  {
    if IsSym(t, "(") then f.(depth := f.depth + 1)
    else if IsSym(t, ")") then
      f.(inFrom := f.inFrom && f.depth > f.fromDepth, depth := if f.depth > 0 then f.depth - 1 else 0)
    else
      var inFrom := f.inFrom && !(f.depth <= f.fromDepth && FromBoundary(t));
      if IsKeyword(t, "from") then f.(inFrom := true, fromDepth := f.depth, expectName := true)
      else if IsKeyword(t, "join") then f.(inFrom := inFrom, expectName := true)
      else if inFrom && f.depth == f.fromDepth && IsSym(t, ",") then f.(inFrom := inFrom, expectName := true)
      else f.(inFrom := inFrom)
  }

  /** scanDependencyTokens on what is left of the tokens. */
  function Scan(rest: seq<Token>, f: Flags, cx: Context, rels: Relations, wildcard: bool): Result
    decreases |rest|, 2
  {
    if rest == [] then Result(rels, wildcard)
    else if f.expectName then
      var c := Consume(rest, cx, rels);
      Scan(c.rest, f.(expectName := false), cx, c.relations, wildcard || c.unknown)
    else
      Scan(rest[1..], Next(f, rest[0]), cx, rels, wildcard)
  }

  /** consumeDependencyRelation: a table, a function call, or a parenthesised group. It always
      consumes something, and every inner scan is over a strictly shorter list. */
  function Consume(rest: seq<Token>, cx: Context, rels: Relations): (c: Consumed)
    requires rest != []
    ensures |c.rest| < |rest|
    decreases |rest|, 1
  {
    var r := SkipOnly(rest);
    if r == [] then Consumed([], true, rels)
    else if IsSym(r[0], "(") then ConsumeGroup(r, cx, rels)
    else ConsumeName(r, cx, rels)
  }

  function ConsumeGroup(r: seq<Token>, cx: Context, rels: Relations): (c: Consumed)
    requires r != []
    ensures |c.rest| < |r|
    decreases |r|, 0
  {
    match FindClose(r[1..], 1)
    case None => Consumed(r[1..], true, rels)
    case Some(k) =>
      var inner, after := r[1..k + 1], r[k + 2..];
      match OnlyReference(inner, cx)
      case Some(relation) => Consumed(SkipAlias(after), false, Add(rels, relation))
      case None =>
        var s := Scan(inner, START, cx, rels, false);
        Consumed(SkipAlias(after), s.wildcard, s.relations)
  }

  function ConsumeName(r: seq<Token>, cx: Context, rels: Relations): (c: Consumed)
    requires r != []
    ensures |c.rest| < |r|
    decreases |r|, 0
  {
    match ReadReference(r, cx)
    case NoReference => Consumed(r[1..], true, rels)
    case Reference(relation, width) =>
      var next := r[width..];
      if next != [] && IsSym(next[0], "(") then
        match FindClose(next[1..], 1)
        case None => Consumed(next[1..], true, rels)
        case Some(k) =>
          var s := Scan(next[1..k + 1], START, cx, rels, false);
          Consumed(SkipAlias(next[k + 2..]), s.wildcard, s.relations)
      else
        Consumed(SkipAlias(next), false, if relation.Some? then Add(rels, relation.value) else rels)
  }

  // ---- the loops ----

  method FindBalancedClose(tokens: seq<Token>, index: nat) returns (close: int)
    requires index < |tokens| && IsSym(tokens[index], "(")
    ensures match FindClose(tokens[index + 1..], 1)
            case None => close == -1
            case Some(k) => close == index + 1 + k && close < |tokens|
  {
    var depth := 1;
    var cursor := index + 1;
    ghost var goal := FindClose(tokens[index + 1..], 1);
    while cursor < |tokens|
      invariant index < cursor <= |tokens| && depth >= 1
      invariant goal == match FindClose(tokens[cursor..], depth)
                        case None => None
                        case Some(k) => Some(k + cursor - index - 1)
    {
      assert tokens[cursor..][1..] == tokens[cursor + 1..];
      if IsSym(tokens[cursor], "(") {
        depth := depth + 1;
      } else if IsSym(tokens[cursor], ")") {
        depth := depth - 1;
        if depth == 0 {
          return cursor;
        }
      }
      cursor := cursor + 1;
    }
    return -1;
  }

  /** scanDependencyTokens: the loop over an index and four flags. */
  method ScanTokens(tokens: seq<Token>, cx: Context, relations: Relations) returns (r: Result)
    ensures r == Scan(tokens, START, cx, relations, false)
    decreases |tokens|, 2
  {
    var f, rels, wildcard := START, relations, false;
    var index := 0;
    assert tokens[0..] == tokens;
    while index < |tokens|
      invariant 0 <= index <= |tokens|
      invariant Scan(tokens[index..], f, cx, rels, wildcard) == Scan(tokens, START, cx, relations, false)
    {
      if f.expectName {
        var next, unknown;
        next, unknown, rels := ConsumeRelation(tokens, index, cx, rels);
        wildcard := wildcard || unknown;
        f := f.(expectName := false);
        index := next;
      } else {
        assert tokens[index..][1..] == tokens[index + 1..];
        f := Next(f, tokens[index]);
        index := index + 1;
      }
    }
    assert tokens[index..] == [];
    r := Result(rels, wildcard);
  }

  /** consumeDependencyRelation with indices into the token slice. */
  method ConsumeRelation(tokens: seq<Token>, start: nat, cx: Context, relations: Relations)
    returns (next: nat, unknown: bool, rels: Relations)
    requires start < |tokens|
    ensures start < next <= |tokens|
    ensures Consumed(tokens[next..], unknown, rels) == Consume(tokens[start..], cx, relations)
    decreases |tokens|, 1
  {
    hide ConsumeGroup, ConsumeName;
    var index := start;
    while index < |tokens| && (IsKeyword(tokens[index], "only") || IsKeyword(tokens[index], "lateral"))
      invariant start <= index <= |tokens|
      invariant SkipOnly(tokens[index..]) == SkipOnly(tokens[start..])
    {
      assert tokens[index..][1..] == tokens[index + 1..];
      index := index + 1;
    }
    if index >= |tokens| {
      return index, true, relations;
    }
    if IsSym(tokens[index], "(") {
      next, unknown, rels := ConsumeGroupAt(tokens, index, cx, relations);
    } else {
      next, unknown, rels := ConsumeNameAt(tokens, index, cx, relations);
    }
  }

  method ConsumeGroupAt(tokens: seq<Token>, index: nat, cx: Context, relations: Relations)
    returns (next: nat, unknown: bool, rels: Relations)
    requires index < |tokens| && IsSym(tokens[index], "(")
    ensures index < next <= |tokens|
    ensures Consumed(tokens[next..], unknown, rels) == ConsumeGroup(tokens[index..], cx, relations)
    decreases |tokens|, 0
  {
    hide Scan, SkipAlias, FindClose;
    var close := FindBalancedClose(tokens, index);
    assert tokens[index..][1..] == tokens[index + 1..];
    if close < 0 {
      return index + 1, true, relations;
    }
    var inner := tokens[index + 1..close];
    assert inner == tokens[index..][1..close - index];
    assert tokens[close + 1..] == tokens[index..][close - index + 1..];
    next := AfterAlias(tokens, close + 1);
    match OnlyReference(inner, cx) {
      case Some(relation) => return next, false, Add(relations, relation);
      case None =>
        var s := ScanTokens(inner, cx, relations);
        return next, s.wildcard, s.relations;
    }
  }

  method ConsumeNameAt(tokens: seq<Token>, index: nat, cx: Context, relations: Relations)
    returns (next: nat, unknown: bool, rels: Relations)
    requires index < |tokens|
    ensures index < next <= |tokens|
    ensures Consumed(tokens[next..], unknown, rels) == ConsumeName(tokens[index..], cx, relations)
    decreases |tokens|, 0
  {
    hide Scan, SkipAlias, FindClose;
    match ReadReference(tokens[index..], cx) {
      case NoReference => return index + 1, true, relations;
      case Reference(relation, width) =>
        next := index + width;
        assert tokens[index..][width..] == tokens[next..];
        if next < |tokens| && IsSym(tokens[next], "(") {
          next, unknown, rels := ConsumeCall(tokens, next, cx, relations);
        } else {
          next := AfterAlias(tokens, next);
          return next, false, if relation.Some? then Add(relations, relation.value) else relations;
        }
    }
  }

  /** A function call in place of a table: only its arguments are scanned. */
  method ConsumeCall(tokens: seq<Token>, open: nat, cx: Context, relations: Relations)
    returns (next: nat, unknown: bool, rels: Relations)
    requires 0 < open < |tokens| && IsSym(tokens[open], "(")
    ensures open < next <= |tokens|
    ensures var rest := tokens[open..];
      Consumed(tokens[next..], unknown, rels) ==
        match FindClose(rest[1..], 1)
        case None => Consumed(rest[1..], true, relations)
        case Some(k) =>
          var s := Scan(rest[1..k + 1], START, cx, relations, false);
          Consumed(SkipAlias(rest[k + 2..]), s.wildcard, s.relations)
    decreases |tokens|, 0, 0
  {
    hide Scan, SkipAlias, FindClose;
    var close := FindBalancedClose(tokens, open);
    assert tokens[open..][1..] == tokens[open + 1..];
    if close < 0 {
      return open + 1, true, relations;
    }
    assert tokens[open + 1..close] == tokens[open..][1..close - open];
    assert tokens[close + 1..] == tokens[open..][close - open + 1..];
    var s := ScanTokens(tokens[open + 1..close], cx, relations);
    next := AfterAlias(tokens, close + 1);
    return next, s.wildcard, s.relations;
  }

  method AfterAlias(tokens: seq<Token>, index: nat) returns (next: nat)
    requires index <= |tokens|
    ensures index <= next <= |tokens| && tokens[next..] == SkipAlias(tokens[index..])
  {
    var rest := SkipAlias(tokens[index..]);
    SkipAliasIsSuffix(tokens[index..]);
    next := |tokens| - |rest|;
  }

  lemma SkipAliasIsSuffix(rest: seq<Token>)
    ensures SkipAlias(rest) == rest[|rest| - |SkipAlias(rest)|..]
  {
    hide FindClose;
    if |rest| > 1 { SkipColumnsIsSuffix(rest[2..]); }
    if rest != [] { SkipColumnsIsSuffix(rest[1..]); }
  }

  lemma SkipColumnsIsSuffix(rest: seq<Token>)
    ensures SkipColumns(rest) == rest[|rest| - |SkipColumns(rest)|..]
  {
    hide FindClose;
  }
}
