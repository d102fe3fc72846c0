/** How a definition is refreshed: row by row, as a whole when a relation it names changes, or by
    being dropped. Models the definition predicates of internal/pg/relation_cache.go. */
module RefreshClass {
  import opened Strings
  import opened Keys
  import opened Diff
  import opened DependencyScan
  import opened Tokenizer
  import opened QueryGrammar
  import opened ScanExact
  import Sanitizer

  function Clean(clause: string): string { Sanitizer.Sanitized(Sanitizer.Normal, clause) }

  function Clauses(def: Definition): seq<string>
  {
    [def.where_] + (match def.subset case None => [] case Some(s) => [s.where_, s.whereExpr, s.orderByExpr])
  }

  /** Its rows can be refreshed one by one. */
  predicate Targeted(def: Definition)
  {
    def.subset.None? && forall i | 0 <= i < |Clauses(def)| :: !Sanitizer.ContainsDependencyKeyword(Clauses(def)[i])
  }

  method SupportsTargetedRefresh(def: Definition) returns (r: bool)
    ensures r == Targeted(def)
  {
    hide Sanitizer.ContainsDependencyKeyword;
    if def.subset.Some? {
      return false;
    }
    var clauses := Clauses(def);
    for i := 0 to |clauses|
      invariant forall k | 0 <= k < i :: !Sanitizer.ContainsDependencyKeyword(clauses[k])
    {
      if Sanitizer.ContainsDependencyKeyword(clauses[i]) {
        return false;
      }
    }
    return true;
  }

  // ---- the relations a definition depends on ----

  datatype Dependencies = Dependencies(unsupported: bool, wildcard: bool, relations: Relations)

  function ScanOf(clause: string, schema: string): Result
  {
    var tokens := Tokens(clause);
    Scan(tokens, START, Context(schema, CteNames(tokens)), map[], false)
  }

  predicate Blank(s: string)
  {
    forall i | 0 <= i < |s| :: IsSpace(s[i])
  }

  predicate Ignored(s: string)
  {
    Blank(s) || !Sanitizer.ContainsDependencyKeyword(s)
  }

  function Gathered(schema: string, clauses: seq<string>): Dependencies
  {
    if clauses == [] then Dependencies(false, false, map[])
    else
      var d := Gathered(schema, clauses[..|clauses| - 1]);
      var s := Clean(clauses[|clauses| - 1]);
      if Ignored(s) then d
      else
        var scan := ScanOf(s, schema);
        Dependencies(true, d.wildcard || scan.wildcard || scan.relations == map[], d.relations + scan.relations)
  }

  function LiveDependencies(def: Definition): Dependencies
  {
    if def.subset.Some? then Dependencies(true, false, map[RelationKey(def.relation) := def.relation])
    else
      var d := Gathered(def.relation.schema, Clauses(def));
      if !d.unsupported then Dependencies(false, false, map[]) else d.(relations := Add(d.relations, def.relation))
  }

  // ---- every relation is filed under its own key ----

  ghost predicate Filed(rels: Relations)
  {
    forall k | k in rels :: RelationKey(rels[k]) == k
  }

  lemma AddFiled(rels: Relations, r: Relation)
    requires Filed(rels)
    ensures Filed(Add(rels, r))
  {
  }

  lemma {:induction false} ScanFiled(rest: seq<Token>, f: Flags, cx: Context, rels: Relations, wildcard: bool)
    requires Filed(rels)
    ensures Filed(Scan(rest, f, cx, rels, wildcard).relations)
    decreases |rest|, 2
  {
    hide Filed;
    if rest != [] {
      if f.expectName {
        ConsumeFiled(rest, cx, rels);
        hide Next;
        var c := Consume(rest, cx, rels);
        hide Consume;
        ScanFiled(c.rest, f.(expectName := false), cx, c.relations, wildcard || c.unknown);
      } else {
        hide Next;
        ScanFiled(rest[1..], Next(f, rest[0]), cx, rels, wildcard);
      }
    }
  }

  lemma {:induction false} ConsumeFiled(rest: seq<Token>, cx: Context, rels: Relations)
    requires Filed(rels) && rest != []
    ensures Filed(Consume(rest, cx, rels).relations)
    decreases |rest|, 1
  {
    hide Filed;
    var r := SkipOnly(rest);
    if r == [] {
    } else if IsSym(r[0], "(") {
      GroupFiled(r, cx, rels);
    } else {
      NameFiled(r, cx, rels);
    }
    hide ConsumeGroup, ConsumeName;
  }

  lemma {:induction false} GroupFiled(r: seq<Token>, cx: Context, rels: Relations)
    requires Filed(rels) && r != []
    ensures Filed(ConsumeGroup(r, cx, rels).relations)
    decreases |r|, 0
  {
    hide Filed;
    match FindClose(r[1..], 1)
    case None =>
    case Some(k) =>
      var inner := r[1..k + 1];
      match OnlyReference(inner, cx)
      case Some(relation) => AddFiled(rels, relation);
      case None => ScanFiled(inner, START, cx, rels, false);
    hide Scan, OnlyReference, SkipAlias;
  }

  lemma {:induction false} NameFiled(r: seq<Token>, cx: Context, rels: Relations)
    requires Filed(rels) && r != []
    ensures Filed(ConsumeName(r, cx, rels).relations)
    decreases |r|, 0
  {
    hide Filed, SkipAlias;
    match ReadReference(r, cx)
    case NoReference =>
    case Reference(relation, width) =>
      var next := r[width..];
      if next != [] && IsSym(next[0], "(") {
        match FindClose(next[1..], 1)
        case None =>
        case Some(k) => ScanFiled(next[1..k + 1], START, cx, rels, false);
      } else if relation.Some? {
        AddFiled(rels, relation.value);
      }
    hide Scan, ReadReference;
  }

  lemma ScanOfFiled(clause: string, schema: string)
    ensures Filed(ScanOf(clause, schema).relations)
  {
    ScanFiled(Tokens(clause), START, Context(schema, CteNames(Tokens(clause))), map[], false);
    hide Scan, Tokens, CteNames;
  }

  /** liveDependenciesForDefinition: one scan per clause, its relations filed by key. */
  method FindDependencies(def: Definition) returns (d: Dependencies)
    ensures d == LiveDependencies(def)
  {
    hide Gathered, Ignored, ScanOf, Clean;
    if def.subset.Some? {
      return Dependencies(true, false, map[RelationKey(def.relation) := def.relation]);
    }
    var clauses := Clauses(def);
    GatherNone(def.relation.schema, clauses);
    d := Dependencies(false, false, map[]);
    for i := 0 to |clauses|
      invariant d == Gathered(def.relation.schema, clauses[..i])
    {
      GatherNext(def.relation.schema, clauses, i);
      var sanitized := Clean(clauses[i]);
      if !Ignored(sanitized) {
        var rels, wildcard := FileScan(sanitized, def.relation.schema, d.relations);
        d := Dependencies(true, d.wildcard || wildcard, rels);
      }
    }
    assert clauses[..|clauses|] == clauses;
    if !d.unsupported {
      return Dependencies(false, false, map[]);
    }
    d := d.(relations := Add(d.relations, def.relation));
  }

  lemma GatherNone(schema: string, clauses: seq<string>)
    ensures Gathered(schema, clauses[..0]) == Dependencies(false, false, map[])
  {
  }

  lemma GatherNext(schema: string, clauses: seq<string>, i: nat)
    requires i < |clauses|
    ensures var d, s := Gathered(schema, clauses[..i]), Clean(clauses[i]);
      Gathered(schema, clauses[..i + 1]) ==
        if Ignored(s) then d
        else Dependencies(true, d.wildcard || ScanOf(s, schema).wildcard || ScanOf(s, schema).relations == map[],
                          d.relations + ScanOf(s, schema).relations)
  {
    hide Ignored, ScanOf, Clean;
    assert clauses[..i + 1][..i] == clauses[..i];
  }

  /** The part of `m` under the first `i` keys. */
  function Under(m: Relations, keys: seq<string>, i: nat): Relations
    requires i <= |keys|
  {
    map k | k in m && k in keys[..i] :: m[k]
  }

  lemma UnderAll(m: Relations, keys: seq<string>)
    requires forall k :: k in keys <==> k in m
    ensures Under(m, keys, |keys|) == m
  {
    assert keys[..|keys|] == keys;
  }

  lemma UnderNext(rels: Relations, m: Relations, keys: seq<string>, r: Relation, i: nat)
    requires Filed(m) && i < |keys| && keys[i] in m && r == m[keys[i]]
    ensures Add(rels + Under(m, keys, i), r) == rels + Under(m, keys, i + 1)
  {
    hide RelationKey;
    assert keys[..i + 1] == keys[..i] + [keys[i]];
    assert Under(m, keys, i + 1) == Under(m, keys, i)[keys[i] := r];
  }

  lemma {:induction false} AddAllMerges(rels: Relations, m: Relations, keys: seq<string>, list: seq<Relation>, i: nat)
    requires Filed(m) && |keys| == |list| && i <= |keys| && forall k :: k in keys <==> k in m
    requires forall j | 0 <= j < |keys| :: keys[j] in m && list[j] == m[keys[j]]
    ensures AddAll(rels + Under(m, keys, i), list[i..]) == rels + m
    decreases |keys| - i
  {
    hide RelationKey, Add, Under;
    if i == |keys| {
      UnderAll(m, keys);
    } else {
      UnderNext(rels, m, keys, list[i], i);
      assert list[i..][1..] == list[i + 1..];
      AddAllMerges(rels, m, keys, list, i + 1);
    }
  }

  method FileAll(relations: seq<Relation>, rels: Relations) returns (r: Relations)
    ensures r == AddAll(rels, relations)
  {
    r := rels;
    assert relations[0..] == relations;
    for i := 0 to |relations|
      invariant AddAll(r, relations[i..]) == AddAll(rels, relations)
    {
      assert relations[i..][1..] == relations[i + 1..];
      r := Add(r, relations[i]);
    }
  }

  /** The scan of one clause, its relations filed one by one. */
  method FileScan(clause: string, schema: string, rels: Relations) returns (r: Relations, wildcard: bool)
    ensures r == rels + ScanOf(clause, schema).relations
    ensures wildcard == (ScanOf(clause, schema).wildcard || ScanOf(clause, schema).relations == map[])
  {
    hide Scan, Tokens, CteNames, Sorted, AddAll;
    ScanOfFiled(clause, schema);
    var relations;
    relations, wildcard := ScanRelations(clause, schema);
    ghost var m := ScanOf(clause, schema).relations;
    ScanMerges(rels, m, relations);
    wildcard := wildcard || |relations| == 0;
    r := FileAll(relations, rels);
  }

  lemma ScanMerges(rels: Relations, m: Relations, list: seq<Relation>)
    requires Filed(m) && |list| == |m.Keys|
    requires forall i | 0 <= i < |list| :: var key := Sorted(m.Keys)[i]; key in m && list[i] == m[key]
    ensures AddAll(rels, list) == rels + m && (list == [] <==> m == map[])
  {
    hide Sorted;
    var keys := Sorted(m.Keys);
    assert Under(m, keys, 0) == map[] && rels + map[] == rels && list[0..] == list;
    AddAllMerges(rels, m, keys, list, 0);
    if list == [] { assert m.Keys == {}; }
  }

  // ---- the classes ----

  predicate DependsOn(d: Dependencies, r: Relation)
  {
    exists k | k in d.relations :: d.relations[k] == r
  }

  /** definitionRequiresInvalidationForRelation. */
  predicate TriggeredBy(def: Definition, relation: Relation, root: Relation)
  {
    var d := LiveDependencies(def);
    d.unsupported && (d.wildcard || DependsOn(d, relation) || DependsOn(d, root))
  }

  method RequiresInvalidation(def: Definition, relation: Relation, root: Relation) returns (r: bool)
    ensures r == TriggeredBy(def, relation, root)
  {
    hide LiveDependencies;
    var d := FindDependencies(def);
    if !d.unsupported {
      return false;
    }
    return d.wildcard || DependsOn(d, relation) || DependsOn(d, root);
  }

  const DROPPING: set<string> := {"not", "exists", "with", "join", "lateral", "union", "intersect", "except"}

  predicate Dropping(t: Token)
  {
    exists w | w in DROPPING :: IsKeyword(t, w)
  }

  function Selects(tokens: seq<Token>): nat
  {
    if tokens == [] then 0 else Selects(tokens[..|tokens| - 1]) + (if IsKeyword(tokens[|tokens| - 1], "select") then 1 else 0)
  }

  /** dependencyClauseRequiresInvalidation: a clause with keywords must be one plain subquery. */
  predicate ClauseDrops(clause: string)
  {
    var s := Clean(clause);
    Sanitizer.ContainsDependencyKeyword(s) &&
    ((exists i | 0 <= i < |Tokens(s)| :: Dropping(Tokens(s)[i])) || Selects(Tokens(s)) != 1)
  }

  method ClauseRequiresInvalidation(clause: string) returns (r: bool)
    ensures r == ClauseDrops(clause)
  {
    hide Sanitizer.ContainsDependencyKeyword, Clean, Tokens, IsKeyword;
    var sanitized := Clean(clause);
    if !Sanitizer.ContainsDependencyKeyword(sanitized) {
      return false;
    }
    var tokens := TokenizeClause(sanitized);
    var selectCount := 0;
    for i := 0 to |tokens|
      invariant selectCount == Selects(tokens[..i])
      invariant forall k | 0 <= k < i :: !Dropping(tokens[k])
    {
      assert tokens[..i + 1][..i] == tokens[..i];
      SelectDoesNotDrop(tokens[i]);
      if IsKeyword(tokens[i], "select") {
        selectCount := selectCount + 1;
      } else if Dropping(tokens[i]) {
        return true;
      }
    }
    assert tokens[..|tokens|] == tokens;
    return selectCount != 1;
  }

  lemma SelectDoesNotDrop(t: Token)
    ensures IsKeyword(t, "select") ==> !Dropping(t)
  {
  }

  /** definitionSupportsDependentRefresh: one related relation, and only plain subqueries. */
  predicate DependentRefresh(def: Definition)
  {
    var d := LiveDependencies(def);
    d.unsupported && !d.wildcard && |set k | k in d.relations && d.relations[k] != def.relation| == 1 &&
    forall i | 0 <= i < |Clauses(def)| :: !ClauseDrops(Clauses(def)[i])
  }

  method SupportsDependentRefresh(def: Definition) returns (r: bool)
    ensures r == DependentRefresh(def)
  {
    hide LiveDependencies, ClauseDrops;
    var d := FindDependencies(def);
    if !d.unsupported || d.wildcard || |set k | k in d.relations && d.relations[k] != def.relation| != 1 {
      return false;
    }
    var clauses := Clauses(def);
    for i := 0 to |clauses|
      invariant forall k | 0 <= k < i :: !ClauseDrops(clauses[k])
    {
      var drops := ClauseRequiresInvalidation(clauses[i]);
      if drops {
        return false;
      }
    }
    return true;
  }

  // ---- the classes partition the definitions ----

  lemma BlankHasNoKeyword(s: string)
    requires Blank(s)
    ensures !Sanitizer.HasKeyword(s)
  {
    forall i, k | 0 <= i < |s| && 0 <= k < |Sanitizer.KEYWORDS| ensures !Sanitizer.WordAt(s, i, Sanitizer.KEYWORDS[k]) {
      var w := Sanitizer.KEYWORDS[k];
      if i + |w| <= |s| {
        assert s[i..i + |w|][0] == s[i];
        assert Sanitizer.LowerText(s[i..i + |w|])[0] == Sanitizer.Lower(s[i]) != w[0];
      }
    }
  }

  /** The dependency search ignores exactly the clauses that the targeted class allows. */
  lemma IgnoredIff(clause: string)
    ensures Ignored(Clean(clause)) <==> !Sanitizer.ContainsDependencyKeyword(clause)
  {
    Sanitizer.SanitizeIdempotent(clause);
    var s := Clean(clause);
    if Blank(s) { BlankHasNoKeyword(s); }
    hide Sanitizer.HasKeyword, Sanitizer.Sanitized;
  }

  /** Each definition is either refreshed by keys or a dependent one, never both. */
  lemma ClassesPartition(def: Definition)
    ensures Targeted(def) <==> !LiveDependencies(def).unsupported
  {
    hide Ignored, ScanOf, Clean, Sanitizer.ContainsDependencyKeyword;
    if def.subset.None? {
      var c := Clauses(def);
      assert c == [def.where_] && c[..0] == [];
      IgnoredIff(def.where_);
      assert Gathered(def.relation.schema, []) == Dependencies(false, false, map[]);
    }
  }

  /** A dependent definition is triggered by its own relation. */
  lemma OwnRelationTriggers(def: Definition, root: Relation)
    requires !Targeted(def)
    ensures TriggeredBy(def, def.relation, root) && TriggeredBy(def, root, def.relation)
  {
    ClassesPartition(def);
    hide Gathered, Targeted;
    var d := LiveDependencies(def);
    assert d.relations[RelationKey(def.relation)] == def.relation;
  }

  /** A definition that can be refreshed as a whole has one related relation, and exactly that one and
      its own trigger it. */
  lemma ExactlyOneRelated(def: Definition) returns (related: Relation)
    requires DependentRefresh(def)
    ensures related != def.relation && !Targeted(def)
    ensures forall r, root :: TriggeredBy(def, r, root) <==> {r, root} * {def.relation, related} != {}
  {
    ClassesPartition(def);
    hide LiveDependencies, ClauseDrops, Targeted;
    var d := LiveDependencies(def);
    var others := set k | k in d.relations && d.relations[k] != def.relation;
    var k :| k in others;
    related := d.relations[k];
    assert |others - {k}| == 0;
    assert others - {k} == {};
    OwnRelationListed(def);
    forall r ensures DependsOn(d, r) <==> r == def.relation || r == related {
      if DependsOn(d, r) && r != def.relation {
        var g :| g in d.relations && d.relations[g] == r;
        assert g in others && g !in others - {k};
      }
    }
    hide DependsOn;
    forall r, root ensures TriggeredBy(def, r, root) <==> {r, root} * {def.relation, related} != {} {
      if r == def.relation || r == related { assert r in {r, root} * {def.relation, related}; }
      if root == def.relation || root == related { assert root in {r, root} * {def.relation, related}; }
      if x :| x in {r, root} * {def.relation, related} { assert x == r || x == root; }
    }
  }

  lemma OwnRelationListed(def: Definition)
    requires LiveDependencies(def).unsupported
    ensures DependsOn(LiveDependencies(def), def.relation)
  {
    hide Gathered;
    assert LiveDependencies(def).relations[RelationKey(def.relation)] == def.relation;
  }

  lemma {:induction false} AddAllLast(rels: Relations, tables: seq<Relation>, r: Relation)
    ensures AddAll(rels, tables + [r]) == Add(AddAll(rels, tables), r)
  {
    AddAllConcat(rels, tables, [r]);
    AddOne(AddAll(rels, tables), r);
  }

  function ClauseContext(def: Definition): Context { ContextOf(Clean(def.where_), def.relation.schema) }

  lemma DependentsAre(def: Definition, p: Pieces)
    requires def.subset.None? && !Targeted(def)
    requires PiecesFit(p, ClauseContext(def)) && Tokens(Clean(def.where_)) == PiecesThen(p, [])
    ensures var found := PiecesFound(p, ClauseContext(def));
      LiveDependencies(def) == Dependencies(true, found == [], AddAll(map[], found + [def.relation]))
  {
    ClauseTablesFoundIff(Clean(def.where_), p, def.relation.schema);
    ClassesPartition(def);
    hide PiecesFit, PiecesTables, PiecesFound, PiecesThen, Scan, Tokens, CteNames, IsKeyword, Targeted, Ignored, Clean, Listed, KeysApart;
    var found := PiecesFound(p, ClauseContext(def));
    GatherNone(def.relation.schema, Clauses(def));
    assert Clauses(def)[..1] == Clauses(def);
    GatherNext(def.relation.schema, Clauses(def), 0);
    AddAllLast(map[], found, def.relation);
    FoundNothing(found);
    hide Gathered, AddAll;
    assert map[] + AddAll(map[], found) == AddAll(map[], found);
  }

  /** The dependencies of a definition whose where clause, sanitized and tokenized, is in the grammar. */
  lemma DependenciesAre(def: Definition, p: Pieces)
    requires def.subset.None?
    requires PiecesFit(p, ClauseContext(def)) && Tokens(Clean(def.where_)) == PiecesThen(p, [])
    ensures var found := PiecesFound(p, ClauseContext(def));
      LiveDependencies(def) == if Targeted(def) then Dependencies(false, false, map[])
                               else Dependencies(true, found == [], AddAll(map[], found + [def.relation]))
  {
    if Targeted(def) {
      ClassesPartition(def);
      hide Gathered, Targeted, PiecesFound, AddAll;
    } else {
      DependentsAre(def, p);
    }
  }

  lemma FoundNothing(found: seq<Relation>)
    ensures AddAll(map[], found) == map[] <==> found == []
  {
    AddAllKeys(map[], found);
    if found != [] { assert found[0] in found; }
  }

  lemma DependsOnListed(d: Dependencies, tables: seq<Relation>, t: Relation)
    requires d.relations == AddAll(map[], tables)
    ensures DependsOn(d, t) <==> Listed(d.relations, t)
  {
    AddAllKeys(map[], tables);
    hide AddAll, RelationKey;
  }

  lemma DependentsTriggerIff(def: Definition, p: Pieces)
    requires def.subset.None? && !Targeted(def)
    requires PiecesFit(p, ClauseContext(def)) && Tokens(Clean(def.where_)) == PiecesThen(p, [])
    ensures var cx := ClauseContext(def);
      var tables, found := PiecesTables(p, cx) + [def.relation], PiecesFound(p, cx) + [def.relation];
      (forall t | t in PiecesTables(p, cx) :: TriggeredBy(def, t, t))
      <==> PiecesFound(p, cx) == [] || ((forall t | t in tables :: t in found) && KeysApart(tables))
  {
    DependentsAre(def, p);
    OwnRelationTriggers(def, def.relation);
    var cx := ClauseContext(def);
    FoundIsNamedIff(p, cx);
    hide PiecesFit, PiecesTables, PiecesFound, PiecesThen, PiecesKept, Tokens, Clean, IsKeyword, Targeted, AddAll,
      LiveDependencies, DependsOn, KeysApart, Listed;
    var d := LiveDependencies(def);
    var tables, found := PiecesTables(p, cx) + [def.relation], PiecesFound(p, cx) + [def.relation];
    AllListedIff(found, tables);
    forall t ensures DependsOn(d, t) <==> Listed(d.relations, t) { DependsOnListed(d, found, t); }
    if PiecesFound(p, cx) != [] {
      OwnRelationListed(def);
      assert forall t | t in tables :: t in PiecesTables(p, cx) || t == def.relation;
      assert forall t | t in PiecesTables(p, cx) :: t in tables;
      assert def.relation in tables;
    }
  }

  /** A definition is triggered by every table that its where clause names exactly when there is none; or when the
      clause is recognised as a dependent one and the scan loses no table, none sharing a key with another or with the
      definition's own relation, or finds nothing at all and falls back to the wildcard. */
  lemma NamedTablesTriggerIff(def: Definition, p: Pieces)
    requires def.subset.None?
    requires PiecesFit(p, ClauseContext(def)) && Tokens(Clean(def.where_)) == PiecesThen(p, [])
    ensures var cx := ClauseContext(def);
      var tables, found := PiecesTables(p, cx) + [def.relation], PiecesFound(p, cx) + [def.relation];
      (forall t | t in PiecesTables(p, cx) :: TriggeredBy(def, t, t))
      <==> PiecesTables(p, cx) == [] ||
           (!Targeted(def) && (PiecesFound(p, cx) == [] || ((forall t | t in tables :: t in found) && KeysApart(tables))))
  {
    var cx := ClauseContext(def);
    if Targeted(def) {
      ClassesPartition(def);
      hide PiecesFit, PiecesTables, PiecesFound, PiecesThen, Tokens, Clean, Targeted, LiveDependencies, KeysApart;
      if PiecesTables(p, cx) != [] { assert PiecesTables(p, cx)[0] in PiecesTables(p, cx); }
    } else {
      DependentsTriggerIff(def, p);
      hide PiecesFit, PiecesThen, Tokens, Clean, Targeted, LiveDependencies, KeysApart;
    }
  }

  // ---- subqueries make a definition a dependent one ----

  /** A digit stands directly before the word: for the tokenizer the word begins there, for the keyword test it does
      not. */
  predicate GluedAt(s: string, i: nat, w: string)
  {
    0 < i && i + |w| <= |s| && '0' <= s[i - 1] <= '9' && Sanitizer.Spells(s[i..i + |w|], w)
  }

  ghost predicate Glued(s: string, w: string)
  {
    exists i :: GluedAt(s, i, w)
  }

  /** A definition whose clause has one of the seven words among its tokens is a dependent one, unless the word stands
      right after a digit. */
  lemma KeywordTokenIsDependent(def: Definition, k: nat, w: string)
    requires def.subset.None? && Sanitizer.DependencyWord(w)
    requires k < |Tokens(Clean(def.where_))| && IsKeyword(Tokens(Clean(def.where_))[k], w)
    ensures Targeted(def) ==> Glued(Clean(def.where_), w)
  {
    Sanitizer.WordIsLetters(w);
    var s := Clean(def.where_);
    TokenStands(s, k, w);
    hide Sanitizer.Sanitized, Tokens, IsKeyword, Sanitizer.HasKeyword, Sanitizer.DependencyWord;
    Sanitizer.RecognisedIff(def.where_);
    var i :| 0 <= i < |s| && Found(s, i, w);
    if i == 0 || !Sanitizer.WordLetter(s[i - 1]) {
      assert Sanitizer.Stands(s, i, w);
      assert Sanitizer.StandsIn(s, w);
      assert Clauses(def)[0] == def.where_;
    } else {
      assert GluedAt(s, i, w);
    }
  }

  /** So every clause of the grammar with a SELECT in it is a dependent one, unless a digit stands right before it. */
  lemma SubqueryIsDependent(def: Definition, p: Pieces)
    requires def.subset.None? && Tokens(Clean(def.where_)) == PiecesThen(p, []) && HasSelect(p)
    ensures Targeted(def) ==> Glued(Clean(def.where_), "select")
  {
    SelectIsToken(p, []);
    var ts := Tokens(Clean(def.where_));
    hide PiecesThen, Tokens, Clean, HasSelect, Targeted, Glued;
    var k :| 0 <= k < |ts| && IsKeyword(ts[k], "select");
    KeywordTokenIsDependent(def, k, "select");
  }

  /** A SELECT right after a digit is a token and no keyword. */
  lemma GluedSelectUnseen(def: Definition)
    requires def.where_ == "1select" && def.subset.None?
    ensures Tokens(Clean(def.where_)) == [Token("select", false, false)] && Targeted(def)
  {
    hide Sanitizer.Sanitized, Sanitizer.ContainsDependencyKeyword, Tokens;
    GluedSelectTokens();
    GluedSelectNotSeen();
    assert Clauses(def) == ["1select"];
  }

  lemma GluedSelectTokens()
    ensures Clean("1select") == "1select" && Tokens("1select") == [Token("select", false, false)]
  {
    var s := "1select";
    assert Sanitizer.Clean(s);
    hide Sanitizer.Sanitized;
    Sanitizer.CleanIsFixed(s);
    assert s == ['1'] + "select" && "select" + "" == "select";
    OtherCharacters('1', "select");
    NameIsOneToken("select", "");
    assert Tokens("") == [];
  }

  lemma GluedSelectNotSeen()
    ensures !Sanitizer.ContainsDependencyKeyword("1select")
  {
    GluedSelectTokens();
    hide Sanitizer.Sanitized, Sanitizer.HasKeyword, Sanitizer.Stands, Sanitizer.DependencyWord, Tokens;
    Sanitizer.RecognisedIff("1select");
    forall w, i | Sanitizer.DependencyWord(w) && 0 <= i < |"1select"| ensures !Sanitizer.Stands("1select", i, w) {
      GluedSelectStands(w, i);
    }
  }

  lemma GluedSelectStands(w: string, i: nat)
    requires Sanitizer.DependencyWord(w) && i < |"1select"|
    ensures !Sanitizer.Stands("1select", i, w)
  {
    var s := "1select";
    assert |s| == 7 && s[0] == '1' && s[1] == 's' && s[2] == 'e' && s[3] == 'l' && s[4] == 'e' && s[5] == 'c' && s[6] == 't';
    Sanitizer.WordIsLetters(w);
    if i == 0 {
      if |w| <= |s| { assert s[0..0 + |w|][0] == '1'; }
    } else {
      assert Sanitizer.WordLetter(s[i - 1]);
    }
  }

  // ---- which subqueries are refreshed ----

  /** The words that make a dependent shape be dropped. */
  predicate DropWord(w: string)
  {
    w == "not" || w == "exists" || w == "with" || w == "join" || w == "lateral" || w == "union" || w == "intersect" || w == "except"
  }

  function SelectPositions(ts: seq<Token>): set<nat>
  {
    set i: nat | i < |ts| && IsKeyword(ts[i], "select")
  }

  lemma {:induction false} SelectsCount(ts: seq<Token>)
    ensures Selects(ts) == |SelectPositions(ts)|
  {
    hide IsKeyword;
    if ts == [] {
      assert SelectPositions(ts) == {};
    } else {
      var n := |ts| - 1;
      SelectsCount(ts[..n]);
      var before := SelectPositions(ts[..n]);
      assert forall i: nat | i < n :: ts[..n][i] == ts[i];
      if IsKeyword(ts[n], "select") {
        assert SelectPositions(ts) == before + {n};
      } else {
        assert SelectPositions(ts) == before;
      }
    }
  }

  /** A dependent definition without subset is refreshed, and not dropped, exactly when it depends on its own table and
      one other that are known, and its clause has exactly one SELECT and none of the eight words among its tokens. */
  lemma RefreshedIff(def: Definition)
    requires def.subset.None? && !Targeted(def)
    ensures var d, ts := LiveDependencies(def), Tokens(Clean(def.where_));
      DependentRefresh(def) <==>
      !d.wildcard && |set k | k in d.relations && d.relations[k] != def.relation| == 1 &&
      |SelectPositions(ts)| == 1 && forall i, w | 0 <= i < |ts| && DropWord(w) :: !IsKeyword(ts[i], w)
  {
    ClassesPartition(def);
    var ts := Tokens(Clean(def.where_));
    SelectsCount(ts);
    assert Clauses(def) == [def.where_];
    Sanitizer.KeywordTestIgnoresSanitizing(def.where_);
    DroppingIff(ts);
    hide Tokens, Sanitizer.Sanitized, Sanitizer.HasKeyword, LiveDependencies, IsKeyword, Selects, SelectPositions, Dropping, DropWord;
  }

  lemma DroppingIff(ts: seq<Token>)
    ensures (exists i | 0 <= i < |ts| :: Dropping(ts[i])) <==> exists i, w | 0 <= i < |ts| && DropWord(w) :: IsKeyword(ts[i], w)
  {
    hide IsKeyword;
    assert forall w :: DropWord(w) <==> w in DROPPING;
    if exists i, w | 0 <= i < |ts| && DropWord(w) :: IsKeyword(ts[i], w) {
      var i, w :| 0 <= i < |ts| && DropWord(w) && IsKeyword(ts[i], w);
      assert Dropping(ts[i]);
    }
    if exists i | 0 <= i < |ts| :: Dropping(ts[i]) {
      var i :| 0 <= i < |ts| && Dropping(ts[i]);
      var w :| w in DROPPING && IsKeyword(ts[i], w);
      assert DropWord(w);
    }
  }

  // ---- literal content does not matter ----

  /** The refresh class, the dependencies and the triggers of a definition are those of its sanitized
      where clause. */
  lemma ClassOfCleanText(a: Definition, b: Definition)
    requires b == a.(where_ := b.where_) && Clean(a.where_) == Clean(b.where_)
    ensures Targeted(a) <==> Targeted(b)
    ensures LiveDependencies(a) == LiveDependencies(b)
    ensures DependentRefresh(a) <==> DependentRefresh(b)
  {
    hide Tokens, Scan, CteNames, Sanitizer.HasKeyword, Sanitizer.Sanitized, Blank, Selects, Dropping;
    var x, y := Clauses(a), Clauses(b);
    assert |x| == |y| && forall i | 1 <= i < |x| :: x[i] == y[i];
    if a.subset.None? {
      assert x == [a.where_] && y == [b.where_] && x[..0] == y[..0] == [];
      GatherNext(a.relation.schema, x, 0);
      GatherNext(a.relation.schema, y, 0);
      assert x[..1] == x && y[..1] == y;
    }
    assert forall i | 0 <= i < |x| :: ClauseDrops(x[i]) <==> ClauseDrops(y[i]);
    hide ClauseDrops, LiveDependencies;
  }

  /** What a literal holds never changes how a shape is refreshed. */
  lemma LiteralsDoNotChangeClass(def: Definition, prefix: string, v: string, w: string, suffix: string)
    requires Sanitizer.Neutral(Sanitizer.Normal, prefix) && (suffix != [] ==> suffix[0] != '\'')
    ensures var a := def.(where_ := prefix + "'" + Sanitizer.LiteralBody(v) + "'" + suffix);
      var b := def.(where_ := prefix + "'" + Sanitizer.LiteralBody(w) + "'" + suffix);
      (Targeted(a) <==> Targeted(b)) && LiveDependencies(a) == LiveDependencies(b) && (DependentRefresh(a) <==> DependentRefresh(b))
  {
    hide Sanitizer.Neutral, Sanitizer.Sanitized, Sanitizer.LiteralBody, LiveDependencies, Targeted, DependentRefresh;
    Sanitizer.LiteralContentInvisible(prefix, v, suffix);
    Sanitizer.LiteralContentInvisible(prefix, w, suffix);
    var a := def.(where_ := prefix + "'" + Sanitizer.LiteralBody(v) + "'" + suffix);
    var b := def.(where_ := prefix + "'" + Sanitizer.LiteralBody(w) + "'" + suffix);
    assert b == a.(where_ := b.where_);
    ClassOfCleanText(a, b);
  }

  // ---- clauses that hide a table from the classification ----

  lemma {:induction false} SanitizedLetters(m: Sanitizer.Mode, s: string, c: char)
    requires c != ' ' && c !in s
    ensures c !in Sanitizer.Sanitized(m, s)
    decreases |s|
  {
    if s != [] {
      var r := Sanitizer.StepOf(m, s);
      assert r.out == [] || r.out == " " || r.out == [s[0]];
      SanitizedLetters(r.next, s[r.width..], c);
      hide Sanitizer.Sanitized;
    }
  }

  lemma WordHasLetter(s: string, i: nat, keyword: string, j: nat)
    requires Sanitizer.WordAt(s, i, keyword) && j < |keyword|
    ensures exists c :: c in s && Sanitizer.Lower(c) == keyword[j]
  {
    var part := s[i..i + |keyword|];
    assert Sanitizer.LowerText(part)[j] == Sanitizer.Lower(part[j]);
    assert part[j] == s[i + j];
  }

  /** A text without the letters s, j, h, u and c has none of the keywords. */
  lemma LettersMissing(s: string)
    requires forall c | c in s :: Sanitizer.Lower(c) !in "sjhuc"
    ensures !Sanitizer.HasKeyword(s)
  {
    hide Sanitizer.WordAt, Sanitizer.Lower;
    forall i, k | 0 <= i < |s| && 0 <= k < |Sanitizer.KEYWORDS| ensures !Sanitizer.WordAt(s, i, Sanitizer.KEYWORDS[k]) {
      var word := Sanitizer.KEYWORDS[k];
      var j := [0, 0, 3, 3, 0, 5, 2][k];
      assert word[j] in "sjhuc";
      if Sanitizer.WordAt(s, i, word) { WordHasLetter(s, i, word, j); }
    }
  }

  const TABLE_COMMAND := "x in (table allowed)"

  /** `x in (table allowed)` reads another table without any of the keywords: the definition counts as refreshed by
      keys, so no change of `allowed` triggers it. */
  lemma TableCommandUnseen(def: Definition, r: Relation, root: Relation)
    requires def.where_ == TABLE_COMMAND && def.subset.None?
    ensures Targeted(def) && !TriggeredBy(def, r, root)
  {
    var text := Sanitizer.Sanitized(Sanitizer.Normal, TABLE_COMMAND);
    forall c | c in text ensures Sanitizer.Lower(c) !in "sjhuc" {
      if c != ' ' && c !in TABLE_COMMAND { SanitizedLetters(Sanitizer.Normal, TABLE_COMMAND, c); }
    }
    LettersMissing(text);
    hide Sanitizer.HasKeyword, Sanitizer.Sanitized, LiveDependencies;
    assert Clauses(def) == [TABLE_COMMAND];
    ClassesPartition(def);
  }

  /** The UTF-8 bytes of `café`, unquoted, are read as the name `caf`. */
  lemma AccentedNameCut()
    ensures Tokens(['c', 'a', 'f', 195 as char, 169 as char]) == [Token("caf", false, false)]
  {
    var s := ['c', 'a', 'f', 195 as char, 169 as char];
    assert s[1..] == ['a', 'f', 195 as char, 169 as char];
    assert s[1..][1..] == ['f', 195 as char, 169 as char];
    assert s[1..][1..][1..] == [195 as char, 169 as char];
    assert WordLength(s[1..][1..][1..]) == 0;
    assert WordLength(s[1..]) == 2;
    assert s[..3] == "caf" && s[3..] == [195 as char, 169 as char];
    assert s[3..][1..] == [169 as char] && s[3..][1..][1..] == [];
    assert Tokens(s[3..][1..]) == [];
    assert Tokens(s[3..]) == [];
  }
}
