/** The SQL clause sanitizer and the dependency-keyword test built on it.
    Models internal/sqlinspect/inspect.go. */
module Sanitizer {
  import opened Strings

  datatype Mode = Normal | Quoted | LineComment | BlockComment

  predicate StartsWith2(s: string, a: char, b: char)
  {
    |s| > 1 && s[0] == a && s[1] == b
  }

  /** What remains of the text `s` when scanning starts in mode `m`: literals and comments
      shrink to the spaces that mark their ends. */
  function Sanitized(m: Mode, s: string): string
    decreases |s|
  {
    if s == [] then [] else
      match m
      case LineComment =>
        if s[0] == '\n' then [' '] + Sanitized(Normal, s[1..]) else Sanitized(LineComment, s[1..])
      case BlockComment =>
        if StartsWith2(s, '*', '/') then [' '] + Sanitized(Normal, s[2..]) else Sanitized(BlockComment, s[1..])
      case Quoted =>
        if StartsWith2(s, '\'', '\'') then Sanitized(Quoted, s[2..])
        else if s[0] == '\'' then [' '] + Sanitized(Normal, s[1..])
        else Sanitized(Quoted, s[1..])
      case Normal =>
        if s[0] == '\'' then [' '] + Sanitized(Quoted, s[1..])
        else if StartsWith2(s, '-', '-') then [' '] + Sanitized(LineComment, s[2..])
        else if StartsWith2(s, '/', '*') then [' '] + Sanitized(BlockComment, s[2..])
        else [s[0]] + Sanitized(Normal, s[1..])
  }

  function ModeOf(inQuoted: bool, inLine: bool, inBlock: bool): Mode
  {
    if inLine then LineComment else if inBlock then BlockComment else if inQuoted then Quoted else Normal
  }

  datatype Step = Step(out: string, width: nat, next: Mode)

  /** One round of the scan: what is written, how far the index moves and the new mode. */
  function StepOf(m: Mode, s: string): (r: Step)
    requires s != []
    ensures 1 <= r.width <= |s|
    ensures Sanitized(m, s) == r.out + Sanitized(r.next, s[r.width..])
  {
    match m
    case LineComment => if s[0] == '\n' then Step(" ", 1, Normal) else Step("", 1, LineComment)
    case BlockComment => if StartsWith2(s, '*', '/') then Step(" ", 2, Normal) else Step("", 1, BlockComment)
    case Quoted =>
      if StartsWith2(s, '\'', '\'') then Step("", 2, Quoted)
      else if s[0] == '\'' then Step(" ", 1, Normal)
      else Step("", 1, Quoted)
    case Normal =>
      if s[0] == '\'' then Step(" ", 1, Quoted)
      else if StartsWith2(s, '-', '-') then Step(" ", 2, LineComment)
      else if StartsWith2(s, '/', '*') then Step(" ", 2, BlockComment)
      else Step([s[0]], 1, Normal)
  }

  /** The body of the scan loop: three flags, a moving index, and the bytes it writes. */
  method ScanRound(value: string, start: nat, quoted: bool, line: bool, block: bool)
    returns (index: nat, inQuoted: bool, inLine: bool, inBlock: bool, out: string)
    requires start < |value|
    requires !(quoted && line) && !(quoted && block) && !(line && block)
    ensures !(inQuoted && inLine) && !(inQuoted && inBlock) && !(inLine && inBlock)
    ensures var step := StepOf(ModeOf(quoted, line, block), value[start..]);
      index == start + step.width && out == step.out && ModeOf(inQuoted, inLine, inBlock) == step.next
  {
    index, inQuoted, inLine, inBlock, out := start, quoted, line, block, "";
    if inLine {
      if value[index] == '\n' {
        inLine, out := false, " ";
      }
    } else if inBlock {
      if value[index] == '*' && index + 1 < |value| && value[index + 1] == '/' {
        inBlock, out := false, " ";
        index := index + 1;
      }
    } else if inQuoted {
      if value[index] == '\'' {
        if index + 1 < |value| && value[index + 1] == '\'' {
          index := index + 1;
        } else {
          inQuoted, out := false, " ";
        }
      }
    } else if value[index] == '\'' {
      inQuoted, out := true, " ";
    } else if value[index] == '-' && index + 1 < |value| && value[index + 1] == '-' {
      inLine, out := true, " ";
      index := index + 1;
    } else if value[index] == '/' && index + 1 < |value| && value[index + 1] == '*' {
      inBlock, out := true, " ";
      index := index + 1;
    } else {
      out := [value[index]];
    }
    index := index + 1;
  }

  lemma ScanAdvances(written: string, m: Mode, value: string, index: nat)
    requires index < |value|
    ensures var step := StepOf(m, value[index..]);
      written + Sanitized(m, value[index..]) == (written + step.out) + Sanitized(step.next, value[index + step.width..])
  {
    var step := StepOf(m, value[index..]);
    assert value[index..][step.width..] == value[index + step.width..];
  }

  /** The scanner: one index, three flags and an output buffer. */
  method SanitizeClause(value: string) returns (result: string)
    ensures result == Sanitized(Normal, value)
  {
    result := [];
    var inQuoted, inLine, inBlock := false, false, false;
    var index := 0;
    assert value[0..] == value;
    while index < |value|
      invariant 0 <= index <= |value|
      invariant !(inQuoted && inLine) && !(inQuoted && inBlock) && !(inLine && inBlock)
      invariant result + Sanitized(ModeOf(inQuoted, inLine, inBlock), value[index..]) == Sanitized(Normal, value)
    {
      ScanAdvances(result, ModeOf(inQuoted, inLine, inBlock), value, index);
      var out;
      index, inQuoted, inLine, inBlock, out := ScanRound(value, index, inQuoted, inLine, inBlock);
      result := result + out;
    }
  }

  // ---- the output is clean, and clean text is left alone ----

  ghost predicate Clean(s: string)
  {
    (forall i | 0 <= i < |s| :: s[i] != '\'') &&
    (forall i | 0 <= i < |s| - 1 :: !(s[i] == '-' && s[i + 1] == '-') && !(s[i] == '/' && s[i + 1] == '*'))
  }

  lemma CleanCons(c: char, s: string)
    requires Clean(s) && c != '\''
    requires s != [] ==> !(c == '-' && s[0] == '-') && !(c == '/' && s[0] == '*')
    ensures Clean([c] + s)
  {
    var t := [c] + s;
    forall i | 0 <= i < |t| - 1 ensures !(t[i] == '-' && t[i + 1] == '-') && !(t[i] == '/' && t[i + 1] == '*') {
      if i > 0 { assert t[i] == s[i - 1] && t[i + 1] == s[i]; }
    }
  }

  // No quote, no line-comment opener and no block-comment opener survives, from any
  // starting mode.
  lemma {:induction false} OutputIsClean(m: Mode, s: string)
    ensures Clean(Sanitized(m, s))
    ensures m.Normal? && s != [] && Sanitized(m, s) != [] ==>
              Sanitized(m, s)[0] == ' ' || Sanitized(m, s)[0] == s[0]
    decreases |s|
  {
    if s != [] {
      OutputIsClean(Normal, s[1..]);
      OutputIsClean(m, s[1..]);
      if |s| > 1 { OutputIsClean(Normal, s[2..]); OutputIsClean(Quoted, s[2..]); }
      match m
      case LineComment =>
        if s[0] == '\n' { CleanCons(' ', Sanitized(Normal, s[1..])); }
      case BlockComment =>
        if StartsWith2(s, '*', '/') { CleanCons(' ', Sanitized(Normal, s[2..])); }
      case Quoted =>
        if s[0] == '\'' && !StartsWith2(s, '\'', '\'') { CleanCons(' ', Sanitized(Normal, s[1..])); }
      case Normal => NormalStepIsClean(s);
    }
  }

  lemma {:induction false} NormalStepIsClean(s: string)
    requires s != []
    ensures Clean(Sanitized(Normal, s))
    ensures Sanitized(Normal, s)[0] == ' ' || Sanitized(Normal, s)[0] == s[0]
    decreases |s|, 0
  {
    if s[0] == '\'' {
      OutputIsClean(Quoted, s[1..]);
      CleanCons(' ', Sanitized(Quoted, s[1..]));
    } else if StartsWith2(s, '-', '-') {
      OutputIsClean(LineComment, s[2..]);
      CleanCons(' ', Sanitized(LineComment, s[2..]));
    } else if StartsWith2(s, '/', '*') {
      OutputIsClean(BlockComment, s[2..]);
      CleanCons(' ', Sanitized(BlockComment, s[2..]));
    } else {
      OutputIsClean(Normal, s[1..]);
      CleanCons(s[0], Sanitized(Normal, s[1..]));
    }
  }

  lemma {:induction false} CleanIsFixed(s: string)
    requires Clean(s)
    ensures Sanitized(Normal, s) == s
  {
    if s != [] {
      assert Clean(s[1..]) by {
        forall i | 0 <= i < |s[1..]| - 1
          ensures !(s[1..][i] == '-' && s[1..][i + 1] == '-') && !(s[1..][i] == '/' && s[1..][i + 1] == '*')
        { assert s[1..][i] == s[i + 1] && s[1..][i + 1] == s[i + 2]; }
      }
      CleanIsFixed(s[1..]);
      assert |s| > 1 ==> !(s[0] == '-' && s[0 + 1] == '-') && !(s[0] == '/' && s[0 + 1] == '*');
    }
  }

  lemma SanitizeIdempotent(s: string)
    ensures Sanitized(Normal, Sanitized(Normal, s)) == Sanitized(Normal, s)
  {
    OutputIsClean(Normal, s);
    CleanIsFixed(Sanitized(Normal, s));
  }

  // ---- literals are invisible ----

  /** Scanning `p` from mode `m` ends outside every literal and comment, and not on the
      closing quote of a literal (a quote right after it would continue that literal). */
  predicate Neutral(m: Mode, p: string)
    decreases |p|
  {
    if p == [] then m.Normal? else
      match m
      case LineComment => Neutral(if p[0] == '\n' then Normal else LineComment, p[1..])
      case BlockComment =>
        if StartsWith2(p, '*', '/') then Neutral(Normal, p[2..]) else Neutral(BlockComment, p[1..])
      case Quoted =>
        if StartsWith2(p, '\'', '\'') then Neutral(Quoted, p[2..])
        else if p[0] == '\'' then |p| > 1 && Neutral(Normal, p[1..])
        else Neutral(Quoted, p[1..])
      case Normal =>
        if p[0] == '\'' then Neutral(Quoted, p[1..])
        else if StartsWith2(p, '-', '-') then Neutral(LineComment, p[2..])
        else if StartsWith2(p, '/', '*') then Neutral(BlockComment, p[2..])
        else Neutral(Normal, p[1..])
  }

  /** What follows a neutral prefix does not change how the prefix is scanned. */
  lemma StepOnPrefix(m: Mode, p: string, x: string)
    requires p != [] && Neutral(m, p) && x != [] && x[0] == '\''
    ensures StepOf(m, p + x) == StepOf(m, p)
    ensures Neutral(StepOf(m, p).next, p[StepOf(m, p).width..])
  {
    hide Sanitized;
    assert (p + x)[0] == p[0];
    assert (p + x)[1] == if |p| > 1 then p[1] else '\'';
  }

  lemma EmptyPrefix(m: Mode, x: string)
    requires Neutral(m, [])
    ensures m == Normal && Sanitized(m, []) + Sanitized(Normal, x) == Sanitized(Normal, x)
  {
  }

  lemma {:induction false} ScanSplits(m: Mode, p: string, x: string)
    requires Neutral(m, p) && x != [] && x[0] == '\''
    ensures Sanitized(m, p + x) == Sanitized(m, p) + Sanitized(Normal, x)
    decreases |p|
  {
    hide Sanitized, Neutral;
    if p == [] {
      assert p + x == x;
      EmptyPrefix(m, x);
    } else {
      StepOnPrefix(m, p, x);
      var step := StepOf(m, p);
      hide StepOf;
      var rest := p[step.width..];
      assert (p + x)[step.width..] == rest + x;
      ScanSplits(step.next, rest, x);
      assert step.out + (Sanitized(step.next, rest) + Sanitized(Normal, x))
             == (step.out + Sanitized(step.next, rest)) + Sanitized(Normal, x);
    }
  }

  /** The body of an SQL literal: every quote doubled. */
  function LiteralBody(v: string): string
  {
    if v == [] then [] else (if v[0] == '\'' then "''" else [v[0]]) + LiteralBody(v[1..])
  }

  lemma {:induction false} LiteralVanishes(v: string, suffix: string)
    requires suffix != [] ==> suffix[0] != '\''
    ensures Sanitized(Quoted, LiteralBody(v) + "'" + suffix) == [' '] + Sanitized(Normal, suffix)
  {
    var s := LiteralBody(v) + "'" + suffix;
    if v == [] {
      assert s == "'" + suffix && s[1..] == suffix;
    } else {
      var k := if v[0] == '\'' then 2 else 1;
      assert s[k..] == LiteralBody(v[1..]) + "'" + suffix;
      LiteralVanishes(v[1..], suffix);
    }
  }

  lemma WholeLiteralVanishes(v: string, suffix: string)
    requires suffix != [] ==> suffix[0] != '\''
    ensures Sanitized(Normal, "'" + (LiteralBody(v) + "'" + suffix)) == "  " + Sanitized(Normal, suffix)
  {
    var x := "'" + (LiteralBody(v) + "'" + suffix);
    var step := StepOf(Normal, x);
    assert x[1..] == LiteralBody(v) + "'" + suffix;
    LiteralVanishes(v, suffix);
    hide Sanitized;
    assert Sanitized(Normal, x) == " " + ([' '] + Sanitized(Normal, suffix));
  }

  /** A literal between a neutral prefix and a suffix that does not start with a quote leaves
      the same output whatever text it holds. */
  lemma LiteralContentInvisible(prefix: string, v: string, suffix: string)
    requires Neutral(Normal, prefix)
    requires suffix != [] ==> suffix[0] != '\''
    ensures Sanitized(Normal, prefix + "'" + LiteralBody(v) + "'" + suffix)
            == Sanitized(Normal, prefix) + "  " + Sanitized(Normal, suffix)
  {
    hide Sanitized, Neutral, LiteralBody;
    var x := "'" + (LiteralBody(v) + "'" + suffix);
    assert prefix + "'" + LiteralBody(v) + "'" + suffix == prefix + x;
    ScanSplits(Normal, prefix, x);
    WholeLiteralVanishes(v, suffix);
  }

  // ---- dependency keywords ----

  function Lower(c: char): char
  {
    if 'A' <= c <= 'Z' then c - 'A' + 'a' else c
  }

  function LowerText(s: string): (r: string)
    ensures |r| == |s|
    ensures forall i | 0 <= i < |s| :: r[i] == Lower(s[i])
  {
    seq(|s|, i requires 0 <= i < |s| => Lower(s[i]))
  }

  predicate IsWordChar(c: char)
  {
    'a' <= c <= 'z' || 'A' <= c <= 'Z' || IsDigit(c) || c == '_'
  }

  const KEYWORDS: seq<string> := ["select", "join", "exists", "with", "union", "intersect", "except"]

  /** `keyword` stands at position `i` as a whole word, in any letter case. */
  predicate WordAt(s: string, i: nat, keyword: string)
  {
    i + |keyword| <= |s| &&
    LowerText(s[i..i + |keyword|]) == keyword &&
    (i == 0 || !IsWordChar(s[i - 1])) &&
    (i + |keyword| == |s| || !IsWordChar(s[i + |keyword|]))
  }

  predicate HasKeyword(s: string)
  {
    exists i, k | 0 <= i < |s| && 0 <= k < |KEYWORDS| :: WordAt(s, i, KEYWORDS[k])
  }

  predicate ContainsDependencyKeyword(value: string)
  {
    HasKeyword(Sanitized(Normal, value))
  }

  /** Sanitizing first makes no difference to the test. */
  lemma KeywordTestIgnoresSanitizing(value: string)
    ensures ContainsDependencyKeyword(Sanitized(Normal, value)) <==> ContainsDependencyKeyword(value)
  {
    SanitizeIdempotent(value);
  }

  // ---- which clauses are recognised ----

  /** The seven words, as text. */
  predicate DependencyWord(w: string)
  {
    w == "select" || w == "join" || w == "exists" || w == "with" || w == "union" || w == "intersect" || w == "except"
  }

  /** An ASCII letter, digit or underscore: what a word boundary is measured against. */
  predicate WordLetter(c: char)
  {
    'a' <= c <= 'z' || 'A' <= c <= 'Z' || '0' <= c <= '9' || c == '_'
  }

  /** `text` is the lower-case word `w` in any letter case. */
  predicate Spells(text: string, w: string)
  {
    |text| == |w| && forall i | 0 <= i < |w| :: text[i] == w[i] || (text[i] as int == w[i] as int - 32)
  }

  predicate LowerLetters(w: string)
  {
    forall i | 0 <= i < |w| :: 'a' <= w[i] <= 'z'
  }

  lemma WordIsLetters(w: string)
    requires DependencyWord(w)
    ensures LowerLetters(w) && |w| >= 4
  {
  }

  lemma SpellsIff(text: string, w: string)
    requires LowerLetters(w)
    ensures Spells(text, w) <==> LowerText(text) == w
  {
    if |text| == |w| {
      forall i | 0 <= i < |w| ensures (text[i] == w[i] || (text[i] as int == w[i] as int - 32)) <==> Lower(text[i]) == w[i] {}
      if Spells(text, w) { assert LowerText(text) == w; }
      if LowerText(text) == w {
        forall i | 0 <= i < |w| ensures Lower(text[i]) == w[i] { assert LowerText(text)[i] == w[i]; }
      }
    }
  }

  /** The word `w` stands in `s` at `i`, in any letter case, with no letter, digit or underscore next to it. */
  predicate Stands(s: string, i: nat, w: string)
  {
    i + |w| <= |s| && Spells(s[i..i + |w|], w) && (i == 0 || !WordLetter(s[i - 1])) && (i + |w| == |s| || !WordLetter(s[i + |w|]))
  }

  ghost predicate StandsIn(s: string, w: string)
  {
    exists i :: 0 <= i < |s| && Stands(s, i, w)
  }

  lemma StandsIff(s: string, i: nat, w: string)
    requires LowerLetters(w)
    ensures Stands(s, i, w) <==> WordAt(s, i, w)
  {
    if i + |w| <= |s| { SpellsIff(s[i..i + |w|], w); }
  }

  lemma KeywordsAreTheWords()
    ensures forall w :: DependencyWord(w) <==> exists k | 0 <= k < |KEYWORDS| :: KEYWORDS[k] == w
  {
    forall w | DependencyWord(w) ensures exists k | 0 <= k < |KEYWORDS| :: KEYWORDS[k] == w {
      assert KEYWORDS[0] == "select" && KEYWORDS[1] == "join" && KEYWORDS[2] == "exists" && KEYWORDS[3] == "with";
      assert KEYWORDS[4] == "union" && KEYWORDS[5] == "intersect" && KEYWORDS[6] == "except";
    }
  }

  /** A text is recognised exactly when one of the seven words stands in what is left of it without its literals and
      comments. */
  lemma RecognisedIff(value: string)
    ensures ContainsDependencyKeyword(value) <==> exists w :: DependencyWord(w) && StandsIn(Sanitized(Normal, value), w)
  {
    hide Sanitized, Stands, WordAt, DependencyWord;
    var s := Sanitized(Normal, value);
    KeywordsAreTheWords();
    if HasKeyword(s) {
      var i, k :| 0 <= i < |s| && 0 <= k < |KEYWORDS| && WordAt(s, i, KEYWORDS[k]);
      assert DependencyWord(KEYWORDS[k]);
      WordIsLetters(KEYWORDS[k]);
      StandsIff(s, i, KEYWORDS[k]);
      assert StandsIn(s, KEYWORDS[k]);
    }
    if exists w :: DependencyWord(w) && StandsIn(s, w) {
      var w :| DependencyWord(w) && StandsIn(s, w);
      var i :| 0 <= i < |s| && Stands(s, i, w);
      var k :| 0 <= k < |KEYWORDS| && KEYWORDS[k] == w;
      WordIsLetters(w);
      StandsIff(s, i, w);
      assert WordAt(s, i, KEYWORDS[k]);
    }
  }

  // ---- a word in a clause is not lost ----

  lemma StepBeforeWord(m: Mode, p: string, x: string)
    requires p != [] && Neutral(m, p) && x != [] && WordLetter(x[0])
    ensures StepOf(m, p + x) == StepOf(m, p)
    ensures Neutral(StepOf(m, p).next, p[StepOf(m, p).width..])
  {
    hide Sanitized;
    assert (p + x)[0] == p[0];
    assert (p + x)[1] == if |p| > 1 then p[1] else x[0];
  }

  lemma {:induction false} ScanSplitsAtWord(m: Mode, p: string, x: string)
    requires Neutral(m, p) && x != [] && WordLetter(x[0])
    ensures Sanitized(m, p + x) == Sanitized(m, p) + Sanitized(Normal, x)
    decreases |p|
  {
    hide Sanitized, Neutral;
    if p == [] {
      assert p + x == x;
      EmptyPrefix(m, x);
    } else {
      StepBeforeWord(m, p, x);
      var step := StepOf(m, p);
      hide StepOf;
      var rest := p[step.width..];
      assert (p + x)[step.width..] == rest + x;
      ScanSplitsAtWord(step.next, rest, x);
      assert step.out + (Sanitized(step.next, rest) + Sanitized(Normal, x))
             == (step.out + Sanitized(step.next, rest)) + Sanitized(Normal, x);
    }
  }

  lemma {:induction false} WordKept(word: string, suffix: string)
    requires forall i | 0 <= i < |word| :: WordLetter(word[i])
    ensures Sanitized(Normal, word + suffix) == word + Sanitized(Normal, suffix)
  {
    if word == [] {
      assert word + suffix == suffix;
    } else {
      assert (word + suffix)[1..] == word[1..] + suffix;
      WordKept(word[1..], suffix);
      assert word == [word[0]] + word[1..];
    }
  }

  /** What is left of a neutral text that ends at a boundary ends at one. */
  lemma {:induction false} BoundaryKept(m: Mode, p: string)
    requires p != [] && Neutral(m, p) && !WordLetter(p[|p| - 1])
    ensures var out := Sanitized(m, p); out != [] && !WordLetter(out[|out| - 1])
    decreases |p|
  {
    var step := StepOf(m, p);
    var rest := p[step.width..];
    assert rest != [] ==> rest[|rest| - 1] == p[|p| - 1];
    NeutralRest(m, p);
    hide Sanitized, Neutral;
    if rest == [] {
      EmptyPrefix(step.next, []);
      assert Sanitized(m, p) == step.out + Sanitized(step.next, []);
    } else {
      BoundaryKept(step.next, rest);
      assert Sanitized(m, p) == step.out + Sanitized(step.next, rest);
    }
  }

  lemma NeutralRest(m: Mode, p: string)
    requires p != [] && Neutral(m, p)
    ensures Neutral(StepOf(m, p).next, p[StepOf(m, p).width..])
    ensures p[StepOf(m, p).width..] == [] && !WordLetter(p[|p| - 1]) ==>
      StepOf(m, p).out != [] && !WordLetter(StepOf(m, p).out[|StepOf(m, p).out| - 1])
  {
    hide Sanitized;
  }

  /** Any of the seven words, in any letter case, outside literals and comments and between word boundaries, makes a
      clause a dependent one, whatever stands around it. */
  lemma WordIsRecognised(prefix: string, word: string, w: string, suffix: string)
    requires DependencyWord(w) && Spells(word, w)
    requires Neutral(Normal, prefix) && (prefix == [] || !WordLetter(prefix[|prefix| - 1]))
    requires suffix == [] || !WordLetter(suffix[0])
    ensures ContainsDependencyKeyword(prefix + word + suffix)
  {
    hide Sanitized, Neutral, DependencyWord, Spells;
    SpelledIsWord(word, w);
    var x := word + suffix;
    assert prefix + word + suffix == prefix + x && x[0] == word[0];
    ScanSplitsAtWord(Normal, prefix, x);
    WordKept(word, suffix);
    NothingLeft();
    if prefix != [] { BoundaryKept(Normal, prefix); }
    if suffix != [] { NormalStepIsClean(suffix); }
    StandsBetween(Sanitized(Normal, prefix), word, Sanitized(Normal, suffix), w);
    RecognisedIff(prefix + word + suffix);
  }

  lemma SpelledIsWord(word: string, w: string)
    requires DependencyWord(w) && Spells(word, w)
    ensures w != [] && word != [] && forall i | 0 <= i < |word| :: WordLetter(word[i])
  {
    WordIsLetters(w);
  }

  lemma StandsBetween(a: string, word: string, b: string, w: string)
    requires Spells(word, w) && w != [] && (a == [] || !WordLetter(a[|a| - 1])) && (b == [] || !WordLetter(b[0]))
    ensures StandsIn(a + (word + b), w)
  {
    var s := a + (word + b);
    assert s[|a|..|a| + |w|] == word;
    assert |a| > 0 ==> s[|a| - 1] == a[|a| - 1];
    assert b != [] ==> s[|a| + |w|] == b[0];
    assert Stands(s, |a|, w);
  }

  lemma NothingLeft()
    ensures Sanitized(Normal, []) == []
  {
  }
}
