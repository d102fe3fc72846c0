/** Reading relation names and column lists from a request. Models internal/protocol/identifiers.go.
    Texts are byte strings, one character below 256 a byte. The reader takes each byte for a code
    point and writes it out in UTF-8, so its result is the encoding of the bytes it kept. */
module Identifiers {
  import opened Strings
  import opened Keys

  datatype Problem = ZeroLength | SpecialCharacter(c: char) | Unterminated | NotQualified

  datatype Result<+T> = Ok(value: T) | Err(problem: Problem)

  // ---- characters ----

  /** unicode.IsSpace below 256. */
  predicate IsSpace(c: char)
  {
    '\t' <= c <= '\r' || c == ' ' || c == '\U{0085}' || c == '\U{00a0}'
  }

  /** unicode.IsLetter below 256. */
  predicate IsLetter(c: char)
  {
    'a' <= c <= 'z' || 'A' <= c <= 'Z' || c == '\U{00aa}' || c == '\U{00b5}' || c == '\U{00ba}' ||
    ('\U{00c0}' <= c <= '\U{00ff}' && c != '\U{00d7}' && c != '\U{00f7}')
  }

  predicate MayStandBare(c: char)
  {
    c == '_' || c == '$' || IsLetter(c) || IsDigit(c) || IsSpace(c)
  }

  function Lower(c: char): char
  {
    if 'A' <= c <= 'Z' || ('\U{00c0}' <= c <= '\U{00de}' && c != '\U{00d7}') then (c as int + 32) as char else c
  }

  function LowerAll(s: string): (r: string)
    ensures |r| == |s|
  {
    seq(|s|, i requires 0 <= i < |s| => Lower(s[i]))
  }

  /** strings.TrimSpace on code points below 256. */
  function TrimLeft(s: string): string
  {
    if s != [] && IsSpace(s[0]) then TrimLeft(s[1..]) else s
  }

  function TrimRight(s: string): string
  {
    if s != [] && IsSpace(s[|s| - 1]) then TrimRight(s[..|s| - 1]) else s
  }

  function Trim(s: string): string { TrimRight(TrimLeft(s)) }

  /** WriteRune for a code point below 256; one above is not a byte and is left alone. */
  function EncodeOne(c: char): (r: string)
    ensures 1 <= |r| <= 2
  {
    if c < '\U{0080}' || c > '\U{00ff}' then [c]
    else if c < '\U{00c0}' then ['\U{00c2}', c]
    else ['\U{00c3}', (c as int - 64) as char]
  }

  function Encode(s: string): string
  {
    if s == [] then [] else Encode(s[..|s| - 1]) + EncodeOne(s[|s| - 1])
  }

  /** How many bytes a white-space character at the front of UTF-8 text takes; zero if there is none. */
  function SpaceWidth(s: string): (n: nat)
    ensures n <= |s|
  {
    if s == [] then 0
    else if '\t' <= s[0] <= '\r' || s[0] == ' ' then 1
    else if |s| >= 2 && s[0] == '\U{00c2}' && (s[1] == '\U{0085}' || s[1] == '\U{00a0}') then 2
    else if |s| < 3 then 0
    else if s[0] == '\U{00e1}' && s[1] == '\U{009a}' && s[2] == '\U{0080}' then 3
    else if s[0] == '\U{00e2}' && s[1] == '\U{0080}' &&
            ('\U{0080}' <= s[2] <= '\U{008a}' || s[2] == '\U{00a8}' || s[2] == '\U{00a9}' || s[2] == '\U{00af}') then 3
    else if s[0] == '\U{00e2}' && s[1] == '\U{0081}' && s[2] == '\U{009f}' then 3
    else if s[0] == '\U{00e3}' && s[1] == '\U{0080}' && s[2] == '\U{0080}' then 3
    else 0
  }

  predicate AllSpace(s: string)
  {
    s == [] || (SpaceWidth(s) > 0 && AllSpace(s[SpaceWidth(s)..]))
  }

  // ---- the reader ----

  /** What the loop remembers: finished parts, the open token, whether a quotation is open and whether
      the token began with one. */
  datatype State = State(parts: seq<string>, buf: string, inQuotes: bool, quoted: bool)

  const START := State([], [], false, false)

  /** The flush closure. */
  function Flush(st: State): Result<State>
  {
    var token := Trim(st.buf);
    if token == [] then Err(ZeroLength)
    else Ok(State(st.parts + [Encode(if st.quoted then token else LowerAll(token))], [], st.inQuotes, false))
  }

  function Finish(st: State): Result<seq<string>>
  {
    if st.inQuotes then Err(Unterminated)
    else match Flush(st) case Err(p) => Err(p) case Ok(done) => Ok(done.parts)
  }

  /** A quotation mark that is not doubled. */
  function Toggle(st: State): State
  {
    st.(quoted := st.quoted || (!st.inQuotes && Trim(st.buf) == []), inQuotes := !st.inQuotes)
  }

  /** What remains to be read, from a given state. */
  function ReadFrom(rest: string, sep: char, st: State): Result<seq<string>>
  {
    if rest == [] then Finish(st)
    else if rest[0] == '"' then
      if st.inQuotes && |rest| > 1 && rest[1] == '"' then ReadFrom(rest[2..], sep, st.(buf := st.buf + ['"']))
      else ReadFrom(rest[1..], sep, Toggle(st))
    else if rest[0] == sep && !st.inQuotes then
      match Flush(st) case Err(p) => Err(p) case Ok(next) => ReadFrom(rest[1..], sep, next)
    else if !st.inQuotes && !MayStandBare(rest[0]) then Err(SpecialCharacter(rest[0]))
    else ReadFrom(rest[1..], sep, st.(buf := st.buf + [rest[0]]))
  }

  function ReadSeparated(input: string, sep: char): Result<seq<string>>
  {
    if AllSpace(input) then Err(ZeroLength) else ReadFrom(input, sep, START)
  }

  /** parseSeparatedIdentifiers: the loop over bytes. */
  method ParseSeparated(input: string, sep: char) returns (r: Result<seq<string>>)
    ensures r == ReadSeparated(input, sep)
  {
    hide AllSpace, Flush, Trim, MayStandBare;
    if AllSpace(input) {
      return Err(ZeroLength);
    }
    var st, i := START, 0;
    assert input[0..] == input;
    while i < |input|
      invariant i <= |input| && ReadFrom(input[i..], sep, st) == ReadFrom(input, sep, START)
      decreases |input| - i
    {
      var ch := input[i];
      ghost var rest := input[i..];
      assert rest[0] == ch && rest[1..] == input[i + 1..] && (|rest| > 1 ==> rest[1] == input[i + 1] && rest[2..] == input[i + 2..]);
      if ch == '"' {
        if st.inQuotes && i + 1 < |input| && input[i + 1] == '"' {
          st := st.(buf := st.buf + ['"']);
          i := i + 1;
        } else {
          st := Toggle(st);
        }
      } else if ch == sep && !st.inQuotes {
        var flushed := Flush(st);
        if flushed.Err? {
          return Err(flushed.problem);
        }
        st := flushed.value;
      } else if !st.inQuotes && !MayStandBare(ch) {
        return Err(SpecialCharacter(ch));
      } else {
        st := st.(buf := st.buf + [ch]);
      }
      i := i + 1;
    }
    assert input[i..] == [];
    r := Finish(st);
  }

  function ReadRelation(input: string): Result<Relation>
  {
    match ReadSeparated(input, '.')
    case Err(p) => Err(p)
    case Ok(parts) =>
      if |parts| == 1 then Ok(Relation("public", parts[0]))
      else if |parts| == 2 then Ok(Relation(parts[0], parts[1]))
      else Err(NotQualified)
  }

  // ---- reading what quoting writes ----

  /** The inside of a quoted name is read back byte by byte. */
  lemma {:induction false} ReadsDoubled(v: string, tail: string, sep: char, st: State)
    requires st.inQuotes && (tail == [] || tail[0] != '"')
    ensures ReadFrom(DoubledThen(v, tail), sep, st) == ReadFrom(tail, sep, Toggle(st.(buf := st.buf + v)))
  {
    hide Flush, Trim, MayStandBare;
    var s := DoubledThen(v, tail);
    if v == [] {
      assert s[1..] == tail && st.buf + v == st.buf;
    } else {
      assert (st.buf + [v[0]]) + v[1..] == st.buf + v;
      if v[0] == '"' {
        assert s[0] == '"' && s[1] == '"' && s[2..] == DoubledThen(v[1..], tail);
      } else {
        assert s[1..] == DoubledThen(v[1..], tail);
      }
      ReadsDoubled(v[1..], tail, sep, st.(buf := st.buf + [v[0]]));
    }
  }

  /** A quoted name where a token may begin. */
  lemma ReadsQuoted(v: string, tail: string, sep: char, parts: seq<string>)
    requires tail == [] || tail[0] != '"'
    ensures ReadFrom("\"" + DoubledThen(v, tail), sep, State(parts, [], false, false)) ==
            ReadFrom(tail, sep, State(parts, v, false, true))
  {
    hide Flush, MayStandBare;
    var x := "\"" + DoubledThen(v, tail);
    assert x[0] == '"' && x[1..] == DoubledThen(v, tail);
    assert Trim([]) == [];
    ReadsDoubled(v, tail, sep, State(parts, [], true, true));
    assert [] + v == v;
  }

  function NameOf(v: string): Result<string>
  {
    if Trim(v) == [] then Err(ZeroLength) else Ok(Encode(Trim(v)))
  }

  lemma QuoteRelationThen(r: Relation)
    ensures QuoteRelation(r) == "\"" + DoubledThen(r.schema, "." + ("\"" + DoubledThen(r.table, "")))
  {
    DoubledThenIs(r.table, "");
    DoubledThenIs(r.schema, "." + ("\"" + DoubledThen(r.table, "")));
    hide Doubled, DoubledThen;
    assert Doubled(r.table) + "\"" + "" == Doubled(r.table) + "\"";
    assert QuoteRelation(r) == "\"" + (Doubled(r.schema) + "\"" + ("." + ("\"" + (Doubled(r.table) + "\""))));
  }

  /** What the reader makes of a printed relation: each name trimmed and encoded, or an error when
      nothing is left of one. */
  lemma ReadPrinted(r: Relation)
    ensures ReadRelation(QuoteRelation(r)) ==
      match NameOf(r.schema) {
        case Err(p) => Err(p)
        case Ok(schema) => match NameOf(r.table) { case Err(p) => Err(p) case Ok(table) => Ok(Relation(schema, table)) }
      }
  {
    hide Trim, Encode, DoubledThen, QuoteRelation;
    QuoteRelationThen(r);
    var tail := "\"" + DoubledThen(r.table, "");
    var input := "\"" + DoubledThen(r.schema, "." + tail);
    assert input[0] == '"';
    ReadsQuoted(r.schema, "." + tail, '.', []);
    var st := State([], r.schema, false, true);
    assert ("." + tail)[0] == '.' && ("." + tail)[1..] == tail;
    match NameOf(r.schema)
    case Err(p) =>
    case Ok(schema) =>
      assert [] + [schema] == [schema];
      assert Flush(st) == Ok(State([schema], [], false, false));
      ReadsQuoted(r.table, "", '.', [schema]);
  }

  // ---- when the result is the original ----

  /** Nonempty, ASCII and without white space at its ends. */
  predicate Plain(v: string)
  {
    v != [] && !IsSpace(v[0]) && !IsSpace(v[|v| - 1]) && forall i | 0 <= i < |v| :: v[i] < '\U{0080}'
  }

  predicate Bytes(v: string)
  {
    forall i | 0 <= i < |v| :: v[i] <= '\U{00ff}'
  }

  lemma {:induction false} TrimLeftIs(s: string) returns (l: string)
    ensures s == l + TrimLeft(s) && (forall i | 0 <= i < |l| :: IsSpace(l[i]))
    ensures TrimLeft(s) != [] ==> !IsSpace(TrimLeft(s)[0])
  {
    if s != [] && IsSpace(s[0]) {
      var rest := TrimLeftIs(s[1..]);
      l := [s[0]] + rest;
    } else {
      l := [];
    }
  }

  lemma {:induction false} TrimRightIs(s: string) returns (r: string)
    ensures s == TrimRight(s) + r && (forall i | 0 <= i < |r| :: IsSpace(r[i]))
    ensures TrimRight(s) != [] ==> !IsSpace(TrimRight(s)[|TrimRight(s)| - 1])
  {
    if s != [] && IsSpace(s[|s| - 1]) {
      var rest := TrimRightIs(s[..|s| - 1]);
      r := rest + [s[|s| - 1]];
    } else {
      r := [];
    }
  }

  lemma TrimIs(s: string) returns (l: string, r: string)
    requires Trim(s) != []
    ensures s == l + Trim(s) + r && (forall i | 0 <= i < |l| :: IsSpace(l[i])) && (forall i | 0 <= i < |r| :: IsSpace(r[i]))
    ensures !IsSpace(Trim(s)[0]) && !IsSpace(Trim(s)[|Trim(s)| - 1])
  {
    l := TrimLeftIs(s);
    r := TrimRightIs(TrimLeft(s));
    hide TrimLeft, TrimRight;
    assert TrimLeft(s)[0] == Trim(s)[0];
  }

  lemma {:induction false} EncodeAscii(s: string)
    requires forall i | 0 <= i < |s| :: s[i] < '\U{0080}'
    ensures Encode(s) == s
  {
    if s != [] { EncodeAscii(s[..|s| - 1]); }
  }

  /** A byte above ASCII makes the text longer. */
  lemma {:induction false} EncodeGrows(s: string)
    requires Bytes(s)
    ensures |Encode(s)| >= |s|
    ensures |Encode(s)| == |s| ==> forall i | 0 <= i < |s| :: s[i] < '\U{0080}'
  {
    if s != [] { EncodeGrows(s[..|s| - 1]); }
  }

  /** What an encoded text can hold: ASCII, the two lead bytes, or a continuation byte. */
  predicate Encoded(c: char)
  {
    c < '\U{0080}' || c == '\U{00c2}' || c == '\U{00c3}' || '\U{0080}' <= c <= '\U{00bf}'
  }

  lemma {:induction false} EncodeHolds(s: string)
    requires Bytes(s)
    ensures forall i | 0 <= i < |Encode(s)| :: Encoded(Encode(s)[i])
  {
    if s != [] {
      EncodeHolds(s[..|s| - 1]);
    }
  }

  lemma {:induction false} EncodeHead(s: string)
    requires s != [] && Bytes(s)
    ensures Encode(s) != [] && Encode(s)[0] == EncodeOne(s[0])[0]
  {
    if |s| == 1 {
      assert s[..0] == [] && Encode([]) + EncodeOne(s[0]) == EncodeOne(s[0]);
    } else {
      EncodeHead(s[..|s| - 1]);
    }
  }

  lemma HeadNotSpace(c: char)
    requires c <= '\U{00ff}' && !IsSpace(c)
    ensures !IsSpace(EncodeOne(c)[0])
  {
  }

  /** If the last byte of an encoded character looks like white space, the character is no byte of an
      encoded text. */
  lemma LastNotSpace(c: char)
    requires c <= '\U{00ff}' && !IsSpace(c) && Encoded(c)
    ensures var e := EncodeOne(c); !IsSpace(e[|e| - 1])
  {
  }

  /** Trimming and encoding gives the name back exactly when it is plain. */
  lemma NameKeptIff(v: string)
    requires Bytes(v)
    ensures NameOf(v) == Ok(v) <==> Plain(v)
  {
    if Plain(v) {
      hide Encode;
      assert TrimLeft(v) == v && TrimRight(v) == v;
      EncodeAscii(v);
    } else if NameOf(v).Ok? && Encode(Trim(v)) == v {
      KeptIsPlain(v);
    }
  }

  lemma NoLeft(l: string, y: string)
    requires (forall i | 0 <= i < |l| :: IsSpace(l[i])) && l + y != [] && !IsSpace((l + y)[0])
    ensures l == []
  {
  }

  lemma NoRight(y: string, r: string)
    requires (forall i | 0 <= i < |r| :: IsSpace(r[i])) && y + r != [] && !IsSpace((y + r)[|y + r| - 1])
    ensures r == []
  {
  }

  /** Nothing was trimmed on the left: the first byte of an encoding is white space only if its first
      character is. */
  lemma KeptLeft(v: string, l: string, x: string, r: string)
    requires Bytes(x) && x != [] && !IsSpace(x[0]) && v == l + (x + r) && v == Encode(x) && forall i | 0 <= i < |l| :: IsSpace(l[i])
    ensures l == []
  {
    hide Encode, EncodeOne, IsSpace;
    EncodeHead(x);
    HeadNotSpace(x[0]);
    NoLeft(l, x + r);
  }

  lemma KeptRight(v: string, x: string, r: string)
    requires Bytes(x) && x != [] && !IsSpace(x[|x| - 1]) && v == x + r && v == Encode(x) && forall i | 0 <= i < |r| :: IsSpace(r[i])
    ensures r == []
  {
    hide Encode, EncodeOne, IsSpace, Encoded;
    EncodeHolds(x);
    assert v[|x| - 1] == x[|x| - 1];
    LastNotSpace(x[|x| - 1]);
    EncodeLast(x);
    NoRight(x, r);
  }

  lemma KeptIsPlain(v: string)
    requires Bytes(v) && Trim(v) != [] && Encode(Trim(v)) == v
    ensures Plain(v)
  {
    hide Encode, Trim, IsSpace;
    var l, r := TrimIs(v);
    var x := Trim(v);
    PartOfBytes(v, l, x, r);
    assert v == l + (x + r);
    KeptLeft(v, l, x, r);
    assert v == x + r;
    KeptRight(v, x, r);
    assert v == x;
    EncodeGrows(x);
  }

  lemma PartOfBytes(v: string, l: string, x: string, r: string)
    requires Bytes(v) && v == l + x + r
    ensures Bytes(x)
  {
    assert forall i | 0 <= i < |x| :: x[i] == v[|l| + i];
  }

  lemma EncodeLast(s: string)
    requires s != []
    ensures var e := EncodeOne(s[|s| - 1]); Encode(s) != [] && Encode(s)[|Encode(s)| - 1] == e[|e| - 1]
  {
  }

  /** ParseRelation undoes the printing of a quoted relation exactly when both names are nonempty ASCII
      without surrounding white space. */
  lemma ReadUndoesPrintIff(r: Relation)
    requires Bytes(r.schema) && Bytes(r.table)
    ensures ReadRelation(QuoteRelation(r)) == Ok(r) <==> Plain(r.schema) && Plain(r.table)
  {
    hide ReadRelation, QuoteRelation, NameOf, Plain;
    ReadPrinted(r);
    NameKeptIff(r.schema);
    NameKeptIff(r.table);
  }

  /** A name with a byte above ASCII is changed: `é` in UTF-8 comes back as four bytes. */
  lemma AccentedNameChanges()
    ensures NameOf(['\U{00c3}', '\U{00a9}']) == Ok(['\U{00c3}', '\U{0083}', '\U{00c2}', '\U{00a9}'])
  {
    var v := ['\U{00c3}', '\U{00a9}'];
    assert Trim(v) == v;
    assert v[..1] == ['\U{00c3}'] && v[..1][..0] == [];
    assert Encode(v[..1]) == ['\U{00c3}', '\U{0083}'];
    assert Encode(v) == Encode(v[..1]) + EncodeOne(v[1]) == ['\U{00c3}', '\U{0083}', '\U{00c2}', '\U{00a9}'];
  }

  /** An unquoted identifier is folded to lower case, a quoted one is not. */
  lemma {:induction false} BareWord(w: string, sep: char, st: State)
    requires !st.inQuotes && forall i | 0 <= i < |w| :: MayStandBare(w[i]) && w[i] != sep
    ensures ReadFrom(w, sep, st) == Finish(st.(buf := st.buf + w))
  {
    hide Flush, MayStandBare, Finish;
    if w == [] {
      assert st.buf + w == st.buf;
    } else {
      NotAQuote(w[0]);
      assert (st.buf + [w[0]]) + w[1..] == st.buf + w;
      BareWord(w[1..], sep, st.(buf := st.buf + [w[0]]));
    }
  }

  lemma NotAQuote(c: char)
    requires MayStandBare(c)
    ensures c != '"'
  {
  }

  lemma BareNameFolds(w: string)
    requires !AllSpace(w) && Trim(w) != [] && forall i | 0 <= i < |w| :: MayStandBare(w[i]) && w[i] != '.'
    ensures ReadRelation(w) == Ok(Relation("public", Encode(LowerAll(Trim(w)))))
  {
    hide AllSpace, Trim, Encode, MayStandBare;
    BareWord(w, '.', START);
    assert [] + w == w;
    hide ReadFrom;
  }

  /** An ASCII letter or digit, an underscore or a dollar sign. */
  predicate NameChar(c: char)
  {
    'a' <= c <= 'z' || 'A' <= c <= 'Z' || '0' <= c <= '9' || c == '_' || c == '$'
  }

  predicate BareName(w: string)
  {
    w != [] && forall i | 0 <= i < |w| :: NameChar(w[i])
  }

  /** The same name with its capitals made small. */
  predicate FoldsTo(w: string, r: string)
  {
    |r| == |w| && forall i | 0 <= i < |w| :: r[i] == if 'A' <= w[i] <= 'Z' then (w[i] as int + 32) as char else w[i]
  }

  /** Bare characters are collected, whatever follows them. */
  lemma {:induction false} BareThen(w: string, tail: string, sep: char, st: State)
    requires !st.inQuotes && forall i | 0 <= i < |w| :: MayStandBare(w[i]) && w[i] != sep
    ensures ReadFrom(w + tail, sep, st) == ReadFrom(tail, sep, st.(buf := st.buf + w))
    decreases |w|
  {
    hide Flush, MayStandBare, Finish, Toggle;
    if w == [] {
      assert w + tail == tail && st.buf + w == st.buf;
    } else {
      NotAQuote(w[0]);
      assert (w + tail)[0] == w[0] && (w + tail)[1..] == w[1..] + tail;
      assert (st.buf + [w[0]]) + w[1..] == st.buf + w;
      BareThen(w[1..], tail, sep, st.(buf := st.buf + [w[0]]));
    }
  }

  lemma BareIsNoSpace(w: string, tail: string)
    requires BareName(w)
    ensures !AllSpace(w + tail) && Trim(w) == w
  {
    assert NameChar(w[0]) && NameChar(w[|w| - 1]);
    assert SpaceWidth(w + tail) == 0 by { assert (w + tail)[0] == w[0]; }
    assert !IsSpace(w[0]) && !IsSpace(w[|w| - 1]);
    hide SpaceWidth, NameChar;
    assert TrimLeft(w) == w && TrimRight(w) == w;
  }

  lemma BareStandsBare(w: string)
    requires BareName(w)
    ensures forall i | 0 <= i < |w| :: MayStandBare(w[i]) && w[i] != '.'
  {
  }

  lemma BareFolds(w: string)
    requires BareName(w)
    ensures FoldsTo(w, Encode(LowerAll(w)))
  {
    hide Encode;
    EncodeAscii(LowerAll(w));
  }

  lemma BareNameIs(w: string)
    requires BareName(w)
    ensures !AllSpace(w) && Trim(w) == w && FoldsTo(w, Encode(LowerAll(w)))
    ensures forall i | 0 <= i < |w| :: MayStandBare(w[i]) && w[i] != '.'
  {
    hide *;
    BareStandsBare(w);
    BareFolds(w);
    BareIsNoSpace(w, []);
    assert w + [] == w;
  }

  /** One bare name after another part or none is flushed in small letters. */
  lemma BareFlushes(parts: seq<string>, w: string)
    requires BareName(w)
    ensures Flush(State(parts, w, false, false)) == Ok(State(parts + [Encode(LowerAll(w))], [], false, false))
  {
    hide Encode, Trim, LowerAll;
    BareNameIs(w);
  }

  /** `Name` reads as public.name and `Schema.Name` as schema.name. */
  lemma NamesFold(a: string, b: string)
    requires BareName(a) && BareName(b)
    ensures var r := ReadRelation(b); r.Ok? && r.value.schema == "public" && FoldsTo(b, r.value.table)
    ensures var r := ReadRelation(a + ['.'] + b); r.Ok? && FoldsTo(a, r.value.schema) && FoldsTo(b, r.value.table)
  {
    hide ReadFrom, Encode, Trim, LowerAll, AllSpace, MayStandBare, Flush, FoldsTo;
    BareNameIs(a);
    BareNameIs(b);
    BareNameFolds(b);
    var text := a + ['.'] + b;
    BareIsNoSpace(a, ['.'] + b);
    assert text == a + (['.'] + b);
    BareThen(a, ['.'] + b, '.', START);
    assert START.buf + a == a;
    BareFlushes([], a);
    AtDot(b, State([], a, false, false), State([] + [Encode(LowerAll(a))], [], false, false));
    BareWord(b, '.', State([Encode(LowerAll(a))], [], false, false));
    assert [] + b == b;
    BareFlushes([Encode(LowerAll(a))], b);
    assert [] + [Encode(LowerAll(a))] == [Encode(LowerAll(a))];
  }

  lemma AtDot(b: string, st: State, next: State)
    requires !st.inQuotes && Flush(st) == Ok(next)
    ensures ReadFrom(['.'] + b, '.', st) == ReadFrom(b, '.', next)
  {
    hide Flush;
    assert (['.'] + b)[1..] == b;
  }
}
