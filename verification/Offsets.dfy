/** Log offsets: `0_<n>` (generated sequence), `0_inf` ("now") and `<lsn>_<pos>`
    (commit position), ordered sequence < now < LSN. Models internal/shapes/offset.go
    on text, with Go's 64-bit integers written out. */
module Offsets {
  import opened Strings

  const TWO_63: int := 0x8000_0000_0000_0000
  const TWO_64: int := 0x1_0000_0000_0000_0000

  const INITIAL_OFFSET := "0_0"

  datatype Parsed = Invalid | Sequence(n: nat) | Now | Lsn(lsn: nat, pos: nat)

  // ---- strconv ----

  /** Two's-complement value of an `int` computation. */
  function Wrap64(x: int): (r: int)
    ensures -TWO_63 <= r < TWO_63
    ensures TWO_63 <= x < TWO_64 ==> r == x - TWO_64
    ensures -TWO_63 <= x < TWO_63 ==> r == x
  {
    (x + TWO_63) % TWO_64 - TWO_63
  }

  function ParseUint64(s: string): (r: Option<nat>)
    ensures r.Some? ==> r.value < TWO_64
  {
    if s != [] && AllDigits(s) && NatValue(s) < TWO_64 then Some(NatValue(s)) else None
  }

  function ParseInt64(s: string): (r: Option<int>)
    ensures r.Some? ==> -TWO_63 <= r.value < TWO_63
  {
    if s == [] then None
    else if s[0] == '-' then
      if s[1..] != [] && AllDigits(s[1..]) && NatValue(s[1..]) <= TWO_63 then Some(0 - NatValue(s[1..]) as int) else None
    else
      var digits := if s[0] == '+' then s[1..] else s;
      if digits != [] && AllDigits(digits) && NatValue(digits) < TWO_63 then Some(NatValue(digits)) else None
  }

  function FormatInt(i: int): string
  {
    if i < 0 then "-" + FormatNat(-i) else FormatNat(i)
  }

  lemma ParseFormatInt(i: int)
    requires -TWO_63 <= i < TWO_63
    ensures ParseInt64(FormatInt(i)) == Some(i)
  {
    NatValueOfFormat(if i < 0 then -i else i);
    if i < 0 {
      assert FormatInt(i)[1..] == FormatNat(-i);
    } else {
      assert IsDigit(FormatNat(i)[0]);
    }
  }

  lemma {:induction false} FormatNatIsZero(n: nat)
    ensures FormatNat(n) == "0" <==> n == 0
  {
    NatValueOfFormat(n);
    NatValueOfFormat(0);
  }

  // ---- parsing and comparing ----

  function ParseOffset(text: string): (p: Parsed)
    ensures p.Sequence? ==> p.n < TWO_63
    ensures p.Lsn? ==> p.lsn < TWO_64 && p.pos < TWO_63
  {
    var raw := if text == "" then INITIAL_OFFSET else text;
    var k := FirstIndex(raw, '_');
    if k == |raw| then Invalid else
      ParseParts(raw[..k], raw[k + 1..])
  }

  function ParseParts(left: string, right: string): (p: Parsed)
    ensures p.Sequence? ==> p.n < TWO_63
    ensures p.Lsn? ==> p.lsn < TWO_64 && p.pos < TWO_63
  {
    if left == "0" then
      if right == "inf" then Now else
        match ParseInt64(right)
        case None => Invalid
        case Some(n) => if n < 0 then Invalid else Sequence(n)
    else
      match ParseUint64(left)
      case None => Invalid
      case Some(lsn) =>
        match ParseInt64(right)
        case None => Invalid
        case Some(pos) => if pos < 0 then Invalid else Lsn(lsn, pos)
  }

  function Rank(p: Parsed): nat
  {
    match p
    case Invalid => 0
    case Sequence(_) => 1
    case Now => 2
    case Lsn(_, _) => 3
  }

  function CompareNat(a: nat, b: nat): int
  {
    if a < b then -1 else if a > b then 1 else 0
  }

  function CompareParsed(a: Parsed, b: Parsed): int
  {
    if Rank(a) != Rank(b) then
      if Rank(a) < Rank(b) then -1 else 1
    else
      match a
      case Invalid => 0
      case Sequence(n) => CompareNat(n, b.n)
      case Now => 0
      case Lsn(lsn, pos) =>
        if lsn != b.lsn then CompareNat(lsn, b.lsn) else CompareNat(pos, b.pos)
  }

  /** Unparseable offsets compare equal to each other and below every parseable one. */
  function CompareOffsets(a: string, b: string): int
  {
    CompareParsed(ParseOffset(a), ParseOffset(b))
  }

  /** CompareOffsets is a total preorder on all strings, and its zero class is
      "denotes the same position". */
  lemma CompareIsTotalPreorder(a: string, b: string, c: string)
    ensures CompareOffsets(a, b) in {-1, 0, 1}
    ensures CompareOffsets(b, a) == -CompareOffsets(a, b)
    ensures CompareOffsets(a, b) == 0 <==> ParseOffset(a) == ParseOffset(b)
    ensures CompareOffsets(a, b) <= 0 && CompareOffsets(b, c) <= 0 ==> CompareOffsets(a, c) <= 0
    ensures CompareOffsets(a, b) < 0 && CompareOffsets(b, c) <= 0 ==> CompareOffsets(a, c) < 0
    ensures CompareOffsets(a, b) <= 0 && CompareOffsets(b, c) < 0 ==> CompareOffsets(a, c) < 0
  {
  }

  // ---- formatting ----

  function FormatSequenceOffset(n: int): string
  {
    "0_" + FormatInt(n)
  }

  function FormatLsnOffset(lsn: nat, pos: int): string
  {
    FormatNat(lsn) + "_" + FormatInt(pos)
  }

  lemma SplitFormatted(d: string, rest: string)
    requires d != [] && AllDigits(d)
    ensures ParseOffset(d + "_" + rest) == ParseParts(d, rest)
  {
    SplitFirst(d, '_', rest);
  }

  /** Parsing undoes the sequence formatter on every non-negative position and
      rejects the text of a negative one. */
  lemma ParseFormatSequence(n: int)
    requires -TWO_63 <= n < TWO_63
    ensures ParseOffset(FormatSequenceOffset(n)) == if n < 0 then Invalid else Sequence(n)
  {
    assert "0_" + FormatInt(n) == "0" + "_" + FormatInt(n);
    SplitFormatted("0", FormatInt(n));
    ParseFormatInt(n);
    assert FormatInt(n)[0] != 'i';
  }

  /** Parsing undoes the LSN formatter exactly when the LSN is positive: LSN zero
      prints as a sequence offset. */
  lemma ParseFormatLsn(lsn: nat, pos: int)
    requires lsn < TWO_64 && -TWO_63 <= pos < TWO_63
    ensures ParseOffset(FormatLsnOffset(lsn, pos)) ==
            if pos < 0 then Invalid else if lsn == 0 then Sequence(pos) else Lsn(lsn, pos)
  {
    hide ParseOffset;
    SplitFormatted(FormatNat(lsn), FormatInt(pos));
    ParseFormatInt(pos);
    FormatNatIsZero(lsn);
    NatValueOfFormat(lsn);
    assert FormatInt(pos)[0] != 'i';
  }

  // ---- generated offsets ----

  function NextGeneratedOffset(current: string, step: nat): string
  {
    match ParseOffset(current)
    case Invalid => FormatSequenceOffset(Wrap64(step + 1))
    case Lsn(lsn, pos) => FormatLsnOffset(lsn, Wrap64(pos + step + 1))
    case Now => FormatLsnOffset(Wrap64(step + 1) % TWO_64, 0)
    case Sequence(n) => FormatSequenceOffset(Wrap64(n + step + 1))
  }

  /** The position that a generated offset adds to. */
  function GeneratedBase(p: Parsed): nat
  {
    match p
    case Invalid => 0
    case Now => 0
    case Sequence(n) => n
    case Lsn(_, pos) => pos
  }

  lemma NextAfterNow(current: string, step: nat)
    requires step < TWO_63 && ParseOffset(current).Now?
    ensures ParseOffset(NextGeneratedOffset(current, step)) == Lsn(step + 1, 0)
  {
    hide ParseOffset, FormatLsnOffset;
    assert Wrap64(step + 1) % TWO_64 == step + 1;
    ParseFormatLsn(step + 1, 0);
  }

  /** What `NextGeneratedOffset` denotes as long as the 64-bit sum does not overflow. */
  lemma NextGeneratedDenotes(current: string, step: nat)
    requires step < TWO_63
    ensures var p := ParseOffset(current);
      var sum := GeneratedBase(p) + step + 1;
      ParseOffset(NextGeneratedOffset(current, step)) ==
        if p.Now? then Lsn(step + 1, 0)
        else if sum >= TWO_63 then Invalid
        else if p.Lsn? && p.lsn > 0 then Lsn(p.lsn, sum)
        else Sequence(sum)
  {
    hide ParseOffset, Wrap64, FormatLsnOffset, FormatSequenceOffset;
    var p := ParseOffset(current);
    var sum := GeneratedBase(p) + step + 1;
    var w := Wrap64(sum);
    match p {
      case Lsn(lsn, pos) => ParseFormatLsn(lsn, w);
      case Now => NextAfterNow(current, step);
      case Invalid => ParseFormatSequence(w);
      case Sequence(_) => ParseFormatSequence(w);
    }
  }

  /** A base is sound for a step when the sum fits in 64 bits and the base is not a
      zero-padded LSN zero such as `00_5`. */
  predicate SoundBase(current: string, step: nat)
  {
    var p := ParseOffset(current);
    p.Now? || (GeneratedBase(p) + step + 1 < TWO_63 && (p.Lsn? ==> p.lsn > 0))
  }

  /** A generated offset is above its base exactly when the base is sound. */
  lemma GeneratedAboveBase(current: string, step: nat)
    requires step < TWO_63
    ensures CompareOffsets(NextGeneratedOffset(current, step), current) > 0 <==> SoundBase(current, step)
  {
    hide ParseOffset, NextGeneratedOffset;
    NextGeneratedDenotes(current, step);
  }

  /** Generated offsets ascend with the step exactly when the larger sum fits. */
  lemma GeneratedAscending(current: string, s: nat, t: nat)
    requires s < t < TWO_63
    ensures CompareOffsets(NextGeneratedOffset(current, s), NextGeneratedOffset(current, t)) < 0
            <==> ParseOffset(current).Now? || GeneratedBase(ParseOffset(current)) + t + 1 < TWO_63
  {
    hide ParseOffset, NextGeneratedOffset;
    NextGeneratedDenotes(current, s);
    NextGeneratedDenotes(current, t);
  }

  /** A padded zero LSN makes the next offset fall below its base. */
  lemma PaddedZeroFallsBelow()
    ensures CompareOffsets(NextGeneratedOffset("00_5", 0), "00_5") < 0
  {
    assert FirstIndex("00_5", '_') == 2 by {
      assert "00_5"[1..] == "0_5" && "0_5"[1..] == "_5";
    }
    assert "00_5"[..2] == "00" && "00_5"[3..] == "5";
    assert NatValue("00") == 0 by { assert "00"[..1] == "0" && "0"[..0] == ""; }
    assert NatValue("5") == 5 by { assert "5"[..0] == ""; }
    assert ParseOffset("00_5") == Lsn(0, 5);
    NextGeneratedDenotes("00_5", 0);
  }

  lemma OneDigit(d: nat)
    requires d < 10
    ensures FormatNat(d) == [DigitOf(d)]
  {
  }

  /** The forms of an offset: `0_` and a sequence number, or an LSN and a position. */
  lemma OffsetTexts()
    ensures FormatSequenceOffset(7) == "0_7" && FormatLsnOffset(12, 3) == "12_3" && FormatLsnOffset(12, -1) == "12_-1"
    ensures ParseOffset("") == Sequence(0) && ParseOffset("0_inf") == Now && ParseOffset("-1").Invalid?
  {
    OneDigit(7);
    OneDigit(3);
    OneDigit(1);
    OneDigit(2);
    assert FormatNat(12) == "12";
    assert FirstIndex("0_inf", '_') == 1 && "0_inf"[..1] == "0" && "0_inf"[2..] == "inf";
    assert FirstIndex("0_0", '_') == 1 && "0_0"[..1] == "0" && "0_0"[2..] == "0";
    assert NatValue("0") == 0 by { assert "0"[..0] == ""; }
    assert FirstIndex("-1", '_') == 2 by { assert "-1"[1..] == "1" && "1"[1..] == ""; }
  }
}
