/** The order of a shape's log within one epoch, and what a continuation read returns.
    The epoch starts with an upsert at offset `base`. */
module LogOrder {
  import opened Strings
  import opened Offsets
  import opened Keys
  import opened Diff
  import opened ShapeLog

  ghost predicate Ascends(base: string, changes: seq<Message>)
  {
    (forall i | 0 <= i < |changes| :: CompareOffsets(changes[i].offset, base) > 0) &&
    (forall i, j | 0 <= i < j < |changes| :: CompareOffsets(changes[i].offset, changes[j].offset) < 0)
  }

  /** The log is strictly ascending above the epoch's base and ends at the shape's offset. */
  ghost predicate LogOrdered(base: string, s: Shape)
  {
    Ascends(base, s.changes) && s.offset == LastOffset(base, s.changes)
  }

  /** What a refresh that yields `n` messages needs of the current offset: a commit must be
      above the LSN already reached, a generated batch must fit above a sound base. */
  predicate SoundStep(offset: string, n: nat, meta: Metadata)
  {
    n == 0 ||
    if meta.commitLsn > 0 then ParseOffset(offset).Lsn? ==> ParseOffset(offset).lsn < meta.commitLsn
    else SoundBase(offset, n - 1)
  }

  ghost predicate Unnumbered(messages: seq<Message>)
  {
    forall i | 0 <= i < |messages| :: messages[i].offset == ""
  }

  lemma NewOffset(offset: string, messages: seq<Message>, meta: Metadata, i: nat)
    requires Unnumbered(messages) && |messages| < TWO_63 && meta.commitLsn < TWO_64 && i < |messages|
    ensures var o := Numbered(offset, messages, meta)[i].offset;
      if meta.commitLsn > 0 then ParseOffset(o) == Lsn(meta.commitLsn, i) else o == NextGeneratedOffset(offset, i)
  {
    if meta.commitLsn > 0 { ParseFormatLsn(meta.commitLsn, i); }
  }

  /** Each new message is above the old offset, and the new messages ascend. */
  lemma SoundStepAscends(offset: string, messages: seq<Message>, meta: Metadata)
    requires Unnumbered(messages) && |messages| < TWO_63 && meta.commitLsn < TWO_64
    requires SoundStep(offset, |messages|, meta)
    ensures Ascends(offset, Numbered(offset, messages, meta))
  {
    hide ParseOffset;
    var new_ := Numbered(offset, messages, meta);
    forall i | 0 <= i < |new_| ensures CompareOffsets(new_[i].offset, offset) > 0 {
      NewOffset(offset, messages, meta, i);
      if meta.commitLsn == 0 { GeneratedAboveBase(offset, i); }
    }
    forall i, j | 0 <= i < j < |new_| ensures CompareOffsets(new_[i].offset, new_[j].offset) < 0 {
      NewOffset(offset, messages, meta, i);
      NewOffset(offset, messages, meta, j);
      if meta.commitLsn == 0 { GeneratedAscending(offset, i, j); }
    }
  }

  /** Without a sound step, the first message is not above the old offset or the last two do
      not ascend. */
  lemma UnsoundStepBreaks(offset: string, messages: seq<Message>, meta: Metadata)
    requires Unnumbered(messages) && |messages| < TWO_63 && meta.commitLsn < TWO_64
    requires !SoundStep(offset, |messages|, meta)
    ensures !Ascends(offset, Numbered(offset, messages, meta))
  {
    hide ParseOffset;
    var new_ := Numbered(offset, messages, meta);
    var n := |messages|;
    NewOffset(offset, messages, meta, 0);
    if meta.commitLsn > 0 {
      assert CompareOffsets(new_[0].offset, offset) <= 0;
    } else {
      GeneratedAboveBase(offset, 0);
      if n > 1 {
        NewOffset(offset, messages, meta, n - 2);
        NewOffset(offset, messages, meta, n - 1);
        GeneratedAscending(offset, n - 2, n - 1);
      }
    }
  }

  lemma AscendsConcat(base: string, old_: seq<Message>, new_: seq<Message>)
    requires Ascends(base, old_)
    ensures Ascends(base, old_ + new_) <==> Ascends(LastOffset(base, old_), new_)
  {
    hide ParseOffset;
    var all, mid := old_ + new_, LastOffset(base, old_);
    if Ascends(mid, new_) {
      forall i | 0 <= i < |all| ensures CompareOffsets(all[i].offset, base) > 0 {
        if i >= |old_| { CompareIsTotalPreorder(base, mid, new_[i - |old_|].offset); }
      }
      forall i, j | 0 <= i < j < |all| ensures CompareOffsets(all[i].offset, all[j].offset) < 0 {
        if i < |old_| <= j {
          CompareIsTotalPreorder(all[i].offset, mid, new_[j - |old_|].offset);
        }
      }
    }
    if Ascends(base, all) {
      forall i | 0 <= i < |new_| ensures CompareOffsets(new_[i].offset, mid) > 0 {
        assert all[|old_| + i] == new_[i];
        if old_ != [] {
          assert all[|old_| - 1] == old_[|old_| - 1];
          CompareIsTotalPreorder(mid, new_[i].offset, mid);
        }
      }
      forall i, j | 0 <= i < j < |new_| ensures CompareOffsets(new_[i].offset, new_[j].offset) < 0 {
        assert all[|old_| + i] == new_[i] && all[|old_| + j] == new_[j];
      }
    }
  }

  /** A refresh, full or by keys, keeps the log ordered exactly when its step is sound. */
  lemma RefreshKeepsOrderIff(base: string, s: Shape, schema: Schema, rows: Rows, messages: seq<Message>, meta: Metadata)
    requires LogOrdered(base, s) && Unnumbered(messages) && |messages| < TWO_63 && meta.commitLsn < TWO_64
    ensures LogOrdered(base, Extended(s, schema, rows, messages, meta)) <==> SoundStep(s.offset, |messages|, meta)
  {
    hide ParseOffset;
    var new_ := Numbered(s.offset, messages, meta);
    AscendsConcat(base, s.changes, new_);
    if SoundStep(s.offset, |messages|, meta) {
      SoundStepAscends(s.offset, messages, meta);
    } else {
      UnsoundStepBreaks(s.offset, messages, meta);
    }
  }

  /** Two refreshes of one shape by the same commit, as when a transaction writes two
      partitions of a root, break the order whenever both produce messages. */
  lemma SameCommitTwiceBreaksOrder(base: string, s: Shape, schema: Schema, rows1: Rows, rows2: Rows,
                                   first: seq<Message>, second: seq<Message>, meta: Metadata)
    requires LogOrdered(base, s) && 0 < meta.commitLsn < TWO_64
    requires Unnumbered(first) && Unnumbered(second) && 0 < |first| < TWO_63 && 0 < |second| < TWO_63
    ensures !LogOrdered(base, Extended(Extended(s, schema, rows1, first, meta), schema, rows2, second, meta))
  {
    hide CompareOffsets, ParseOffset, Stamped, Ascends;
    var mid := Extended(s, schema, rows1, first, meta);
    NewOffset(s.offset, first, meta, |first| - 1);
    AscendsConcat(base, s.changes, Numbered(s.offset, first, meta));
    if LogOrdered(base, mid) {
      RefreshKeepsOrderIff(base, mid, schema, rows2, second, meta);
    } else {
      AscendsPrefix(base, mid.changes, Numbered(mid.offset, second, meta));
    }
  }

  lemma AscendsPrefix(base: string, a: seq<Message>, b: seq<Message>)
    ensures Ascends(base, a + b) ==> Ascends(base, a)
  {
    forall i | 0 <= i < |a| ensures (a + b)[i] == a[i] {}
  }

  /** One appended message: logged as it is, or with a generated offset if it has none; the offset only moves up. */
  lemma AppendOneIs(s: Shape, m: Message, i: nat)
    ensures var t := AppendOne(s, m, i); var n := |s.changes|;
      |t.changes| == n + 1 && t.changes[..n] == s.changes && t.changes[n] == m.(offset := t.changes[n].offset) &&
      (m.offset != "" ==> t.changes[n] == m) && t.offset in {s.offset, t.changes[n].offset} &&
      CompareOffsets(s.offset, t.offset) <= 0 && CompareOffsets(t.changes[n].offset, t.offset) <= 0
  {
    hide CompareOffsets, NextGeneratedOffset, AppliedRows;
    var t := AppendOne(s, m, i);
    var o := t.changes[|s.changes|].offset;
    CompareIsTotalPreorder(o, s.offset, o);
    CompareIsTotalPreorder(s.offset, s.offset, s.offset);
    CompareIsTotalPreorder(o, o, o);
  }

  /** An append logs its messages after the others, in order, and changes nothing of them but a missing offset. */
  lemma {:induction false} AppendLogs(s: Shape, messages: seq<Message>)
    ensures var changes, n := Appended(s, messages).changes, |s.changes|;
      |changes| == n + |messages| && changes[..n] == s.changes &&
      forall i | 0 <= i < |messages| ::
        changes[n + i] == messages[i].(offset := changes[n + i].offset) && (messages[i].offset != "" ==> changes[n + i] == messages[i])
  {
    hide AppendOne, CompareOffsets;
    if messages != [] {
      var m, n := |messages| - 1, |s.changes|;
      AppendLogs(s, messages[..m]);
      var u, t := Appended(s, messages[..m]), Appended(s, messages);
      AppendOneIs(u, messages[m], m);
      assert t.changes[..n] == u.changes[..n];
      forall i | 0 <= i < m ensures t.changes[n + i] == u.changes[n + i] && messages[i] == messages[..m][i] {
        assert t.changes[..n + m][n + i] == t.changes[n + i];
      }
    }
  }

  /** The offset is the greatest of `base` and the offsets of the messages. */
  ghost predicate Tops(base: string, new_: seq<Message>, offset: string)
  {
    CompareOffsets(base, offset) <= 0 && (forall i | 0 <= i < |new_| :: CompareOffsets(new_[i].offset, offset) <= 0) &&
    (offset == base || exists i | 0 <= i < |new_| :: new_[i].offset == offset)
  }

  lemma TopsNext(base: string, new_: seq<Message>, offset: string, m: Message, next: string)
    requires Tops(base, new_, offset) && next in {offset, m.offset}
    requires CompareOffsets(offset, next) <= 0 && CompareOffsets(m.offset, next) <= 0
    ensures Tops(base, new_ + [m], next)
  {
    hide CompareOffsets;
    CompareIsTotalPreorder(base, offset, next);
    forall i | 0 <= i < |new_| ensures CompareOffsets(new_[i].offset, next) <= 0 { CompareIsTotalPreorder(new_[i].offset, offset, next); }
    if next == m.offset {
      assert (new_ + [m])[|new_|].offset == next;
    } else if offset != base {
      var i :| 0 <= i < |new_| && new_[i].offset == offset;
      assert (new_ + [m])[i].offset == next;
    }
  }

  /** Whatever offsets the appended messages come with, the shape's offset never goes back: it ends at the greatest of
      its old offset and theirs. */
  lemma {:induction false} AppendTops(s: Shape, messages: seq<Message>)
    ensures var t := Appended(s, messages); |s.changes| <= |t.changes| && Tops(s.offset, t.changes[|s.changes|..], t.offset)
  {
    hide AppendOne, Tops, CompareOffsets;
    AppendLogs(s, messages);
    if messages == [] {
      assert Tops(s.offset, [], s.offset) by { TopsNone(s.offset); }
      assert s.changes[|s.changes|..] == [];
    } else {
      var m, n := |messages| - 1, |s.changes|;
      AppendTops(s, messages[..m]);
      AppendLogs(s, messages[..m]);
      var u, t := Appended(s, messages[..m]), Appended(s, messages);
      AppendOneIs(u, messages[m], m);
      TopsNext(s.offset, u.changes[n..], u.offset, t.changes[n + m], t.offset);
      assert t.changes == t.changes[..n + m] + [t.changes[n + m]];
      assert t.changes[n..] == u.changes[n..] + [t.changes[n + m]];
    }
  }

  lemma TopsNone(base: string)
    ensures Tops(base, [], base)
  {
    hide CompareOffsets;
    CompareIsTotalPreorder(base, base, base);
  }

  /** The message is a row change of key `k`. */
  predicate About(m: Message, k: string)
  {
    m.body.Change? && k == if m.internalKey == "" then m.key else m.internalKey
  }

  /** After an append, the last message about a key decides: its value, or no row after a delete. A key that no message
      is about keeps its row. */
  lemma {:induction false} AppendedRowsAt(s: Shape, messages: seq<Message>, j: int, k: string)
    requires -1 <= j < |messages| && (j >= 0 ==> About(messages[j], k))
    requires forall i | j < i < |messages| :: !About(messages[i], k)
    ensures var rows := Appended(s, messages).rows;
      if j < 0 then SameAt(rows, s.rows, k)
      else if messages[j].body.op == Delete then k !in rows
      else k in rows && rows[k] == messages[j].body.value
    decreases |messages|
  {
    hide CompareOffsets, NextGeneratedOffset;
    if messages != [] {
      var n := |messages| - 1;
      if j < n { AppendedRowsAt(s, messages[..n], j, k); }
      assert j < n ==> !About(messages[n], k);
    }
  }

  // ---- appending unnumbered messages ----

  function Triangle(n: nat): nat { n * (n + 1) / 2 }

  lemma TriangleStep(n: nat)
    ensures Triangle(n + 1) == Triangle(n) + n + 1
  {
    assert (n + 1) * (n + 2) == n * (n + 1) + 2 * (n + 1);
  }

  /** Appending `n` unnumbered messages from `0_k` lands on `0_(k + n(n+1)/2)`, because the
      base and the step both advance; from a commit offset the position moves the same way.
      The log stays ordered. */
  lemma {:induction false} AppendLandsOnTriangle(base: string, s: Shape, messages: seq<Message>)
    requires LogOrdered(base, s) && Unnumbered(messages)
    requires var p := ParseOffset(s.offset); p.Sequence? || (p.Lsn? && p.lsn > 0)
    requires GeneratedBase(ParseOffset(s.offset)) + Triangle(|messages|) < TWO_63
    ensures LogOrdered(base, Appended(s, messages))
    ensures |Appended(s, messages).changes| == |s.changes| + |messages|
    ensures var p := ParseOffset(s.offset);
      ParseOffset(Appended(s, messages).offset) ==
        if p.Sequence? then Sequence(p.n + Triangle(|messages|)) else Lsn(p.lsn, p.pos + Triangle(|messages|))
  {
    hide ParseOffset;
    if messages != [] {
      var n := |messages| - 1;
      TriangleStep(n);
      var before := Appended(s, messages[..n]);
      AppendLandsOnTriangle(base, s, messages[..n]);
      NextGeneratedDenotes(before.offset, n);
      var m := messages[n].(offset := NextGeneratedOffset(before.offset, n));
      CompareIsTotalPreorder(m.offset, before.offset, m.offset);
      AscendsConcat(base, before.changes, [m]);
      assert Appended(s, messages).changes == before.changes + [m];
    }
  }

  // ---- continuation reads ----

  lemma {:induction false} AllSeen(changes: seq<Message>, offset: string)
    requires forall i | 0 <= i < |changes| :: CompareOffsets(changes[i].offset, offset) <= 0
    ensures After(changes, offset) == []
  {
    if changes != [] { AllSeen(changes[..|changes| - 1], offset); }
  }

  lemma {:induction false} AfterConcat(a: seq<Message>, b: seq<Message>, offset: string)
    ensures After(a + b, offset) == After(a, offset) + After(b, offset)
  {
    if b == [] {
      assert a + b == a;
    } else {
      assert (a + b)[..|a + b| - 1] == a + b[..|b| - 1];
      AfterConcat(a, b[..|b| - 1], offset);
    }
  }

  lemma {:induction false} AfterAll(changes: seq<Message>, offset: string)
    requires forall i | 0 <= i < |changes| :: CompareOffsets(changes[i].offset, offset) > 0
    ensures After(changes, offset) == changes
  {
    hide ParseOffset;
    if changes != [] { AfterAll(changes[..|changes| - 1], offset); }
  }

  /** An ordered log is cut in two by any offset. */
  lemma {:induction false} Cut(base: string, changes: seq<Message>, offset: string) returns (k: nat)
    requires Ascends(base, changes)
    ensures k <= |changes|
    ensures forall i | 0 <= i < k :: CompareOffsets(changes[i].offset, offset) <= 0
    ensures forall i | k <= i < |changes| :: CompareOffsets(changes[i].offset, offset) > 0
  {
    hide ParseOffset, CompareOffsets;
    k := |changes|;
    while k > 0 && CompareOffsets(changes[k - 1].offset, offset) > 0
      invariant 0 <= k <= |changes|
      invariant forall i | k <= i < |changes| :: CompareOffsets(changes[i].offset, offset) > 0
    {
      k := k - 1;
    }
    if k > 0 {
      forall i | 0 <= i < k ensures CompareOffsets(changes[i].offset, offset) <= 0 {
        CompareIsTotalPreorder(changes[i].offset, changes[k - 1].offset, offset);
      }
    }
  }

  /** In an ordered log, the filter of readLocked returns the suffix above the offset. */
  lemma AfterIsSuffix(base: string, changes: seq<Message>, offset: string)
    requires Ascends(base, changes)
    ensures exists k :: 0 <= k <= |changes| && After(changes, offset) == changes[k..] &&
              (forall i | 0 <= i < k :: CompareOffsets(changes[i].offset, offset) <= 0) &&
              (forall i | k <= i < |changes| :: CompareOffsets(changes[i].offset, offset) > 0)
  {
    hide ParseOffset, CompareOffsets;
    var k := Cut(base, changes, offset);
    assert changes == changes[..k] + changes[k..];
    AfterConcat(changes[..k], changes[k..], offset);
    AllSeen(changes[..k], offset);
    AfterAll(changes[k..], offset);
  }

  /** `later` is the same epoch of the shape with the log extended. */
  ghost predicate Continues(base: string, s: Shape, later: Shape)
  {
    LogOrdered(base, s) && LogOrdered(base, later) && s.changes <= later.changes && !s.deleted && !later.deleted
  }

  lemma OffsetAgainstLog(base: string, s: Shape, offset: string)
    requires LogOrdered(base, s)
    requires CompareOffsets(offset, s.offset) >= 0
    ensures After(s.changes, offset) == []
  {
    hide ParseOffset;
    forall i | 0 <= i < |s.changes| ensures CompareOffsets(s.changes[i].offset, offset) <= 0 {
      CompareIsTotalPreorder(s.changes[i].offset, s.offset, offset);
    }
    AllSeen(s.changes, offset);
  }

  /** What a client has to be told at `offset` is the log after it, also when the code answers
      without looking at the log. */
  lemma ReadIsAfter(base: string, s: Shape, offset: string)
    requires LogOrdered(base, s) && !s.deleted
    requires !ParseOffset(offset).Invalid? && CompareOffsets(offset, s.offset) <= 0
    ensures ReadLog(s, offset) == Messages(After(s.changes, offset))
  {
    if CompareOffsets(offset, s.offset) == 0 { OffsetAgainstLog(base, s, offset); }
  }

  lemma OffsetsGrow(base: string, s: Shape, later: Shape)
    requires Continues(base, s, later)
    ensures CompareOffsets(s.offset, later.offset) <= 0
    ensures forall i | |s.changes| <= i < |later.changes| :: CompareOffsets(later.changes[i].offset, s.offset) > 0
  {
    hide ParseOffset;
    var new_ := later.changes[|s.changes|..];
    assert later.changes == s.changes + new_;
    AscendsConcat(base, s.changes, new_);
    forall i | |s.changes| <= i < |later.changes| ensures CompareOffsets(later.changes[i].offset, s.offset) > 0 {
      assert later.changes[i] == new_[i - |s.changes|];
    }
    if new_ == [] {
      assert later.changes == s.changes;
      CompareIsTotalPreorder(s.offset, s.offset, s.offset);
    } else {
      CompareIsTotalPreorder(later.offset, s.offset, s.offset);
    }
  }

  lemma AboveTransitive(a: string, b: string, c: string)
    requires CompareOffsets(a, b) <= 0 && CompareOffsets(c, b) > 0
    ensures CompareOffsets(c, a) > 0
  {
    CompareIsTotalPreorder(a, b, c);
    CompareIsTotalPreorder(c, b, a);
    CompareIsTotalPreorder(c, a, b);
  }

  /** What a longer log adds for a client at or below the old offset is all of the new part. */
  lemma AfterOfLonger(base: string, s: Shape, later: Shape, offset: string)
    requires Continues(base, s, later) && CompareOffsets(offset, s.offset) <= 0
    ensures After(later.changes, offset) == After(s.changes, offset) + later.changes[|s.changes|..]
  {
    hide ParseOffset, CompareOffsets;
    OffsetsGrow(base, s, later);
    var new_ := later.changes[|s.changes|..];
    assert later.changes == s.changes + new_;
    AfterConcat(s.changes, new_, offset);
    forall i | 0 <= i < |new_| ensures CompareOffsets(new_[i].offset, offset) > 0 {
      AboveTransitive(offset, s.offset, later.changes[|s.changes| + i].offset);
    }
    AfterAll(new_, offset);
  }

  /** Exactly once: what was read at `offset`, followed by what is read later from the returned
      position, is what one later read at `offset` returns; no gap and no repeat. */
  lemma ExactlyOnce(base: string, s: Shape, later: Shape, offset: string)
    requires Continues(base, s, later) && ReadLog(s, offset).Messages?
    ensures ReadLog(later, s.offset).Messages? && ReadLog(later, offset).Messages?
    ensures ReadLog(later, offset).messages == ReadLog(s, offset).messages + ReadLog(later, s.offset).messages
    ensures ReadLog(later, s.offset).messages == later.changes[|s.changes|..]
  {
    hide ParseOffset, CompareParsed;
    OffsetsGrow(base, s, later);
    CompareIsTotalPreorder(offset, s.offset, later.offset);
    CompareIsTotalPreorder(s.offset, s.offset, s.offset);
    ReadIsAfter(base, s, offset);
    ValidAbove(offset, s.offset);
    ReadIsAfter(base, later, offset);
    ReadIsAfter(base, later, s.offset);
    AfterOfLonger(base, s, later, offset);
    AfterOfLonger(base, s, later, s.offset);
    OffsetAgainstLog(base, s, s.offset);
  }

  lemma ValidAbove(a: string, b: string)
    requires !ParseOffset(a).Invalid? && CompareOffsets(a, b) <= 0
    ensures !ParseOffset(b).Invalid?
  {
  }
}
