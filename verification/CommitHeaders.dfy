/** The commit headers of a log: what they say about each message, over every run of an epoch. */
module CommitHeaders {
  import opened Strings
  import opened Offsets
  import opened Keys
  import opened Diff
  import opened ShapeLog
  import opened LogOrder
  import opened Client
  import opened Replay
  import opened EpochOrder

  // ---- refreshes make messages without headers ----

  ghost predicate Headless(messages: seq<Message>)
  {
    forall i | 0 <= i < |messages| :: messages[i].commit.None?
  }

  lemma {:induction false} DiffHeadless(def: Definition, schema: Schema, relation: Relation, keys: seq<string>, previous: Rows,
                                        current: Rows)
    ensures Headless(DiffKeys(def, schema, relation, keys, previous, current))
  {
    hide MessageKey, UpdateValue, UpdateOldValue, DeleteValue, ChangedColumns;
    if keys != [] {
      DiffHeadless(def, schema, relation, keys[1..], previous, current);
    }
  }

  lemma {:induction false} DecorateHeadless(handle: string, related: bool, messages: seq<Message>)
    requires Headless(messages)
    ensures Headless(DecorateEach(handle, related, messages))
  {
    hide DependentTag;
    if messages != [] {
      DecorateHeadless(handle, related, messages[1..]);
    }
  }

  lemma {:induction false} WireHeadless(schema: Schema, messages: seq<Message>)
    requires Headless(messages)
    ensures Headless(WireMessages(schema, messages))
  {
    hide WireRow;
    if messages != [] {
      WireHeadless(schema, messages[1..]);
    }
  }

  lemma StepHeadless(s: Shape, step: Step)
    ensures Headless(StepMessages(s, step))
  {
    hide DiffKeys, DecorateEach, WireMessages, HasDependencyKeyword, HasInsert, MaterializedRows, TargetedKeys, Splice, Restrict, Sorted;
    var current := MaterializedRows(step.snap.schema, step.snap.rows);
    match step
    case Full(snap, meta) =>
      var keys := Sorted(s.rows.Keys + current.Keys);
      DiffHeadless(s.def, snap.schema, s.def.relation, keys, s.rows, current);
      var diff := DiffRows(s.def, snap.schema, s.def.relation, s.rows, current);
      DecorateHeadless(s.handle, meta.keyRelation != NO_RELATION && meta.keyRelation != s.def.relation, diff);
    case ByKeys(snap, keyRows, meta) =>
      var keys := TargetedKeys(snap.schema, keyRows, snap.rows);
      var before, after := Restrict(s.rows, keys), Restrict(Splice(s.rows, keys, current), keys);
      DiffHeadless(s.def, snap.schema, KeyRelation(s.def, meta), Sorted(before.Keys + after.Keys), before, after);
      WireHeadless(snap.schema, DiffRows(s.def, snap.schema, KeyRelation(s.def, meta), before, after));
  }

  // ---- what the header of a logged message says ----

  /** The header names the commit and transaction, and the position at which the message's own offset puts it. */
  ghost predicate HeaderFits(m: Message, meta: Metadata)
  {
    m.commit.Some? && m.commit.value.lsn == meta.commitLsn && m.commit.value.xid == meta.xid &&
    ParseOffset(m.offset) == Lsn(m.commit.value.lsn, m.commit.value.position)
  }

  /** `new_` is what one refresh adds to a log that then ends at `end`. */
  ghost predicate BatchFits(new_: seq<Message>, meta: Metadata, end: string)
  {
    if meta.commitLsn > 0 && !meta.dependent then
      (forall i | 0 <= i < |new_| :: HeaderFits(new_[i], meta) && new_[i].commit.value.position == i) &&
      (forall i | 0 <= i < |new_| :: new_[i].commit.value.last <==> i == |new_| - 1) &&
      (forall i | 0 <= i < |new_| :: new_[i].commit.value.last <==> new_[i].offset == end)
    else Headless(new_)
  }

  lemma StampedHeader(offset: string, messages: seq<Message>, meta: Metadata, i: nat)
    requires Headless(messages) && |messages| < TWO_63 && 0 < meta.commitLsn < TWO_64 && !meta.dependent && i < |messages|
    ensures var m := Numbered(offset, messages, meta)[i];
      HeaderFits(m, meta) && m.commit.value.position == i && (m.commit.value.last <==> i == |messages| - 1)
  {
    ParseFormatLsn(meta.commitLsn, i);
    hide ParseOffset, FormatLsnOffset;
  }

  lemma NumberedFits(offset: string, messages: seq<Message>, meta: Metadata)
    requires Headless(messages) && |messages| < TWO_63 && meta.commitLsn < TWO_64
    ensures var new_ := Numbered(offset, messages, meta); BatchFits(new_, meta, LastOffset(offset, new_))
  {
    hide ParseOffset, FormatLsnOffset, NextGeneratedOffset;
    var new_ := Numbered(offset, messages, meta);
    if meta.commitLsn > 0 && !meta.dependent {
      forall i | 0 <= i < |new_|
        ensures HeaderFits(new_[i], meta) && new_[i].commit.value.position == i && (new_[i].commit.value.last <==> i == |new_| - 1)
        ensures new_[i].commit.value.last <==> new_[i].offset == LastOffset(offset, new_)
      {
        StampedHeader(offset, messages, meta, i);
        StampedHeader(offset, messages, meta, |new_| - 1);
      }
    }
  }

  /** The messages that one refresh adds. */
  function Added(s: Shape, step: Step): seq<Message>
  {
    var after := Take(s, step).changes;
    if |s.changes| <= |after| then after[|s.changes|..] else []
  }

  /** One refresh adds to the log, and what it adds has the headers of its commit: LSN and position as its own offset
      has them, the transaction, and one last message, at whose offset the shape then is. A refresh without a
      commit, and one of a dependent shape, adds no headers. */
  lemma StepHeaders(s: Shape, step: Step)
    requires InRange(s, step)
    ensures Take(s, step).changes == s.changes + Added(s, step)
    ensures BatchFits(Added(s, step), step.meta, Take(s, step).offset)
  {
    StepHeadless(s, step);
    TakeAdds(s, step);
    hide StepMessages, Take, Numbered, Headless, BatchFits;
    var messages := StepMessages(s, step);
    NumberedFits(s.offset, messages, step.meta);
    assert Added(s, step) == Numbered(s.offset, messages, step.meta);
  }

  lemma TakeAdds(s: Shape, step: Step)
    ensures var new_ := Numbered(s.offset, StepMessages(s, step), step.meta);
      Take(s, step).changes == s.changes + new_ && Take(s, step).offset == LastOffset(s.offset, new_)
  {
    hide RefreshMessages, KeysMessages, MaterializedRows, TargetedKeys, Splice, Stamped;
    if step.ByKeys? && TargetedKeys(step.snap.schema, step.keyRows, step.snap.rows) == {} {
      assert s.changes + Numbered(s.offset, [], step.meta) == s.changes;
    }
  }

  // ---- whole epochs ----

  ghost predicate StepsInRange(s: Shape, steps: seq<Step>)
  {
    forall i | 0 <= i < |steps| :: InRange(Run(s, steps[..i]), steps[i])
  }

  /** Where in the log the messages of refresh `i` begin. */
  function StartOf(s: Shape, steps: seq<Step>, i: nat): nat
    requires i <= |steps|
  {
    |Run(s, steps[..i]).changes|
  }

  /** The log after the first `i` refreshes is a prefix of the final one. */
  lemma {:induction false} LogGrows(s: Shape, steps: seq<Step>, i: nat)
    requires StepsInRange(s, steps) && i <= |steps|
    ensures Run(s, steps[..i]).changes <= Run(s, steps).changes
    decreases |steps| - i
  {
    hide InRange, Take, Added, BatchFits;
    if i == |steps| {
      assert steps[..i] == steps;
    } else {
      LogGrows(s, steps, i + 1);
      EpochOrder.RunNext(s, steps, i);
      StepHeaders(Run(s, steps[..i]), steps[i]);
    }
  }

  /** Over every run of refreshes of an epoch, the log is made of one stretch per refresh, and each stretch has the
      headers of its own refresh. */
  lemma EpochHeaders(s: Shape, steps: seq<Step>, i: nat)
    requires StepsInRange(s, steps) && i < |steps|
    ensures var log, a, b := Run(s, steps).changes, StartOf(s, steps, i), StartOf(s, steps, i + 1);
      a <= b <= |log| && BatchFits(log[a..b], steps[i].meta, Run(s, steps[..i + 1]).offset)
  {
    hide Take, Added, BatchFits, StepMessages;
    var t := Run(s, steps[..i]);
    LogGrows(s, steps, i + 1);
    EpochOrder.RunNext(s, steps, i);
    assert InRange(t, steps[i]);
    StepHeaders(t, steps[i]);
    var log, a, b := Run(s, steps).changes, StartOf(s, steps, i), StartOf(s, steps, i + 1);
    assert log[..b] == t.changes + Added(t, steps[i]);
    assert log[a..b] == log[..b][a..];
  }

  /** In an epoch that starts with an empty log, every header in the log agrees with its message's offset. */
  lemma {:induction false} EveryHeaderFits(s: Shape, steps: seq<Step>, j: nat)
    requires StepsInRange(s, steps) && s.changes == [] && j < |Run(s, steps).changes|
    ensures var m := Run(s, steps).changes[j];
      m.commit.Some? ==>
        exists i | 0 <= i < |steps| :: StartOf(s, steps, i) <= j < StartOf(s, steps, i + 1) && HeaderFits(m, steps[i].meta)
  {
    hide Run, InRange, HeaderFits;
    StretchOf(s, steps, |steps|, j);
    var i :| 0 <= i < |steps| && StartOf(s, steps, i) <= j < StartOf(s, steps, i + 1);
    EpochHeaders(s, steps, i);
    var log, a, b := Run(s, steps).changes, StartOf(s, steps, i), StartOf(s, steps, i + 1);
    assert log[a..b][j - a] == log[j];
  }

  lemma {:induction false} StretchOf(s: Shape, steps: seq<Step>, n: nat, j: nat)
    requires n <= |steps| && s.changes == []
    requires StartOf(s, steps, n) > j || (n == |steps| && j < |Run(s, steps).changes|)
    ensures exists i | 0 <= i < n :: StartOf(s, steps, i) <= j < StartOf(s, steps, i + 1)
    decreases n
  {
    hide Take;
    assert n == |steps| ==> steps[..n] == steps;
    assert n > 0 by { assert steps[..0] == []; }
    if StartOf(s, steps, n - 1) > j {
      StretchOf(s, steps, n - 1, j);
    } else {
      assert StartOf(s, steps, n - 1) <= j < StartOf(s, steps, n - 1 + 1);
    }
  }
}
