/** The change log over a whole epoch: it stays ordered exactly when every refresh is sound, and any
    two of its states continue each other. */
module EpochOrder {
  import opened Strings
  import opened Offsets
  import opened Keys
  import opened Diff
  import opened ShapeLog
  import opened LogOrder
  import opened Replay

  /** The unnumbered messages of one refresh. */
  function StepMessages(s: Shape, step: Step): seq<Message>
  {
    match step
    case Full(snap, meta) => RefreshMessages(s, snap, meta)
    case ByKeys(snap, keyRows, meta) =>
      var keys := TargetedKeys(snap.schema, keyRows, snap.rows);
      if keys == {} then [] else KeysMessages(s, snap, keys, meta)
  }

  // ---- refresh messages carry no offsets ----

  lemma {:induction false} DiffUnnumbered(def: Definition, schema: Schema, relation: Relation, keys: seq<string>,
                                          previous: Rows, current: Rows)
    ensures Unnumbered(DiffKeys(def, schema, relation, keys, previous, current))
  {
    hide MessageKey, UpdateValue, UpdateOldValue, DeleteValue, ChangedColumns;
    if keys != [] {
      DiffUnnumbered(def, schema, relation, keys[1..], previous, current);
    }
  }

  lemma {:induction false} DecorateUnnumbered(handle: string, related: bool, messages: seq<Message>)
    requires Unnumbered(messages)
    ensures Unnumbered(DecorateEach(handle, related, messages))
  {
    hide DependentTag;
    if messages != [] {
      DecorateUnnumbered(handle, related, messages[1..]);
    }
  }

  lemma {:induction false} WireUnnumbered(schema: Schema, messages: seq<Message>)
    requires Unnumbered(messages)
    ensures Unnumbered(WireMessages(schema, messages))
  {
    hide WireRow;
    if messages != [] {
      WireUnnumbered(schema, messages[1..]);
    }
  }

  lemma StepUnnumbered(s: Shape, step: Step)
    ensures Unnumbered(StepMessages(s, step))
  {
    hide DiffKeys, DecorateEach, WireMessages, HasDependencyKeyword, HasInsert, MaterializedRows, TargetedKeys, Splice, Restrict, Sorted;
    var current := MaterializedRows(step.snap.schema, step.snap.rows);
    match step
    case Full(snap, meta) =>
      var keys := Sorted(s.rows.Keys + current.Keys);
      DiffUnnumbered(s.def, snap.schema, s.def.relation, keys, s.rows, current);
      var diff := DiffRows(s.def, snap.schema, s.def.relation, s.rows, current);
      DecorateUnnumbered(s.handle, meta.keyRelation != NO_RELATION && meta.keyRelation != s.def.relation, diff);
    case ByKeys(snap, keyRows, meta) =>
      var keys := TargetedKeys(snap.schema, keyRows, snap.rows);
      var before, after := Restrict(s.rows, keys), Restrict(Splice(s.rows, keys, current), keys);
      DiffUnnumbered(s.def, snap.schema, KeyRelation(s.def, meta), Sorted(before.Keys + after.Keys), before, after);
      WireUnnumbered(snap.schema, DiffRows(s.def, snap.schema, KeyRelation(s.def, meta), before, after));
  }

  // ---- one step ----

  ghost predicate InRange(s: Shape, step: Step)
  {
    |StepMessages(s, step)| < TWO_63 && step.meta.commitLsn < TWO_64
  }

  lemma StepOrder(base: string, s: Shape, step: Step)
    requires LogOrdered(base, s) && InRange(s, step)
    ensures LogOrdered(base, Take(s, step)) <==> SoundStep(s.offset, |StepMessages(s, step)|, step.meta)
    ensures s.changes <= Take(s, step).changes && Take(s, step).deleted == s.deleted
  {
    StepUnnumbered(s, step);
    hide LogOrdered, SoundStep, RefreshMessages, KeysMessages, MaterializedRows, TargetedKeys, Splice, Unnumbered;
    var messages := StepMessages(s, step);
    match step
    case Full(snap, meta) =>
      RefreshKeepsOrderIff(base, s, snap.schema, MaterializedRows(snap.schema, snap.rows), messages, meta);
    case ByKeys(snap, keyRows, meta) =>
      var keys := TargetedKeys(snap.schema, keyRows, snap.rows);
      if keys == {} {
        SilentStep(s.offset, meta);
      } else {
        RefreshKeepsOrderIff(base, s, snap.schema, Splice(s.rows, keys, MaterializedRows(snap.schema, snap.rows)), messages, meta);
      }
  }

  lemma SilentStep(offset: string, meta: Metadata)
    ensures SoundStep(offset, 0, meta)
  {
  }

  // ---- appending ----

  /** What appending message `i` needs: a given offset above the current one, or a sound base. */
  predicate SoundMessage(offset: string, m: Message, i: nat)
  {
    if m.offset == "" then SoundBase(offset, i) else CompareOffsets(m.offset, offset) > 0
  }

  ghost predicate SoundAppend(s: Shape, messages: seq<Message>)
  {
    forall i | 0 <= i < |messages| :: SoundMessage(Appended(s, messages[..i]).offset, messages[i], i)
  }

  lemma AppendOneOrder(base: string, s: Shape, m: Message, i: nat)
    requires LogOrdered(base, s) && i < TWO_63
    ensures LogOrdered(base, AppendOne(s, m, i)) <==> SoundMessage(s.offset, m, i)
  {
    hide ParseOffset, CompareOffsets, AppliedRows, NextGeneratedOffset, SoundBase;
    var numbered := if m.offset == "" then m.(offset := NextGeneratedOffset(s.offset, i)) else m;
    GeneratedAboveBase(s.offset, i);
    AscendsConcat(base, s.changes, [numbered]);
    assert [numbered][0] == numbered;
    assert AppendOne(s, m, i).changes == s.changes + [numbered];
  }

  lemma SoundPrefix(s: Shape, messages: seq<Message>)
    requires messages != []
    ensures var n := |messages| - 1;
      SoundAppend(s, messages) <==>
      SoundAppend(s, messages[..n]) && SoundMessage(Appended(s, messages[..n]).offset, messages[n], n)
  {
    hide SoundMessage, Appended;
    var n := |messages| - 1;
    forall i | 0 <= i < n ensures messages[..n][..i] == messages[..i] && messages[..n][i] == messages[i] {}
  }

  lemma {:induction false} AppendOrder(base: string, s: Shape, messages: seq<Message>)
    requires LogOrdered(base, s) && |messages| < TWO_63
    ensures LogOrdered(base, Appended(s, messages)) <==> SoundAppend(s, messages)
    ensures s.changes <= Appended(s, messages).changes && Appended(s, messages).deleted == s.deleted
  {
    hide LogOrdered, SoundAppend, SoundMessage, CompareOffsets, NextGeneratedOffset, AppliedRows;
    if messages == [] {
      assert SoundAppend(s, []) by { NothingToAppend(s); }
    } else {
      var n := |messages| - 1;
      var before := Appended(s, messages[..n]);
      AppendOrder(base, s, messages[..n]);
      SoundPrefix(s, messages);
      if LogOrdered(base, before) {
        AppendOneOrder(base, before, messages[n], n);
      } else {
        StaysBroken(base, s, before, messages[..n], messages[n], n);
      }
    }
  }

  lemma NothingToAppend(s: Shape)
    ensures SoundAppend(s, [])
  {
  }

  /** The offset of a shape follows the log while the log is in order. */
  ghost predicate EndsAtOffset(base: string, s: Shape)
  {
    Ascends(base, s.changes) ==> s.offset == LastOffset(base, s.changes)
  }

  lemma {:induction false} AppendEndsAtOffset(base: string, s: Shape, messages: seq<Message>)
    requires LogOrdered(base, s)
    ensures EndsAtOffset(base, Appended(s, messages))
  {
    hide ParseOffset, CompareOffsets, NextGeneratedOffset, AppliedRows, Ascends;
    if messages != [] {
      var n := |messages| - 1;
      var before := Appended(s, messages[..n]);
      AppendEndsAtOffset(base, s, messages[..n]);
      var after := AppendOne(before, messages[n], n);
      var m := after.changes[|before.changes|];
      assert after.changes == before.changes + [m];
      AscendsPrefix(base, before.changes, [m]);
      if Ascends(base, after.changes) {
        AscendsConcat(base, before.changes, [m]);
        FirstAbove(LastOffset(base, before.changes), m);
      }
    }
  }

  lemma FirstAbove(base: string, m: Message)
    ensures Ascends(base, [m]) ==> CompareOffsets(m.offset, base) > 0
  {
    hide CompareOffsets;
    assert [m][0] == m;
  }

  lemma StaysBroken(base: string, s: Shape, before: Shape, messages: seq<Message>, m: Message, i: nat)
    requires LogOrdered(base, s) && before == Appended(s, messages) && !LogOrdered(base, before)
    ensures !LogOrdered(base, AppendOne(before, m, i))
  {
    hide ParseOffset, CompareOffsets, NextGeneratedOffset, AppliedRows, Ascends, Appended;
    AppendEndsAtOffset(base, s, messages);
    var after := AppendOne(before, m, i);
    var last := after.changes[|before.changes|];
    assert after.changes == before.changes + [last];
    AscendsPrefix(base, before.changes, [last]);
  }

  // ---- whole epochs ----

  datatype Event = Refreshing(step: Step) | Appending(messages: seq<Message>)

  function Happen(s: Shape, e: Event): Shape
  {
    match e
    case Refreshing(step) => Take(s, step)
    case Appending(messages) => Appended(s, messages)
  }

  function History(s: Shape, events: seq<Event>): Shape
  {
    if events == [] then s else Happen(History(s, events[..|events| - 1]), events[|events| - 1])
  }

  ghost predicate EventInRange(s: Shape, e: Event)
  {
    match e
    case Refreshing(step) => InRange(s, step)
    case Appending(messages) => |messages| < TWO_63
  }

  ghost predicate SoundEvent(s: Shape, e: Event)
  {
    match e
    case Refreshing(step) => SoundStep(s.offset, |StepMessages(s, step)|, step.meta)
    case Appending(messages) => SoundAppend(s, messages)
  }

  lemma EventOrder(base: string, s: Shape, e: Event)
    requires LogOrdered(base, s) && EventInRange(s, e)
    ensures LogOrdered(base, Happen(s, e)) <==> SoundEvent(s, e)
    ensures s.changes <= Happen(s, e).changes && Happen(s, e).deleted == s.deleted
  {
    hide LogOrdered, SoundStep, SoundAppend, StepMessages, Take, Appended;
    match e
    case Refreshing(step) => StepOrder(base, s, step);
    case Appending(messages) => AppendOrder(base, s, messages);
  }

  ghost predicate EpochInRange(s: Shape, events: seq<Event>)
  {
    forall i | 0 <= i < |events| :: EventInRange(History(s, events[..i]), events[i])
  }

  /** Each refresh and each append is sound at the offset it starts from. */
  ghost predicate SoundEpoch(s: Shape, events: seq<Event>)
  {
    forall i | 0 <= i < |events| :: SoundEvent(History(s, events[..i]), events[i])
  }

  ghost predicate AlwaysOrdered(base: string, s: Shape, events: seq<Event>)
  {
    forall i | 0 <= i <= |events| :: LogOrdered(base, History(s, events[..i]))
  }

  lemma RunNext(s: Shape, steps: seq<Step>, i: nat)
    requires i < |steps|
    ensures Run(s, steps[..i + 1]) == Take(Run(s, steps[..i]), steps[i])
  {
    hide Take;
    assert steps[..i + 1][..i] == steps[..i];
  }

  lemma HistoryNext(s: Shape, events: seq<Event>, i: nat)
    requires i < |events|
    ensures History(s, events[..i + 1]) == Happen(History(s, events[..i]), events[i])
  {
    hide Happen;
    assert events[..i + 1][..i] == events[..i];
  }

  lemma {:induction false} OrderedUpTo(base: string, s: Shape, events: seq<Event>, i: nat)
    requires LogOrdered(base, s) && EpochInRange(s, events) && SoundEpoch(s, events) && i <= |events|
    ensures LogOrdered(base, History(s, events[..i]))
    decreases i
  {
    hide LogOrdered, SoundEvent, EventInRange, Happen;
    if i == 0 {
      assert events[..0] == [];
    } else {
      OrderedUpTo(base, s, events, i - 1);
      HistoryNext(s, events, i - 1);
      EventOrder(base, History(s, events[..i - 1]), events[i - 1]);
    }
  }

  /** Over every run of refreshes and appends of an epoch, the log is strictly ascending and ends at the
      current offset in every state, exactly when each refresh starts below its commit or on a sound
      base and each appended message lands above the offset before it. */
  lemma EpochOrderedIff(base: string, s: Shape, events: seq<Event>)
    requires LogOrdered(base, s) && EpochInRange(s, events)
    ensures AlwaysOrdered(base, s, events) <==> SoundEpoch(s, events)
  {
    hide LogOrdered, SoundEvent, EventInRange, Happen, History;
    if SoundEpoch(s, events) {
      forall i | 0 <= i <= |events| ensures LogOrdered(base, History(s, events[..i])) { OrderedUpTo(base, s, events, i); }
    }
    if AlwaysOrdered(base, s, events) {
      forall i | 0 <= i < |events| ensures SoundEvent(History(s, events[..i]), events[i]) {
        ghost var n := i + 1;
        assert LogOrdered(base, History(s, events[..n]));
        HistoryNext(s, events, i);
        EventOrder(base, History(s, events[..i]), events[i]);
      }
    }
  }

  /** Any two states of a sound epoch are an earlier and a later one of the same log. */
  lemma {:induction false} EpochContinues(base: string, s: Shape, events: seq<Event>, i: nat, j: nat)
    requires LogOrdered(base, s) && EpochInRange(s, events) && SoundEpoch(s, events) && !s.deleted && i <= j <= |events|
    ensures Continues(base, History(s, events[..i]), History(s, events[..j]))
    decreases i + j
  {
    hide LogOrdered, SoundEvent, EventInRange, Happen;
    OrderedUpTo(base, s, events, i);
    OrderedUpTo(base, s, events, j);
    if i < j {
      EpochContinues(base, s, events, i, j - 1);
      HistoryNext(s, events, j - 1);
      OrderedUpTo(base, s, events, j - 1);
      EventOrder(base, History(s, events[..j - 1]), events[j - 1]);
    } else if i > 0 {
      EpochContinues(base, s, events, i - 1, i - 1);
      HistoryNext(s, events, i - 1);
      OrderedUpTo(base, s, events, i - 1);
      EventOrder(base, History(s, events[..i - 1]), events[i - 1]);
    } else {
      assert events[..0] == [];
    }
  }

  /** An epoch begins ordered: an upsert empties the log and sets the offset. */
  lemma UpsertStartsOrdered(before: Shape, def: Definition, snap: Snapshot, offset: string)
    ensures LogOrdered(offset, Upserted(before, def, snap, offset)) && !Upserted(before, def, snap, offset).deleted
  {
    hide SnapshotMessages, MaterializedRows, CompareOffsets;
  }
}
