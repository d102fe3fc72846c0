/** What a client carried over from an earlier epoch is told. An upsert starts a new epoch under the
    same handle, and the read path compares offsets alone. */
module EpochReads {
  import opened Strings
  import opened Offsets
  import opened Keys
  import opened Diff
  import opened ShapeLog
  import opened LogOrder
  import opened Client
  import opened Replay
  import opened EpochOrder
  import opened WireClient

  // ---- which part of the new log is served ----

  lemma OrderedAtEnd(base: string, s: Shape, events: seq<Event>)
    requires LogOrdered(base, s) && EpochInRange(s, events) && SoundEpoch(s, events) && !s.deleted
    ensures LogOrdered(base, History(s, events)) && !History(s, events).deleted
  {
    hide LogOrdered, SoundEvent, EventInRange, Happen;
    OrderedUpTo(base, s, events, |events|);
    EpochContinues(base, s, events, |events|, |events|);
    assert events[..|events|] == events;
  }

  /** In an ordered log a read starts at the beginning exactly when the first message is above the offset. */
  lemma WholeLogIff(base: string, changes: seq<Message>, offset: string)
    requires Ascends(base, changes)
    ensures After(changes, offset) == changes <==> changes == [] || CompareOffsets(changes[0].offset, offset) > 0
  {
    hide ParseOffset, CompareOffsets, After;
    AfterIsSuffix(base, changes, offset);
    if changes != [] {
      var k :| 0 <= k <= |changes| && After(changes, offset) == changes[k..] &&
               (forall i | 0 <= i < k :: CompareOffsets(changes[i].offset, offset) <= 0) &&
               (forall i | k <= i < |changes| :: CompareOffsets(changes[i].offset, offset) > 0);
      if k == 0 {
        assert changes[0..] == changes;
      } else {
        assert |changes[k..]| < |changes|;
      }
    }
  }

  /** In every state of an epoch, whatever the offset it started at, an offset is refused exactly
      when it does not parse or is above the current one. Any other offset, from whichever epoch, is
      answered with the messages of the current epoch above it, and with all of them when it is not
      above the epoch's start. */
  lemma ReadAcrossEpochs(before: Shape, def: Definition, snap: Snapshot, base: string, events: seq<Event>, offset: string)
    requires EpochInRange(Upserted(before, def, snap, base), events) && SoundEpoch(Upserted(before, def, snap, base), events)
    ensures var t := History(Upserted(before, def, snap, base), events);
      (ReadLog(t, offset) == OutOfRange <==> ParseOffset(offset).Invalid? || CompareOffsets(offset, t.offset) > 0) &&
      (ReadLog(t, offset) != OutOfRange ==> ReadLog(t, offset) == Messages(After(t.changes, offset))) &&
      (After(t.changes, offset) == t.changes <==> t.changes == [] || CompareOffsets(t.changes[0].offset, offset) > 0) &&
      (CompareOffsets(offset, base) <= 0 ==> After(t.changes, offset) == t.changes)
  {
    hide ParseOffset, CompareOffsets, After, SoundEpoch, EpochInRange, History;
    UpsertStartsOrdered(before, def, snap, base);
    OrderedAtEnd(base, Upserted(before, def, snap, base), events);
    var t := History(Upserted(before, def, snap, base), events);
    WholeLogIff(base, t.changes, offset);
    if !ParseOffset(offset).Invalid? && CompareOffsets(offset, t.offset) <= 0 {
      ReadIsAfter(base, t, offset);
    }
    if CompareOffsets(offset, base) <= 0 && t.changes != [] {
      AboveTransitive(offset, base, t.changes[0].offset);
    }
  }

  // ---- when a carried-over client ends up right ----

  /** An insert, a delete, or a full update decides the entry of key `x` whatever the client held. */
  predicate Settles(full: bool, messages: seq<Message>, x: string)
  {
    messages != [] &&
    var m := messages[|messages| - 1];
    Settles(full, messages[..|messages| - 1], x) || (m.body.Change? && m.key == x && (m.body.op != Update || full))
  }

  /** The columns of `x` that the messages set. */
  function ColumnsSet(messages: seq<Message>, x: string): set<string>
  {
    if messages == [] then {} else
      var m := messages[|messages| - 1];
      ColumnsSet(messages[..|messages| - 1], x) + (if m.body.Change? && m.key == x then m.body.value.Keys else {})
  }

  predicate Mentions(messages: seq<Message>, x: string)
  {
    messages != [] &&
    var m := messages[|messages| - 1]; Mentions(messages[..|messages| - 1], x) || (m.body.Change? && m.key == x)
  }

  function CellAt(c: State, x: string, column: string): Option<string>
  {
    if x in c then Cell(c[x].row, column) else None
  }

  ghost predicate SameEntry(bools: set<string>, a: State, b: State, x: string)
  {
    (x in a <==> x in b) && (x in a ==> SameRow(bools, a[x].row, b[x].row))
  }

  /** The same rows under the same keys. */
  ghost predicate SameClient(bools: set<string>, a: State, b: State)
  {
    forall x :: SameEntry(bools, a, b, x)
  }

  /** The two clients agree on everything about `x` that the messages leave as it was. */
  ghost predicate AgreeUnset(bools: set<string>, full: bool, messages: seq<Message>, a: State, b: State, x: string)
  {
    if Settles(full, messages, x) then true
    else if Mentions(messages, x) then
      forall c | c !in ColumnsSet(messages, x) :: Norm(bools, c, CellAt(a, x, c)) == Norm(bools, c, CellAt(b, x, c))
    else SameEntry(bools, a, b, x)
  }

  ghost predicate OnlyChanges(messages: seq<Message>)
  {
    forall i | 0 <= i < |messages| :: messages[i].body.Change?
  }

  /** What one message does to the entry of `x`. */
  lemma ApplyAt(full: bool, w: State, m: Message, x: string)
    requires m.body.Change?
    ensures var r := ApplyWire(full, w, m);
      if m.key != x then (x in r <==> x in w) && (x in w ==> r[x] == w[x])
      else if m.body.op == Delete then x !in r
      else x in r && r[x].row == if m.body.op == Update && x in w && !full then w[x].row + m.body.value else m.body.value
  {
  }

  /** Where the messages settle `x`, two clients end with the same row. */
  lemma {:induction false} SettledSame(full: bool, a: State, b: State, messages: seq<Message>, x: string)
    requires OnlyChanges(messages) && Settles(full, messages, x)
    ensures var p, q := ReplayWire(full, a, messages), ReplayWire(full, b, messages);
      (x in p <==> x in q) && (x in p ==> p[x].row == q[x].row)
  {
    hide ApplyWire;
    var n := |messages| - 1;
    assert messages[n].body.Change?;
    ApplyAt(full, ReplayWire(full, a, messages[..n]), messages[n], x);
    ApplyAt(full, ReplayWire(full, b, messages[..n]), messages[n], x);
    if Settles(full, messages[..n], x) { SettledSame(full, a, b, messages[..n], x); }
  }

  /** Where they do not, a client keeps what they do not set, and gets what they do. */
  lemma {:induction false} UnsettledKeeps(full: bool, a: State, b: State, messages: seq<Message>, x: string)
    requires OnlyChanges(messages) && !Settles(full, messages, x)
    ensures var p, q := ReplayWire(full, a, messages), ReplayWire(full, b, messages);
      if Mentions(messages, x) then
        x in p && x in q &&
        forall c :: if c in ColumnsSet(messages, x) then Cell(p[x].row, c) == Cell(q[x].row, c)
                    else Cell(p[x].row, c) == CellAt(a, x, c) && Cell(q[x].row, c) == CellAt(b, x, c)
      else (x in p <==> x in a) && (x in p ==> p[x] == a[x]) && (x in q <==> x in b) && (x in q ==> q[x] == b[x]) &&
           ColumnsSet(messages, x) == {}
  {
    hide ApplyWire;
    if messages != [] {
      var n := |messages| - 1;
      assert messages[n].body.Change?;
      UnsettledKeeps(full, a, b, messages[..n], x);
      ApplyAt(full, ReplayWire(full, a, messages[..n]), messages[n], x);
      ApplyAt(full, ReplayWire(full, b, messages[..n]), messages[n], x);
    }
  }

  /** Two clients that are sent the same messages end the same at `x` exactly when they agreed on everything
      about it that the messages leave alone. */
  lemma SameAfterIff(bools: set<string>, full: bool, a: State, b: State, messages: seq<Message>, x: string)
    requires OnlyChanges(messages)
    ensures SameEntry(bools, ReplayWire(full, a, messages), ReplayWire(full, b, messages), x)
            <==> AgreeUnset(bools, full, messages, a, b, x)
  {
    hide ReplayWire, Settles, Mentions, ColumnsSet, Norm, Cell;
    var p, q := ReplayWire(full, a, messages), ReplayWire(full, b, messages);
    if Settles(full, messages, x) {
      SettledSame(full, a, b, messages, x);
    } else {
      UnsettledKeeps(full, a, b, messages, x);
      if Mentions(messages, x) && SameEntry(bools, p, q, x) {
        forall c | c !in ColumnsSet(messages, x) ensures Norm(bools, c, CellAt(a, x, c)) == Norm(bools, c, CellAt(b, x, c)) {
          assert Norm(bools, c, Cell(p[x].row, c)) == Norm(bools, c, Cell(q[x].row, c));
        }
      }
    }
  }

  lemma {:induction false} RunOnlyChanges(s: Shape, steps: seq<Step>)
    requires !HasDependencyKeyword(s.def) && s.changes == []
    ensures OnlyChanges(Run(s, steps).changes) && Run(s, steps).def == s.def
  {
    hide HasDependencyKeyword, StepMessages, Take, Numbered;
    if steps != [] {
      var n := |steps| - 1;
      var mid := Run(s, steps[..n]);
      RunOnlyChanges(s, steps[..n]);
      StepBatch(mid, steps[n]);
      TakeKeeps(mid, steps[n]);
      NumberedChanges(mid.offset, StepMessages(mid, steps[n]), steps[n].meta);
    }
  }

  lemma NumberedChanges(offset: string, messages: seq<Message>, meta: Metadata)
    requires OnlyChanges(messages)
    ensures OnlyChanges(Numbered(offset, messages, meta))
  {
    hide FormatLsnOffset, NextGeneratedOffset;
  }

  /** Carried over. A client with any entries, from whichever epoch, that reads at an offset is sent the log of
      the current epoch from some place on. It ends like a fresh client exactly when it agreed, on everything
      that those messages do not set, with what a fresh client holds at that place; and then it is right if a
      fresh client is. */
  lemma CarriedOverIff(bools: set<string>, before: Shape, def: Definition, snap: Snapshot, base: string, steps: seq<Step>,
                       offset: string, w: State) returns (k: nat)
    requires !HasDependencyKeyword(def) && LogOrdered(base, Run(Upserted(before, def, snap, base), steps))
    ensures var t, full := Run(Upserted(before, def, snap, base), steps), def.FullReplica();
      k <= |t.changes| && After(t.changes, offset) == t.changes[k..] &&
      (SameClient(bools, ReplayWire(full, w, After(t.changes, offset)), ClientAt(t))
       <==> forall x :: AgreeUnset(bools, full, t.changes[k..], w, ReplayWire(full, map[], t.snapshot + t.changes[..k]), x)) &&
      (SameClient(bools, ReplayWire(full, w, After(t.changes, offset)), ClientAt(t)) && HoldsRows(bools, ClientAt(t), t.rows)
       ==> HoldsRows(bools, ReplayWire(full, w, After(t.changes, offset)), t.rows))
  {
    var s := Upserted(before, def, snap, base);
    RunOnlyChanges(s, steps);
    hide HasDependencyKeyword, Upserted, Run, AgreeUnset, ClientAt, SameClient, HoldsRows, After;
    var t := Run(s, steps);
    k := SuffixIff(bools, base, t, offset, w);
    var w' := ReplayWire(def.FullReplica(), w, After(t.changes, offset));
    if SameClient(bools, w', ClientAt(t)) && HoldsRows(bools, ClientAt(t), t.rows) { SameClientHolds(bools, w', ClientAt(t), t.rows); }
  }

  lemma SuffixIff(bools: set<string>, base: string, t: Shape, offset: string, w: State) returns (k: nat)
    requires LogOrdered(base, t) && OnlyChanges(t.changes)
    ensures k <= |t.changes| && After(t.changes, offset) == t.changes[k..]
    ensures var full := t.def.FullReplica();
      SameClient(bools, ReplayWire(full, w, After(t.changes, offset)), ClientAt(t))
      <==> forall x :: AgreeUnset(bools, full, t.changes[k..], w, ReplayWire(full, map[], t.snapshot + t.changes[..k]), x)
  {
    k := ServedFrom(base, t.changes, offset);
    hide After, AgreeUnset, SameClient, ReplayWire, LogOrdered, ClientAt;
    ClientCut(t, k);
    var full := t.def.FullReplica();
    SameClientIff(bools, full, w, ReplayWire(full, map[], t.snapshot + t.changes[..k]), t.changes[k..]);
  }

  lemma ServedFrom(base: string, changes: seq<Message>, offset: string) returns (k: nat)
    requires Ascends(base, changes)
    ensures k <= |changes| && After(changes, offset) == changes[k..]
  {
    hide After, CompareOffsets;
    AfterIsSuffix(base, changes, offset);
    k :| 0 <= k <= |changes| && After(changes, offset) == changes[k..];
  }

  lemma ClientCut(t: Shape, k: nat)
    requires k <= |t.changes|
    ensures var full := t.def.FullReplica();
      ClientAt(t) == ReplayWire(full, ReplayWire(full, map[], t.snapshot + t.changes[..k]), t.changes[k..])
  {
    hide ReplayWire;
    assert t.snapshot + t.changes == (t.snapshot + t.changes[..k]) + t.changes[k..];
    ReplayWireConcat(t.def.FullReplica(), map[], t.snapshot + t.changes[..k], t.changes[k..]);
  }

  lemma SameClientIff(bools: set<string>, full: bool, a: State, b: State, messages: seq<Message>)
    requires OnlyChanges(messages)
    ensures SameClient(bools, ReplayWire(full, a, messages), ReplayWire(full, b, messages))
            <==> forall x :: AgreeUnset(bools, full, messages, a, b, x)
  {
    hide AgreeUnset, SameEntry, ReplayWire, OnlyChanges;
    forall x ensures SameEntry(bools, ReplayWire(full, a, messages), ReplayWire(full, b, messages), x)
                     <==> AgreeUnset(bools, full, messages, a, b, x)
    {
      SameAfterIff(bools, full, a, b, messages, x);
    }
  }

  /** A client like one that holds the rows holds them. */
  lemma SameClientHolds(bools: set<string>, a: State, b: State, rows: Rows)
    requires SameClient(bools, a, b) && HoldsRows(bools, b, rows)
    ensures HoldsRows(bools, a, rows)
  {
    hide Matches, SameClient;
    var f :| Matches(bools, f, b, rows);
    SameClientMatches(bools, a, b, f, rows);
  }

  lemma SameClientMatches(bools: set<string>, a: State, b: State, f: map<string, string>, rows: Rows)
    requires SameClient(bools, a, b) && Matches(bools, f, b, rows)
    ensures Matches(bools, f, a, rows)
  {
    hide SameRow;
    forall k | k in rows ensures f[k] in a && SameRow(bools, a[f[k]].row, rows[k]) {
      assert SameEntry(bools, a, b, f[k]);
      SameRowTrans(bools, a[f[k]].row, b[f[k]].row, rows[k]);
    }
    forall x | x in a ensures exists k :: k in f && f[k] == x { assert SameEntry(bools, a, b, x); }
  }

  lemma SameRowTrans(bools: set<string>, a: Row, b: Row, c: Row)
    requires SameRow(bools, a, b) && SameRow(bools, b, c)
    ensures SameRow(bools, a, c)
  {
    hide Norm;
  }

  // ---- rows that the new epoch never mentions ----

  /** No message speaks of `k`, by key or by tag. */
  ghost predicate Silent(k: string, messages: seq<Message>)
  {
    forall i | 0 <= i < |messages| :: messages[i].body.Change? && messages[i].internalKey != k
  }

  lemma {:induction false} DiffSilent(def: Definition, schema: Schema, relation: Relation, keys: seq<string>,
                                      previous: Rows, current: Rows, k: string)
    requires k !in keys
    ensures Silent(k, DiffKeys(def, schema, relation, keys, previous, current))
  {
    hide MessageKey, UpdateValue, UpdateOldValue, DeleteValue, ChangedColumns;
    if keys != [] {
      DiffSilent(def, schema, relation, keys[1..], previous, current, k);
      assert keys[0] != k;
    }
  }

  lemma {:induction false} WireSilent(schema: Schema, messages: seq<Message>, k: string)
    requires Silent(k, messages)
    ensures Silent(k, WireMessages(schema, messages))
  {
    hide WireRow;
    if messages != [] {
      WireSilent(schema, messages[1..], k);
      assert messages[0].body.Change? && messages[0].internalKey != k;
    }
  }

  lemma DiffRowsSilent(def: Definition, schema: Schema, relation: Relation, previous: Rows, current: Rows, k: string)
    requires k !in previous && k !in current
    ensures Silent(k, DiffRows(def, schema, relation, previous, current))
  {
    DiffSilent(def, schema, relation, Sorted(previous.Keys + current.Keys), previous, current, k);
  }

  lemma StepSilent(s: Shape, step: Step, k: string)
    requires !HasDependencyKeyword(s.def)
    requires k !in s.rows && k !in MaterializedRows(step.snap.schema, step.snap.rows)
    ensures Silent(k, StepMessages(s, step)) && k !in Take(s, step).rows
    ensures Take(s, step).changes == s.changes ||
            Take(s, step).changes == s.changes + Numbered(s.offset, StepMessages(s, step), step.meta)
    ensures Take(s, step).def == s.def
  {
    hide Silent, DiffRows, WireMessages, HasDependencyKeyword, MaterializedRows, TargetedKeys;
    var current := MaterializedRows(step.snap.schema, step.snap.rows);
    match step {
      case Full(snap, meta) =>
        DiffRowsSilent(s.def, snap.schema, s.def.relation, s.rows, current, k);
      case ByKeys(snap, keyRows, meta) =>
        var keys := TargetedKeys(snap.schema, keyRows, snap.rows);
        var before, after := Restrict(s.rows, keys), Restrict(Splice(s.rows, keys, current), keys);
        DiffRowsSilent(s.def, snap.schema, KeyRelation(s.def, meta), before, after, k);
        WireSilent(snap.schema, DiffRows(s.def, snap.schema, KeyRelation(s.def, meta), before, after), k);
        SilentNothing(k);
    }
  }

  lemma SilentNothing(k: string)
    ensures Silent(k, [])
  {
  }

  lemma SilentGrows(k: string, old_: seq<Message>, offset: string, messages: seq<Message>, meta: Metadata)
    requires Silent(k, old_) && Silent(k, messages)
    ensures Silent(k, old_ + Numbered(offset, messages, meta))
  {
    var new_ := Numbered(offset, messages, meta);
    forall i | 0 <= i < |new_| ensures new_[i].body.Change? && new_[i].internalKey != k {
      assert messages[i].body.Change? && messages[i].internalKey != k;
    }
  }

  lemma {:induction false} RunSilent(s: Shape, steps: seq<Step>, k: string)
    requires !HasDependencyKeyword(s.def) && s.changes == [] && k !in AllKeys(s.rows, steps)
    ensures var t := Run(s, steps); Silent(k, t.changes) && k !in t.rows && t.def == s.def
  {
    hide Silent, HasDependencyKeyword, MaterializedRows, StepMessages, Take;
    if steps == [] {
      SilentNothing(k);
    } else {
      var n := |steps| - 1;
      var mid := Run(s, steps[..n]);
      RunSilent(s, steps[..n], k);
      StepSilent(mid, steps[n], k);
      SilentGrows(k, mid.changes, mid.offset, StepMessages(mid, steps[n]), steps[n].meta);
    }
  }

  lemma {:induction false} AfterSilent(k: string, changes: seq<Message>, offset: string)
    requires Silent(k, changes)
    ensures Silent(k, After(changes, offset))
  {
    hide CompareOffsets;
    if changes != [] {
      var n := |changes| - 1;
      AfterSilent(k, changes[..n], offset);
      assert changes[n].body.Change? && changes[n].internalKey != k;
    }
  }

  /** The message is keyed as rows of some relation are. */
  ghost predicate PrintedFor(names: seq<string>, m: Message)
  {
    exists r :: KeyFits(names, r, m)
  }

  ghost predicate Printed(names: seq<string>, messages: seq<Message>)
  {
    forall i | 0 <= i < |messages| :: PrintedFor(names, messages[i])
  }

  lemma FitsPrinted(names: seq<string>, r: Relation, a: seq<Message>, b: seq<Message>)
    requires Printed(names, a) && AllFit(names, r, b)
    ensures Printed(names, a + b)
  {
    hide KeyFits;
    forall i | 0 <= i < |b| ensures PrintedFor(names, b[i]) { assert KeyFits(names, r, b[i]); }
  }

  lemma {:induction false} RunPrinted(names: seq<string>, s: Shape, steps: seq<Step>)
    requires StepsKeyed(names, steps) && RowsKeyed(names, s.rows) && s.changes == []
    ensures Printed(names, Run(s, steps).changes)
  {
    hide SnapKeyed, RowsKeyed, KeyFits, StepMessages, Take, Numbered, PrintedRelation;
    if steps != [] {
      var n := |steps| - 1;
      var mid := Run(s, steps[..n]);
      RunPrinted(names, s, steps[..n]);
      RunKeyed(names, s, steps, n);
      StepFitsKeys(names, mid, steps[n]);
      TakeKeeps(mid, steps[n]);
      NumberedFits(names, PrintedRelation(mid.def, steps[n]), mid.offset, StepMessages(mid, steps[n]), steps[n].meta);
      FitsPrinted(names, PrintedRelation(mid.def, steps[n]), mid.changes,
                  Numbered(mid.offset, StepMessages(mid, steps[n]), steps[n].meta));
    }
  }

  lemma {:induction false} SilentReplayKeeps(names: seq<string>, full: bool, w: State, messages: seq<Message>, r: Relation, k: string)
    requires Silent(k, messages) && Printed(names, messages) && WireKey(names, r, k) in w && (names == [] ==> k == "")
    ensures var x := WireKey(names, r, k); x in ReplayWire(full, w, messages) && ReplayWire(full, w, messages)[x] == w[x]
  {
    hide WireKey, ApplyWire;
    if messages != [] {
      var n := |messages| - 1;
      var x, m := WireKey(names, r, k), messages[n];
      SilentReplayKeeps(names, full, w, messages[..n], r, k);
      assert m.body.Change? && m.internalKey != k && PrintedFor(names, m);
      var q :| KeyFits(names, q, m);
      SameWire(names, q, m.internalKey, r, k);
      ApplyAt(full, ReplayWire(full, w, messages[..n]), m, x);
      ApplyKeepsEntry(full, ReplayWire(full, w, messages[..n]), m, x);
    }
  }

  lemma ApplyKeepsEntry(full: bool, w: State, m: Message, x: string)
    requires m.body.Change? && m.key != x && x in w
    ensures x in ApplyWire(full, w, m) && ApplyWire(full, w, m)[x] == w[x]
  {
  }

  lemma {:induction false} AfterPrinted(names: seq<string>, changes: seq<Message>, offset: string)
    requires Printed(names, changes)
    ensures Printed(names, After(changes, offset))
  {
    hide CompareOffsets, PrintedFor;
    if changes != [] {
      var n := |changes| - 1;
      AfterPrinted(names, changes[..n], offset);
      assert PrintedFor(names, changes[n]);
    }
  }

  /** Rows with equal values have equal keys, when no key column is a boolean. */
  lemma SameRowSameKey(names: seq<string>, bools: set<string>, a: Row, j: string, b: Row, k: string)
    requires Keyed(names, j, a) && Keyed(names, k, b) && SameRow(bools, a, b) && forall n | n in names :: n !in bools
    ensures j == k
  {
    hide NoSeparator, Join;
    forall i | 0 <= i < |names| ensures KeyValues(names, a)[i] == KeyValues(names, b)[i] {
      assert names[i] in names;
      assert Norm(bools, names[i], Cell(a, names[i])) == Norm(bools, names[i], Cell(b, names[i]));
    }
    assert KeyValues(names, a) == KeyValues(names, b);
  }

  /** A row that a client brings from an earlier epoch, under whichever relation, and the new one never has stays
      with that client through every read from any offset; so the client is never right. */
  lemma StaleRowStays(names: seq<string>, bools: set<string>, before: Shape, def: Definition, snap: Snapshot, base: string,
                      steps: seq<Step>, offset: string, w: State, r: Relation, k: string)
    requires !HasDependencyKeyword(def) && SnapKeyed(names, snap) && StepsKeyed(names, steps)
    requires WireKey(names, r, k) in w && Keyed(names, k, w[WireKey(names, r, k)].row)
    requires k !in AllKeys(MaterializedRows(snap.schema, snap.rows), steps)
    ensures var t, x := Run(Upserted(before, def, snap, base), steps), WireKey(names, r, k);
      var w' := ReplayWire(def.FullReplica(), w, After(t.changes, offset));
      k !in t.rows && x in w' && w'[x] == w[x] && ((forall n | n in names :: n !in bools) ==> !HoldsRows(bools, w', t.rows))
  {
    hide Silent, HasDependencyKeyword, MaterializedRows, AllKeys, Run, After, SnapshotMessages, SnapKeyed, RowsKeyed, Keyed,
      WireKey, KeyFits, Printed, HoldsRows, Upserted, ReplayWire;
    var s := Upserted(before, def, snap, base);
    StartFits(names, before, def, snap, base);
    StartRows(before, def, snap, base);
    KeylessIsEmpty(names, k, w[WireKey(names, r, k)].row);
    RunSilent(s, steps, k);
    RunPrinted(names, s, steps);
    RunKeyed(names, s, steps, |steps|);
    assert steps[..|steps|] == steps;
    var t := Run(s, steps);
    AfterSilent(k, t.changes, offset);
    AfterPrinted(names, t.changes, offset);
    var messages := After(t.changes, offset);
    SilentReplayKeeps(names, def.FullReplica(), w, messages, r, k);
    if forall n | n in names :: n !in bools {
      ForeignRowWrong(names, bools, ReplayWire(def.FullReplica(), w, messages), WireKey(names, r, k), k, t.rows);
    }
  }

  lemma StartRows(before: Shape, def: Definition, snap: Snapshot, base: string)
    ensures Upserted(before, def, snap, base).rows == MaterializedRows(snap.schema, snap.rows)
  {
  }

  lemma ForeignRowWrong(names: seq<string>, bools: set<string>, w: State, x: string, k: string, rows: Rows)
    requires RowsKeyed(names, rows) && x in w && Keyed(names, k, w[x].row) && k !in rows && forall n | n in names :: n !in bools
    ensures !HoldsRows(bools, w, rows)
  {
    hide Matches;
    forall f ensures !Matches(bools, f, w, rows) { ForeignRowUnmatched(names, bools, f, w, x, k, rows); }
  }

  lemma ForeignRowUnmatched(names: seq<string>, bools: set<string>, f: map<string, string>, w: State, x: string, k: string, rows: Rows)
    requires RowsKeyed(names, rows) && x in w && Keyed(names, k, w[x].row) && k !in rows && forall n | n in names :: n !in bools
    ensures !Matches(bools, f, w, rows)
  {
    hide Keyed, SameRow;
    if Matches(bools, f, w, rows) {
      var j :| j in f && f[j] == x;
      SameRowSameKey(names, bools, w[x].row, k, rows[j], j);
    }
  }

  // ---- a commit offset of the old epoch ----

  lemma InitialOffsetDenotes()
    ensures ParseOffset(INITIAL_OFFSET) == Sequence(0)
  {
    ParseFormatSequence(0);
    assert FormatSequenceOffset(0) == INITIAL_OFFSET;
  }

  /** The upsert of the retry path starts at the initial offset. A client at a commit of the old epoch
      is refused only until the next commit that changes the shape: from then on it is sent the new log
      from its start, as if it had the new baseline. For example a client at LSN 100 and a commit at 200. */
  lemma OldCommitAccepted(before: Shape, def: Definition, snap: Snapshot, step: Step, lsn: nat, position: nat)
    requires var s := Upserted(before, def, snap, INITIAL_OFFSET);
      InRange(s, step) && StepMessages(s, step) != []
    requires 0 < lsn < step.meta.commitLsn && position < TWO_63
    ensures var s := Upserted(before, def, snap, INITIAL_OFFSET);
      var t := Take(s, step);
      ReadLog(s, FormatLsnOffset(lsn, position)) == OutOfRange &&
      t.changes != [] && ReadLog(t, FormatLsnOffset(lsn, position)) == Messages(t.changes)
  {
    hide StepMessages, Take, ParseOffset, FormatLsnOffset, SnapshotMessages, MaterializedRows;
    var s := Upserted(before, def, snap, INITIAL_OFFSET);
    var o := FormatLsnOffset(lsn, position);
    InitialOffsetDenotes();
    ParseFormatLsn(lsn, position);
    CommitTaken(s, step, lsn);
    var t := Take(s, step);
    UpsertStartsOrdered(before, def, snap, INITIAL_OFFSET);
    StepOrder(INITIAL_OFFSET, s, step);
    ReadIsAfter(INITIAL_OFFSET, t, o);
    WholeLogIff(INITIAL_OFFSET, t.changes, o);
  }

  lemma FirstLog(s: Shape, step: Step)
    requires s.changes == [] && StepMessages(s, step) != []
    ensures var t := Take(s, step);
      t.changes == Numbered(s.offset, StepMessages(s, step), step.meta) && t.offset == LastOffset(s.offset, t.changes)
  {
    hide MaterializedRows, TargetedKeys, RefreshMessages, KeysMessages, Splice, Numbered;
  }

  /** The first commit of an epoch numbers its messages from its own LSN. */
  lemma CommitTaken(s: Shape, step: Step, lsn: nat)
    requires s.changes == [] && InRange(s, step) && StepMessages(s, step) != [] && 0 < lsn < step.meta.commitLsn
    ensures var t := Take(s, step);
      t.changes != [] && t.offset == t.changes[|t.changes| - 1].offset &&
      (forall i | 0 <= i < |t.changes| :: ParseOffset(t.changes[i].offset) == Lsn(step.meta.commitLsn, i))
  {
    hide ParseOffset, StepMessages, Take, Numbered;
    StepUnnumbered(s, step);
    FirstLog(s, step);
    var messages := StepMessages(s, step);
    var t := Take(s, step);
    forall i | 0 <= i < |messages| ensures ParseOffset(t.changes[i].offset) == Lsn(step.meta.commitLsn, i) {
      NewOffset(s.offset, messages, step.meta, i);
    }
  }
}
