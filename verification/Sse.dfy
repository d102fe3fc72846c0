/** A live event stream: the loop that waits, reads and moves its offset. Models serveLiveSSE of
    internal/protocol/service.go; what each wait returns is an input. */
module Sse {
  import opened Strings
  import opened Offsets
  import opened Diff
  import opened ShapeLog
  import opened LogOrder

  /** The outcome of one WaitForChange: the keep-alive interval passed, the client left, the shape was
      not found, or it was read in the given state. */
  datatype Wait = Timeout | Cancelled | NotFound | Read(state: Shape)

  datatype Event = Rows(messages: seq<Message>) | UpToDate | KeepAlive | MustRefetch

  /** All row messages of a stream. */
  function RowsOf(events: seq<Event>): seq<Message>
  {
    if events == [] then [] else
      RowsOf(events[..|events| - 1]) + (match events[|events| - 1] case Rows(ms) => ms case _ => [])
  }

  lemma RowsNext(events: seq<Event>, e: Event)
    ensures RowsOf(events + [e]) == RowsOf(events) + (match e case Rows(ms) => ms case _ => [])
  {
    assert (events + [e])[..|events|] == events;
  }

  /** The last state read by the waits, starting from the state of the first response. */
  function LastSeen(first: Shape, waits: seq<Wait>): Shape
  {
    if waits == [] then first
    else if waits[|waits| - 1].Read? then waits[|waits| - 1].state
    else LastSeen(first, waits[..|waits| - 1])
  }

  /** All states read while the shape lives belong to one epoch, in order. */
  ghost predicate OneEpoch(base: string, first: Shape, waits: seq<Wait>)
  {
    forall i, j | 0 <= i <= j <= |waits| && !LastSeen(first, waits[..j]).deleted ::
      Continues(base, LastSeen(first, waits[..i]), LastSeen(first, waits[..j]))
  }

  predicate Ends(w: Wait)
  {
    w.Cancelled? || w.NotFound? || (w.Read? && w.state.deleted)
  }

  /** Where the stream stands: everything up to `mark` is delivered, and the offset is the mark's, or
      still the requested one when nothing has been delivered. */
  ghost predicate Position(offset: string, current: string, mark: Shape, rows: seq<Message>)
  {
    ReadLog(mark, offset) == Messages(rows) && (current == mark.offset || (current == offset && rows == []))
  }

  /** Reading a later state of the epoch at the current offset gives exactly what is still missing. */
  lemma NextRead(base: string, offset: string, current: string, mark: Shape, later: Shape, rows: seq<Message>)
    requires Position(offset, current, mark, rows) && Continues(base, mark, later)
    ensures ReadLog(later, current).Messages? && ReadLog(later, offset) == Messages(rows + ReadLog(later, current).messages)
  {
    hide ReadLog, Continues;
    ExactlyOnce(base, mark, later, offset);
  }

  /** One round: `read` is what the wait's read returned. */
  lemma Round(base: string, offset: string, current: string, mark: Shape, later: Shape, rows: seq<Message>)
    requires Position(offset, current, mark, rows) && Continues(base, mark, later)
    ensures var read := ReadLog(later, current);
      read.Messages? && ReadLog(later, offset) == Messages(rows + read.messages) &&
      (read.messages != [] ==> Position(offset, later.offset, later, rows + read.messages))
  {
    NextRead(base, offset, current, mark, later, rows);
    hide ReadLog, Continues;
  }

  /** The event for one successful or failed read, and the next offset. */
  method Respond(state: Shape, current: string) returns (event: Event, next: string)
    ensures var read := ReadLog(state, current);
      if !read.Messages? then event == MustRefetch && next == current
      else if read.messages == [] then event == UpToDate && next == current
      else event == Rows(read.messages) && next == state.offset
  {
    hide ReadLog;
    next := current;
    var read := ReadLocked(state, current);
    if !read.Messages? {
      event := MustRefetch;
    } else if |read.messages| == 0 {
      event := UpToDate;
    } else {
      event, next := Rows(read.messages), state.offset;
    }
  }

  // ---- what a stream delivers ----

  /** What has been sent, the offset that the next wait uses, and whether the stream goes on. */
  datatype Stream = Stream(rows: seq<Message>, current: string, open: bool)

  /** The first response: what was read at the requested offset. */
  function Opened(offset: string, first: Shape): Stream
  {
    match ReadLog(first, offset)
    case Messages(ms) => Stream(ms, if ms == [] then offset else first.offset, true)
    case _ => Stream([], offset, false)
  }

  /** One round of the loop. */
  function AfterWait(st: Stream, w: Wait): Stream
  {
    if !st.open then st else
      match w
      case Timeout => st
      case Cancelled => st.(open := false)
      case NotFound => st.(open := false)
      case Read(state) =>
        match ReadLog(state, st.current)
        case Messages(ms) => if ms == [] then st else Stream(st.rows + ms, state.offset, true)
        case _ => st.(open := false)
  }

  function AfterWaits(st: Stream, waits: seq<Wait>): Stream
  {
    if waits == [] then st else AfterWait(AfterWaits(st, waits[..|waits| - 1]), waits[|waits| - 1])
  }

  lemma {:induction false} WaitsConcat(st: Stream, a: seq<Wait>, b: seq<Wait>)
    ensures AfterWaits(st, a + b) == AfterWaits(AfterWaits(st, a), b)
  {
    hide AfterWait;
    if b == [] {
      assert a + b == a;
    } else {
      assert (a + b)[..|a + b| - 1] == a + b[..|b| - 1];
      WaitsConcat(st, a, b[..|b| - 1]);
    }
  }

  /** What one round sends: a comment when the wait times out, the new rows if there are any, the news that there are none
      if a wait ended without, and a demand to start over when the shape is gone or does not accept the offset. */
  predicate Answers(e: Event, st: Stream, w: Wait)
  {
    match w
    case Timeout => e == KeepAlive
    case Cancelled => false
    case NotFound => e == MustRefetch
    case Read(_) =>
      var next := AfterWait(st, w);
      if !next.open then e == MustRefetch
      else if next.rows == st.rows then e == UpToDate
      else e.Rows? && next.rows == st.rows + e.messages
  }

  /** The number of events before the first round. */
  function Lead(offset: string, first: Shape): nat
  {
    if Opened(offset, first).rows == [] then 0 else 1
  }

  /** The events are the first response, if it has rows, and one answer to each wait. */
  ghost predicate Answered(offset: string, first: Shape, waits: seq<Wait>, events: seq<Event>)
  {
    var start, lead := Opened(offset, first), Lead(offset, first);
    lead <= |events| <= lead + |waits| && (lead == 1 ==> events[0] == Rows(start.rows)) &&
    forall i | 0 <= i < |events| - lead :: Answers(events[lead + i], AfterWaits(start, waits[..i]), waits[i])
  }

  lemma AnsweredNext(offset: string, first: Shape, waits: seq<Wait>, events: seq<Event>, e: Event)
    requires Answered(offset, first, waits, events) && |events| < Lead(offset, first) + |waits|
    requires var n := |events| - Lead(offset, first); Answers(e, AfterWaits(Opened(offset, first), waits[..n]), waits[n])
    ensures Answered(offset, first, waits, events + [e])
  {
    hide Answers, AfterWaits, Opened;
  }

  lemma AnsweredFirst(offset: string, first: Shape, waits: seq<Wait>, events: seq<Event>)
    requires events == if Opened(offset, first).rows == [] then [] else [Rows(Opened(offset, first).rows)]
    ensures Answered(offset, first, waits, events)
  {
    hide Answers, AfterWaits, Opened;
  }

  /** serveLiveSSE. For whatever states the waits read, the stream sends what its rounds read, in order; it goes on
      until a round ends it, and unless the client left it announces that. */
  method ServeLive(offset: string, first: Shape, waits: seq<Wait>) returns (events: seq<Event>, stop: nat)
    requires ReadLog(first, offset).Messages?
    ensures stop <= |waits| && RowsOf(events) == AfterWaits(Opened(offset, first), waits[..stop]).rows
    ensures forall i | 0 <= i <= stop :: AfterWaits(Opened(offset, first), waits[..i]).open
    ensures stop < |waits| ==> !AfterWait(AfterWaits(Opened(offset, first), waits[..stop]), waits[stop]).open
    ensures stop < |waits| && !waits[stop].Cancelled? ==> events != [] && events[|events| - 1] == MustRefetch
    ensures Answered(offset, first, waits, events)
    ensures |events| == Lead(offset, first) + stop + if stop < |waits| && !waits[stop].Cancelled? then 1 else 0
  {
    hide ReadLog, Answered;
    ghost var start := Opened(offset, first);
    var current := offset;
    events, stop := [], 0;
    var read := ReadLocked(first, offset);
    if |read.messages| > 0 {
      RowsNext([], Rows(read.messages));
      events := [] + [Rows(read.messages)];
      current := first.offset;
    }
    assert waits[..0] == [];
    AnsweredFirst(offset, first, waits, events);
    while stop < |waits|
      invariant stop <= |waits| && Underway(offset, first, waits, stop, current, events)
      invariant forall i | 0 <= i <= stop :: AfterWaits(start, waits[..i]).open
      decreases |waits| - stop
    {
      var open;
      events, current, open := ServeRound(offset, first, waits, stop, current, events);
      if !open {
        return;
      }
      stop := stop + 1;
    }
  }

  /** After `n` rounds: where the stream stands and what it has sent. */
  ghost predicate Underway(offset: string, first: Shape, waits: seq<Wait>, n: nat, current: string, events: seq<Event>)
    requires n <= |waits|
  {
    AfterWaits(Opened(offset, first), waits[..n]) == Stream(RowsOf(events), current, true) &&
    Answered(offset, first, waits, events) && |events| == Lead(offset, first) + n
  }

  /** One round of the loop, which goes on or ends the stream. */
  method ServeRound(ghost offset: string, ghost first: Shape, waits: seq<Wait>, n: nat, current: string, sent: seq<Event>)
    returns (events: seq<Event>, next: string, open: bool)
    requires n < |waits| && Underway(offset, first, waits, n, current, sent)
    ensures open ==> Underway(offset, first, waits, n + 1, next, events)
    ensures !open ==> !AfterWait(AfterWaits(Opened(offset, first), waits[..n]), waits[n]).open
    ensures !open ==> RowsOf(events) == RowsOf(sent) && Answered(offset, first, waits, events)
    ensures !open ==> events == sent + if waits[n].Cancelled? then [] else [MustRefetch]
  {
    hide ReadLog, Answered, Lead, Opened, RowsOf;
    assert waits[..n + 1][..n] == waits[..n];
    events, next, open := sent, current, false;
    match waits[n]
    case Cancelled =>
      assert sent + [] == sent;
    case NotFound =>
      RowsNext(sent, MustRefetch);
      AnsweredNext(offset, first, waits, sent, MustRefetch);
      events := sent + [MustRefetch];
    case Timeout =>
      RowsNext(sent, KeepAlive);
      AnsweredNext(offset, first, waits, sent, KeepAlive);
      events, open := sent + [KeepAlive], true;
    case Read(state) =>
      var event;
      event, next := Respond(state, current);
      RowsNext(sent, event);
      AnsweredNext(offset, first, waits, sent, event);
      events, open := sent + [event], event != MustRefetch;
  }

  // ---- within one epoch ----

  lemma EpochAt(base: string, first: Shape, waits: seq<Wait>, i: nat, j: nat)
    requires OneEpoch(base, first, waits) && i <= j <= |waits| && !LastSeen(first, waits[..j]).deleted
    ensures Continues(base, LastSeen(first, waits[..i]), LastSeen(first, waits[..j]))
  {
    hide Continues;
  }

  ghost predicate Standing(offset: string, st: Stream, mark: Shape)
  {
    st.open && Position(offset, st.current, mark, st.rows)
  }

  lemma {:induction false} EpochRounds(base: string, offset: string, first: Shape, waits: seq<Wait>, n: nat) returns (m: nat)
    requires ReadLog(first, offset).Messages? && OneEpoch(base, first, waits) && n <= |waits| && forall i | 0 <= i < n :: !Ends(waits[i])
    ensures m <= n
    ensures var st := AfterWaits(Opened(offset, first), waits[..n]);
      Standing(offset, st, LastSeen(first, waits[..m])) && ReadLog(LastSeen(first, waits[..n]), offset) == Messages(st.rows)
    decreases n
  {
    hide ReadLog, Continues, OneEpoch;
    if n == 0 {
      m := 0;
      assert waits[..0] == [];
    } else {
      m := EpochRounds(base, offset, first, waits, n - 1);
      assert waits[..n][..n - 1] == waits[..n - 1];
      assert !Ends(waits[n - 1]);
      var w, st := waits[n - 1], AfterWaits(Opened(offset, first), waits[..n - 1]);
      if w.Read? {
        var mark := LastSeen(first, waits[..m]);
        assert LastSeen(first, waits[..n]) == w.state;
        EpochAt(base, first, waits, m, n);
        Round(base, offset, st.current, mark, w.state, st.rows);
        if ReadLog(w.state, st.current).messages != [] { m := n; }
      }
    }
  }

  /** Within one epoch the stream sends, in order and without gap or repeat, exactly what one read of its last state at
      the requested offset would return, and only the client or the end of the shape ends it. */
  lemma OneEpochStream(base: string, offset: string, first: Shape, waits: seq<Wait>)
    requires ReadLog(first, offset).Messages? && OneEpoch(base, first, waits) && forall i | 0 <= i < |waits| :: !Ends(waits[i])
    ensures var st := AfterWaits(Opened(offset, first), waits);
      st.open && ReadLog(LastSeen(first, waits), offset) == Messages(st.rows)
  {
    hide ReadLog, OneEpoch, AfterWaits, Opened, LastSeen;
    var m := EpochRounds(base, offset, first, waits, |waits|);
    assert waits[..|waits|] == waits;
  }

  // ---- across epochs ----

  /** An upsert between two rounds. The next read is of an ordered state of a new epoch: the stream ends exactly when
      its offset does not parse or is above the new one. Otherwise it goes on with the messages of the new epoch above
      its offset, from whichever epoch that offset is, and never sends the new baseline. */
  lemma EpochSwitch(base: string, st: Stream, state: Shape)
    requires st.open && LogOrdered(base, state) && !state.deleted
    ensures var next := AfterWait(st, Read(state));
      (next.open <==> !ParseOffset(st.current).Invalid? && CompareOffsets(st.current, state.offset) <= 0) &&
      (next.open ==> next.rows == st.rows + After(state.changes, st.current))
  {
    hide ParseOffset, CompareOffsets, After;
    if !ParseOffset(st.current).Invalid? && CompareOffsets(st.current, state.offset) <= 0 {
      ReadIsAfter(base, state, st.current);
    }
  }

  /** After the first accepted read of a new epoch the stream is one that was opened there at its old offset. */
  lemma EpochRestarts(st: Stream, state: Shape)
    requires st.open && ReadLog(state, st.current).Messages?
    ensures var again := Opened(st.current, state);
      AfterWait(st, Read(state)) == Stream(st.rows + again.rows, again.current, true)
  {
    hide ReadLog;
    if ReadLog(state, st.current).messages == [] { assert st.rows + [] == st.rows; }
  }

  lemma {:induction false} EarlierRows(st: Stream, rows: seq<Message>, waits: seq<Wait>)
    ensures AfterWaits(st.(rows := rows + st.rows), waits) == AfterWaits(st, waits).(rows := rows + AfterWaits(st, waits).rows)
  {
    hide ReadLog;
    if waits != [] {
      EarlierRows(st, rows, waits[..|waits| - 1]);
      var before := AfterWaits(st, waits[..|waits| - 1]);
      EarlierRound(before, rows, waits[|waits| - 1]);
    }
  }

  lemma EarlierRound(st: Stream, rows: seq<Message>, w: Wait)
    ensures AfterWait(st.(rows := rows + st.rows), w) == AfterWait(st, w).(rows := rows + AfterWait(st, w).rows)
  {
    hide ReadLog;
    if w.Read? && ReadLog(w.state, st.current).Messages? {
      var ms := ReadLog(w.state, st.current).messages;
      assert (rows + st.rows) + ms == rows + (st.rows + ms);
    }
  }

  /** A stream over two epochs, of which the second accepts its offset: it sends what one read of the last state of the
      first epoch at the requested offset returns, and then what one read of the last state of the second at the
      offset reached returns. Nothing between the two, and no baseline. */
  lemma TwoEpochStream(base1: string, base2: string, offset: string, first: Shape, a: seq<Wait>, state: Shape, b: seq<Wait>)
    requires ReadLog(first, offset).Messages? && OneEpoch(base1, first, a) && (forall i | 0 <= i < |a| :: !Ends(a[i]))
    requires OneEpoch(base2, state, b) && forall i | 0 <= i < |b| :: !Ends(b[i])
    requires ReadLog(state, AfterWaits(Opened(offset, first), a).current).Messages?
    ensures var st, reached := AfterWaits(Opened(offset, first), a + [Read(state)] + b), AfterWaits(Opened(offset, first), a).current;
      ReadLog(LastSeen(first, a), offset).Messages? && ReadLog(LastSeen(state, b), reached).Messages? && st.open &&
      st.rows == ReadLog(LastSeen(first, a), offset).messages + ReadLog(LastSeen(state, b), reached).messages
  {
    hide ReadLog, OneEpoch, AfterWait, LastSeen;
    var start := Opened(offset, first);
    var st := AfterWaits(start, a);
    OneEpochStream(base1, offset, first, a);
    OneEpochStream(base2, st.current, state, b);
    EpochRestarts(st, state);
    var again := Opened(st.current, state);
    assert (a + [Read(state)])[..|a|] == a;
    assert AfterWaits(start, a + [Read(state)]) == AfterWait(st, Read(state));
    WaitsConcat(start, a + [Read(state)], b);
    EarlierRows(again, st.rows, b);
    assert again.open by { OpenedIs(st.current, state); }
    assert AfterWait(st, Read(state)) == again.(rows := st.rows + again.rows);
  }

  lemma OpenedIs(offset: string, first: Shape)
    requires ReadLog(first, offset).Messages?
    ensures Opened(offset, first).open
  {
    hide ReadLog;
  }
}
