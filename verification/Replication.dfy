/** The replication protocol as a state machine: the server commits and streams, the runtime
    applies, saves a checkpoint, confirms, and may fail and reconnect at any moment. Models
    prepareReplicationStart, replicationLoop, handleLogicalMessage and the LSN recorders of
    internal/pg/replication.go for a disk store. */
module Replication {
  import opened Strings
  import opened Keys
  import opened Diff
  import ShapeLog
  import opened Database

  datatype Live = Live(view: View, rows: Rows)

  /** `Streaming(next)`: transaction `next` is the next to be streamed. `Applying(i, pending)`:
      commit `i` is being applied and the shapes `pending` have not been refreshed for it yet.
      `Saved(i)`: its checkpoint is saved and its LSN not yet confirmed. */
  datatype Phase = Down | Streaming(next: nat) | Applying(index: nat, pending: set<string>) | Saved(index: nat)

  /** `shapes` holds the live shapes; a tombstoned shape is not in it. `applied` counts the leading
      commits that every live shape reflects; it is bookkeeping that no step reads. */
  datatype System = System(
    db: Db, txns: seq<Txn>, walEnd: nat,
    slot: bool, flushed: nat,
    shapes: map<string, Live>, checkpoint: Option<nat>,
    phase: Phase, startLsn: nat, startSaved: bool, confirmed: nat, clientPos: nat, sent: set<nat>,
    applied: nat)

  datatype Step =
    | ServerCommits(txn: Txn)
    | SlotDropped
    | Connect(compatible: bool, position: nat, consistentPoint: nat)
    | SaveStart
    | Keepalive(serverEnd: nat)
    | Data(walStart: nat)
    | StandbyTick
    | BeginApply
    | RefreshByKeys(handle: string, at: map<string, nat>)
    | RefreshWhole(handle: string, version: nat)
    | ApplyTick
    | SaveCheckpoint
    | ConfirmCommit
    | Fail
    | Register(handle: string, view: View, version: nat)
    | Tombstone(handle: string)

  function Max(a: nat, b: nat): nat { if a < b then b else a }

  /** How many commit records start before `lsn`: the ones a server resuming at `lsn` skips. */
  function Before(txns: seq<Txn>, lsn: nat): (n: nat)
    ensures n <= |txns|
  {
    if txns == [] then 0
    else if txns[|txns| - 1].start < lsn then |txns|
    else Before(txns[..|txns| - 1], lsn)
  }

  /** The commit that the stream is at. */
  function At(p: Phase): nat
  {
    match p
    case Down => 0
    case Streaming(next) => next
    case Applying(i, _) => i
    case Saved(i) => i
  }

  /** The oldest version that a newly registered snapshot may show: every commit whose application
      has begun is in it. */
  function Floor(s: System): nat
  {
    match s.phase
    case Applying(i, _) => Max(s.applied, i + 1)
    case Saved(i) => Max(s.applied, i + 1)
    case _ => s.applied
  }

  // ---- steps ----

  /** What the environment and the control flow allow. The server's log only grows; a keepalive
      covers only transactions already streamed; data of a transaction lies before its commit
      record; a query sees the commit being applied and never an older state than before. */
  ghost predicate Enabled(s: System, step: Step)
  {
    match step
    case ServerCommits(t) => s.walEnd <= t.start < t.end
    case SlotDropped => s.phase.Down?
    case Connect(_, position, consistentPoint) => s.phase.Down? && position <= s.walEnd && consistentPoint <= s.walEnd
    case SaveStart => !s.phase.Down? && !s.startSaved
    case Keepalive(serverEnd) => s.phase.Streaming? && serverEnd <= s.walEnd && Before(s.txns, serverEnd) <= s.phase.next
    case Data(walStart) => s.phase.Streaming? && s.phase.next < |s.txns| && walStart <= s.txns[s.phase.next].start
    case StandbyTick => s.phase.Streaming?
    case BeginApply => s.phase.Streaming? && s.phase.next < |s.txns|
    case RefreshByKeys(h, at) =>
      s.phase.Applying? && s.phase.index < |s.txns| && h in s.shapes && s.shapes[h].view.RowView? &&
      at.Keys == Touched(s.txns[s.phase.index].ops, s.shapes[h].view.relation) &&
      forall k | k in at :: Floor(s) <= at[k] <= |s.txns|
    case RefreshWhole(h, version) =>
      s.phase.Applying? && h in s.shapes && s.shapes[h].view.WholeView? && Floor(s) <= version <= |s.txns|
    case ApplyTick => s.phase.Applying?
    case SaveCheckpoint => s.phase.Applying? && s.phase.index < |s.txns| && s.phase.pending !! s.shapes.Keys
    case ConfirmCommit => s.phase.Saved? && s.phase.index < |s.txns|
    case Fail => true
    case Register(_, view, version) => ReadsOnlyDeps(view) && version <= |s.txns|
    case Tombstone(_) => true
  }

  /** The live shapes that commit `i` affects. */
  ghost function Affected(s: System, i: nat): set<string>
    requires i < |s.txns|
  {
    set h | h in s.shapes && Affects(s.txns[i], s.shapes[h].view)
  }

  function Send(s: System, lsn: nat): System
  {
    s.(sent := s.sent + {lsn}, confirmed := Max(s.confirmed, lsn), flushed := Max(s.flushed, lsn))
  }

  /** After the checkpoint of commit `t` is saved: its LSN is confirmed and the position moves past it. */
  function Confirmed(s: System, t: Txn): System
    requires s.phase.Saved?
  {
    var s1 := Send(s, t.start);
    var s2 := s1.(phase := Streaming(s.phase.index + 1));
    s2.(clientPos := Max(s2.clientPos, t.end))
  }

  /** prepareReplicationStart and the start of the stream. */
  ghost function Connected(s: System, compatible: bool, position: nat, consistentPoint: nat): System
  {
    var valid := s.checkpoint.Some? && compatible;
    var kept: map<string, Live> := if s.checkpoint.Some? && (!compatible || !s.slot) then map[] else s.shapes;
    var start := if !s.slot then consistentPoint else if valid then s.checkpoint.value else position;
    var flushed := if !s.slot then consistentPoint else s.flushed;
    var next := Before(s.txns, Max(start, flushed));
    s.(slot := true, flushed := flushed, shapes := kept, phase := Streaming(next), startLsn := start, startSaved := false,
       confirmed := start, clientPos := start, applied := if kept.Keys == {} then Max(s.applied, next) else s.applied)
  }

  ghost function Do(s: System, step: Step): System
    requires Enabled(s, step)
  {
    match step
    case ServerCommits(t) => s.(txns := s.txns + [t], walEnd := t.end)
    case SlotDropped => s.(slot := false)
    case Connect(compatible, position, consistentPoint) => Connected(s, compatible, position, consistentPoint)
    case SaveStart => s.(checkpoint := Some(s.startLsn), startSaved := true)
    case Keepalive(serverEnd) => s.(clientPos := Max(s.clientPos, serverEnd))
    case Data(walStart) => s.(clientPos := Max(s.clientPos, walStart))
    case StandbyTick => Send(s, s.clientPos)
    case BeginApply => s.(phase := Applying(s.phase.next, Affected(s, s.phase.next)))
    case RefreshByKeys(h, at) =>
      var old_ := s.shapes[h];
      var rows := ShapeLog.Splice(old_.rows, at.Keys, Queried(s.db, s.txns, old_.view, at));
      s.(shapes := s.shapes[h := Live(old_.view, rows)], phase := s.phase.(pending := s.phase.pending - {h}))
    case RefreshWhole(h, version) =>
      var view := s.shapes[h].view;
      s.(shapes := s.shapes[h := Live(view, Query(view, Version(s.db, s.txns, version)))],
         phase := s.phase.(pending := s.phase.pending - {h}))
    case ApplyTick => Send(s, s.confirmed)
    case SaveCheckpoint =>
      var i := s.phase.index;
      s.(checkpoint := Some(s.txns[i].start), applied := Max(s.applied, i + 1), phase := Saved(i))
    case ConfirmCommit => Confirmed(s, s.txns[s.phase.index])
    case Fail => s.(phase := Down)
    case Register(h, view, version) => s.(shapes := s.shapes[h := Live(view, Query(view, Version(s.db, s.txns, version)))])
    case Tombstone(h) => s.(shapes := s.shapes - {h})
  }

  /** Without a checkpoint on record, the commits that the server will skip are all applied. */
  predicate ResumesBehind(s: System, position: nat, consistentPoint: nat)
  {
    Before(s.txns, if s.slot then Max(position, s.flushed) else consistentPoint) <= s.applied
  }

  /** What the code relies on beyond that: a run that resumes with live shapes has a checkpoint on
      record or skips nothing that is not applied, and a snapshot is not older than the commits
      already begun when it is registered. */
  ghost predicate Sound(s: System, step: Step)
  {
    match step
    case Connect(_, position, consistentPoint) =>
      s.checkpoint.Some? || s.shapes.Keys == {} || ResumesBehind(s, position, consistentPoint)
    case Register(_, _, version) => Floor(s) <= version
    case _ => true
  }

  // ---- the invariant ----

  ghost predicate ServerOk(s: System)
  {
    (forall i | 0 <= i < |s.txns| :: s.txns[i].start < s.txns[i].end <= s.walEnd) &&
    (forall i, j | 0 <= i < j < |s.txns| :: s.txns[i].end <= s.txns[j].start) &&
    s.applied <= |s.txns|
  }

  ghost predicate ShapesReflect(db: Db, txns: seq<Txn>, shapes: map<string, Live>, hs: set<string>, n: nat)
    requires n <= |txns|
  {
    forall h | h in hs && h in shapes :: Reflects(db, txns, shapes[h].view, shapes[h].rows, n)
  }

  ghost predicate ShapesOk(db: Db, txns: seq<Txn>, shapes: map<string, Live>, applied: nat, x: set<string>)
    requires applied <= |txns|
  {
    (forall h | h in shapes :: ReadsOnlyDeps(shapes[h].view)) && ShapesReflect(db, txns, shapes, shapes.Keys - x, applied)
  }

  ghost predicate Safe(s: System, lsn: nat)
  {
    lsn <= s.walEnd && Before(s.txns, lsn) <= s.applied
  }

  ghost predicate PositionsOk(s: System)
  {
    Safe(s, s.flushed) && Safe(s, s.confirmed) && Safe(s, s.clientPos) && Safe(s, s.startLsn) &&
    (s.checkpoint.Some? ==> Safe(s, s.checkpoint.value)) &&
    forall x | x in s.sent :: Safe(s, x)
  }

  ghost predicate PhaseOk(s: System, x: set<string>)
    requires s.applied <= |s.txns|
  {
    !s.phase.Down? ==>
      At(s.phase) <= s.applied &&
      Before(s.txns, s.flushed) <= At(s.phase) &&
      Before(s.txns, s.confirmed) <= At(s.phase) &&
      Before(s.txns, s.clientPos) <= At(s.phase) &&
      (s.phase.Applying? ==>
         s.phase.index < |s.txns| &&
         ShapesReflect(s.db, s.txns, s.shapes, s.shapes.Keys - s.phase.pending - x, Max(s.applied, s.phase.index + 1))) &&
      (s.phase.Saved? ==> s.phase.index < s.applied)
  }

  /** The invariant, with nothing said about what the shapes `x` hold. */
  ghost predicate InvBut(s: System, x: set<string>)
  {
    ServerOk(s) && ShapesOk(s.db, s.txns, s.shapes, s.applied, x) && PositionsOk(s) && PhaseOk(s, x)
  }

  ghost predicate Inv(s: System) { InvBut(s, {}) }

  // ---- counting commits below an LSN ----

  lemma {:induction false} BeforeIs(txns: seq<Txn>, lsn: nat)
    requires forall i, j | 0 <= i < j < |txns| :: txns[i].start < txns[j].start
    ensures forall i | 0 <= i < |txns| :: txns[i].start < lsn <==> i < Before(txns, lsn)
  {
    if txns != [] { BeforeIs(txns[..|txns| - 1], lsn); }
  }

  lemma StartsAscend(s: System)
    requires ServerOk(s)
    ensures forall i, j | 0 <= i < j < |s.txns| :: s.txns[i].start < s.txns[j].start
  {
  }

  lemma BeforeAtMost(s: System, lsn: nat, n: nat)
    requires ServerOk(s) && n <= |s.txns|
    requires n < |s.txns| ==> lsn <= s.txns[n].start
    ensures Before(s.txns, lsn) <= n
  {
    StartsAscend(s);
    BeforeIs(s.txns, lsn);
  }

  lemma BeforeMax(s: System, a: nat, b: nat)
    requires ServerOk(s)
    ensures Before(s.txns, Max(a, b)) == Max(Before(s.txns, a), Before(s.txns, b))
  {
    StartsAscend(s);
    BeforeIs(s.txns, a);
    BeforeIs(s.txns, b);
    BeforeIs(s.txns, Max(a, b));
    var m := Max(Before(s.txns, a), Before(s.txns, b));
    assert m < |s.txns| ==> !(s.txns[m].start < Max(a, b));
    assert m > 0 ==> s.txns[m - 1].start < Max(a, b);
  }

  lemma BeforeUnchanged(txns: seq<Txn>, t: Txn, lsn: nat)
    requires lsn <= t.start
    ensures Before(txns + [t], lsn) == Before(txns, lsn)
  {
    assert (txns + [t])[..|txns|] == txns;
  }

  // ---- each step keeps the invariant ----

  lemma KeepServerCommits(s: System, t: Txn, x: set<string>)
    requires InvBut(s, x) && Enabled(s, ServerCommits(t))
    ensures InvBut(Do(s, ServerCommits(t)), x)
  {
    hide Reflects, ReadsOnlyDeps;
    var s' := Do(s, ServerCommits(t));
    forall h | h in s.shapes.Keys - x ensures Reflects(s'.db, s'.txns, s.shapes[h].view, s.shapes[h].rows, s.applied) {
      ReflectsAfterCommit(s.db, s.txns, t, s.shapes[h].view, s.shapes[h].rows, s.applied);
    }
    forall lsn: nat | lsn <= s.walEnd ensures Before(s'.txns, lsn) == Before(s.txns, lsn) {
      BeforeUnchanged(s.txns, t, lsn);
    }
    if s.phase.Applying? {
      var n := Max(s.applied, s.phase.index + 1);
      forall h | h in s.shapes.Keys - s.phase.pending - x
        ensures Reflects(s'.db, s'.txns, s.shapes[h].view, s.shapes[h].rows, n)
      {
        ReflectsAfterCommit(s.db, s.txns, t, s.shapes[h].view, s.shapes[h].rows, n);
      }
    }
  }

  lemma KeepConnect(s: System, compatible: bool, position: nat, consistentPoint: nat, x: set<string>)
    requires InvBut(s, x) && Enabled(s, Connect(compatible, position, consistentPoint))
    requires Sound(s, Connect(compatible, position, consistentPoint))
    ensures InvBut(Do(s, Connect(compatible, position, consistentPoint)), x)
  {
    hide Reflects, ReadsOnlyDeps, Before;
    var s' := Do(s, Connect(compatible, position, consistentPoint));
    BeforeMax(s, s'.startLsn, s'.flushed);
  }

  lemma MovePositions(s: System, lsn: nat)
    requires ServerOk(s) && PositionsOk(s) && Safe(s, lsn)
    ensures PositionsOk(s.(clientPos := Max(s.clientPos, lsn)))
  {
    hide Before, ServerOk;
    BeforeMax(s, s.clientPos, lsn);
  }

  lemma MovePhase(s: System, lsn: nat, x: set<string>)
    requires ServerOk(s) && PhaseOk(s, x) && !s.phase.Down? && Before(s.txns, lsn) <= At(s.phase)
    ensures PhaseOk(s.(clientPos := Max(s.clientPos, lsn)), x)
  {
    hide Before, ShapesReflect;
    BeforeMax(s, s.clientPos, lsn);
  }

  lemma KeepMove(s: System, lsn: nat, x: set<string>)
    requires InvBut(s, x) && s.phase.Streaming? && lsn <= s.walEnd && Before(s.txns, lsn) <= s.phase.next
    ensures InvBut(s.(clientPos := Max(s.clientPos, lsn)), x)
  {
    hide ShapesOk, ShapesReflect, Before, PositionsOk;
    MovePositions(s, lsn);
    MovePhase(s, lsn, x);
  }

  lemma SendPositions(s: System, lsn: nat)
    requires ServerOk(s) && PositionsOk(s) && Safe(s, lsn)
    ensures PositionsOk(Send(s, lsn))
  {
    hide Before, ServerOk;
    BeforeMax(s, s.confirmed, lsn);
    BeforeMax(s, s.flushed, lsn);
  }

  lemma SendPhase(s: System, lsn: nat, x: set<string>)
    requires ServerOk(s) && PhaseOk(s, x) && !s.phase.Down? && Before(s.txns, lsn) <= At(s.phase)
    ensures PhaseOk(Send(s, lsn), x)
  {
    hide Before, ShapesReflect;
    BeforeMax(s, s.confirmed, lsn);
    BeforeMax(s, s.flushed, lsn);
  }

  lemma KeepSend(s: System, lsn: nat, x: set<string>)
    requires InvBut(s, x) && !s.phase.Down? && Safe(s, lsn) && Before(s.txns, lsn) <= At(s.phase)
    ensures InvBut(Send(s, lsn), x)
  {
    hide ShapesOk, ShapesReflect, Before, PositionsOk, PhaseOk, Safe;
    SendPositions(s, lsn);
    SendPhase(s, lsn, x);
  }

  lemma KeepBeginApply(s: System, x: set<string>)
    requires InvBut(s, x) && Enabled(s, BeginApply)
    ensures InvBut(Do(s, BeginApply), x)
  {
    hide Reflects, ReadsOnlyDeps, Before, Affects;
    var i := s.phase.next;
    forall h | h in s.shapes.Keys - Affected(s, i) - x
      ensures Reflects(s.db, s.txns, s.shapes[h].view, s.shapes[h].rows, Max(s.applied, i + 1))
    {
      if i == s.applied { UnaffectedReflects(s.db, s.txns, s.shapes[h].view, s.shapes[h].rows, i); }
    }
  }

  /** The effect of refreshing one shape, whichever way it is done. */
  lemma KeepRefreshed(s: System, h: string, rows: Rows, x: set<string>)
    requires InvBut(s, x) && s.phase.Applying? && h in s.shapes
    requires h !in x ==> Reflects(s.db, s.txns, s.shapes[h].view, rows, s.applied)
    requires h !in x ==> Reflects(s.db, s.txns, s.shapes[h].view, rows, Max(s.applied, s.phase.index + 1))
    ensures InvBut(s.(shapes := s.shapes[h := Live(s.shapes[h].view, rows)], phase := s.phase.(pending := s.phase.pending - {h})), x)
  {
    hide Reflects, ReadsOnlyDeps, Before;
  }

  lemma KeepRefreshByKeys(s: System, h: string, at: map<string, nat>, x: set<string>)
    requires InvBut(s, x) && Enabled(s, RefreshByKeys(h, at))
    ensures InvBut(Do(s, RefreshByKeys(h, at)), x)
  {
    hide Reflects, ReadsOnlyDeps, Before, ShapeLog.Splice, Queried;
    var view, i := s.shapes[h].view, s.phase.index;
    var rows := ShapeLog.Splice(s.shapes[h].rows, at.Keys, Queried(s.db, s.txns, view, at));
    if h !in x {
      assert Reflects(s.db, s.txns, view, s.shapes[h].rows, s.applied);
      TargetedRefreshReflects(s.db, s.txns, view, s.shapes[h].rows, s.applied, i, at);
    }
    KeepRefreshed(s, h, rows, x);
  }

  lemma KeepRefreshWhole(s: System, h: string, version: nat, x: set<string>)
    requires InvBut(s, x) && Enabled(s, RefreshWhole(h, version))
    ensures InvBut(Do(s, RefreshWhole(h, version)), x)
  {
    hide Reflects, ReadsOnlyDeps, Before, Query, Version;
    var view := s.shapes[h].view;
    SnapshotReflects(s.db, s.txns, view, version, s.applied);
    SnapshotReflects(s.db, s.txns, view, version, Max(s.applied, s.phase.index + 1));
    KeepRefreshed(s, h, Query(view, Version(s.db, s.txns, version)), x);
  }

  lemma KeepSaveCheckpoint(s: System, x: set<string>)
    requires InvBut(s, x) && Enabled(s, SaveCheckpoint)
    ensures InvBut(Do(s, SaveCheckpoint), x)
  {
    hide Reflects, ReadsOnlyDeps, Before;
    var i := s.phase.index;
    BeforeAtMost(s, s.txns[i].start, i);
    assert s.shapes.Keys - s.phase.pending - x == s.shapes.Keys - x;
  }

  lemma KeepAdvance(s: System, x: set<string>)
    requires InvBut(s, x) && s.phase.Saved?
    ensures InvBut(s.(phase := Streaming(s.phase.index + 1)), x)
  {
    hide ShapesOk, ShapesReflect, Before;
  }

  lemma KeepConfirmed(s: System, t: Txn, x: set<string>)
    requires InvBut(s, x) && s.phase.Saved? && Safe(s, t.start) && Before(s.txns, t.start) <= s.phase.index
    requires t.end <= s.walEnd && Before(s.txns, t.end) <= s.phase.index + 1
    ensures InvBut(Confirmed(s, t), x)
  {
    hide InvBut, Before, Safe, Max;
    var s1 := Send(s, t.start);
    KeepSend(s, t.start, x);
    KeepAdvance(s1, x);
    KeepMove(s1.(phase := Streaming(s.phase.index + 1)), t.end, x);
  }

  lemma KeepConfirmCommit(s: System, x: set<string>)
    requires InvBut(s, x) && Enabled(s, ConfirmCommit)
    ensures InvBut(Do(s, ConfirmCommit), x)
  {
    hide InvBut, Before, Safe;
    ConfirmedPositions(s, x);
    KeepConfirmed(s, s.txns[s.phase.index], x);
  }

  lemma ConfirmedPositions(s: System, x: set<string>)
    requires InvBut(s, x) && Enabled(s, ConfirmCommit)
    ensures var t, i := s.txns[s.phase.index], s.phase.index;
      Safe(s, t.start) && Before(s.txns, t.start) <= i && t.end <= s.walEnd && Before(s.txns, t.end) <= i + 1
  {
    hide ShapesOk, ShapesReflect, Before;
    var i := s.phase.index;
    BeforeAtMost(s, s.txns[i].start, i);
    BeforeAtMost(s, s.txns[i].end, i + 1);
  }

  lemma KeepRegister(s: System, h: string, view: View, version: nat, x: set<string>)
    requires InvBut(s, x) && Enabled(s, Register(h, view, version)) && Sound(s, Register(h, view, version))
    ensures InvBut(Do(s, Register(h, view, version)), x)
  {
    hide Reflects, ReadsOnlyDeps, Before, Query, Version;
    SnapshotReflects(s.db, s.txns, view, version, s.applied);
    if s.phase.Applying? {
      SnapshotReflects(s.db, s.txns, view, version, Max(s.applied, s.phase.index + 1));
    }
  }

  lemma KeepOthers(s: System, step: Step, x: set<string>)
    requires InvBut(s, x) && Enabled(s, step)
    requires step.SlotDropped? || step.SaveStart? || step.Fail? || step.Tombstone?
    ensures InvBut(Do(s, step), x)
  {
    hide Reflects, ReadsOnlyDeps, Before;
  }

  lemma StepKeepsInv(s: System, step: Step, x: set<string>)
    requires InvBut(s, x) && Enabled(s, step) && Sound(s, step)
    ensures InvBut(Do(s, step), x)
  {
    hide InvBut;
    match step
    case ServerCommits(t) => KeepServerCommits(s, t, x);
    case Connect(c, p, q) => KeepConnect(s, c, p, q, x);
    case Keepalive(lsn) => KeepMove(s, lsn, x);
    case Data(lsn) => DataBeforeCommit(s, lsn, x); KeepMove(s, lsn, x);
    case StandbyTick => PositionsBehind(s, x); KeepSend(s, s.clientPos, x);
    case BeginApply => KeepBeginApply(s, x);
    case RefreshByKeys(h, at) => KeepRefreshByKeys(s, h, at, x);
    case RefreshWhole(h, v) => KeepRefreshWhole(s, h, v, x);
    case ApplyTick => PositionsBehind(s, x); KeepSend(s, s.confirmed, x);
    case SaveCheckpoint => KeepSaveCheckpoint(s, x);
    case ConfirmCommit => KeepConfirmCommit(s, x);
    case Register(h, view, v) => KeepRegister(s, h, view, v, x);
    case _ => KeepOthers(s, step, x);
  }

  lemma DataBeforeCommit(s: System, walStart: nat, x: set<string>)
    requires InvBut(s, x) && Enabled(s, Data(walStart))
    ensures walStart <= s.walEnd && Before(s.txns, walStart) <= s.phase.next
  {
    hide ShapesOk, ShapesReflect, Before;
    BeforeAtMost(s, walStart, s.phase.next);
  }

  lemma PositionsBehind(s: System, x: set<string>)
    requires InvBut(s, x) && !s.phase.Down?
    ensures Safe(s, s.clientPos) && Safe(s, s.confirmed)
    ensures Before(s.txns, s.clientPos) <= At(s.phase) && Before(s.txns, s.confirmed) <= At(s.phase)
  {
    hide ShapesOk, ShapesReflect, Before;
  }

  // ---- whole runs ----

  /** A fresh installation: no shapes, no slot, no checkpoint, not connected. */
  ghost predicate Initial(s: System)
  {
    s.txns == [] && s.walEnd >= s.flushed && !s.slot && s.shapes.Keys == {} && s.checkpoint.None? && s.phase.Down? &&
    s.startLsn == 0 && s.confirmed == 0 && s.clientPos == 0 && s.sent == {} && s.applied == 0
  }

  ghost predicate Runs(s: System, steps: seq<Step>, t: System)
    decreases |steps|
  {
    if steps == [] then s == t else
      Enabled(s, steps[0]) && Sound(s, steps[0]) && Runs(Do(s, steps[0]), steps[1..], t)
  }

  lemma {:induction false} RunKeepsInv(s: System, steps: seq<Step>, t: System)
    requires Inv(s) && Runs(s, steps, t)
    ensures Inv(t)
    decreases |steps|
  {
    hide InvBut;
    if steps != [] {
      StepKeepsInv(s, steps[0], {});
      RunKeepsInv(Do(s, steps[0]), steps[1..], t);
    }
  }

  lemma InitialInv(s: System)
    requires Initial(s)
    ensures Inv(s)
  {
  }

  lemma {:induction false} FewerTouches(txns: seq<Txn>, r: Relation, k: string, m: nat, n: nat)
    requires m <= n <= |txns|
    ensures LastTouch(txns, r, k, m) <= LastTouch(txns, r, k, n)
    decreases n - m
  {
    if m < n { FewerTouches(txns, r, k, m, n - 1); }
  }

  lemma {:induction false} FewerAffects(txns: seq<Txn>, v: View, m: nat, n: nat)
    requires m <= n <= |txns|
    ensures LastAffect(txns, v, m) <= LastAffect(txns, v, n)
    decreases n - m
  {
    if m < n { FewerAffects(txns, v, m, n - 1); }
  }

  lemma ReflectsFewer(db: Db, txns: seq<Txn>, v: View, rows: Rows, m: nat, n: nat)
    requires m <= n <= |txns| && Reflects(db, txns, v, rows, n)
    ensures Reflects(db, txns, v, rows, m)
  {
    if v.RowView? {
      forall k ensures KeyReflected(db, txns, v, rows, k, m) {
        assert KeyReflected(db, txns, v, rows, k, n);
        FewerTouches(txns, v.relation, k, m, n);
      }
    } else {
      FewerAffects(txns, v, m, n);
    }
  }

  /** Every commit that starts before `lsn` is reflected in every live shape. */
  ghost predicate Covered(s: System, lsn: nat)
  {
    forall h | h in s.shapes :: Reflects(s.db, s.txns, s.shapes[h].view, s.shapes[h].rows, Before(s.txns, lsn))
  }

  lemma SafeIsCovered(s: System, lsn: nat)
    requires Inv(s) && Safe(s, lsn)
    ensures Covered(s, lsn)
  {
    hide Reflects, ReadsOnlyDeps, Before;
    forall h | h in s.shapes
      ensures Reflects(s.db, s.txns, s.shapes[h].view, s.shapes[h].rows, Before(s.txns, lsn))
    {
      ReflectsFewer(s.db, s.txns, s.shapes[h].view, s.shapes[h].rows, Before(s.txns, lsn), s.applied);
    }
  }

  /** Safe confirmation and resume. In every state of every run, every LSN ever put in a standby
      status, the saved checkpoint and the LSN the stream started from are covered: a server that
      resumes there skips only commits that every live shape reflects. A commit that is being
      applied has not been confirmed. */
  lemma SafeConfirmation(s: System, steps: seq<Step>, t: System)
    requires Initial(s) && Runs(s, steps, t)
    ensures forall x | x in t.sent :: Covered(t, x)
    ensures t.checkpoint.Some? ==> Covered(t, t.checkpoint.value)
    ensures Covered(t, t.startLsn) && Covered(t, t.flushed)
    ensures t.phase.Applying? && t.phase.index < |t.txns| ==> t.flushed <= t.txns[t.phase.index].start
  {
    hide Covered, Reflects, ReadsOnlyDeps, Before;
    InitialInv(s);
    RunKeepsInv(s, steps, t);
    forall x | x in t.sent ensures Covered(t, x) { SafeIsCovered(t, x); }
    if t.checkpoint.Some? { SafeIsCovered(t, t.checkpoint.value); }
    SafeIsCovered(t, t.startLsn);
    SafeIsCovered(t, t.flushed);
    StartsAscend(t);
    BeforeIs(t.txns, t.flushed);
  }

  /** Read-ahead convergence. Whenever the stream has delivered every commit, every live shape holds
      exactly its query's answer on the current database, although each refresh may have read any
      version from its commit onwards. */
  lemma Convergence(s: System, steps: seq<Step>, t: System, h: string)
    requires Initial(s) && Runs(s, steps, t)
    requires t.phase == Streaming(|t.txns|) && h in t.shapes
    ensures t.shapes[h].rows == Query(t.shapes[h].view, Version(t.db, t.txns, |t.txns|))
  {
    hide Reflects, Before, Query, Version;
    InitialInv(s);
    RunKeepsInv(s, steps, t);
    AllAppliedMeansEqual(t.db, t.txns, t.shapes[h].view, t.shapes[h].rows);
  }

  // ---- what the two assumptions buy ----

  /** Resuming without a checkpoint on record keeps the live shapes. It keeps the invariant exactly when
      no commit is skipped that is not applied, and then the positions it starts from are covered. */
  lemma ResumeWithoutCheckpointIff(s: System, compatible: bool, position: nat, consistentPoint: nat)
    requires Inv(s) && Enabled(s, Connect(compatible, position, consistentPoint))
    requires s.checkpoint.None? && s.shapes.Keys != {}
    ensures var t := Do(s, Connect(compatible, position, consistentPoint));
      t.shapes == s.shapes && (Inv(t) <==> ResumesBehind(s, position, consistentPoint)) &&
      (ResumesBehind(s, position, consistentPoint) ==> Covered(t, t.startLsn) && Covered(t, t.flushed))
  {
    hide Covered, Reflects, ReadsOnlyDeps, Before;
    var t := Do(s, Connect(compatible, position, consistentPoint));
    if ResumesBehind(s, position, consistentPoint) {
      KeepConnect(s, compatible, position, consistentPoint, {});
      SafeIsCovered(t, t.startLsn);
      SafeIsCovered(t, t.flushed);
    }
  }

  const ITEMS := Relation("public", "items")

  ghost function EveryRow(): View
  {
    RowView(ITEMS, (k, row) => Some(row))
  }

  const INSERT := Txn(5, 6, [RowOp(ITEMS, ITEMS, None, Some("1"), map[])])

  /** A new installation on an empty database. */
  ghost function Fresh(): System
  {
    System(map[], [], 0, false, 0, map[], None, Down, 0, false, 0, 0, {}, 0)
  }

  /** The stream starts, a shape is registered, the connection fails before the first checkpoint is
      saved, and a row is inserted. */
  ghost function InterruptedRun(): seq<Step>
  {
    [Connect(true, 0, 0), Register("h", EveryRow(), 0), Fail, ServerCommits(INSERT)]
  }

  ghost function Interrupted(): System
  {
    System(map[], [INSERT], 6, true, 0, map["h" := Live(EveryRow(), map[])], None, Down, 0, false, 0, 0, {}, 0)
  }

  lemma RunsOne(s: System, step: Step, rest: seq<Step>, t: System)
    requires Enabled(s, step) && Sound(s, step) && Runs(Do(s, step), rest, t)
    ensures Runs(s, [step] + rest, t)
  {
    assert ([step] + rest)[1..] == rest;
  }

  lemma InterruptedReached()
    ensures Initial(Fresh()) && Runs(Fresh(), InterruptedRun(), Interrupted())
  {
    var s0, r0 := Fresh(), Connect(true, 0, 0);
    var s1 := Do(s0, r0);
    var r1 := Register("h", EveryRow(), 0);
    var s2 := Do(s1, r1);
    assert Query(EveryRow(), map[]) == map[];
    assert s2.shapes == map["h" := Live(EveryRow(), map[])];
    var s3 := Do(s2, Fail);
    var s4 := Do(s3, ServerCommits(INSERT));
    assert [] + [INSERT] == [INSERT];
    assert s4 == Interrupted();
    assert Runs(s4, [], s4);
    RunsOne(s3, ServerCommits(INSERT), [], s4);
    RunsOne(s2, Fail, [ServerCommits(INSERT)], s4);
    RunsOne(s1, r1, [Fail] + ([ServerCommits(INSERT)] + []), s4);
    RunsOne(s0, r0, [r1] + ([Fail] + ([ServerCommits(INSERT)] + [])), s4);
    assert [r0] + ([r1] + ([Fail] + ([ServerCommits(INSERT)] + []))) == InterruptedRun();
  }

  /** A run from a new installation after which reconnecting, without a checkpoint on record, ends
      caught up with a shape that misses a commit. */
  lemma MissingCheckpointLosesCommit()
    ensures Initial(Fresh()) && Runs(Fresh(), InterruptedRun(), Interrupted())
    ensures var s := Interrupted();
      Enabled(s, Connect(true, 6, 6)) && !Sound(s, Connect(true, 6, 6)) &&
      var t := Do(s, Connect(true, 6, 6));
      t.phase == Streaming(|t.txns|) && t.shapes["h"].rows != Query(EveryRow(), Version(t.db, t.txns, |t.txns|))
  {
    hide Runs, InterruptedRun, Query, Version, After, Interrupted, Fresh, Initial, Enabled, Sound, Do;
    InterruptedReached();
    ReconnectSkips();
    RowInserted();
  }

  lemma ReconnectSkips()
    ensures var s := Interrupted();
      Enabled(s, Connect(true, 6, 6)) && !Sound(s, Connect(true, 6, 6)) &&
      var t := Do(s, Connect(true, 6, 6));
      t.phase == Streaming(1) && "h" in t.shapes && t.shapes["h"].rows == map[] && t.db == map[] && t.txns == [INSERT]
  {
    var s := Interrupted();
    assert "h" in s.shapes;
    assert Before(s.txns, 6) == 1;
  }

  lemma RowInserted()
    ensures "1" in Query(EveryRow(), Version(map[], [INSERT], 1))
  {
    var op := INSERT.ops[0];
    assert INSERT.ops[..0] == [];
    assert After(map[], INSERT.ops) == Performed(map[], op);
    assert Version(map[], [INSERT], 1) == Performed(map[], op);
  }

  // ---- what a step leaves alone ----

  /** A reconnect finds a checkpoint that it cannot resume from: of another server or slot, or with its slot gone. */
  predicate Unusable(s: System, step: Step)
  {
    step.Connect? && s.checkpoint.Some? && !(step.compatible && s.slot)
  }

  /** The step takes the shape away. */
  predicate Removes(s: System, step: Step, h: string)
  {
    step == Tombstone(h) || Unusable(s, step)
  }

  predicate Requeries(step: Step, h: string)
  {
    (step.RefreshByKeys? || step.RefreshWhole? || step.Register?) && step.handle == h
  }

  /** Reconnecting keeps every shape with its rows, unless there is a checkpoint that cannot be used; then it keeps
      none. With a usable checkpoint the stream starts there, and skips exactly the commits that start before it or
      before what the server has flushed. */
  lemma ConnectKeepsIff(s: System, compatible: bool, position: nat, consistentPoint: nat, h: string)
    requires Enabled(s, Connect(compatible, position, consistentPoint))
    ensures var t := Do(s, Connect(compatible, position, consistentPoint));
      (h in t.shapes <==> h in s.shapes && !(s.checkpoint.Some? && (!compatible || !s.slot))) &&
      (h in t.shapes ==> t.shapes[h] == s.shapes[h]) &&
      (s.checkpoint.Some? && compatible && s.slot ==>
         t.startLsn == s.checkpoint.value && t.flushed == s.flushed &&
         t.phase == Streaming(Before(s.txns, Max(s.checkpoint.value, s.flushed)))) &&
      (!s.slot ==> t.startLsn == t.flushed == consistentPoint && t.phase == Streaming(Before(s.txns, consistentPoint))) &&
      (s.slot && s.checkpoint.None? ==> t.startLsn == position && t.phase == Streaming(Before(s.txns, Max(position, s.flushed))))
  {
    hide Before;
  }

  /** A step removes only what it says, and changes the rows only of the shape that it queries. */
  lemma StepLeaves(s: System, step: Step, h: string)
    requires Enabled(s, step)
    ensures h in s.shapes && !Removes(s, step, h) ==> h in Do(s, step).shapes
    ensures h in s.shapes && Removes(s, step, h) ==> h !in Do(s, step).shapes
    ensures h in s.shapes && h in Do(s, step).shapes && !Requeries(step, h) ==> Do(s, step).shapes[h] == s.shapes[h]
    ensures h !in s.shapes && h in Do(s, step).shapes ==> step.Register? && step.handle == h
    ensures h in s.shapes && h in Do(s, step).shapes && !step.Register? ==> Do(s, step).shapes[h].view == s.shapes[h].view
  {
    hide Before, Query, Version, Queried, ShapeLog.Splice;
  }

  /** The shape is taken away at some step of the run. */
  ghost predicate RemovedIn(s: System, steps: seq<Step>, t: System, h: string)
    requires Runs(s, steps, t)
    decreases |steps|
  {
    steps != [] && (Removes(s, steps[0], h) || RemovedIn(Do(s, steps[0]), steps[1..], t, h))
  }

  ghost predicate RequeriedIn(steps: seq<Step>, h: string)
  {
    exists i | 0 <= i < |steps| :: Requeries(steps[i], h)
  }

  /** Over every run, a shape leaves only by its own tombstone or by a reconnect with a checkpoint that cannot be used,
      and its rows change only when it is queried again. */
  lemma {:induction false} ShapesStay(s: System, steps: seq<Step>, t: System, h: string)
    requires Runs(s, steps, t) && h in s.shapes
    ensures !RemovedIn(s, steps, t, h) ==> h in t.shapes
    ensures !RemovedIn(s, steps, t, h) && !RequeriedIn(steps, h) ==> h in t.shapes && t.shapes[h] == s.shapes[h]
    decreases |steps|
  {
    hide Do, Enabled, Sound, Removes, Requeries;
    if steps != [] {
      StepLeaves(s, steps[0], h);
      if !Removes(s, steps[0], h) {
        var rest := steps[1..];
        ShapesStay(Do(s, steps[0]), rest, t, h);
        if !RequeriedIn(steps, h) {
          assert !Requeries(steps[0], h);
          forall i | 0 <= i < |rest| ensures !Requeries(rest[i], h) { assert rest[i] == steps[i + 1]; }
        }
      }
    }
  }

  // ---- progress ----

  /** Saving the checkpoint of a commit records a position from which exactly the commits before it are skipped, and
      confirming it tells the server that position; so a reconnect resumes at the commit itself or after it. */
  lemma CommitProgress(s: System)
    requires Inv(s) && Enabled(s, SaveCheckpoint)
    ensures var i := s.phase.index;
      var saved := Do(s, SaveCheckpoint);
      saved.checkpoint == Some(s.txns[i].start) && Before(saved.txns, saved.checkpoint.value) == i && saved.phase == Saved(i) &&
      saved.shapes == s.shapes && Enabled(saved, ConfirmCommit) &&
      var confirmed := Do(saved, ConfirmCommit);
      confirmed.phase == Streaming(i + 1) && s.txns[i].start in confirmed.sent && confirmed.flushed >= s.txns[i].start &&
      confirmed.clientPos >= s.txns[i].end && confirmed.checkpoint == saved.checkpoint && confirmed.shapes == s.shapes
  {
    hide Reflects, ReadsOnlyDeps, Before, ShapesReflect;
    SkipsExactly(s, s.phase.index);
  }

  lemma SkipsExactly(s: System, i: nat)
    requires ServerOk(s) && i < |s.txns|
    ensures Before(s.txns, s.txns[i].start) == i
  {
    hide Before;
    StartsAscend(s);
    BeforeIs(s.txns, s.txns[i].start);
    assert !(i < Before(s.txns, s.txns[i].start));
    assert i > 0 ==> s.txns[i - 1].start < s.txns[i].start;
  }

  /** What is told to the server: a tick while streaming sends the position reached, one while applying repeats what was
      confirmed; the position moves with keepalives and data. */
  lemma StatusSent(s: System, step: Step)
    requires Enabled(s, step)
    ensures step.StandbyTick? ==> s.clientPos in Do(s, step).sent && Do(s, step).flushed >= s.clientPos
    ensures step.ApplyTick? ==> s.confirmed in Do(s, step).sent && Do(s, step).flushed >= s.confirmed
    ensures step.Keepalive? ==> Do(s, step).clientPos >= step.serverEnd
    ensures step.Data? ==> Do(s, step).clientPos >= step.walStart
    ensures !step.Connect? ==>
      Do(s, step).clientPos >= s.clientPos && Do(s, step).confirmed >= s.confirmed && Do(s, step).flushed >= s.flushed
    ensures !step.Connect? && !step.Keepalive? && !step.Data? && !step.ConfirmCommit? ==> Do(s, step).clientPos == s.clientPos
    ensures s.sent <= Do(s, step).sent
    ensures !step.StandbyTick? && !step.ApplyTick? && !step.ConfirmCommit? ==> Do(s, step).sent == s.sent
    ensures step.SaveStart? ==> Do(s, step).checkpoint == Some(s.startLsn)
    ensures !step.SaveStart? && !step.SaveCheckpoint? ==> Do(s, step).checkpoint == s.checkpoint
  {
    hide Before, Query, Version, Queried, ShapeLog.Splice, Affected;
  }
}
