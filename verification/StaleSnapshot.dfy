/** What becomes of a shape that is registered with an old snapshot: which of its rows stay wrong, over
    every run that follows. The snapshot is taken outside the manager's lock, so a commit can be
    applied between the query and the registration. */
module StaleSnapshot {
  import opened Strings
  import opened Keys
  import opened Diff
  import ShapeLog
  import opened Database
  import opened Replication

  /** One row of a targeted shape, or the whole of a dependent one. */
  datatype Part = Key(key: string) | Whole

  predicate Fits(v: View, p: Part) { v.RowView? <==> p.Key? }

  /** The transaction changes something that the part is computed from. */
  ghost predicate Changes(t: Txn, v: View, p: Part)
    requires Fits(v, p)
  {
    match p
    case Key(k) => k in Touched(t.ops, v.relation)
    case Whole => Affects(t, v)
  }

  /** One more than the last of the first `n` transactions that changes the part. */
  ghost function LastChange(txns: seq<Txn>, v: View, p: Part, n: nat): (t: nat)
    requires n <= |txns| && Fits(v, p)
    ensures t <= n
  {
    match p
    case Key(k) => LastTouch(txns, v.relation, k, n)
    case Whole => LastAffect(txns, v, n)
  }

  ghost predicate SamePart(a: Rows, b: Rows, p: Part)
  {
    match p
    case Key(k) => SameAt(a, b, k)
    case Whole => a == b
  }

  /** The part is as in version `u`. */
  ghost predicate SeenAt(db: Db, txns: seq<Txn>, v: View, rows: Rows, p: Part, u: nat)
    requires u <= |txns|
  {
    SamePart(rows, Query(v, Version(db, txns, u)), p)
  }

  ghost predicate PartReflected(db: Db, txns: seq<Txn>, v: View, rows: Rows, p: Part, n: nat)
    requires n <= |txns| && Fits(v, p)
  {
    exists u :: LastChange(txns, v, p, n) <= u <= |txns| && SeenAt(db, txns, v, rows, p, u)
  }

  // ---- how parts move with the database ----

  lemma LastChangeNext(txns: seq<Txn>, v: View, p: Part, n: nat)
    requires n < |txns| && Fits(v, p) && !Changes(txns[n], v, p)
    ensures LastChange(txns, v, p, n + 1) == LastChange(txns, v, p, n)
  {
  }

  lemma AfterCommit(db: Db, txns: seq<Txn>, t: Txn, v: View, rows: Rows, p: Part, n: nat, u: nat)
    requires n <= |txns| && u <= |txns| && Fits(v, p)
    ensures LastChange(txns + [t], v, p, n) == LastChange(txns, v, p, n)
    ensures SeenAt(db, txns + [t], v, rows, p, u) <==> SeenAt(db, txns, v, rows, p, u)
  {
    VersionOfPrefix(db, txns, t, u);
    match p
    case Key(k) => LastTouchOfPrefix(txns, t, v.relation, k, n);
    case Whole => LastAffectOfPrefix(txns, t, v, n);
  }

  /** Nothing that the part is computed from has changed since version `u`. */
  lemma UnchangedSince(db: Db, txns: seq<Txn>, v: View, p: Part, u: nat)
    requires u <= |txns| && Fits(v, p) && ReadsOnlyDeps(v) && LastChange(txns, v, p, |txns|) <= u
    ensures SamePart(Query(v, Version(db, txns, u)), Query(v, Version(db, txns, |txns|)), p)
  {
    var n := |txns|;
    match p {
      case Key(k) => UntouchedSince(db, txns, v.relation, k, u, n);
      case Whole =>
        forall r | r in v.deps ensures Table(Version(db, txns, u), r) == Table(Version(db, txns, n), r) {
          UnaffectedTables(db, txns, v, r, u, n);
        }
        assert AgreeOn(Version(db, txns, u), Version(db, txns, n), v.deps);
    }
  }

  lemma ReflectedIsRight(db: Db, txns: seq<Txn>, v: View, rows: Rows, p: Part)
    requires Fits(v, p) && ReadsOnlyDeps(v) && PartReflected(db, txns, v, rows, p, |txns|)
    ensures SeenAt(db, txns, v, rows, p, |txns|)
  {
    hide LastChange, Query, Version, ReadsOnlyDeps;
    var u :| LastChange(txns, v, p, |txns|) <= u <= |txns| && SeenAt(db, txns, v, rows, p, u);
    UnchangedSince(db, txns, v, p, u);
  }

  // ---- the shape in a state of the system ----

  ghost predicate Holds(t: System, h: string, v: View, p: Part)
  {
    h in t.shapes && t.shapes[h].view == v && Fits(v, p) && t.applied <= |t.txns| &&
    (t.phase.Applying? ==> t.phase.index < |t.txns|)
  }

  /** The count of commits that the shape must reflect in this state. */
  function Due(t: System, h: string): nat
  {
    if t.phase.Applying? && h !in t.phase.pending then Max(t.applied, t.phase.index + 1) else t.applied
  }

  /** The part reflects all that is due. */
  ghost predicate Current(t: System, h: string, v: View, p: Part)
  {
    Holds(t, h, v, p) && PartReflected(t.db, t.txns, v, t.shapes[h].rows, p, Due(t, h))
  }

  /** The part is still as registered, and no commit from `floor` on that is due has changed it. */
  ghost predicate Untouched(t: System, h: string, v: View, p: Part, version: nat, floor: nat)
  {
    Holds(t, h, v, p) && version <= |t.txns| && SeenAt(t.db, t.txns, v, t.shapes[h].rows, p, version) &&
    LastChange(t.txns, v, p, Due(t, h)) <= floor
  }

  /** The step queries the part again. */
  predicate Refreshes(step: Step, h: string, p: Part)
  {
    match p
    case Key(k) => step.RefreshByKeys? && step.handle == h && k in step.at
    case Whole => step.RefreshWhole? && step.handle == h
  }

  /** The step neither registers nor drops the shape. */
  ghost predicate Keeps(s: System, step: Step, h: string)
    requires Enabled(s, step)
  {
    h in Do(s, step).shapes && !(step.Register? && step.handle == h)
  }

  // ---- one step ----

  lemma {:induction false} FewerChanges(txns: seq<Txn>, v: View, p: Part, m: nat, n: nat)
    requires m <= n <= |txns| && Fits(v, p)
    ensures LastChange(txns, v, p, m) <= LastChange(txns, v, p, n)
  {
    match p
    case Key(k) => FewerTouches(txns, v.relation, k, m, n);
    case Whole => FewerAffects(txns, v, m, n);
  }

  /** A commit that does not change the part adds nothing to what is due. */
  lemma DueCommit(t: System, h: string, v: View, p: Part, i: nat)
    requires Holds(t, h, v, p) && i < |t.txns| && i <= t.applied && !Changes(t.txns[i], v, p)
    ensures Max(t.applied, i + 1) <= |t.txns|
    ensures LastChange(t.txns, v, p, Max(t.applied, i + 1)) == LastChange(t.txns, v, p, t.applied)
  {
    hide LastChange, Changes;
    if i == t.applied { LastChangeNext(t.txns, v, p, i); }
  }

  /** What a step leaves of the part when it does not query it again. */
  ghost predicate Carried(t: System, t': System, h: string, v: View, p: Part)
    requires Holds(t, h, v, p)
  {
    Holds(t', h, v, p) && t'.db == t.db && (t'.txns == t.txns || exists x :: t'.txns == t.txns + [x]) &&
    SamePart(t'.shapes[h].rows, t.shapes[h].rows, p) &&
    Due(t, h) <= |t.txns| && Due(t', h) <= |t'.txns| &&
    LastChange(t'.txns, v, p, Due(t', h)) <= LastChange(t.txns, v, p, Due(t, h))
  }

  lemma HoldsAfter(t: System, step: Step, h: string, v: View, p: Part)
    requires InvBut(t, {h}) && Enabled(t, step) && Sound(t, step) && Keeps(t, step, h) && Holds(t, h, v, p)
    ensures Holds(Do(t, step), h, v, p) && InvBut(Do(t, step), {h})
    ensures Due(t, h) <= |t.txns| && Due(Do(t, step), h) <= |Do(t, step).txns|
    ensures !t.phase.Down? ==> At(t.phase) <= t.applied
  {
    StepKeepsInv(t, step, {h});
    hide Reflects, ReadsOnlyDeps, Before, ShapesReflect;
    ViewKept(t, step, h);
  }

  lemma ViewKept(t: System, step: Step, h: string)
    requires Enabled(t, step) && h in t.shapes && Keeps(t, step, h)
    ensures Do(t, step).shapes[h].view == t.shapes[h].view
  {
    hide Before, Query, Version, Queried, ShapeLog.Splice;
  }

  lemma CommitCarries(t: System, x: Txn, h: string, v: View, p: Part)
    requires InvBut(t, {h}) && Enabled(t, ServerCommits(x)) && Holds(t, h, v, p) && Due(t, h) <= |t.txns|
    ensures Holds(Do(t, ServerCommits(x)), h, v, p) ==> Carried(t, Do(t, ServerCommits(x)), h, v, p)
  {
    hide InvBut, LastChange, SeenAt;
    AfterCommit(t.db, t.txns, x, v, t.shapes[h].rows, p, Due(t, h), 0);
  }

  lemma BeginCarries(t: System, h: string, v: View, p: Part)
    requires Enabled(t, BeginApply) && Holds(t, h, v, p) && t.phase.next <= t.applied
    ensures Holds(Do(t, BeginApply), h, v, p) ==> Carried(t, Do(t, BeginApply), h, v, p)
  {
    hide LastChange;
    var i := t.phase.next;
    if !Affects(t.txns[i], v) { DueCommit(t, h, v, p, i); }
  }

  lemma KeysCarry(t: System, g: string, at: map<string, nat>, h: string, v: View, p: Part)
    requires Enabled(t, RefreshByKeys(g, at)) && Holds(t, h, v, p) && t.phase.index <= t.applied
    requires !Refreshes(RefreshByKeys(g, at), h, p)
    ensures Holds(Do(t, RefreshByKeys(g, at)), h, v, p) ==> Carried(t, Do(t, RefreshByKeys(g, at)), h, v, p)
  {
    hide LastChange, Queried;
    if g == h { DueCommit(t, h, v, p, t.phase.index); }
  }

  lemma OtherCarries(t: System, step: Step, h: string, v: View, p: Part)
    requires Enabled(t, step) && Keeps(t, step, h) && Holds(t, h, v, p) && !Refreshes(step, h, p) && Due(t, h) <= |t.txns|
    requires !step.ServerCommits? && !step.BeginApply? && !step.RefreshByKeys?
    ensures Holds(Do(t, step), h, v, p) ==> Carried(t, Do(t, step), h, v, p)
  {
    hide LastChange, Before, Query, Version;
    var t' := Do(t, step);
    if t'.applied <= |t'.txns| && t'.txns == t.txns && Due(t', h) <= Due(t, h) {
      FewerChanges(t.txns, v, p, Due(t', h), Due(t, h));
    }
  }

  lemma StepCarries(t: System, step: Step, h: string, v: View, p: Part)
    requires InvBut(t, {h}) && Enabled(t, step) && Sound(t, step) && Keeps(t, step, h) && Holds(t, h, v, p)
    requires !Refreshes(step, h, p)
    ensures InvBut(Do(t, step), {h}) && Carried(t, Do(t, step), h, v, p)
  {
    HoldsAfter(t, step, h, v, p);
    hide InvBut, Holds, Carried, Sound, LastChange, Due;
    match step
    case ServerCommits(x) => CommitCarries(t, x, h, v, p);
    case BeginApply => BeginCarries(t, h, v, p);
    case RefreshByKeys(g, at) => KeysCarry(t, g, at, h, v, p);
    case _ => OtherCarries(t, step, h, v, p);
  }

  /** Querying the part again makes it current, whatever it was. */
  lemma RefreshMakesCurrent(t: System, step: Step, h: string, v: View, p: Part)
    requires InvBut(t, {h}) && Enabled(t, step) && Sound(t, step) && Keeps(t, step, h) && Holds(t, h, v, p)
    requires Refreshes(step, h, p)
    ensures InvBut(Do(t, step), {h}) && Current(Do(t, step), h, v, p)
  {
    hide InvBut, LastChange, Query, Version, Before, Affected;
    HoldsAfter(t, step, h, v, p);
    var t' := Do(t, step);
    match step {
      case RefreshByKeys(_, at) =>
        assert SameAt(t'.shapes[h].rows, Queried(t.db, t.txns, v, at), p.key);
        assert SeenAt(t'.db, t'.txns, v, t'.shapes[h].rows, p, at[p.key]);
      case RefreshWhole(_, version) =>
        assert SeenAt(t'.db, t'.txns, v, t'.shapes[h].rows, p, version);
      case _ =>
    }
  }

  lemma CarriedSeen(t: System, t': System, h: string, v: View, p: Part, u: nat)
    requires Holds(t, h, v, p) && Carried(t, t', h, v, p) && u <= |t.txns| && SeenAt(t.db, t.txns, v, t.shapes[h].rows, p, u)
    ensures u <= |t'.txns| && SeenAt(t'.db, t'.txns, v, t'.shapes[h].rows, p, u)
  {
    hide LastChange, Query, Version;
    if t'.txns != t.txns {
      var x :| t'.txns == t.txns + [x];
      AfterCommit(t.db, t.txns, x, v, t.shapes[h].rows, p, 0, u);
    }
  }

  lemma CurrentStays(t: System, t': System, h: string, v: View, p: Part)
    requires Current(t, h, v, p) && Carried(t, t', h, v, p)
    ensures Current(t', h, v, p)
  {
    hide LastChange, SeenAt;
    var u :| LastChange(t.txns, v, p, Due(t, h)) <= u <= |t.txns| && SeenAt(t.db, t.txns, v, t.shapes[h].rows, p, u);
    CarriedSeen(t, t', h, v, p, u);
  }

  lemma UntouchedStays(t: System, t': System, h: string, v: View, p: Part, version: nat, floor: nat)
    requires Untouched(t, h, v, p, version, floor) && Carried(t, t', h, v, p)
    ensures Untouched(t', h, v, p, version, floor)
  {
    hide LastChange, SeenAt;
    CarriedSeen(t, t', h, v, p, version);
  }

  // ---- runs ----

  /** Sound runs that keep the shape. */
  ghost predicate RunsKeeping(s: System, steps: seq<Step>, t: System, h: string)
    decreases |steps|
  {
    if steps == [] then s == t else
      Enabled(s, steps[0]) && Sound(s, steps[0]) && Keeps(s, steps[0], h) && RunsKeeping(Do(s, steps[0]), steps[1..], t, h)
  }

  predicate RefreshedIn(steps: seq<Step>, h: string, p: Part)
  {
    exists i | 0 <= i < |steps| :: Refreshes(steps[i], h, p)
  }

  lemma RefreshedInFirst(steps: seq<Step>, h: string, p: Part)
    requires steps != []
    ensures RefreshedIn(steps, h, p) <==> Refreshes(steps[0], h, p) || RefreshedIn(steps[1..], h, p)
  {
    hide Refreshes;
    if RefreshedIn(steps[1..], h, p) {
      var i :| 0 <= i < |steps[1..]| && Refreshes(steps[1..][i], h, p);
      assert Refreshes(steps[i + 1], h, p);
    }
    if RefreshedIn(steps, h, p) && !Refreshes(steps[0], h, p) {
      var i :| 0 <= i < |steps| && Refreshes(steps[i], h, p);
      assert steps[1..][i - 1] == steps[i];
    }
  }

  lemma {:induction false} RunKeepsCurrent(s: System, steps: seq<Step>, t: System, h: string, v: View, p: Part)
    requires InvBut(s, {h}) && Current(s, h, v, p) && RunsKeeping(s, steps, t, h)
    ensures InvBut(t, {h}) && Current(t, h, v, p)
    decreases |steps|
  {
    hide InvBut, Current, Sound, Enabled, Do, Carried, Holds, Keeps;
    if steps != [] {
      var s' := Do(s, steps[0]);
      CurrentHolds(s, h, v, p);
      if Refreshes(steps[0], h, p) {
        RefreshMakesCurrent(s, steps[0], h, v, p);
      } else {
        StepCarries(s, steps[0], h, v, p);
        CurrentStays(s, s', h, v, p);
      }
      RunKeepsCurrent(s', steps[1..], t, h, v, p);
    }
  }

  lemma CurrentHolds(t: System, h: string, v: View, p: Part)
    ensures Current(t, h, v, p) ==> Holds(t, h, v, p)
  {
  }

  lemma UntouchedHolds(t: System, h: string, v: View, p: Part, version: nat, floor: nat)
    ensures Untouched(t, h, v, p, version, floor) ==> Holds(t, h, v, p)
  {
  }

  /** Until it is queried again, a part stays as registered; from then on it is current. */
  lemma {:induction false} RunFromSnapshot(s: System, steps: seq<Step>, t: System, h: string, v: View, p: Part, version: nat, floor: nat)
    requires InvBut(s, {h}) && Untouched(s, h, v, p, version, floor) && RunsKeeping(s, steps, t, h)
    ensures InvBut(t, {h})
    ensures if RefreshedIn(steps, h, p) then Current(t, h, v, p) else Untouched(t, h, v, p, version, floor)
    decreases |steps|
  {
    hide InvBut, Current, Untouched, Sound, Enabled, Do, Carried, Holds, Keeps, Refreshes;
    if steps != [] {
      var s' := Do(s, steps[0]);
      UntouchedHolds(s, h, v, p, version, floor);
      RefreshedInFirst(steps, h, p);
      if Refreshes(steps[0], h, p) {
        RefreshMakesCurrent(s, steps[0], h, v, p);
        RunKeepsCurrent(s', steps[1..], t, h, v, p);
      } else {
        StepCarries(s, steps[0], h, v, p);
        UntouchedStays(s, s', h, v, p, version, floor);
        RunFromSnapshot(s', steps[1..], t, h, v, p, version, floor);
      }
    }
  }

  /** The state right after registering a snapshot of any age. */
  lemma Registered(s: System, h: string, v: View, p: Part, version: nat)
    requires Inv(s) && Enabled(s, Register(h, v, version)) && Fits(v, p)
    ensures var s' := Do(s, Register(h, v, version)); InvBut(s', {h}) && Untouched(s', h, v, p, version, Floor(s))
  {
    hide Reflects, ReadsOnlyDeps, Before, Query, Version, LastChange;
  }

  /** The part is what its query answers on the current database. */
  ghost predicate RightAt(t: System, h: string, p: Part)
    requires h in t.shapes
  {
    SeenAt(t.db, t.txns, t.shapes[h].view, t.shapes[h].rows, p, |t.txns|)
  }

  /** A snapshot of any version, registered in any phase. In every caught-up state of every run that
      keeps the shape, a row (or the whole of a dependent shape) is right exactly when it was queried
      again or the snapshot already showed its current value. It is queried again whenever a commit not
      yet begun at the registration changes it, and the snapshot is good if no commit since its version
      does. So what stays wrong was changed between the snapshot and the registration, and not since. */
  lemma StaleSnapshotIff(s: System, h: string, v: View, version: nat, steps: seq<Step>, t: System, p: Part)
    requires Inv(s) && Enabled(s, Register(h, v, version)) && Fits(v, p)
    requires RunsKeeping(Do(s, Register(h, v, version)), steps, t, h) && t.phase == Streaming(|t.txns|)
    ensures h in t.shapes && version <= |t.txns|
    ensures RightAt(t, h, p) <==>
      RefreshedIn(steps, h, p) || SamePart(Query(v, Version(t.db, t.txns, version)), Query(v, Version(t.db, t.txns, |t.txns|)), p)
    ensures !RefreshedIn(steps, h, p) ==> LastChange(t.txns, v, p, |t.txns|) <= Floor(s)
    ensures !RightAt(t, h, p) ==> version < LastChange(t.txns, v, p, |t.txns|) <= Floor(s)
  {
    hide Inv, LastChange, Query, Version, RunsKeeping, RefreshedIn, Do, Enabled;
    var s' := Do(s, Register(h, v, version));
    Registered(s, h, v, p, version);
    ReadsDeps(s, h, v, version);
    RunFromSnapshot(s', steps, t, h, v, p, version, Floor(s));
    CaughtUp(t, h);
    RunGrows(s', steps, t, h);
    if RefreshedIn(steps, h, p) {
      ReflectedIsRight(t.db, t.txns, v, t.shapes[h].rows, p);
    } else if LastChange(t.txns, v, p, |t.txns|) <= version {
      UnchangedSince(t.db, t.txns, v, p, version);
    }
  }

  lemma {:induction false} RunGrows(s: System, steps: seq<Step>, t: System, h: string)
    requires RunsKeeping(s, steps, t, h)
    ensures s.txns <= t.txns && s.db == t.db
    decreases |steps|
  {
    if steps != [] {
      StepGrows(s, steps[0]);
      hide Do, Enabled, Sound, Keeps;
      RunGrows(Do(s, steps[0]), steps[1..], t, h);
    }
  }

  lemma StepGrows(s: System, step: Step)
    requires Enabled(s, step)
    ensures s.txns <= Do(s, step).txns && s.db == Do(s, step).db
  {
    hide Enabled, Before, Query, Version, Queried, ShapeLog.Splice;
  }

  lemma {:induction false} VersionStays(db: Db, a: seq<Txn>, b: seq<Txn>, n: nat)
    requires a <= b && n <= |a|
    ensures Version(db, a, n) == Version(db, b, n)
  {
    if n > 0 { VersionStays(db, a, b, n - 1); }
  }

  /** Right in this state and in every later caught-up state of every run that keeps the shape. */
  ghost predicate AlwaysRight(s: System, h: string, p: Part)
  {
    forall steps: seq<Step>, t: System | RunsKeeping(s, steps, t, h) && t.phase == Streaming(|t.txns|) ::
      h in t.shapes && RightAt(t, h, p)
  }

  /** Whatever happens, the part has been queried again before the runtime is caught up. */
  ghost predicate AlwaysRefreshed(s: System, h: string, p: Part)
  {
    forall steps: seq<Step>, t: System | RunsKeeping(s, steps, t, h) && t.phase == Streaming(|t.txns|) :: RefreshedIn(steps, h, p)
  }

  /** Registered in any phase, a snapshot is right in every caught-up state of every run exactly when it shows
      what the part was after the last commit begun by then, or no run gets that far without querying the part
      again. */
  lemma SnapshotAlwaysRightIff(s: System, h: string, v: View, version: nat, p: Part)
    requires Inv(s) && Enabled(s, Register(h, v, version)) && Fits(v, p)
    ensures version <= |s.txns| && Floor(s) <= |s.txns|
    ensures AlwaysRight(Do(s, Register(h, v, version)), h, p) <==>
      SamePart(Query(v, Version(s.db, s.txns, version)), Query(v, Version(s.db, s.txns, Floor(s))), p) ||
      AlwaysRefreshed(Do(s, Register(h, v, version)), h, p)
  {
    FloorInLog(s);
    hide Inv, RightAt, RunsKeeping, RefreshedIn, Query, Version, LastChange, SamePart, Floor;
    var s' := Do(s, Register(h, v, version));
    var same := SamePart(Query(v, Version(s.db, s.txns, version)), Query(v, Version(s.db, s.txns, Floor(s))), p);
    forall steps: seq<Step>, t: System | RunsKeeping(s', steps, t, h) && t.phase == Streaming(|t.txns|)
      ensures h in t.shapes && (RightAt(t, h, p) <==> RefreshedIn(steps, h, p) || same)
    {
      RightOrSame(s, h, v, version, steps, t, p);
    }
  }

  lemma FloorInLog(s: System)
    requires Inv(s)
    ensures Floor(s) <= |s.txns|
  {
    hide Reflects, ReadsOnlyDeps, Before;
  }

  lemma RightOrSame(s: System, h: string, v: View, version: nat, steps: seq<Step>, t: System, p: Part)
    requires Inv(s) && Enabled(s, Register(h, v, version)) && Fits(v, p) && Floor(s) <= |s.txns| && version <= |s.txns|
    requires RunsKeeping(Do(s, Register(h, v, version)), steps, t, h) && t.phase == Streaming(|t.txns|)
    ensures h in t.shapes
    ensures RightAt(t, h, p) <==>
      RefreshedIn(steps, h, p) || SamePart(Query(v, Version(s.db, s.txns, version)), Query(v, Version(s.db, s.txns, Floor(s))), p)
  {
    hide Inv, RunsKeeping, RefreshedIn, Query, Version, LastChange, RightAt, Floor;
    StaleSnapshotIff(s, h, v, version, steps, t, p);
    RunGrows(Do(s, Register(h, v, version)), steps, t, h);
    VersionStays(s.db, s.txns, t.txns, version);
    VersionStays(s.db, s.txns, t.txns, Floor(s));
    ReadsDeps(s, h, v, version);
    if !RefreshedIn(steps, h, p) { UnchangedSince(t.db, t.txns, v, p, Floor(s)); }
  }

  // ---- when the part is certain to be queried again ----

  /** Commit `j` changes the part, and will still be streamed: neither the runtime nor any position that it could
      resume from is past it, and if it is being applied the shape is still to be refreshed. */
  ghost predicate Owes(t: System, h: string, v: View, p: Part, j: nat)
  {
    Holds(t, h, v, p) && j < |t.txns| && Changes(t.txns[j], v, p) &&
    t.checkpoint.Some? && Before(t.txns, t.checkpoint.value) <= j && Before(t.txns, t.flushed) <= j &&
    match t.phase
    case Down => true
    case Streaming(next) => next <= j && Before(t.txns, t.startLsn) <= j
    case Applying(i, pending) => i <= j && (i == j ==> h in pending) && Before(t.txns, t.startLsn) <= j
    case Saved(i) => i < j && Before(t.txns, t.startLsn) <= j
  }

  lemma ChangesAffects(x: Txn, v: View, p: Part)
    requires Fits(v, p) && Changes(x, v, p)
    ensures Affects(x, v)
  {
  }

  lemma OwesCommit(t: System, x: Txn, h: string, v: View, p: Part, j: nat)
    requires InvBut(t, {h}) && Enabled(t, ServerCommits(x)) && Owes(t, h, v, p, j) && Holds(Do(t, ServerCommits(x)), h, v, p)
    ensures Owes(Do(t, ServerCommits(x)), h, v, p, j)
  {
    hide Reflects, ReadsOnlyDeps, Before, Changes;
    BeforeUnchanged(t.txns, x, t.checkpoint.value);
    BeforeUnchanged(t.txns, x, t.flushed);
    BeforeUnchanged(t.txns, x, t.startLsn);
  }

  lemma OwesConnect(t: System, step: Step, h: string, v: View, p: Part, j: nat)
    requires InvBut(t, {h}) && step.Connect? && Enabled(t, step) && Owes(t, h, v, p, j) && Keeps(t, step, h)
    requires Holds(Do(t, step), h, v, p)
    ensures Owes(Do(t, step), h, v, p, j)
  {
    hide Reflects, ReadsOnlyDeps, Before, Changes;
    var t' := Do(t, step);
    BeforeMax(t, t'.startLsn, t'.flushed);
  }

  lemma OwesSend(t: System, h: string, v: View, p: Part, j: nat, lsn: nat)
    requires InvBut(t, {h}) && Owes(t, h, v, p, j) && Before(t.txns, lsn) <= j
    ensures Owes(Send(t, lsn), h, v, p, j)
  {
    hide Reflects, ReadsOnlyDeps, Before, Changes;
    BeforeMax(t, t.flushed, lsn);
  }

  lemma OwesApply(t: System, step: Step, h: string, v: View, p: Part, j: nat)
    requires InvBut(t, {h}) && Enabled(t, step) && Owes(t, h, v, p, j) && Keeps(t, step, h) && !Refreshes(step, h, p)
    requires step.BeginApply? || step.RefreshByKeys? || step.RefreshWhole? || step.SaveCheckpoint?
    requires Holds(Do(t, step), h, v, p)
    ensures Owes(Do(t, step), h, v, p, j)
  {
    assert ServerOk(t);
    hide Reflects, ReadsOnlyDeps, Before, Query, Version, Queried, ShapeLog.Splice, InvBut, ServerOk;
    ChangesAffects(t.txns[j], v, p);
    if step.SaveCheckpoint? {
      CommitBefore(t, t.phase.index);
    }
  }

  lemma CommitBefore(t: System, i: nat)
    requires ServerOk(t) && i < |t.txns|
    ensures Before(t.txns, t.txns[i].start) <= i
  {
    hide Before;
    BeforeAtMost(t, t.txns[i].start, i);
  }

  lemma OwesConfirm(t: System, h: string, v: View, p: Part, j: nat)
    requires InvBut(t, {h}) && Enabled(t, ConfirmCommit) && Owes(t, h, v, p, j)
    ensures Owes(Do(t, ConfirmCommit), h, v, p, j)
  {
    CommitBefore(t, t.phase.index);
    OwesSend(t, h, v, p, j, t.txns[t.phase.index].start);
    hide Reflects, ReadsOnlyDeps, Before, Changes, InvBut;
  }

  lemma OwesOther(t: System, step: Step, h: string, v: View, p: Part, j: nat)
    requires InvBut(t, {h}) && Enabled(t, step) && Owes(t, h, v, p, j) && Keeps(t, step, h)
    requires step.SlotDropped? || step.SaveStart? || step.Keepalive? || step.Data? || step.Fail? || step.Register? || step.Tombstone?
    requires Holds(Do(t, step), h, v, p)
    ensures Owes(Do(t, step), h, v, p, j)
  {
    hide Reflects, ReadsOnlyDeps, Before, Changes, Query, Version, InvBut;
  }

  /** A step that does not query the part leaves the commit owed. */
  lemma StepOwes(t: System, step: Step, h: string, v: View, p: Part, j: nat)
    requires InvBut(t, {h}) && Enabled(t, step) && Sound(t, step) && Owes(t, h, v, p, j) && Keeps(t, step, h) && !Refreshes(step, h, p)
    ensures InvBut(Do(t, step), {h}) && Owes(Do(t, step), h, v, p, j)
  {
    HoldsAfter(t, step, h, v, p);
    hide Holds, Sound, Changes, Do, Enabled, Keeps, Refreshes;
    match step
    case ServerCommits(x) => OwesCommit(t, x, h, v, p, j);
    case Connect(_, _, _) => OwesConnect(t, step, h, v, p, j);
    case StandbyTick => OwesTick(t, step, h, v, p, j);
    case ApplyTick => OwesTick(t, step, h, v, p, j);
    case ConfirmCommit => OwesConfirm(t, h, v, p, j);
    case BeginApply => OwesApply(t, step, h, v, p, j);
    case RefreshByKeys(_, _) => OwesApply(t, step, h, v, p, j);
    case RefreshWhole(_, _) => OwesApply(t, step, h, v, p, j);
    case SaveCheckpoint => OwesApply(t, step, h, v, p, j);
    case _ => OwesOther(t, step, h, v, p, j);
  }

  lemma OwesTick(t: System, step: Step, h: string, v: View, p: Part, j: nat)
    requires InvBut(t, {h}) && Enabled(t, step) && Owes(t, h, v, p, j) && (step.StandbyTick? || step.ApplyTick?)
    ensures Owes(Do(t, step), h, v, p, j)
  {
    OwesSendAny(t, h, v, p, j);
    hide Reflects, ReadsOnlyDeps, Before, Changes, InvBut, Owes, Send;
  }

  lemma OwesSendAny(t: System, h: string, v: View, p: Part, j: nat)
    requires InvBut(t, {h}) && Owes(t, h, v, p, j) && !t.phase.Down?
    ensures Owes(Send(t, t.clientPos), h, v, p, j) && Owes(Send(t, t.confirmed), h, v, p, j)
  {
    assert Before(t.txns, t.clientPos) <= j && Before(t.txns, t.confirmed) <= j by { hide Reflects, ReadsOnlyDeps, Before, Changes; }
    OwesSend(t, h, v, p, j, t.clientPos);
    OwesSend(t, h, v, p, j, t.confirmed);
  }

  /** A commit that changes the part and is still to be streamed is never passed over: whatever fails and
      reconnects in between, the part is queried again before the runtime is caught up. */
  lemma {:induction false} OwedIsRefreshed(s: System, h: string, v: View, p: Part, j: nat, steps: seq<Step>, t: System)
    requires InvBut(s, {h}) && Owes(s, h, v, p, j) && RunsKeeping(s, steps, t, h) && t.phase == Streaming(|t.txns|)
    ensures RefreshedIn(steps, h, p)
    decreases |steps|
  {
    hide InvBut, Sound, Enabled, Do, Holds, Keeps, Refreshes, Changes, Before;
    assert steps != [];
    RefreshedInFirst(steps, h, p);
    if !Refreshes(steps[0], h, p) {
      StepOwes(s, steps[0], h, v, p, j);
      OwedIsRefreshed(Do(s, steps[0]), h, v, p, j, steps[1..], t);
    }
  }

  lemma ReadsDeps(s: System, h: string, v: View, version: nat)
    requires Enabled(s, Register(h, v, version))
    ensures version <= |Do(s, Register(h, v, version)).txns| && ReadsOnlyDeps(v)
  {
  }

  lemma CaughtUp(t: System, h: string)
    requires InvBut(t, {h}) && t.phase == Streaming(|t.txns|)
    ensures Due(t, h) == |t.txns|
  {
    hide ShapesOk, ShapesReflect, Before;
  }

  // ---- a run that ends with a wrong row ----

  /** A row is inserted and its commit applied; then a snapshot from before it is registered. */
  ghost function LateRun(): seq<Step>
  {
    [Connect(true, 0, 0), ServerCommits(INSERT), BeginApply, SaveCheckpoint, ConfirmCommit]
  }

  ghost function AppliedInsert(): System
  {
    System(map[], [INSERT], 6, true, 5, map[], Some(5), Streaming(1), 0, false, 5, 6, {5}, 1)
  }

  lemma LateRunReaches()
    ensures Initial(Fresh()) && Runs(Fresh(), LateRun(), AppliedInsert())
  {
    hide Query, Version;
    var s0 := Fresh();
    var s1 := Do(s0, Connect(true, 0, 0));
    var s2 := Do(s1, ServerCommits(INSERT));
    assert [] + [INSERT] == [INSERT];
    var s3 := Do(s2, BeginApply);
    assert s3.phase == Applying(0, {});
    var s4 := Do(s3, SaveCheckpoint);
    var s5 := Do(s4, ConfirmCommit);
    assert s5 == AppliedInsert();
    assert Runs(s5, [], s5);
    RunsOne(s4, ConfirmCommit, [], s5);
    RunsOne(s3, SaveCheckpoint, [ConfirmCommit] + [], s5);
    RunsOne(s2, BeginApply, [SaveCheckpoint] + ([ConfirmCommit] + []), s5);
    RunsOne(s1, ServerCommits(INSERT), [BeginApply] + ([SaveCheckpoint] + ([ConfirmCommit] + [])), s5);
    RunsOne(s0, Connect(true, 0, 0), [ServerCommits(INSERT)] + ([BeginApply] + ([SaveCheckpoint] + ([ConfirmCommit] + []))), s5);
    assert [Connect(true, 0, 0)] + ([ServerCommits(INSERT)] + ([BeginApply] + ([SaveCheckpoint] + ([ConfirmCommit] + [])))) == LateRun();
  }

  /** Registering the snapshot of version 0 after that run leaves the shape without the inserted row. */
  lemma LateSnapshotStaysWrong()
    ensures Initial(Fresh()) && Runs(Fresh(), LateRun(), AppliedInsert())
    ensures var s := AppliedInsert();
      Enabled(s, Register("h", EveryRow(), 0)) && !Sound(s, Register("h", EveryRow(), 0)) &&
      var t := Do(s, Register("h", EveryRow(), 0));
      t.phase == Streaming(|t.txns|) && "h" in t.shapes && !RightAt(t, "h", Key("1"))
  {
    LateRunReaches();
    hide Runs, LateRun;
    RowInserted();
    assert Query(EveryRow(), Version(map[], [INSERT], 0)) == map[];
  }
}
