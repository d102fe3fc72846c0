/** The replicated database as a sequence of versions, the keys each transaction records, and
    what it means for a shape's rows to reflect a number of commits. Stands for the server side
    of internal/pg/replication.go. */
module Database {
  import opened Strings
  import opened Keys
  import opened Diff
  import opened ShapeLog

  /** Tables by relation, rows by key signature. */
  type Db = map<Relation, Rows>

  function Table(db: Db, r: Relation): Rows
  {
    if r in db then db[r] else map[]
  }

  /** One logged row change of a relation and of its partition root. An insert has only a new key,
      a delete only an old one; an update has the new key, and the old one when the key changed. */
  datatype RowOp = RowOp(relation: Relation, root: Relation, oldKey: Option<string>, newKey: Option<string>, row: Row)

  /** A committed transaction: where its commit record starts and ends in the log. */
  datatype Txn = Txn(start: nat, end: nat, ops: seq<RowOp>)

  function Written(t: Rows, op: RowOp): Rows
  {
    var kept := if op.oldKey.Some? then t - {op.oldKey.value} else t;
    if op.newKey.Some? then kept[op.newKey.value := op.row] else kept
  }

  function Performed(db: Db, op: RowOp): Db
  {
    db[op.relation := Written(Table(db, op.relation), op)][op.root := Written(Table(db, op.root), op)]
  }

  function After(db: Db, ops: seq<RowOp>): Db
  {
    if ops == [] then db else Performed(After(db, ops[..|ops| - 1]), ops[|ops| - 1])
  }

  /** Version `n` is the database after the first `n` transactions. */
  function Version(db: Db, txns: seq<Txn>, n: nat): Db
    requires n <= |txns|
  {
    if n == 0 then db else After(Version(db, txns, n - 1), txns[n - 1].ops)
  }

  // ---- the keys a transaction records ----

  /** recordInsert, recordUpdate and recordDelete: both the old and the new key. */
  function Recorded(op: RowOp): set<string>
  {
    (if op.oldKey.Some? then {op.oldKey.value} else {}) + (if op.newKey.Some? then {op.newKey.value} else {})
  }

  function Touched(ops: seq<RowOp>, r: Relation): set<string>
  {
    if ops == [] then {} else
      var op := ops[|ops| - 1];
      Touched(ops[..|ops| - 1], r) + (if op.relation == r || op.root == r then Recorded(op) else {})
  }

  /** A key that a transaction does not record keeps its row. */
  lemma {:induction false} UnrecordedKeyUnchanged(db: Db, ops: seq<RowOp>, r: Relation, k: string)
    requires k !in Touched(ops, r)
    ensures SameAt(Table(After(db, ops), r), Table(db, r), k)
  {
    if ops != [] {
      UnrecordedKeyUnchanged(db, ops[..|ops| - 1], r, k);
    }
  }

  // ---- shapes as queries ----

  /** A targeted shape filters and projects single rows of one relation; a dependent shape is any
      query that reads only the relations `deps`. */
  datatype View =
    | RowView(relation: Relation, pick: (string, Row) -> Option<Row>)
    | WholeView(deps: set<Relation>, query: Db -> Rows)

  ghost function Query(v: View, db: Db): Rows
  {
    match v
    case RowView(r, pick) => map k | k in Table(db, r) && pick(k, Table(db, r)[k]).Some? :: pick(k, Table(db, r)[k]).value
    case WholeView(_, query) => query(db)
  }

  ghost predicate AgreeOn(a: Db, b: Db, rs: set<Relation>)
  {
    forall r | r in rs :: Table(a, r) == Table(b, r)
  }

  ghost predicate ReadsOnlyDeps(v: View)
  {
    v.WholeView? ==> forall a: Db, b: Db | AgreeOn(a, b, v.deps) :: v.query(a) == v.query(b)
  }

  /** The transaction changes something the shape reads. */
  ghost predicate Affects(t: Txn, v: View)
  {
    match v
    case RowView(r, _) => Touched(t.ops, r) != {}
    case WholeView(deps, _) => exists r | r in deps :: Touched(t.ops, r) != {}
  }

  // ---- reflecting commits ----

  /** One more than the last of the first `n` transactions that records key `k` of relation `r`. */
  ghost function LastTouch(txns: seq<Txn>, r: Relation, k: string, n: nat): (t: nat)
    requires n <= |txns|
    ensures t <= n
  {
    if n == 0 then 0 else if k in Touched(txns[n - 1].ops, r) then n else LastTouch(txns, r, k, n - 1)
  }

  ghost function LastAffect(txns: seq<Txn>, v: View, n: nat): (t: nat)
    requires n <= |txns|
    ensures t <= n
  {
    if n == 0 then 0 else if Affects(txns[n - 1], v) then n else LastAffect(txns, v, n - 1)
  }

  ghost predicate KeySeenAt(db: Db, txns: seq<Txn>, v: View, rows: Rows, k: string, u: nat)
    requires u <= |txns|
  {
    SameAt(rows, Query(v, Version(db, txns, u)), k)
  }

  ghost predicate WholeSeenAt(db: Db, txns: seq<Txn>, v: View, rows: Rows, u: nat)
    requires u <= |txns|
  {
    rows == Query(v, Version(db, txns, u))
  }

  ghost predicate KeyReflected(db: Db, txns: seq<Txn>, v: View, rows: Rows, k: string, n: nat)
    requires v.RowView? && n <= |txns|
  {
    exists u :: LastTouch(txns, v.relation, k, n) <= u <= |txns| && KeySeenAt(db, txns, v, rows, k, u)
  }

  /** Each row is its row in some version between the last of the first `n` commits that touched it
      and now; for a dependent shape, the whole map is. */
  ghost predicate Reflects(db: Db, txns: seq<Txn>, v: View, rows: Rows, n: nat)
    requires n <= |txns|
  {
    match v
    case RowView(_, _) => forall k :: KeyReflected(db, txns, v, rows, k, n)
    case WholeView(_, _) =>
      exists u :: LastAffect(txns, v, n) <= u <= |txns| && WholeSeenAt(db, txns, v, rows, u)
  }

  lemma {:induction false} UntouchedSince(db: Db, txns: seq<Txn>, r: Relation, k: string, u: nat, n: nat)
    requires u <= n <= |txns| && LastTouch(txns, r, k, n) <= u
    ensures SameAt(Table(Version(db, txns, u), r), Table(Version(db, txns, n), r), k)
    decreases n - u
  {
    if u < n {
      UntouchedSince(db, txns, r, k, u, n - 1);
      UnrecordedKeyUnchanged(Version(db, txns, n - 1), txns[n - 1].ops, r, k);
    }
  }

  lemma {:induction false} UnaffectedTables(db: Db, txns: seq<Txn>, v: View, r: Relation, u: nat, n: nat)
    requires v.WholeView? && r in v.deps && u <= n <= |txns| && LastAffect(txns, v, n) <= u
    ensures Table(Version(db, txns, u), r) == Table(Version(db, txns, n), r)
  {
    forall k ensures SameAt(Table(Version(db, txns, u), r), Table(Version(db, txns, n), r), k) {
      NoTouchWithoutAffect(txns, v, r, k, n);
      UntouchedSince(db, txns, r, k, u, n);
    }
    SameRows(Table(Version(db, txns, u), r), Table(Version(db, txns, n), r));
  }

  lemma SameRows(a: Rows, b: Rows)
    requires forall k :: SameAt(a, b, k)
    ensures a == b
  {
    assert a.Keys == b.Keys by { forall k ensures k in a <==> k in b { assert SameAt(a, b, k); } }
    forall k | k in a ensures a[k] == b[k] { assert SameAt(a, b, k); }
  }

  lemma {:induction false} NoTouchWithoutAffect(txns: seq<Txn>, v: View, r: Relation, k: string, n: nat)
    requires v.WholeView? && r in v.deps && n <= |txns|
    ensures LastTouch(txns, r, k, n) <= LastAffect(txns, v, n)
  {
    if n > 0 {
      NoTouchWithoutAffect(txns, v, r, k, n - 1);
      if k in Touched(txns[n - 1].ops, r) { assert Touched(txns[n - 1].ops, r) != {}; }
    }
  }

  /** Convergence: rows that reflect every commit are the query's answer on the final database. */
  lemma AllAppliedMeansEqual(db: Db, txns: seq<Txn>, v: View, rows: Rows)
    requires ReadsOnlyDeps(v) && Reflects(db, txns, v, rows, |txns|)
    ensures rows == Query(v, Version(db, txns, |txns|))
  {
    var n := |txns|;
    if v.RowView? {
      forall k ensures SameAt(rows, Query(v, Version(db, txns, n)), k) {
        assert KeyReflected(db, txns, v, rows, k, n);
        var u :| LastTouch(txns, v.relation, k, n) <= u <= n && KeySeenAt(db, txns, v, rows, k, u);
        UntouchedSince(db, txns, v.relation, k, u, n);
      }
      SameRows(rows, Query(v, Version(db, txns, n)));
    } else {
      var u :| LastAffect(txns, v, n) <= u <= n && WholeSeenAt(db, txns, v, rows, u);
      forall r | r in v.deps ensures Table(Version(db, txns, u), r) == Table(Version(db, txns, n), r) {
        UnaffectedTables(db, txns, v, r, u, n);
      }
      assert AgreeOn(Version(db, txns, u), Version(db, txns, n), v.deps);
    }
  }

  // ---- how reflection moves ----

  lemma {:induction false} VersionOfPrefix(db: Db, txns: seq<Txn>, t: Txn, n: nat)
    requires n <= |txns|
    ensures Version(db, txns + [t], n) == Version(db, txns, n)
  {
    if n > 0 {
      VersionOfPrefix(db, txns, t, n - 1);
      assert (txns + [t])[n - 1] == txns[n - 1];
    }
  }

  lemma {:induction false} LastTouchOfPrefix(txns: seq<Txn>, t: Txn, r: Relation, k: string, n: nat)
    requires n <= |txns|
    ensures LastTouch(txns + [t], r, k, n) == LastTouch(txns, r, k, n)
  {
    if n > 0 { LastTouchOfPrefix(txns, t, r, k, n - 1); }
  }

  lemma {:induction false} LastAffectOfPrefix(txns: seq<Txn>, t: Txn, v: View, n: nat)
    requires n <= |txns|
    ensures LastAffect(txns + [t], v, n) == LastAffect(txns, v, n)
  {
    if n > 0 { LastAffectOfPrefix(txns, t, v, n - 1); }
  }

  /** A later commit on the server changes nothing about what is already reflected. */
  lemma ReflectsAfterCommit(db: Db, txns: seq<Txn>, t: Txn, v: View, rows: Rows, n: nat)
    requires n <= |txns| && Reflects(db, txns, v, rows, n)
    ensures Reflects(db, txns + [t], v, rows, n)
  {
    if v.RowView? {
      forall k ensures KeyReflected(db, txns + [t], v, rows, k, n) {
        assert KeyReflected(db, txns, v, rows, k, n);
        var u :| LastTouch(txns, v.relation, k, n) <= u <= |txns| && KeySeenAt(db, txns, v, rows, k, u);
        LastTouchOfPrefix(txns, t, v.relation, k, n);
        VersionOfPrefix(db, txns, t, u);
        assert KeySeenAt(db, txns + [t], v, rows, k, u);
      }
    } else {
      var u :| LastAffect(txns, v, n) <= u <= |txns| && WholeSeenAt(db, txns, v, rows, u);
      LastAffectOfPrefix(txns, t, v, n);
      VersionOfPrefix(db, txns, t, u);
      assert WholeSeenAt(db, txns + [t], v, rows, u);
    }
  }

  /** A commit that does not affect the shape is reflected as it stands. */
  lemma UnaffectedReflects(db: Db, txns: seq<Txn>, v: View, rows: Rows, n: nat)
    requires n < |txns| && !Affects(txns[n], v) && Reflects(db, txns, v, rows, n)
    ensures Reflects(db, txns, v, rows, n + 1)
  {
    var next := n + 1;
    if v.RowView? {
      forall k ensures KeyReflected(db, txns, v, rows, k, next) {
        assert KeyReflected(db, txns, v, rows, k, n);
        var u :| LastTouch(txns, v.relation, k, n) <= u <= |txns| && KeySeenAt(db, txns, v, rows, k, u);
        assert LastTouch(txns, v.relation, k, n + 1) == LastTouch(txns, v.relation, k, n);
      }
    } else {
      assert LastAffect(txns, v, n + 1) == LastAffect(txns, v, n);
    }
  }

  /** A snapshot of version `u` reflects every count up to `u`. */
  lemma SnapshotReflects(db: Db, txns: seq<Txn>, v: View, u: nat, n: nat)
    requires n <= u <= |txns|
    ensures Reflects(db, txns, v, Query(v, Version(db, txns, u)), n)
  {
    var rows := Query(v, Version(db, txns, u));
    if v.RowView? {
      forall k ensures KeyReflected(db, txns, v, rows, k, n) {
        assert KeySeenAt(db, txns, v, rows, k, u);
      }
    } else {
      assert WholeSeenAt(db, txns, v, rows, u);
    }
  }

  // ---- refreshing by the keys of one transaction ----

  /** What targeted queries return when key `k` is read at version `at[k]`: several queries of one
      commit may each see a different version. */
  ghost function Queried(db: Db, txns: seq<Txn>, v: View, at: map<string, nat>): Rows
    requires forall k | k in at :: at[k] <= |txns|
  {
    map k | k in at && k in Query(v, Version(db, txns, at[k])) :: Query(v, Version(db, txns, at[k]))[k]
  }

  /** Replacing exactly the touched keys by rows read at or after the commit keeps what was
      reflected and adds the commit. */
  lemma TargetedRefreshReflects(db: Db, txns: seq<Txn>, v: View, rows: Rows, n: nat, i: nat, at: map<string, nat>)
    requires v.RowView? && n <= |txns| && i < |txns| && Reflects(db, txns, v, rows, n)
    requires at.Keys == Touched(txns[i].ops, v.relation)
    requires forall k | k in at :: i < at[k] && n <= at[k] <= |txns|
    ensures Reflects(db, txns, v, Splice(rows, at.Keys, Queried(db, txns, v, at)), n)
    ensures i == n ==> Reflects(db, txns, v, Splice(rows, at.Keys, Queried(db, txns, v, at)), n + 1)
  {
    var current := Queried(db, txns, v, at);
    var rows' := Splice(rows, at.Keys, current);
    forall k ensures KeyReflected(db, txns, v, rows', k, n) {
      KeyAfterRefresh(db, txns, v, rows, n, at, k);
    }
    if i == n {
      var next := n + 1;
      forall k ensures KeyReflected(db, txns, v, rows', k, next) {
        KeyAfterRefresh(db, txns, v, rows, n, at, k);
        if k in at {
          assert KeySeenAt(db, txns, v, rows', k, at[k]);
        } else {
          assert LastTouch(txns, v.relation, k, n + 1) == LastTouch(txns, v.relation, k, n);
        }
      }
    }
  }

  lemma KeyAfterRefresh(db: Db, txns: seq<Txn>, v: View, rows: Rows, n: nat, at: map<string, nat>, k: string)
    requires v.RowView? && n <= |txns| && Reflects(db, txns, v, rows, n)
    requires forall k | k in at :: n <= at[k] <= |txns|
    ensures var rows' := Splice(rows, at.Keys, Queried(db, txns, v, at));
      (k in at ==> KeySeenAt(db, txns, v, rows', k, at[k])) &&
      KeyReflected(db, txns, v, rows', k, n)
  {
    var rows' := Splice(rows, at.Keys, Queried(db, txns, v, at));
    if k in at {
      assert SameAt(rows', Queried(db, txns, v, at), k);
      assert KeySeenAt(db, txns, v, rows', k, at[k]);
    } else {
      assert KeyReflected(db, txns, v, rows, k, n);
      var u :| LastTouch(txns, v.relation, k, n) <= u <= |txns| && KeySeenAt(db, txns, v, rows, k, u);
      assert SameAt(rows', rows, k);
      assert KeySeenAt(db, txns, v, rows', k, u);
    }
  }
}
