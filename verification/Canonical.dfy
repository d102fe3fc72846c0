/** Definition identity: the canonical form that stands for the digest of a definition. Models
    Canonicalize of internal/shapes/manager.go; the encoding and the digest are taken as injective,
    and a parameter map stands for its sorted list of pairs. */
module Canonical {
  import opened Strings
  import opened Diff

  function Inserted(x: string, q: seq<string>): seq<string>
  {
    if q == [] || !Less(q[0], x) then [x] + q else [q[0]] + Inserted(x, q[1..])
  }

  /** `sort.Strings` on a list that may repeat. */
  function SortList(q: seq<string>): seq<string>
  {
    if q == [] then [] else Inserted(q[0], SortList(q[1..]))
  }

  function Canonicalize(def: Definition): Definition
  {
    def.(columns := SortList(def.columns))
  }

  predicate InOrder(q: seq<string>)
  {
    |q| < 2 || (!Less(q[1], q[0]) && InOrder(q[1..]))
  }

  lemma {:induction false} InsertedInOrder(x: string, q: seq<string>)
    requires InOrder(q)
    ensures InOrder(Inserted(x, q))
    ensures Inserted(x, q)[0] == x || (q != [] && Inserted(x, q)[0] == q[0])
  {
    hide Less;
    if q != [] {
      if !Less(q[0], x) {
        assert ([x] + q)[1..] == q;
      } else {
        LessTotal(q[0], x);
        InsertedInOrder(x, q[1..]);
        var rest := Inserted(x, q[1..]);
        assert ([q[0]] + rest)[1..] == rest;
      }
    }
  }

  lemma {:induction false} InsertedElements(x: string, q: seq<string>)
    ensures multiset(Inserted(x, q)) == multiset(q) + multiset{x}
  {
    if q != [] && Less(q[0], x) {
      InsertedElements(x, q[1..]);
      assert q == [q[0]] + q[1..];
    }
  }

  lemma {:induction false} HeadIsLeast(q: seq<string>, j: nat)
    requires InOrder(q) && j < |q|
    ensures !Less(q[j], q[0])
  {
    hide Less;
    LessTotal(q[j], q[0]);
    if j > 0 {
      HeadIsLeast(q[1..], j - 1);
      LessTotal(q[0], q[1]);
      LessTotal(q[1], q[j]);
      if q[0] != q[1] && q[1] != q[j] { LessTransitive(q[0], q[1], q[j]); }
    }
  }

  lemma {:induction false} SortListIs(q: seq<string>)
    ensures InOrder(SortList(q)) && multiset(SortList(q)) == multiset(q)
  {
    if q != [] {
      SortListIs(q[1..]);
      InsertedInOrder(q[0], SortList(q[1..]));
      InsertedElements(q[0], SortList(q[1..]));
      assert q == [q[0]] + q[1..];
    }
  }

  lemma SameHead(a: seq<string>, b: seq<string>)
    requires InOrder(a) && InOrder(b) && multiset(a) == multiset(b) && a != [] && b != []
    ensures a[0] == b[0]
  {
    hide Less, InOrder;
    assert a[0] in multiset(b) && b[0] in multiset(a);
    var i :| 0 <= i < |b| && b[i] == a[0];
    var j :| 0 <= j < |a| && a[j] == b[0];
    HeadIsLeast(b, i);
    HeadIsLeast(a, j);
    LessTotal(a[0], b[0]);
  }

  lemma {:induction false} InOrderUnique(a: seq<string>, b: seq<string>)
    requires InOrder(a) && InOrder(b) && multiset(a) == multiset(b)
    ensures a == b
  {
    assert |a| == |multiset(a)| == |multiset(b)| == |b|;
    if a != [] {
      SameHead(a, b);
      assert a == [a[0]] + a[1..] && b == [b[0]] + b[1..];
      assert multiset(a[1..]) == multiset(a) - multiset{a[0]};
      assert multiset(b[1..]) == multiset(b) - multiset{b[0]};
      InOrderUnique(a[1..], b[1..]);
    }
  }

  /** Two definitions are the same shape exactly when they differ at most in the order of their
      columns. */
  lemma SameShapeIff(a: Definition, b: Definition)
    ensures Canonicalize(a) == Canonicalize(b)
            <==> a.(columns := []) == b.(columns := []) && multiset(a.columns) == multiset(b.columns)
  {
    SortListIs(a.columns);
    SortListIs(b.columns);
    if multiset(a.columns) == multiset(b.columns) {
      InOrderUnique(SortList(a.columns), SortList(b.columns));
    }
    if Canonicalize(a) == Canonicalize(b) {
      assert a.(columns := []) == Canonicalize(a).(columns := []);
      assert b.(columns := []) == Canonicalize(b).(columns := []);
    }
  }
}
