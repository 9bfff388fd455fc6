/** First elements of finite sets, and sequences without repetition. */
module Ordering {

  ghost predicate Distinct<T>(s: seq<T>) {
    forall i, j :: 0 <= i < j < |s| ==> s[i] != s[j]
  }

  lemma DistinctAppend<T>(s: seq<T>, x: T)
    requires Distinct(s) && x !in s
    ensures Distinct(s + [x])
  {
    forall i | 0 <= i < |s|
      ensures s[i] != x
    {
      assert s[i] in s;
    }
  }

  ghost predicate IsFirst<T(!new)>(s: set<T>, before: (T, T) -> bool, x: T) {
    x in s && forall y :: y in s ==> before(x, y)
  }

  ghost predicate TotalPreorder<T(!new)>(before: (T, T) -> bool) {
    && (forall x, y :: before(x, y) || before(y, x))
    && (forall x, y, z :: before(x, y) && before(y, z) ==> before(x, z))
  }

  /** A nonempty finite set has a first element under every total preorder. */
  lemma {:induction false} FirstExists<T(!new)>(s: set<T>, before: (T, T) -> bool)
    requires s != {} && TotalPreorder(before)
    ensures exists x :: IsFirst(s, before, x)
    decreases s
  {
    var x :| x in s;
    var rest := s - {x};
    if rest == {} {
      assert s == {x};
      assert IsFirst(s, before, x);
    } else {
      FirstExists(rest, before);
      var y :| IsFirst(rest, before, y);
      assert forall z :: z in s ==> z == x || z in rest;
      assert IsFirst(s, before, if before(x, y) then x else y);
    }
  }

  /** The elements of a finite set, in some order. */
  method ToSeq<T(==)>(s: set<T>) returns (q: seq<T>)
    ensures Distinct(q) && |q| == |s|
    ensures forall x :: x in q <==> x in s
  {
    q := [];
    var rest := s;
    while rest != {}
      invariant rest <= s && Distinct(q) && |q| + |rest| == |s|
      invariant forall x :: x in q <==> x in s - rest
      decreases rest
    {
      var x :| x in rest;
      DistinctAppend(q, x);
      q, rest := q + [x], rest - {x};
    }
  }

  /** Some number is not a key of the map. */
  lemma FreshId<V>(m: map<nat, V>) returns (id: nat)
    ensures id !in m
  {
    if m == map[] {
      id := 0;
    } else {
      var before := (x: nat, y: nat) => x >= y;
      assert m.Keys != {};
      FirstExists<nat>(m.Keys, before);
      var last: nat :| IsFirst<nat>(m.Keys, before, last);
      id := last + 1;
      assert id in m.Keys ==> before(last, id);
    }
  }
}
