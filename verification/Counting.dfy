/** Counting the entries of a map or a sequence that satisfy a predicate. */
module Counting {

  ghost function Count<K, V>(m: map<K, V>, p: V -> bool): nat {
    |set k | k in m && p(m[k])|
  }

  lemma CountSplit<K, V>(m: map<K, V>, k: K, p: V -> bool)
    ensures Count(m, p) == |set j | j in m && j != k && p(m[j])| + (if k in m && p(m[k]) then 1 else 0)
  {
    var rest := set j | j in m && j != k && p(m[j]);
    assert (set j | j in m && p(m[j])) == rest + (if k in m && p(m[k]) then {k} else {});
  }

  /** Overwriting one entry changes a count by what that entry contributed before and after. */
  lemma CountUpdate<K, V>(m: map<K, V>, k: K, v: V, p: V -> bool)
    ensures Count(m[k := v], p) + (if k in m && p(m[k]) then 1 else 0) == Count(m, p) + (if p(v) then 1 else 0)
  {
    var m' := m[k := v];
    CountSplit(m, k, p);
    CountSplit(m', k, p);
    assert (set j | j in m && j != k && p(m[j])) == (set j | j in m' && j != k && p(m'[j]));
  }

  /** A count is positive exactly when some entry satisfies the predicate. */
  lemma CountPositive<K, V>(m: map<K, V>, k: K, p: V -> bool)
    requires k in m && p(m[k])
    ensures Count(m, p) >= 1
  {
    var s := set j | j in m && p(m[j]);
    assert k in s;
    assert s == {k} + (s - {k});
  }

  lemma CountZero<K, V>(m: map<K, V>, p: V -> bool)
    requires forall k :: k in m ==> !p(m[k])
    ensures Count(m, p) == 0
  {
    assert (set k | k in m && p(m[k])) == {};
  }

  lemma CountIs<K, V>(m: map<K, V>, p: V -> bool, s: set<K>)
    requires forall k :: k in s <==> k in m && p(m[k])
    ensures Count(m, p) == |s|
  {
    assert (set k | k in m && p(m[k])) == s;
  }

  lemma CountOne<K, V>(m: map<K, V>, k: K, p: V -> bool)
    requires k in m && p(m[k])
    requires forall j :: j in m && j != k ==> !p(m[j])
    ensures Count(m, p) == 1
  {
    CountSplit(m, k, p);
    assert (set j | j in m && j != k && p(m[j])) == {};
  }

  lemma CountZeroMeansNone<K, V>(m: map<K, V>, p: V -> bool)
    requires Count(m, p) == 0
    ensures forall k :: k in m ==> !p(m[k])
  {
    forall k | k in m
      ensures !p(m[k])
    {
      if p(m[k]) {
        CountPositive(m, k, p);
      }
    }
  }

  /** Maps that agree on the predicate entry by entry have the same count. */
  lemma CountSame<K, V>(m: map<K, V>, m': map<K, V>, p: V -> bool)
    requires m.Keys == m'.Keys
    requires forall k :: k in m ==> p(m[k]) == p(m'[k])
    ensures Count(m, p) == Count(m', p)
  {
    assert (set k | k in m && p(m[k])) == (set k | k in m' && p(m'[k]));
  }
}
