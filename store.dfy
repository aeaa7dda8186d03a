/** The id-keyed tables behind the services: keys are the records' numeric primary keys. */
module Store {

  /** Strictly ascending keys: each occurs once. */
  predicate Ascending(ks: seq<int>)
  {
    forall i, j :: 0 <= i < j < |ks| ==> ks[i] < ks[j]
  }

  /** No element occurs twice. */
  predicate Distinct<T(==)>(s: seq<T>)
  {
    forall i, j :: 0 <= i < j < |s| ==> s[i] != s[j]
  }

  /** A set is empty or has a member (set extensionality, stated without a precondition). */
  lemma EmptyOrHasMember(s: set<int>)
    ensures s == {} || exists x :: x in s
  {
    if forall x :: x !in s {
      assert s == {};
    }
  }

  lemma {:induction false} HasLeast(s: set<int>)
    requires s != {}
    ensures exists m :: m in s && forall y :: y in s ==> m <= y
  {
    EmptyOrHasMember(s);
    var x :| x in s;
    var t := s - {x};
    if t == {} {
      forall y | y in s ensures x <= y {
        assert y !in t;
      }
    } else {
      HasLeast(t);
      var m :| m in t && forall y :: y in t ==> m <= y;
      var least := if x < m then x else m;
      forall y | y in s ensures least <= y {
        if y != x { assert y in t; }
      }
      assert least in s;
    }
  }

  /** The keys of a table in ascending primary-key order. */
  function SortedKeys(s: set<int>): (ks: seq<int>)
    ensures Ascending(ks)
    ensures forall k :: k in ks <==> k in s
    ensures forall i :: 0 <= i < |ks| ==> ks[i] in s
    ensures |ks| == |s|
  {
    if s == {} then []
    else
      HasLeast(s);
      var m :| m in s && forall y :: y in s ==> m <= y;
      var rest := SortedKeys(s - {m});
      LeastThenAscending(m, s - {m}, rest);
      [m] + rest
  }

  lemma LeastThenAscending(m: int, t: set<int>, rest: seq<int>)
    requires Ascending(rest)
    requires forall k :: k in rest <==> k in t
    requires m !in t && forall y :: y in t ==> m <= y
    ensures Ascending([m] + rest)
  {
    var r := [m] + rest;
    forall i, j | 0 <= i < j < |r| ensures r[i] < r[j] {
      assert r[j] == rest[j - 1] && rest[j - 1] in t;
      if i > 0 { assert r[i] == rest[i - 1]; }
    }
  }

  /** The records stored under the keys `ks`, in that order. */
  function Lookup<V>(m: map<int, V>, ks: seq<int>): (vs: seq<V>)
    requires forall i :: 0 <= i < |ks| ==> ks[i] in m
    ensures |vs| == |ks|
    ensures forall i :: 0 <= i < |ks| ==> vs[i] == m[ks[i]]
  {
    seq(|ks|, i requires 0 <= i < |ks| => m[ks[i]])
  }

  /** Any reordering of the records stored under the keys in `s` lists each of them exactly once
      and nothing else, when every record carries the key it is stored under. */
  lemma TableListing<V>(m: map<int, V>, key: V -> int, s: set<int>, r: seq<V>)
    requires forall k :: k in m ==> key(m[k]) == k
    requires s <= m.Keys
    requires multiset(r) == multiset(Lookup(m, SortedKeys(s)))
    ensures |r| == |s|
    ensures forall x :: x in r ==> key(x) in s && m[key(x)] == x
    ensures forall k :: k in s ==> multiset(r)[m[k]] == 1
  {
    var ks := SortedKeys(s);
    var all := Lookup(m, ks);
    assert |r| == |all| by {
      assert |multiset(r)| == |multiset(all)|;
    }
    assert Distinct(all) by {
      forall i, j | 0 <= i < j < |all| ensures all[i] != all[j] {
        assert key(all[i]) == ks[i] && key(all[j]) == ks[j];
      }
    }
    forall x | x in r ensures key(x) in s && m[key(x)] == x {
      assert x in multiset(all) by { assert x in multiset(r); }
      var i :| 0 <= i < |all| && all[i] == x;
      assert key(x) == ks[i];
    }
    forall k | k in s ensures multiset(r)[m[k]] == 1 {
      var i :| 0 <= i < |ks| && ks[i] == k;
      assert all[i] == m[k];
      DistinctOccursOnce(all, m[k]);
    }
  }

  /** In a list without repetitions every member occurs exactly once. */
  lemma {:induction false} DistinctOccursOnce<T>(s: seq<T>, x: T)
    requires Distinct(s)
    requires x in s
    ensures multiset(s)[x] == 1
  {
    assert s == [s[0]] + s[1..];
    if s[0] == x {
      assert x !in s[1..];
    } else {
      DistinctOccursOnce(s[1..], x);
    }
  }
}
