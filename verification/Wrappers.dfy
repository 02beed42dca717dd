/** Small values shared by every component of the model. */
module Wrappers {

  datatype Option<+T> = None | Some(value: T)

  /** Some element of a collection whose iteration order does not matter. */
  method NextOf<T(==)>(items: set<T>) returns (next: T)
    requires items != {}
    ensures next in items
  {
    next :| next in items;
  }

  /** Maps with the same keys and values are the same map. */
  lemma SameMap<K, V>(x: map<K, V>, y: map<K, V>)
    requires (forall k :: k in x ==> k in y && x[k] == y[k]) && (forall k :: k in y ==> k in x)
    ensures x == y
  {
  }

  predicate Distinct<T(==)>(s: seq<T>) {
    forall i, j :: 0 <= i < j < |s| ==> s[i] != s[j]
  }

  lemma TwiceInMultiset<T>(s: seq<T>, i: nat, j: nat)
    requires i < j < |s| && s[i] == s[j]
    ensures multiset(s)[s[i]] >= 2
  {
    assert s == s[..j] + s[j..];
    assert s[..j][i] == s[i] && s[j..][0] == s[j];
    assert multiset(s) == multiset(s[..j]) + multiset(s[j..]);
    assert s[i] in s[..j] && s[i] in s[j..];
  }

  lemma {:induction false} OnceWhenDistinct<T>(s: seq<T>, x: T)
    requires Distinct(s)
    ensures multiset(s)[x] <= 1
  {
    if s != [] {
      var last := s[|s| - 1];
      var front := s[..|s| - 1];
      assert s == front + [last];
      OnceWhenDistinct(front, x);
      if x == last { assert x !in front; }
    }
  }

  /** Reordering keeps elements distinct. */
  lemma DistinctShuffled<T>(s: seq<T>, t: seq<T>)
    requires multiset(s) == multiset(t) && Distinct(s)
    ensures Distinct(t)
  {
    forall i, j | 0 <= i < j < |t| ensures t[i] != t[j] {
      if t[i] == t[j] {
        TwiceInMultiset(t, i, j);
        OnceWhenDistinct(s, t[i]);
      }
    }
  }

  lemma SomeElement<T>(s: set<T>) returns (x: T)
    requires s != {}
    ensures x in s
  {
    x :| x in s;
  }

  lemma SomeKey<K, V>(m: map<K, V>, v: V) returns (k: K)
    requires v in m.Values
    ensures k in m && m[k] == v
  {
    k :| k in m && m[k] == v;
  }

  lemma {:induction false} FewElements<T>(s: seq<T>, items: set<T>)
    requires forall x :: x in items ==> x in s
    ensures |items| <= |s|
  {
    if s == [] {
      assert items == {};
    } else {
      var last := s[|s| - 1];
      assert s == s[..|s| - 1] + [last];
      FewElements(s[..|s| - 1], items - {last});
      assert items <= (items - {last}) + {last};
    }
  }

  /** A sequence no longer than the set of its elements repeats none. */
  lemma DistinctByCount<T>(s: seq<T>, items: set<T>)
    requires (forall x :: x in items ==> x in s) && |s| <= |items|
    ensures Distinct(s)
  {
    forall i, j | 0 <= i < j < |s| ensures s[i] != s[j] {
      if s[i] == s[j] {
        var rest := s[..j] + s[j + 1..];
        forall x | x in items ensures x in rest {
          var k :| 0 <= k < |s| && s[k] == x;
          if k < j { assert rest[k] == x; } else if k > j { assert rest[k - 1] == x; } else { assert rest[i] == x; }
        }
        FewElements(rest, items);
      }
    }
  }
}
