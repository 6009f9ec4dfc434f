/**
 * The two list operations the screen applies to appointment lists:
 * Array.prototype.filter and a stable sort by a string key. Their properties
 * are stated as lemmas, so that callers bring them in only where needed.
 */
module Sequences {
  import opened TimeOrder

  /** The elements of s that satisfy p, in their original order. */
  function Filter<T>(s: seq<T>, p: T -> bool): (r: seq<T>)
  {
    if s == [] then []
    else if p(s[0]) then [s[0]] + Filter(s[1..], p)
    else Filter(s[1..], p)
  }

  /** Everything Filter keeps passes the test, and it never grows the list. */
  lemma {:induction false} FilterPasses<T>(s: seq<T>, p: T -> bool)
    ensures |Filter(s, p)| <= |s|
    ensures forall i :: 0 <= i < |Filter(s, p)| ==> p(Filter(s, p)[i])
  {
    if s != [] { FilterPasses(s[1..], p); }
  }

  /** Filter keeps every element that passes as often as s holds it, and nothing else. */
  lemma {:induction false} FilterMultiset<T(!new)>(s: seq<T>, p: T -> bool)
    ensures forall x :: multiset(Filter(s, p))[x] == if p(x) then multiset(s)[x] else 0
  {
    if s != [] {
      FilterMultiset(s[1..], p);
      assert s == [s[0]] + s[1..];
    }
  }

  /** Filtering distributes over concatenation: what passes keeps its place relative to the rest. */
  lemma {:induction false} FilterConcat<T>(a: seq<T>, b: seq<T>, p: T -> bool)
    ensures Filter(a + b, p) == Filter(a, p) + Filter(b, p)
  {
    if a != [] {
      assert (a + b)[1..] == a[1..] + b;
      assert (a + b)[0] == a[0];
      FilterConcat(a[1..], b, p);
    } else {
      assert a + b == b;
    }
  }

  /** Two elements that both pass the filter appear in the result in the order they had in s. */
  lemma FilterPreservesOrder<T>(s: seq<T>, p: T -> bool, i: nat, j: nat)
    requires i < j < |s| && p(s[i]) && p(s[j])
    ensures exists k, l :: 0 <= k < l < |Filter(s, p)| && Filter(s, p)[k] == s[i] && Filter(s, p)[l] == s[j]
  {
    var a, m, c := s[..i], s[i+1..j], s[j+1..];
    assert s == a + ([s[i]] + (m + ([s[j]] + c)));
    FilterConcat(a, [s[i]] + (m + ([s[j]] + c)), p);
    FilterConcat([s[i]], m + ([s[j]] + c), p);
    FilterConcat(m, [s[j]] + c, p);
    FilterConcat([s[j]], c, p);
    assert [s[i]][1..] == [] && [s[j]][1..] == [];
    var r := Filter(s, p);
    var k := |Filter(a, p)|;
    var l := k + 1 + |Filter(m, p)|;
    assert r == Filter(a, p) + ([s[i]] + (Filter(m, p) + ([s[j]] + Filter(c, p))));
    assert r[k] == s[i] && r[l] == s[j];
  }

  /** s is in ascending order of key under the string order of the views. */
  predicate SortedBy<T>(s: seq<T>, key: T -> string)
  {
    forall i, j :: 0 <= i < j < |s| ==> Leq(key(s[i]), key(s[j]))
  }

  /** Inserts x into s before the first element whose key is not below x's. */
  function Insert<T>(x: T, s: seq<T>, key: T -> string): (r: seq<T>)
  {
    if s == [] then [x]
    else if Leq(key(x), key(s[0])) then [x] + s
    else [s[0]] + Insert(x, s[1..], key)
  }

  /** A head no later than every element of a sorted tail gives a sorted list. */
  lemma SortedCons<T>(h: T, t: seq<T>, key: T -> string)
    requires SortedBy(t, key)
    requires forall j :: 0 <= j < |t| ==> Leq(key(h), key(t[j]))
    ensures SortedBy([h] + t, key)
  {
    var r := [h] + t;
    forall i, j | 0 <= i < j < |r| ensures Leq(key(r[i]), key(r[j])) {
      assert r[j] == t[j - 1];
      if i > 0 { assert r[i] == t[i - 1]; }
    }
  }

  /** Insert adds exactly x. */
  lemma {:induction false} InsertMultiset<T>(x: T, s: seq<T>, key: T -> string)
    ensures multiset(Insert(x, s, key)) == multiset(s) + multiset{x}
  {
    if s != [] && !Leq(key(x), key(s[0])) {
      InsertMultiset(x, s[1..], key);
      assert s == [s[0]] + s[1..];
    }
  }

  /** Inserting into a sorted list keeps it sorted. */
  lemma {:induction false} InsertSorted<T>(x: T, s: seq<T>, key: T -> string)
    requires SortedBy(s, key)
    ensures SortedBy(Insert(x, s, key), key)
  {
    if s == [] {
    } else if Leq(key(x), key(s[0])) {
      forall j | 0 <= j < |s| ensures Leq(key(x), key(s[j])) {
        if j > 0 { LeqTransitive(key(x), key(s[0]), key(s[j])); }
      }
      SortedCons(x, s, key);
    } else {
      var t := s[1..];
      var rest := Insert(x, t, key);
      assert SortedBy(t, key);
      InsertSorted(x, t, key);
      InsertMultiset(x, t, key);
      LeqTotal(key(x), key(s[0]));
      forall j | 0 <= j < |rest| ensures Leq(key(s[0]), key(rest[j])) {
        assert rest[j] in multiset(t) + multiset{x};
        if rest[j] != x {
          var k :| 0 <= k < |t| && t[k] == rest[j];
          assert s[k + 1] == rest[j];
        }
      }
      SortedCons(s[0], rest, key);
    }
  }

  /**
   * A stable sort by key, as `.sort((a, b) => key(a).localeCompare(key(b)))`:
   * each element goes in ahead of the later ones with an equal key.
   */
  function SortBy<T>(s: seq<T>, key: T -> string): (r: seq<T>)
  {
    if s == [] then [] else Insert(s[0], SortBy(s[1..], key), key)
  }

  /** The sort yields ascending key order and holds exactly the elements of s. */
  lemma {:induction false} SortBySpec<T>(s: seq<T>, key: T -> string)
    ensures SortedBy(SortBy(s, key), key)
    ensures multiset(SortBy(s, key)) == multiset(s)
  {
    if s != [] {
      SortBySpec(s[1..], key);
      InsertSorted(s[0], SortBy(s[1..], key), key);
      InsertMultiset(s[0], SortBy(s[1..], key), key);
      assert s == [s[0]] + s[1..];
    }
  }
}
