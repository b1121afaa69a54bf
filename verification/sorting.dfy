/**
 * Sorting by a lexicographic pair of integers, which is how every
 * comparator in the application ranks its items. The sort is an insertion
 * sort that keeps equal-keyed items in their original order.
 */
module Sorting {
  datatype Key = Key(major: int, minor: int)

  predicate KeyLe(a: Key, b: Key)
  {
    a.major < b.major || (a.major == b.major && a.minor <= b.minor)
  }

  ghost predicate SortedBy<T>(s: seq<T>, key: T -> Key)
  {
    forall i, j :: 0 <= i < j < |s| ==> KeyLe(key(s[i]), key(s[j]))
  }

  /** Insert x before the first element it does not follow. */
  function Insert<T>(x: T, s: seq<T>, key: T -> Key): (r: seq<T>)
    ensures |r| == |s| + 1
    ensures multiset(r) == multiset(s) + multiset{x}
  {
    if s == [] || KeyLe(key(x), key(s[0])) then [x] + s
    else
      assert s == [s[0]] + s[1..];
      [s[0]] + Insert(x, s[1..], key)
  }

  lemma {:induction false} InsertSorted<T>(x: T, s: seq<T>, key: T -> Key)
    requires SortedBy(s, key)
    ensures SortedBy(Insert(x, s, key), key)
  {
    if s != [] && !KeyLe(key(x), key(s[0])) {
      var t := s[1..];
      assert SortedBy(t, key) by {
        forall i, j | 0 <= i < j < |t|
          ensures KeyLe(key(t[i]), key(t[j]))
        {
          assert t[i] == s[i + 1] && t[j] == s[j + 1];
        }
      }
      InsertSorted(x, t, key);
      var ins := Insert(x, t, key);
      var r := [s[0]] + ins;
      forall j | 0 <= j < |ins|
        ensures KeyLe(key(s[0]), key(ins[j]))
      {
        assert ins[j] in multiset(ins);
        assert ins[j] == x || ins[j] in multiset(t);
        if ins[j] != x {
          var k :| 0 <= k < |t| && t[k] == ins[j];
          assert s[k + 1] == t[k];
        }
      }
      forall i, j | 0 <= i < j < |r|
        ensures KeyLe(key(r[i]), key(r[j]))
      {
        if i == 0 {
          assert r[j] == ins[j - 1];
        } else {
          assert r[i] == ins[i - 1] && r[j] == ins[j - 1];
        }
      }
    } else {
      var r := [x] + s;
      forall i, j | 0 <= i < j < |r|
        ensures KeyLe(key(r[i]), key(r[j]))
      {
        if i == 0 {
          if s != [] {
            assert r[j] == s[j - 1];
            assert KeyLe(key(s[0]), key(s[j - 1])) || j == 1;
          }
        } else {
          assert r[i] == s[i - 1] && r[j] == s[j - 1];
        }
      }
    }
  }

  /** Array.prototype.sort with a comparator that orders by key. */
  function SortBy<T>(s: seq<T>, key: T -> Key): (r: seq<T>)
    ensures |r| == |s|
    ensures multiset(r) == multiset(s)
  {
    if s == [] then []
    else
      assert s == [s[0]] + s[1..];
      Insert(s[0], SortBy(s[1..], key), key)
  }

  /** The sorted list is ordered by key. */
  lemma {:induction false} SortBySorted<T>(s: seq<T>, key: T -> Key)
    ensures SortedBy(SortBy(s, key), key)
  {
    if s != [] {
      SortBySorted(s[1..], key);
      InsertSorted(s[0], SortBy(s[1..], key), key);
    } else {
      assert SortBy(s, key) == [];
    }
  }

  /** The sorted list holds the same items. */
  lemma SortByMembers<T>(s: seq<T>, key: T -> Key)
    ensures forall x :: x in SortBy(s, key) <==> x in s
  {
    forall x
      ensures x in SortBy(s, key) <==> x in s
    {
      assert x in SortBy(s, key) <==> x in multiset(SortBy(s, key));
      assert x in s <==> x in multiset(s);
    }
  }
}
