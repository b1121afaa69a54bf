/**
 * Counting how often each number occurs across several number lists, the
 * step shared by the cross-alert and cross-tracker intersections.
 */
module Tally {
  import opened Seqs
  import opened Sorting

  datatype NumberCount = NumberCount(number: int, count: nat)

  /** All the lists, one after the other. */
  function Flatten(lists: seq<seq<int>>): (r: seq<int>)
    ensures forall i :: 0 <= i < |lists| ==> multiset(lists[i]) <= multiset(r)
  {
    if lists == [] then [] else lists[0] + Flatten(lists[1..])
  }

  /** The reference count: how many times x occurs in the lists, duplicates included. */
  function Occurrences(lists: seq<seq<int>>, x: int): nat
  {
    if lists == [] then 0 else multiset(lists[0])[x] + Occurrences(lists[1..], x)
  }

  lemma {:induction false} FlattenCounts(lists: seq<seq<int>>, x: int)
    ensures multiset(Flatten(lists))[x] == Occurrences(lists, x)
  {
    if lists != [] {
      FlattenCounts(lists[1..], x);
    }
  }

  function Get(m: map<int, nat>, x: int): nat
  {
    if x in m then m[x] else 0
  }

  /** The forEach loop that bumps numberCounts once per occurrence. */
  function CountInto(m: map<int, nat>, s: seq<int>): (r: map<int, nat>)
    ensures forall x :: x in r <==> x in m || x in s
    decreases |s|
  {
    if s == [] then m else CountInto(m[s[0] := Get(m, s[0]) + 1], s[1..])
  }

  lemma {:induction false} CountIntoCounts(m: map<int, nat>, s: seq<int>, x: int)
    ensures Get(CountInto(m, s), x) == Get(m, x) + multiset(s)[x]
    decreases |s|
  {
    if s != [] {
      CountIntoCounts(m[s[0] := Get(m, s[0]) + 1], s[1..], x);
      assert s == [s[0]] + s[1..];
    }
  }

  /** The keys of the count map in insertion order: each number at its first occurrence. */
  function FirstOccurrences(s: seq<int>): (r: seq<int>)
    ensures forall x :: x in r <==> x in s
    ensures Distinct(r)
  {
    if s == [] then []
    else
      var d := FirstOccurrences(s[..|s| - 1]);
      assert forall x :: x in s <==> x in s[..|s| - 1] || x == s[|s| - 1] by {
        assert s == s[..|s| - 1] + [s[|s| - 1]];
      }
      if s[|s| - 1] in d then d else d + [s[|s| - 1]]
  }

  lemma {:induction false} FilterDistinct(s: seq<int>, p: int -> bool)
    requires Distinct(s)
    ensures Distinct(Filter(s, p))
  {
    if s != [] {
      assert Distinct(s[1..]) by {
        forall i, j | 0 <= i < j < |s[1..]|
          ensures s[1..][i] != s[1..][j]
        {
          assert s[1..][i] == s[i + 1] && s[1..][j] == s[j + 1];
        }
      }
      FilterDistinct(s[1..], p);
      var f := Filter(s[1..], p);
      assert s[0] !in s[1..];
      if p(s[0]) {
        var r := [s[0]] + f;
        forall i, j | 0 <= i < j < |r|
          ensures r[i] != r[j]
        {
          if i == 0 {
            assert r[j] == f[j - 1];
            assert f[j - 1] in f;
          } else {
            assert r[i] == f[i - 1] && r[j] == f[j - 1];
          }
        }
      }
    }
  }

  function NumbersOf(cs: seq<NumberCount>): (r: seq<int>)
    ensures |r| == |cs| && forall i :: 0 <= i < |cs| ==> r[i] == cs[i].number
  {
    Map(cs, (c: NumberCount) => c.number)
  }

  /**
   * The numbers counted at least minCount times, each with its count, in
   * the count map's insertion order.
   */
  function CommonNumbers(lists: seq<seq<int>>, minCount: nat): (r: seq<NumberCount>)
  {
    var flat := Flatten(lists);
    var counts := CountInto(map[], flat);
    var kept := Filter(FirstOccurrences(flat), (x: int) => Get(counts, x) >= minCount);
    Map(kept, (x: int) => NumberCount(x, Get(counts, x)))
  }

  /**
   * Every number that occurs at least minCount times is listed exactly
   * once, with its count, and no other number is listed.
   */
  lemma CommonNumbersSpec(lists: seq<seq<int>>, minCount: nat)
    requires minCount >= 1
    ensures var r := CommonNumbers(lists, minCount);
      && (forall x :: x in NumbersOf(r) <==> Occurrences(lists, x) >= minCount)
      && Distinct(NumbersOf(r))
      && (forall i :: 0 <= i < |r| ==> r[i].count == Occurrences(lists, r[i].number) >= minCount)
  {
    var flat := Flatten(lists);
    var counts := CountInto(map[], flat);
    var p := (x: int) => Get(counts, x) >= minCount;
    var kept := Filter(FirstOccurrences(flat), p);
    var r := CommonNumbers(lists, minCount);
    assert NumbersOf(r) == kept;
    forall x
      ensures Get(counts, x) == Occurrences(lists, x)
      ensures x in flat <==> Occurrences(lists, x) >= 1
    {
      CountIntoCounts(map[], flat, x);
      FlattenCounts(lists, x);
    }
    FilterDistinct(FirstOccurrences(flat), p);
  }

  /** The common numbers ranked by key, as both intersection panels show them. */
  function Ranked(lists: seq<seq<int>>, minCount: nat, key: NumberCount -> Key): (r: seq<NumberCount>)
    ensures multiset(r) == multiset(CommonNumbers(lists, minCount))
  {
    SortBy(CommonNumbers(lists, minCount), key)
  }

  /** Each ranked count is the number's occurrences, at least minCount, and no number is ranked twice. */
  lemma RankedSpec(lists: seq<seq<int>>, minCount: nat, key: NumberCount -> Key)
    requires minCount >= 1
    ensures forall c :: c in Ranked(lists, minCount, key) ==> c.count == Occurrences(lists, c.number) >= minCount
    ensures Distinct(NumbersOf(Ranked(lists, minCount, key)))
    ensures SortedBy(Ranked(lists, minCount, key), key)
  {
    var cs := CommonNumbers(lists, minCount);
    var r := Ranked(lists, minCount, key);
    CommonNumbersSpec(lists, minCount);
    forall c | c in r
      ensures c.count == Occurrences(lists, c.number) >= minCount
    {
      assert c in multiset(cs);
      var i :| 0 <= i < |cs| && cs[i] == c;
    }
    PermutationKeepsDistinctNumbers(cs, r);
    SortBySorted(cs, key);
  }

  /** Every number occurring at least minCount times is ranked. */
  lemma RankedComplete(lists: seq<seq<int>>, minCount: nat, key: NumberCount -> Key, x: int)
    requires minCount >= 1 && Occurrences(lists, x) >= minCount
    ensures x in NumbersOf(Ranked(lists, minCount, key))
  {
    var cs := CommonNumbers(lists, minCount);
    CommonNumbersSpec(lists, minCount);
    PermutationKeepsNumbers(cs, Ranked(lists, minCount, key), x);
  }

  /** Reordering keeps every listed number. */
  lemma PermutationKeepsNumbers(cs: seq<NumberCount>, r: seq<NumberCount>, x: int)
    requires multiset(r) == multiset(cs) && x in NumbersOf(cs)
    ensures x in NumbersOf(r)
  {
    var i :| 0 <= i < |cs| && NumbersOf(cs)[i] == x;
    assert cs[i] in multiset(r);
    var j :| 0 <= j < |r| && r[j] == cs[i];
    assert NumbersOf(r)[j] == x;
  }

  /** Entries with distinct numbers are distinct entries. */
  lemma DistinctNumbersDistinctEntries(cs: seq<NumberCount>)
    requires Distinct(NumbersOf(cs))
    ensures Distinct(cs)
  {
    forall i, j | 0 <= i < j < |cs|
      ensures cs[i] != cs[j]
    {
      assert NumbersOf(cs)[i] != NumbersOf(cs)[j];
    }
  }

  /** Reordering a list whose numbers are distinct keeps them distinct. */
  lemma PermutationKeepsDistinctNumbers(cs: seq<NumberCount>, r: seq<NumberCount>)
    requires Distinct(NumbersOf(cs)) && multiset(r) == multiset(cs)
    ensures Distinct(NumbersOf(r))
  {
    DistinctNumbersDistinctEntries(cs);
    DistinctPermutation(cs, r);
    forall i, j | 0 <= i < j < |r|
      ensures NumbersOf(r)[i] != NumbersOf(r)[j]
    {
      assert r[i] in multiset(cs) && r[j] in multiset(cs);
      var a :| 0 <= a < |cs| && cs[a] == r[i];
      var b :| 0 <= b < |cs| && cs[b] == r[j];
      assert a != b;
      assert NumbersOf(cs)[a] != NumbersOf(cs)[b];
    }
  }
}
