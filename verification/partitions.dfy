/**
 * The second resolver: fixed partition arrays per tag value, intersected
 * with a reduce, and the generator of trackable entities built on it.
 */
module Partitions {
  import opened Wrappers
  import opened Seqs
  import opened Classification
  import opened Naming
  import opened Combinations

  const RedArray: seq<int> := [1, 3, 5, 7, 9, 12, 14, 16, 18, 19, 21, 23, 25, 27, 30, 32, 34, 36]
  const BlackArray: seq<int> := [2, 4, 6, 8, 10, 11, 13, 15, 17, 20, 22, 24, 26, 28, 29, 31, 33, 35]
  const GreenArray: seq<int> := [0]
  const OddArray: seq<int> := [1, 3, 5, 7, 9, 11, 13, 15, 17, 19, 21, 23, 25, 27, 29, 31, 33, 35]
  const EvenArray: seq<int> := [0, 2, 4, 6, 8, 10, 12, 14, 16, 18, 20, 22, 24, 26, 28, 30, 32, 34, 36]
  const ColumnOneArray: seq<int> := [1, 4, 7, 10, 13, 16, 19, 22, 25, 28, 31, 34]
  const ColumnTwoArray: seq<int> := [2, 5, 8, 11, 14, 17, 20, 23, 26, 29, 32, 35]
  const ColumnThreeArray: seq<int> := [3, 6, 9, 12, 15, 18, 21, 24, 27, 30, 33, 36]

  /** STREETS[i]: defined for i = 1..12 only. */
  function StreetArray(i: int): Option<seq<int>>
  {
    if 1 <= i <= 12 then Some([(i - 1) * 3 + 1, (i - 1) * 3 + 2, (i - 1) * 3 + 3]) else None
  }

  /**
   * The number the unanchored street pattern reads from a street label:
   * the digits after any leading minus sign. "Zero" does not match at all.
   */
  function StreetDigits(s: Street): Option<nat>
  {
    match s
    case StreetZero => None
    case StreetNo(k) => Some(if k < 0 then -k else k)
  }

  /** getNumbersForTag. */
  function NumbersForTag(t: Tag): seq<int>
  {
    match t
    case ColorTag(c) => (match c case Red => RedArray case Black => BlackArray case Green => GreenArray)
    case ParityTag(p) => (match p case Odd => OddArray case Even => EvenArray)
    case RangeTag(r) => (match r case Low => Span(1, 19) case High => Span(19, 37) case RangeZero => GreenArray)
    case DozenTag(d) =>
      (match d
       case FirstDozen => Span(1, 13)
       case SecondDozen => Span(13, 25)
       case ThirdDozen => Span(25, 37)
       case DozenZero => GreenArray)
    case ColumnTag(c) =>
      (match c
       case FirstColumn => ColumnOneArray
       case SecondColumn => ColumnTwoArray
       case ThirdColumn => ColumnThreeArray
       case ColumnZero => GreenArray)
    case StreetTag(s) =>
      match StreetDigits(s)
      case None => []
      case Some(n) => StreetArray(n).GetOr([])
  }

  function InArray(a: seq<int>): int -> bool
  {
    x => x in a
  }

  /** The reduce step: keep the members of acc found in every remaining array. */
  function Intersect(acc: seq<int>, rest: seq<seq<int>>): (r: seq<int>)
    ensures forall x :: x in r <==> x in acc && forall i :: 0 <= i < |rest| ==> x in rest[i]
    decreases |rest|
  {
    if rest == [] then acc
    else
      var r := Intersect(Filter(acc, InArray(rest[0])), rest[1..]);
      assert forall x :: (forall i :: 0 <= i < |rest| ==> x in rest[i]) <==>
        x in rest[0] && forall i :: 0 <= i < |rest[1..]| ==> x in rest[1..][i] by {
        forall x ensures (forall i :: 0 <= i < |rest| ==> x in rest[i]) <==>
          x in rest[0] && forall i :: 0 <= i < |rest[1..]| ==> x in rest[1..][i]
        {
          if x in rest[0] && forall i :: 0 <= i < |rest[1..]| ==> x in rest[1..][i] {
            forall i | 1 <= i < |rest| ensures x in rest[i] {
              assert rest[i] == rest[1..][i - 1];
            }
          }
        }
      }
      r
  }

  /** Filtering keeps order, so an ascending first array gives an ascending intersection. */
  lemma {:induction false} IntersectIncreasing(acc: seq<int>, rest: seq<seq<int>>)
    requires Increasing(acc)
    ensures Increasing(Intersect(acc, rest))
    decreases |rest|
  {
    if rest != [] {
      FilterIncreasing(acc, InArray(rest[0]));
      IntersectIncreasing(Filter(acc, InArray(rest[0])), rest[1..]);
    }
  }

  /** resolveEntityNumbers: [] when no tag is given, else the intersection of the tag arrays. */
  function ResolveEntityNumbers(tags: TagSet): seq<int>
  {
    var arrays := Map(SetTags(tags), NumbersForTag);
    if arrays == [] then [] else Intersect(arrays[0], arrays[1..])
  }

  lemma {:induction false} ResolveEntityNumbersMembers(tags: TagSet)
    ensures forall x :: x in ResolveEntityNumbers(tags) <==>
      SetTags(tags) != [] && forall t :: t in SetTags(tags) ==> x in NumbersForTag(t)
  {
    var ts := SetTags(tags);
    var arrays := Map(ts, NumbersForTag);
    forall x
      ensures x in ResolveEntityNumbers(tags) <==> ts != [] && forall t :: t in ts ==> x in NumbersForTag(t)
    {
      if ts != [] {
        if x in ResolveEntityNumbers(tags) {
          forall t | t in ts
            ensures x in NumbersForTag(t)
          {
            var i :| 0 <= i < |ts| && ts[i] == t;
            if i > 0 {
              assert arrays[1..][i - 1] == arrays[i];
            }
          }
        }
        if forall t :: t in ts ==> x in NumbersForTag(t) {
          forall i | 0 <= i < |arrays[1..]|
            ensures x in arrays[1..][i]
          {
            assert arrays[1..][i] == arrays[i + 1];
            assert ts[i + 1] in ts;
          }
          assert ts[0] in ts;
        }
      }
    }
  }

  /** A tag the two resolvers read alike: any street is a numbered, non-negative one. */
  predicate Canonical(t: Tag)
  {
    t.StreetTag? ==> t.street.StreetNo? && t.street.ordinal >= 0
  }

  lemma ColorMembers(x: int)
    ensures x in RedArray <==> 0 <= x <= 36 && ColorOf(x) == Red
    ensures x in BlackArray <==> 0 <= x <= 36 && ColorOf(x) == Black
    ensures x in GreenArray <==> 0 <= x <= 36 && ColorOf(x) == Green
  {
    RedNumbersListed(x);
    assert x in RedArray <==> x in {1, 3, 5, 7, 9, 12, 14, 16, 18, 19, 21, 23, 25, 27, 30, 32, 34, 36};
    assert x in BlackArray <==> x in {2, 4, 6, 8, 10, 11, 13, 15, 17, 20, 22, 24, 26, 28, 29, 31, 33, 35};
  }

  lemma ColorArrays(c: Color)
    ensures Increasing(NumbersForTag(ColorTag(c)))
    ensures forall x :: x in NumbersForTag(ColorTag(c)) <==> 0 <= x <= 36 && ColorOf(x) == c
  {
    StepIncreasingIsIncreasing(NumbersForTag(ColorTag(c)));
    forall x
      ensures x in NumbersForTag(ColorTag(c)) <==> 0 <= x <= 36 && ColorOf(x) == c
    {
      ColorMembers(x);
    }
  }

  /** The odd array is 1, 3, ..., 35 and the even array 0, 2, ..., 36. */
  lemma ParityArraysSpaced()
    ensures |OddArray| == 18 && forall i :: 0 <= i < 18 ==> OddArray[i] == 2 * i + 1
    ensures |EvenArray| == 19 && forall i :: 0 <= i < 19 ==> EvenArray[i] == 2 * i
  {
    assert OddArray == seq(18, i => 2 * i + 1);
    assert EvenArray == seq(19, i => 2 * i);
  }

  lemma OddMembers(x: int)
    ensures x in OddArray <==> 0 <= x <= 36 && ParityOf(x) == Odd
  {
    ParityArraysSpaced();
    if 0 <= x <= 36 && x % 2 == 1 {
      assert OddArray[x / 2] == x;
    }
  }

  lemma EvenMembers(x: int)
    ensures x in EvenArray <==> 0 <= x <= 36 && ParityOf(x) == Even
  {
    ParityArraysSpaced();
    if 0 <= x <= 36 && x % 2 == 0 {
      assert EvenArray[x / 2] == x;
    }
  }

  lemma ParityArrays(p: Parity)
    ensures Increasing(NumbersForTag(ParityTag(p)))
    ensures forall x :: x in NumbersForTag(ParityTag(p)) <==> 0 <= x <= 36 && ParityOf(x) == p
  {
    StepIncreasingIsIncreasing(NumbersForTag(ParityTag(p)));
    forall x
      ensures x in NumbersForTag(ParityTag(p)) <==> 0 <= x <= 36 && ParityOf(x) == p
    {
      OddMembers(x);
      EvenMembers(x);
    }
  }

  lemma RangeArrays(r: Range)
    ensures Increasing(NumbersForTag(RangeTag(r)))
    ensures forall x :: x in NumbersForTag(RangeTag(r)) <==> 0 <= x <= 36 && RangeOf(x) == r
  {
    SpanIncreasing(1, 19);
    SpanIncreasing(19, 37);
    forall x
      ensures x in NumbersForTag(RangeTag(r)) <==> 0 <= x <= 36 && RangeOf(x) == r
    {
      SpanMembership(1, 19);
      SpanMembership(19, 37);
    }
  }

  lemma DozenArrays(d: Dozen)
    ensures Increasing(NumbersForTag(DozenTag(d)))
    ensures forall x :: x in NumbersForTag(DozenTag(d)) <==> 0 <= x <= 36 && DozenOf(x) == d
  {
    SpanIncreasing(1, 13);
    SpanIncreasing(13, 25);
    SpanIncreasing(25, 37);
    forall x
      ensures x in NumbersForTag(DozenTag(d)) <==> 0 <= x <= 36 && DozenOf(x) == d
    {
      SpanMembership(1, 13);
      SpanMembership(13, 25);
      SpanMembership(25, 37);
    }
  }

  lemma ColumnOneMembers(x: int)
    ensures x in ColumnOneArray <==> 0 <= x <= 36 && ColumnOf(x) == FirstColumn
  {
    ColumnOneListed(x);
    assert x in ColumnOneArray <==> x in {1, 4, 7, 10, 13, 16, 19, 22, 25, 28, 31, 34};
  }

  lemma ColumnTwoMembers(x: int)
    ensures x in ColumnTwoArray <==> 0 <= x <= 36 && ColumnOf(x) == SecondColumn
  {
    ColumnOneListed(x);
    ColumnTwoListed(x);
    assert x in ColumnTwoArray <==> x in {2, 5, 8, 11, 14, 17, 20, 23, 26, 29, 32, 35};
  }

  lemma ColumnThreeMembers(x: int)
    ensures x in ColumnThreeArray <==> 0 <= x <= 36 && ColumnOf(x) == ThirdColumn
  {
    ColumnOneListed(x);
    ColumnTwoListed(x);
    assert x in ColumnThreeArray <==> x in {3, 6, 9, 12, 15, 18, 21, 24, 27, 30, 33, 36};
  }

  lemma ColumnArrays(c: Column)
    ensures Increasing(NumbersForTag(ColumnTag(c)))
    ensures forall x :: x in NumbersForTag(ColumnTag(c)) <==> 0 <= x <= 36 && ColumnOf(x) == c
  {
    StepIncreasingIsIncreasing(NumbersForTag(ColumnTag(c)));
    forall x
      ensures x in NumbersForTag(ColumnTag(c)) <==> 0 <= x <= 36 && ColumnOf(x) == c
    {
      match c
      case FirstColumn => ColumnOneMembers(x);
      case SecondColumn => ColumnTwoMembers(x);
      case ThirdColumn => ColumnThreeMembers(x);
      case ColumnZero =>
    }
  }

  lemma StreetArrays(s: Street)
    requires s.StreetNo? && s.ordinal >= 0
    ensures Increasing(NumbersForTag(StreetTag(s)))
    ensures forall x :: x in NumbersForTag(StreetTag(s)) <==> 0 <= x <= 36 && StreetOf(x) == s
  {
  }

  /**
   * Each family of arrays partitions 0..36: a wheel number lies in the array
   * of exactly one value of each family (its own), and any other integer in
   * none. For streets, 0 lies in no street array and n in 1..36 in STREETS[ceil(n/3)].
   */
  lemma {:induction false} FamiliesPartition(x: int)
    ensures forall c :: x in NumbersForTag(ColorTag(c)) <==> 0 <= x <= 36 && c == ColorOf(x)
    ensures forall p :: x in NumbersForTag(ParityTag(p)) <==> 0 <= x <= 36 && p == ParityOf(x)
    ensures forall r :: x in NumbersForTag(RangeTag(r)) <==> 0 <= x <= 36 && r == RangeOf(x)
    ensures forall d :: x in NumbersForTag(DozenTag(d)) <==> 0 <= x <= 36 && d == DozenOf(x)
    ensures forall k :: x in NumbersForTag(ColumnTag(k)) <==> 0 <= x <= 36 && k == ColumnOf(x)
    ensures forall i :: 1 <= i <= 12 ==> (x in StreetArray(i).value <==> 1 <= x <= 36 && i == CeilThird(x))
  {
    forall c ensures x in NumbersForTag(ColorTag(c)) <==> 0 <= x <= 36 && c == ColorOf(x) {
      ColorArrays(c);
    }
    forall p ensures x in NumbersForTag(ParityTag(p)) <==> 0 <= x <= 36 && p == ParityOf(x) {
      ParityArrays(p);
    }
    forall r ensures x in NumbersForTag(RangeTag(r)) <==> 0 <= x <= 36 && r == RangeOf(x) {
      RangeArrays(r);
    }
    forall d ensures x in NumbersForTag(DozenTag(d)) <==> 0 <= x <= 36 && d == DozenOf(x) {
      DozenArrays(d);
    }
    forall k ensures x in NumbersForTag(ColumnTag(k)) <==> 0 <= x <= 36 && k == ColumnOf(x) {
      ColumnArrays(k);
    }
    forall i | 1 <= i <= 12
      ensures x in StreetArray(i).value <==> 1 <= x <= 36 && i == CeilThird(x)
    {
      StreetArrays(StreetNo(i));
    }
  }

  /** STREETS[i] is the i-th run of three numbers, for i = 1..12. */
  lemma StreetTriples(i: int)
    requires 1 <= i <= 12
    ensures NumbersForTag(StreetTag(StreetNo(i))) == [3 * i - 2, 3 * i - 1, 3 * i]
  {
  }

  /**
   * A street whose ordinal, read as the pattern reads it, is outside 1..12
   * names no array, so getNumbersForTag gives [].
   */
  lemma UnlistedStreetEmpty(k: int)
    requires !(1 <= k <= 12) && !(-12 <= k <= -1)
    ensures NumbersForTag(StreetTag(StreetNo(k))) == []
  {
  }

  /** On a canonical tag, the partition array lists, ascending, the numbers carrying the tag. */
  lemma NumbersForTagSound(t: Tag)
    requires Canonical(t)
    ensures Increasing(NumbersForTag(t))
    ensures forall x :: x in NumbersForTag(t) <==> 0 <= x <= 36 && Holds(t, Classify(x))
  {
    match t
    case ColorTag(c) => ColorArrays(c);
    case ParityTag(p) => ParityArrays(p);
    case RangeTag(r) => RangeArrays(r);
    case DozenTag(d) => DozenArrays(d);
    case ColumnTag(c) => ColumnArrays(c);
    case StreetTag(s) => StreetArrays(s);
  }

  /** No tag is given. */
  predicate NoTag(tags: TagSet)
  {
    SetTags(tags) == []
  }

  /** The street, if any, is a numbered non-negative one. */
  predicate CanonicalStreet(tags: TagSet)
  {
    tags.street.Some? ==> tags.street.value.StreetNo? && tags.street.value.ordinal >= 0
  }

  /**
   * For at least one tag and a canonical street the partition resolver and
   * the master table query give the same ascending list.
   */
  lemma {:induction false} ResolversAgree(tags: TagSet)
    requires !NoTag(tags)
    requires CanonicalStreet(tags)
    ensures ResolveEntityNumbers(tags) == ResolveNumbersByTags(tags)
  {
    ResolveEntityNumbersSound(tags);
    IncreasingUnique(ResolveEntityNumbers(tags), ResolveNumbersByTags(tags));
  }

  /** Every tag of a set with a canonical street is canonical. */
  lemma CanonicalTags(tags: TagSet)
    requires CanonicalStreet(tags)
    ensures forall t :: t in SetTags(tags) ==> Canonical(t)
  {
  }

  /**
   * For at least one tag and a canonical street the partition resolver
   * lists, ascending, exactly the numbers matching every tag.
   */
  lemma ResolveEntityNumbersSound(tags: TagSet)
    requires !NoTag(tags)
    requires CanonicalStreet(tags)
    ensures Increasing(ResolveEntityNumbers(tags))
    ensures forall x :: x in ResolveEntityNumbers(tags) <==> 0 <= x <= 36 && Matches(tags, Classify(x))
  {
    var ts := SetTags(tags);
    var arrays := Map(ts, NumbersForTag);
    CanonicalTags(tags);
    forall i | 0 <= i < |ts|
      ensures Increasing(arrays[i])
      ensures forall x :: x in arrays[i] <==> 0 <= x <= 36 && Holds(ts[i], Classify(x))
    {
      NumbersForTagSound(ts[i]);
    }
    IntersectIncreasing(arrays[0], arrays[1..]);
    ResolveEntityNumbersMembers(tags);
    forall x
      ensures x in ResolveEntityNumbers(tags) <==> 0 <= x <= 36 && Matches(tags, Classify(x))
    {
      MatchesIsEveryTag(tags, Classify(x));
      assert ts[0] in ts;
    }
  }

  /** With no tag the partition resolver gives [] while the table query gives all 37 numbers. */
  lemma NoTagDiffers(tags: TagSet)
    requires NoTag(tags)
    ensures ResolveEntityNumbers(tags) == []
    ensures ResolveNumbersByTags(tags) == Span(0, 37)
  {
    ResolveNoTags(tags);
  }

  /** A "Zero" street never matches the street pattern, so the partition resolver gives []. */
  lemma ZeroStreetResolvesEmpty(tags: TagSet)
    requires tags.street == Some(StreetZero)
    ensures ResolveEntityNumbers(tags) == []
  {
    var r := ResolveEntityNumbers(tags);
    ResolveEntityNumbersMembers(tags);
    assert StreetTag(StreetZero) in SetTags(tags);
    assert NumbersForTag(StreetTag(StreetZero)) == [];
    EmptyWhenNoMembers(r);
  }

  /** The table query on the "Zero" street alone gives [0]. */
  lemma ZeroStreetInTable(tags: TagSet)
    requires tags.street == Some(StreetZero) && TagCount(tags) == 1
    ensures ResolveNumbersByTags(tags) == [0]
  {
    var m := ResolveNumbersByTags(tags);
    assert Classify(0).street == StreetZero;
    forall x
      ensures x in m <==> x in [0]
    {
      if x != 0 && 0 <= x <= 36 {
        assert StreetOf(x) != StreetZero;
      }
    }
    IncreasingUnique(m, [0]);
  }

  /**
   * A negative ordinal "-k..." matches the pattern on its digits: alone it
   * resolves to the k-th street, while no number's street is negative.
   */
  lemma NegativeStreetDiffers(tags: TagSet, k: int)
    requires 1 <= k <= 12
    requires tags.street == Some(StreetNo(-k))
    ensures TagCount(tags) == 1 ==> ResolveEntityNumbers(tags) == [3 * k - 2, 3 * k - 1, 3 * k]
    ensures ResolveNumbersByTags(tags) == []
  {
    var m := ResolveNumbersByTags(tags);
    forall x
      ensures x !in m
    {
      if 1 <= x <= 36 {
        NonZeroStreet(x);
      }
    }
    EmptyWhenNoMembers(m);
    if TagCount(tags) == 1 {
      assert SetTags(tags) == [StreetTag(StreetNo(-k))];
    }
  }

  datatype TrackableEntity = TrackableEntity(name: string, tags: TagSet, numbers: seq<int>)

  /** The forEach bodies: keep a combination exactly when it resolves to some number. */
  function EmitTrackable(qs: seq<TagSet>): (r: seq<TrackableEntity>)
    ensures |r| <= |qs|
    ensures forall e :: e in r ==>
      e.tags in qs && e.numbers == ResolveEntityNumbers(e.tags) && e.numbers != [] && e.name == EntityName(e.tags)
    ensures forall q :: q in qs && ResolveEntityNumbers(q) != [] ==>
      TrackableEntity(EntityName(q), q, ResolveEntityNumbers(q)) in r
  {
    if qs == [] then []
    else
      var q := qs[0];
      var numbers := ResolveEntityNumbers(q);
      var rest := EmitTrackable(qs[1..]);
      assert forall q' :: q' in qs[1..] ==> q' in qs;
      assert forall q' :: q' in qs ==> q' == q || q' in qs[1..];
      if numbers != [] then [TrackableEntity(EntityName(q), q, numbers)] + rest else rest
  }

  /** generateAllTrackableEntities over the given loop lists (Standard() holds the source's). */
  function GenerateAllTrackableEntities(v: Vocabulary): seq<TrackableEntity>
  {
    EmitTrackable(QueriesOf(v))
  }

  /**
   * Every generated entity has one to three tags, a non-empty number list,
   * and that list is exactly the master table's answer for its tags.
   */
  lemma TrackableEntitiesSound(v: Vocabulary)
    requires StreetsListed(v)
    ensures forall e :: e in GenerateAllTrackableEntities(v) ==>
      1 <= TagCount(e.tags) <= 3 && e.numbers != []
      && e.numbers == ResolveNumbersByTags(e.tags)
  {
    var qs := QueriesOf(v);
    forall e | e in EmitTrackable(qs)
      ensures 1 <= TagCount(e.tags) <= 3 && e.numbers != [] && e.numbers == ResolveNumbersByTags(e.tags)
    {
      assert e.tags in qs;
      CuratedResolversAgree(e.tags);
    }
  }

  /** A curated combination has at least one tag and any street it names is listed. */
  lemma CuratedResolversAgree(q: TagSet)
    requires 1 <= TagCount(q) <= 3 && ListedStreet(q)
    ensures ResolveEntityNumbers(q) == ResolveNumbersByTags(q)
  {
    ResolversAgree(q);
  }
}
