/**
 * The master data table: every roulette outcome 0..36 with its colour,
 * parity, range, dozen, column and street, and the tag query over it.
 */
module Classification {
  import opened Wrappers
  import opened Seqs

  datatype Color = Red | Black | Green
  datatype Parity = Odd | Even
  datatype Range = Low | High | RangeZero
  datatype Dozen = FirstDozen | SecondDozen | ThirdDozen | DozenZero
  datatype Column = FirstColumn | SecondColumn | ThirdColumn | ColumnZero

  /**
   * A street tag. `StreetNo(k)` stands for the label `${k}${suffix} Street`
   * (see Naming.StreetLabel); `StreetZero` is the label "Zero".
   */
  datatype Street = StreetZero | StreetNo(ordinal: int)

  datatype Properties = Properties(
    number: int,
    color: Color,
    parity: Parity,
    range: Range,
    dozen: Dozen,
    column: Column,
    street: Street)

  /** A partial set of properties; None means the attribute is a wildcard. */
  datatype TagSet = TagSet(
    color: Option<Color>,
    parity: Option<Parity>,
    range: Option<Range>,
    dozen: Option<Dozen>,
    column: Option<Column>,
    street: Option<Street>)

  /** One specified attribute together with its value. */
  datatype Tag =
    | ColorTag(color: Color)
    | ParityTag(parity: Parity)
    | RangeTag(range: Range)
    | DozenTag(dozen: Dozen)
    | ColumnTag(column: Column)
    | StreetTag(street: Street)

  /** How many attributes the tag set specifies. */
  function TagCount(tags: TagSet): nat
  {
    (if tags.color.Some? then 1 else 0) + (if tags.parity.Some? then 1 else 0)
    + (if tags.range.Some? then 1 else 0) + (if tags.dozen.Some? then 1 else 0)
    + (if tags.column.Some? then 1 else 0) + (if tags.street.Some? then 1 else 0)
  }

  /** The specified attributes, in the fixed order color, parity, range, dozen, column, street. */
  function SetTags(tags: TagSet): (r: seq<Tag>)
    ensures |r| == TagCount(tags) <= 6
  {
    (if tags.color.Some? then [ColorTag(tags.color.value)] else [])
    + (if tags.parity.Some? then [ParityTag(tags.parity.value)] else [])
    + (if tags.range.Some? then [RangeTag(tags.range.value)] else [])
    + (if tags.dozen.Some? then [DozenTag(tags.dozen.value)] else [])
    + (if tags.column.Some? then [ColumnTag(tags.column.value)] else [])
    + (if tags.street.Some? then [StreetTag(tags.street.value)] else [])
  }

  /** A tag's family, numbered in the order SetTags lists the families. */
  function Family(t: Tag): nat
  {
    match t
    case ColorTag(_) => 0
    case ParityTag(_) => 1
    case RangeTag(_) => 2
    case DozenTag(_) => 3
    case ColumnTag(_) => 4
    case StreetTag(_) => 5
  }

  /** The tag set specifies t's family with t's value. */
  predicate SpecifiedIn(t: Tag, tags: TagSet)
  {
    match t
    case ColorTag(c) => tags.color == Some(c)
    case ParityTag(p) => tags.parity == Some(p)
    case RangeTag(r) => tags.range == Some(r)
    case DozenTag(d) => tags.dozen == Some(d)
    case ColumnTag(c) => tags.column == Some(c)
    case StreetTag(k) => tags.street == Some(k)
  }

  /** SetTags lists exactly the specified tags, one per family, families in their fixed order. */
  lemma SetTagsSpec(tags: TagSet)
    ensures forall t :: t in SetTags(tags) <==> SpecifiedIn(t, tags)
    ensures forall i, j :: 0 <= i < j < |SetTags(tags)| ==> Family(SetTags(tags)[i]) < Family(SetTags(tags)[j])
  {
    SetTagsMembers(tags);
    SetTagsOrdered(tags);
  }

  lemma SetTagsMembers(tags: TagSet)
    ensures forall t :: t in SetTags(tags) <==> SpecifiedIn(t, tags)
  {
    var c := if tags.color.Some? then [ColorTag(tags.color.value)] else [];
    var p := if tags.parity.Some? then [ParityTag(tags.parity.value)] else [];
    var r := if tags.range.Some? then [RangeTag(tags.range.value)] else [];
    var d := if tags.dozen.Some? then [DozenTag(tags.dozen.value)] else [];
    var k := if tags.column.Some? then [ColumnTag(tags.column.value)] else [];
    var st := if tags.street.Some? then [StreetTag(tags.street.value)] else [];
    assert SetTags(tags) == c + p + r + d + k + st;
    forall t
      ensures t in SetTags(tags) <==> SpecifiedIn(t, tags)
    {
      assert t in SetTags(tags) <==> t in c || t in p || t in r || t in d || t in k || t in st;
    }
  }

  lemma SetTagsOrdered(tags: TagSet)
    ensures forall i, j :: 0 <= i < j < |SetTags(tags)| ==> Family(SetTags(tags)[i]) < Family(SetTags(tags)[j])
  {
    var c := if tags.color.Some? then [ColorTag(tags.color.value)] else [];
    var p := if tags.parity.Some? then [ParityTag(tags.parity.value)] else [];
    var r := if tags.range.Some? then [RangeTag(tags.range.value)] else [];
    var d := if tags.dozen.Some? then [DozenTag(tags.dozen.value)] else [];
    var k := if tags.column.Some? then [ColumnTag(tags.column.value)] else [];
    var st := if tags.street.Some? then [StreetTag(tags.street.value)] else [];
    SixFamilies(c, p, r, d, k, st);
  }

  /** Six parts of at most one tag each, part n of family n, concatenate in family order. */
  lemma SixFamilies(c: seq<Tag>, p: seq<Tag>, r: seq<Tag>, d: seq<Tag>, k: seq<Tag>, st: seq<Tag>)
    requires OfFamily(c, 0) && OfFamily(p, 1) && OfFamily(r, 2) && OfFamily(d, 3) && OfFamily(k, 4) && OfFamily(st, 5)
    ensures FamiliesIncreasing(c + p + r + d + k + st)
  {
    AppendFamily([], c, 0);
    assert [] + c == c;
    AppendFamily(c, p, 1);
    AppendFamily(c + p, r, 2);
    AppendFamily(c + p + r, d, 3);
    AppendFamily(c + p + r + d, k, 4);
    AppendFamily(c + p + r + d + k, st, 5);
  }

  /** At most one tag, of family n. */
  ghost predicate OfFamily(o: seq<Tag>, n: nat)
  {
    |o| <= 1 && forall i :: 0 <= i < |o| ==> Family(o[i]) == n
  }

  ghost predicate FamiliesIncreasing(a: seq<Tag>)
  {
    forall i, j :: 0 <= i < j < |a| ==> Family(a[i]) < Family(a[j])
  }

  ghost predicate FamiliesBelow(a: seq<Tag>, n: nat)
  {
    forall i :: 0 <= i < |a| ==> Family(a[i]) < n
  }

  /** Families below n, in increasing order, followed by at most one tag of family n. */
  lemma AppendFamily(a: seq<Tag>, o: seq<Tag>, n: nat)
    requires FamiliesIncreasing(a) && FamiliesBelow(a, n)
    requires OfFamily(o, n)
    ensures FamiliesIncreasing(a + o) && FamiliesBelow(a + o, n + 1)
  {
  }

  const RedNumbers: seq<int> := [1, 3, 5, 7, 9, 12, 14, 16, 18, 19, 21, 23, 25, 27, 30, 32, 34, 36]
  const ColumnOneNumbers: seq<int> := [1, 4, 7, 10, 13, 16, 19, 22, 25, 28, 31, 34]
  const ColumnTwoNumbers: seq<int> := [2, 5, 8, 11, 14, 17, 20, 23, 26, 29, 32, 35]

  /** Math.ceil(n / 3) for an integer n. */
  function CeilThird(n: int): int
  {
    (n + 2) / 3
  }

  function ColorOf(num: int): Color
  {
    if num == 0 then Green else if num in RedNumbers then Red else Black
  }

  function ParityOf(num: int): Parity
  {
    if num == 0 then Even else if num % 2 == 0 then Even else Odd
  }

  function RangeOf(num: int): Range
  {
    if num == 0 then RangeZero else if 1 <= num <= 18 then Low else High
  }

  function DozenOf(num: int): Dozen
  {
    if num == 0 then DozenZero
    else if 1 <= num <= 12 then FirstDozen
    else if 13 <= num <= 24 then SecondDozen
    else ThirdDozen
  }

  function ColumnOf(num: int): Column
  {
    if num == 0 then ColumnZero
    else if num in ColumnOneNumbers then FirstColumn
    else if num in ColumnTwoNumbers then SecondColumn
    else ThirdColumn
  }

  function StreetOf(num: int): Street
  {
    if num == 0 then StreetZero else StreetNo(CeilThird(num))
  }

  /** The body of the loop that builds the master table, for one number. */
  function Classify(num: int): Properties
  {
    Properties(num, ColorOf(num), ParityOf(num), RangeOf(num), DozenOf(num), ColumnOf(num), StreetOf(num))
  }

  /** MASTER_DATA_TABLE: the loop for num = 0..36 pushes Classify(num). */
  function MasterTable(): seq<Properties>
  {
    seq(37, i => Classify(i))
  }

  /** The table has 37 entries and entry i describes number i. */
  lemma MasterTableShape()
    ensures |MasterTable()| == 37
    ensures forall i :: 0 <= i < 37 ==> MasterTable()[i] == Classify(i) && MasterTable()[i].number == i
  {
  }

  /** Zero is Green and Even, and Zero in every other family. */
  lemma ZeroEntry()
    ensures Classify(0) == Properties(0, Green, Even, RangeZero, DozenZero, ColumnZero, StreetZero)
  {
  }

  /** For 1..36 the colour is Red exactly for the listed red numbers, otherwise Black. */
  lemma NonZeroColor(n: int)
    requires 1 <= n <= 36
    ensures ColorOf(n) == (if n in RedNumbers then Red else Black)
  {
  }

  /** For 1..36 parity is that of the number. */
  lemma NonZeroParity(n: int)
    requires 1 <= n <= 36
    ensures ParityOf(n) == Even <==> n % 2 == 0
  {
  }

  /** For 1..36 Low is 1..18, and the dozens split at 12 and 24. */
  lemma NonZeroRangeAndDozen(n: int)
    requires 1 <= n <= 36
    ensures RangeOf(n) == Low <==> n <= 18
    ensures RangeOf(n) != RangeZero
    ensures DozenOf(n) == FirstDozen <==> n <= 12
    ensures DozenOf(n) == SecondDozen <==> 13 <= n <= 24
    ensures DozenOf(n) == ThirdDozen <==> 25 <= n
  {
  }

  /** The red list read as a set of values (cheaper to reason with than the list). */
  lemma RedNumbersListed(x: int)
    ensures x in RedNumbers <==> x in {1, 3, 5, 7, 9, 12, 14, 16, 18, 19, 21, 23, 25, 27, 30, 32, 34, 36}
  {
  }

  lemma ColumnOneListed(x: int)
    ensures x in ColumnOneNumbers <==> x in {1, 4, 7, 10, 13, 16, 19, 22, 25, 28, 31, 34}
  {
  }

  lemma ColumnTwoListed(x: int)
    ensures x in ColumnTwoNumbers <==> x in {2, 5, 8, 11, 14, 17, 20, 23, 26, 29, 32, 35}
  {
  }

  lemma ColumnOneIsResidueOne(n: int)
    requires 1 <= n <= 36
    ensures n in ColumnOneNumbers <==> n % 3 == 1
  {
    ColumnOneListed(n);
  }

  lemma ColumnTwoIsResidueTwo(n: int)
    requires 1 <= n <= 36
    ensures n in ColumnTwoNumbers <==> n % 3 == 2
  {
    ColumnTwoListed(n);
  }

  /** For 1..36 the column is decided by n mod 3. */
  lemma NonZeroColumn(n: int)
    requires 1 <= n <= 36
    ensures ColumnOf(n) == FirstColumn <==> n % 3 == 1
    ensures ColumnOf(n) == SecondColumn <==> n % 3 == 2
    ensures ColumnOf(n) == ThirdColumn <==> n % 3 == 0
  {
    ColumnOneIsResidueOne(n);
    ColumnTwoIsResidueTwo(n);
  }

  /** For 1..36 the street is ceil(n/3): n lies in 3k-2 .. 3k. */
  lemma NonZeroStreet(n: int)
    requires 1 <= n <= 36
    ensures StreetOf(n).StreetNo?
    ensures 1 <= StreetOf(n).ordinal <= 12
    ensures 3 * StreetOf(n).ordinal - 2 <= n <= 3 * StreetOf(n).ordinal
  {
  }

  /** Does the entry agree with every specified tag? */
  predicate Matches(tags: TagSet, e: Properties)
  {
    && (tags.color.Some? ==> e.color == tags.color.value)
    && (tags.parity.Some? ==> e.parity == tags.parity.value)
    && (tags.range.Some? ==> e.range == tags.range.value)
    && (tags.dozen.Some? ==> e.dozen == tags.dozen.value)
    && (tags.column.Some? ==> e.column == tags.column.value)
    && (tags.street.Some? ==> e.street == tags.street.value)
  }

  /** Does the entry carry this one tag? */
  predicate Holds(t: Tag, e: Properties)
  {
    match t
    case ColorTag(c) => e.color == c
    case ParityTag(p) => e.parity == p
    case RangeTag(r) => e.range == r
    case DozenTag(d) => e.dozen == d
    case ColumnTag(c) => e.column == c
    case StreetTag(s) => e.street == s
  }

  /** Matching a tag set is holding each of its specified tags. */
  lemma MatchesIsEveryTag(tags: TagSet, e: Properties)
    ensures Matches(tags, e) <==> forall t :: t in SetTags(tags) ==> Holds(t, e)
  {
    var ts := SetTags(tags);
    if tags.color.Some? { assert ColorTag(tags.color.value) in ts; }
    if tags.parity.Some? { assert ParityTag(tags.parity.value) in ts; }
    if tags.range.Some? { assert RangeTag(tags.range.value) in ts; }
    if tags.dozen.Some? { assert DozenTag(tags.dozen.value) in ts; }
    if tags.column.Some? { assert ColumnTag(tags.column.value) in ts; }
    if tags.street.Some? { assert StreetTag(tags.street.value) in ts; }
  }

  /** The filter-then-map over (a suffix of) the table. */
  function MatchingNumbers(tags: TagSet, entries: seq<Properties>): seq<int>
  {
    if entries == [] then []
    else (if Matches(tags, entries[0]) then [entries[0].number] else [])
         + MatchingNumbers(tags, entries[1..])
  }

  /** The predicate the query filters by, stated on numbers. */
  function MatchesNumber(tags: TagSet): int -> bool
  {
    n => Matches(tags, Classify(n))
  }

  lemma {:induction false} MatchingNumbersFrom(tags: TagSet, k: nat)
    requires k <= 37
    ensures MatchingNumbers(tags, MasterTable()[k..]) == Filter(Span(k, 37), MatchesNumber(tags))
    decreases 37 - k
  {
    if k < 37 {
      MatchingNumbersFrom(tags, k + 1);
      assert MasterTable()[k..][1..] == MasterTable()[k + 1..];
      assert MasterTable()[k..][0] == Classify(k);
      assert Span(k, 37)[1..] == Span(k + 1, 37);
    }
  }

  /**
   * resolveNumbersByTags: the numbers, in ascending order, whose entry
   * agrees with every specified tag.
   */
  function ResolveNumbersByTags(tags: TagSet): (r: seq<int>)
    ensures Increasing(r)
    ensures forall x :: x in r <==> 0 <= x <= 36 && Matches(tags, Classify(x))
  {
    assert MasterTable()[0..] == MasterTable();
    MatchingNumbersFrom(tags, 0);
    SpanMembership(0, 37);
    FilterIncreasing(Span(0, 37), MatchesNumber(tags));
    MatchingNumbers(tags, MasterTable())
  }

  /** With no tag specified every number matches: all 37 come back, not []. */
  lemma ResolveNoTags(tags: TagSet)
    requires SetTags(tags) == []
    ensures ResolveNumbersByTags(tags) == Span(0, 37)
  {
    SpanMembership(0, 37);
    IncreasingUnique(ResolveNumbersByTags(tags), Span(0, 37));
  }

  /** `more` specifies every tag `fewer` specifies, with the same value. */
  predicate Refines(more: TagSet, fewer: TagSet)
  {
    && (fewer.color.Some? ==> more.color == fewer.color)
    && (fewer.parity.Some? ==> more.parity == fewer.parity)
    && (fewer.range.Some? ==> more.range == fewer.range)
    && (fewer.dozen.Some? ==> more.dozen == fewer.dozen)
    && (fewer.column.Some? ==> more.column == fewer.column)
    && (fewer.street.Some? ==> more.street == fewer.street)
  }

  /** Adding tags never enlarges the result. */
  lemma ResolveMonotone(more: TagSet, fewer: TagSet)
    requires Refines(more, fewer)
    ensures forall x :: x in ResolveNumbersByTags(more) ==> x in ResolveNumbersByTags(fewer)
  {
  }

  /** getNumberProperties: the find over the table. */
  function FindEntry(entries: seq<Properties>, n: int): Option<Properties>
  {
    if entries == [] then None
    else if entries[0].number == n then Some(entries[0])
    else FindEntry(entries[1..], n)
  }

  lemma {:induction false} FindEntryFrom(k: nat, n: int)
    requires k <= 37
    ensures FindEntry(MasterTable()[k..], n) == if k <= n <= 36 then Some(Classify(n)) else None
    decreases 37 - k
  {
    if k < 37 {
      FindEntryFrom(k + 1, n);
      assert MasterTable()[k..][1..] == MasterTable()[k + 1..];
    }
  }

  function GetNumberProperties(n: int): (r: Option<Properties>)
    ensures r == if 0 <= n <= 36 then Some(MasterTable()[n]) else None
  {
    FindEntryFrom(0, n);
    FindEntry(MasterTable(), n)
  }
}
