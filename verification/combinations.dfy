/**
 * The curated tag combinations that both entity generators enumerate, in
 * their loop order: the single tags, eight pair families and four triple
 * families.
 */
module Combinations {
  import opened Wrappers
  import opened Seqs
  import opened Classification

  function Colors(): seq<Color> { [Red, Black, Green] }
  function Parities(): seq<Parity> { [Odd, Even] }
  function Ranges(): seq<Range> { [Low, High, RangeZero] }
  function Dozens(): seq<Dozen> { [FirstDozen, SecondDozen, ThirdDozen, DozenZero] }
  function Columns(): seq<Column> { [FirstColumn, SecondColumn, ThirdColumn, ColumnZero] }

  /** The twelve street tags "1st Street" .. "12th Street". */
  function Streets(): seq<Street>
  {
    [StreetNo(1), StreetNo(2), StreetNo(3), StreetNo(4), StreetNo(5), StreetNo(6),
     StreetNo(7), StreetNo(8), StreetNo(9), StreetNo(10), StreetNo(11), StreetNo(12)]
  }

  /** The value lists the generators loop over. */
  datatype Vocabulary = Vocabulary(
    colors: seq<Color>,
    parities: seq<Parity>,
    ranges: seq<Range>,
    dozens: seq<Dozen>,
    columns: seq<Column>,
    streets: seq<Street>)

  function Standard(): Vocabulary
  {
    Vocabulary(Colors(), Parities(), Ranges(), Dozens(), Columns(), Streets())
  }

  /** Nested forEach loops: for each a, for each b, in order. */
  function Product<A, B, C>(xs: seq<A>, ys: seq<B>, f: (A, B) -> C): (r: seq<C>)
    ensures |r| == |xs| * |ys|
  {
    if xs == [] then [] else Map(ys, y => f(xs[0], y)) + Product(xs[1..], ys, f)
  }

  /** Three nested forEach loops. */
  function Product3<A, B, C, D>(xs: seq<A>, ys: seq<B>, zs: seq<C>, f: (A, B, C) -> D): (r: seq<D>)
    ensures |r| == |xs| * |ys| * |zs|
  {
    if xs == [] then []
    else
      var x := xs[0];
      Product(ys, zs, (y, z) => f(x, y, z)) + Product3(xs[1..], ys, zs, f)
  }

  /** Every element of a product is f of one element of each factor. */
  lemma {:induction false} ProductMembers<A, B, C>(xs: seq<A>, ys: seq<B>, f: (A, B) -> C, q: C)
    requires q in Product(xs, ys, f)
    ensures exists x, y :: x in xs && y in ys && q == f(x, y)
  {
    var head := Map(ys, y => f(xs[0], y));
    if q in head {
      var j :| 0 <= j < |ys| && head[j] == q;
      assert ys[j] in ys;
    } else {
      ProductMembers(xs[1..], ys, f, q);
      var x, y :| x in xs[1..] && y in ys && q == f(x, y);
      assert x in xs;
    }
  }

  lemma {:induction false} Product3Members<A, B, C, D>(xs: seq<A>, ys: seq<B>, zs: seq<C>, f: (A, B, C) -> D, q: D)
    requires q in Product3(xs, ys, zs, f)
    ensures exists x, y, z :: x in xs && y in ys && z in zs && q == f(x, y, z)
  {
    var x := xs[0];
    var g := (y, z) => f(x, y, z);
    if q in Product(ys, zs, g) {
      ProductMembers(ys, zs, g, q);
      var y, z :| y in ys && z in zs && q == g(y, z);
      assert x in xs;
    } else {
      Product3Members(xs[1..], ys, zs, f, q);
      var x', y, z :| x' in xs[1..] && y in ys && z in zs && q == f(x', y, z);
      assert x' in xs;
    }
  }

  /** The outer loop's i-th round, inner j-th step, lands at position i * |ys| + j. */
  lemma {:induction false} ProductIndex<A, B, C>(xs: seq<A>, ys: seq<B>, f: (A, B) -> C, i: int, j: int)
    requires 0 <= i < |xs| && 0 <= j < |ys|
    ensures 0 <= i * |ys| + j < |Product(xs, ys, f)|
    ensures Product(xs, ys, f)[i * |ys| + j] == f(xs[i], ys[j])
  {
    var head := Map(ys, y => f(xs[0], y));
    if i > 0 {
      ProductIndex(xs[1..], ys, f, i - 1, j);
      assert i * |ys| == |ys| + (i - 1) * |ys|;
      assert |xs| * |ys| == |ys| + (|xs| - 1) * |ys|;
      assert xs[1..][i - 1] == xs[i];
    }
  }

  lemma MulMonotone(a: int, b: int, c: int)
    requires 0 <= a <= b && 0 <= c
    ensures 0 <= a * c <= b * c
  {
  }

  lemma MulPredecessor(a: int, c: int)
    ensures (a - 1) * c + c == a * c
  {
  }

  /** The rounds after the first start where the first round's block of |ys| * |zs| values ends. */
  lemma Product3Shift<A, B, C, D>(xs: seq<A>, ys: seq<B>, zs: seq<C>, f: (A, B, C) -> D)
    requires xs != []
    ensures |ys| * |zs| <= |Product3(xs, ys, zs, f)|
    ensures Product3(xs, ys, zs, f)[|ys| * |zs|..] == Product3(xs[1..], ys, zs, f)
  {
    var head := Product(ys, zs, (y, z) => f(xs[0], y, z));
    var tail := Product3(xs[1..], ys, zs, f);
    assert Product3(xs, ys, zs, f) == head + tail;
    assert (head + tail)[|head|..] == tail;
  }

  /** The outer loop's i-th round fills the i-th block of |ys| * |zs| values. */
  lemma {:induction false} Product3Block<A, B, C, D>(xs: seq<A>, ys: seq<B>, zs: seq<C>, f: (A, B, C) -> D,
                                                     i: int, m: int)
    requires 0 <= i < |xs| && 0 <= m < |ys| * |zs|
    ensures 0 <= i * (|ys| * |zs|) + m < |Product3(xs, ys, zs, f)|
    ensures Product3(xs, ys, zs, f)[i * (|ys| * |zs|) + m] == Product(ys, zs, (y, z) => f(xs[i], y, z))[m]
  {
    var b := |ys| * |zs|;
    MulMonotone(i, |xs| - 1, b);
    MulPredecessor(|xs|, b);
    assert |xs| * |ys| * |zs| == |xs| * b;
    if i > 0 {
      Product3Block(xs[1..], ys, zs, f, i - 1, m);
      MulPredecessor(i, b);
      Product3Shift(xs, ys, zs, f);
      var n := (i - 1) * b + m;
      assert Product3(xs, ys, zs, f)[b..][n] == Product3(xs[1..], ys, zs, f)[n];
      assert xs[1..][i - 1] == xs[i];
    }
  }

  /** A street tag, when present, is one of "1st Street" .. "12th Street". */
  predicate ListedStreet(q: TagSet)
  {
    q.street.Some? ==> q.street.value.StreetNo? && 1 <= q.street.value.ordinal <= 12
  }

  /** q specifies exactly n tags and any street it names is listed. */
  predicate Curated(q: TagSet, n: nat)
  {
    TagCount(q) == n && ListedStreet(q)
  }

  function ColorOnly(c: Color): TagSet { TagSet(Some(c), None, None, None, None, None) }
  function ParityOnly(p: Parity): TagSet { TagSet(None, Some(p), None, None, None, None) }
  function RangeOnly(r: Range): TagSet { TagSet(None, None, Some(r), None, None, None) }
  function DozenOnly(d: Dozen): TagSet { TagSet(None, None, None, Some(d), None, None) }
  function ColumnOnly(c: Column): TagSet { TagSet(None, None, None, None, Some(c), None) }

  /** A product all of whose combinations are curated contains only curated queries. */
  lemma ProductCurated<A, B>(xs: seq<A>, ys: seq<B>, f: (A, B) -> TagSet, n: nat)
    requires forall x, y :: x in xs && y in ys ==> Curated(f(x, y), n)
    ensures forall q :: q in Product(xs, ys, f) ==> Curated(q, n)
  {
    forall q | q in Product(xs, ys, f)
      ensures Curated(q, n)
    {
      ProductMembers(xs, ys, f, q);
    }
  }

  lemma Product3Curated<A, B, C>(xs: seq<A>, ys: seq<B>, zs: seq<C>, f: (A, B, C) -> TagSet, n: nat)
    requires forall x, y, z :: x in xs && y in ys && z in zs ==> Curated(f(x, y, z), n)
    ensures forall q :: q in Product3(xs, ys, zs, f) ==> Curated(q, n)
  {
    forall q | q in Product3(xs, ys, zs, f)
      ensures Curated(q, n)
    {
      Product3Members(xs, ys, zs, f, q);
    }
  }


  function ColorParityTags(c: Color, p: Parity): TagSet { TagSet(Some(c), Some(p), None, None, None, None) }
  function ColorDozenTags(c: Color, d: Dozen): TagSet { TagSet(Some(c), None, None, Some(d), None, None) }
  function ColorColumnTags(c: Color, k: Column): TagSet { TagSet(Some(c), None, None, None, Some(k), None) }
  function ParityDozenTags(p: Parity, d: Dozen): TagSet { TagSet(None, Some(p), None, Some(d), None, None) }
  function ParityColumnTags(p: Parity, k: Column): TagSet { TagSet(None, Some(p), None, None, Some(k), None) }
  function RangeColumnTags(r: Range, k: Column): TagSet { TagSet(None, None, Some(r), None, Some(k), None) }
  function ColorStreetTags(c: Color, s: Street): TagSet { TagSet(Some(c), None, None, None, None, Some(s)) }
  function ParityStreetTags(p: Parity, s: Street): TagSet { TagSet(None, Some(p), None, None, None, Some(s)) }
  function ColorParityColumnTags(c: Color, p: Parity, k: Column): TagSet { TagSet(Some(c), Some(p), None, None, Some(k), None) }
  function ColorParityDozenTags(c: Color, p: Parity, d: Dozen): TagSet { TagSet(Some(c), Some(p), None, Some(d), None, None) }
  function ColorParityRangeTags(c: Color, p: Parity, r: Range): TagSet { TagSet(Some(c), Some(p), Some(r), None, None, None) }
  function ParityRangeColumnTags(p: Parity, r: Range, k: Column): TagSet { TagSet(None, Some(p), Some(r), None, Some(k), None) }

  /** Every street in the vocabulary is one of "1st Street" .. "12th Street". */
  predicate StreetsListed(v: Vocabulary)
  {
    forall s :: s in v.streets ==> s.StreetNo? && 1 <= s.ordinal <= 12
  }

  /** The single-tag queries: one tag each, and never a street on its own. */
  function SinglesOf(v: Vocabulary): (r: seq<TagSet>)
    ensures forall q :: q in r ==> Curated(q, 1) && q.street.None?
  {
    Map(v.colors, ColorOnly) + Map(v.parities, ParityOnly) + Map(v.ranges, RangeOnly)
    + Map(v.dozens, DozenOnly) + Map(v.columns, ColumnOnly)
  }

  /** The eight two-tag families, in loop order. */
  function PairsOf(v: Vocabulary): (r: seq<TagSet>)
    ensures StreetsListed(v) ==> forall q :: q in r ==> Curated(q, 2)
  {
    ProductCurated(v.colors, v.parities, ColorParityTags, 2);
    ProductCurated(v.colors, v.dozens, ColorDozenTags, 2);
    ProductCurated(v.colors, v.columns, ColorColumnTags, 2);
    ProductCurated(v.parities, v.dozens, ParityDozenTags, 2);
    ProductCurated(v.parities, v.columns, ParityColumnTags, 2);
    ProductCurated(v.ranges, v.columns, RangeColumnTags, 2);
    if StreetsListed(v) then
      ProductCurated(v.colors, v.streets, ColorStreetTags, 2);
      ProductCurated(v.parities, v.streets, ParityStreetTags, 2);
      PairsBody(v)
    else PairsBody(v)
  }

  function PairsBody(v: Vocabulary): seq<TagSet>
  {
    Product(v.colors, v.parities, ColorParityTags)
    + Product(v.colors, v.dozens, ColorDozenTags)
    + Product(v.colors, v.columns, ColorColumnTags)
    + Product(v.parities, v.dozens, ParityDozenTags)
    + Product(v.parities, v.columns, ParityColumnTags)
    + Product(v.ranges, v.columns, RangeColumnTags)
    + Product(v.colors, v.streets, ColorStreetTags)
    + Product(v.parities, v.streets, ParityStreetTags)
  }

  /** The four three-tag families, in loop order. */
  function TriplesOf(v: Vocabulary): (r: seq<TagSet>)
    ensures forall q :: q in r ==> Curated(q, 3)
  {
    Product3Curated(v.colors, v.parities, v.columns, ColorParityColumnTags, 3);
    Product3Curated(v.colors, v.parities, v.dozens, ColorParityDozenTags, 3);
    Product3Curated(v.colors, v.parities, v.ranges, ColorParityRangeTags, 3);
    Product3Curated(v.parities, v.ranges, v.columns, ParityRangeColumnTags, 3);
    Product3(v.colors, v.parities, v.columns, ColorParityColumnTags)
    + Product3(v.colors, v.parities, v.dozens, ColorParityDozenTags)
    + Product3(v.colors, v.parities, v.ranges, ColorParityRangeTags)
    + Product3(v.parities, v.ranges, v.columns, ParityRangeColumnTags)
  }

  /**
   * Every tag combination a generator tries, in the order it tries them:
   * the singles, then the pairs, then the triples.
   */
  function QueriesOf(v: Vocabulary): (r: seq<TagSet>)
    ensures StreetsListed(v) ==> forall q :: q in r ==> Curated(q, 1) || Curated(q, 2) || Curated(q, 3)
  {
    SinglesOf(v) + PairsOf(v) + TriplesOf(v)
  }

  /** The source's lists name only the twelve listed streets. */
  lemma StandardStreetsListed()
    ensures StreetsListed(Standard())
  {
  }
}
