/**
 * The direct gap calculators used by the tracker cards, and the parser of
 * comma-separated number lists.
 */
module GapAnalysis {
  import opened Wrappers
  import opened Seqs
  import Text
  import opened Gaps

  /** calculateSpinsSinceHit: scans from the newest spin and stops at the first member. */
  method CalculateSpinsSinceHit(history: seq<int>, target: seq<int>) returns (r: int)
    ensures r == TrailingMisses(MapHistoryToBinary(history, target))
    ensures history == [] ==> r == 0
  {
    ghost var b := MapHistoryToBinary(history, target);
    if |history| == 0 {
      return 0;
    }
    var i := |history| - 1;
    while i >= 0
      invariant -1 <= i < |history|
      invariant AllMisses(b, i + 1, |b|)
    {
      if history[i] in target {
        LastHitAt(b, i);
        return |history| - 1 - i;
      }
      i := i - 1;
    }
    NoHits(b);
    return |history|;
  }

  /** calculateLongestGap: the same backward scan as analyzeGaps, without lastSeenAgo. */
  method CalculateLongestGap(history: seq<int>, target: seq<int>) returns (r: int)
    ensures r == LongestGap(MapHistoryToBinary(history, target))
    ensures history == [] ==> r == 0
  {
    ghost var b := MapHistoryToBinary(history, target);
    if |history| == 0 {
      return 0;
    }
    var longestGap := 0;
    var currentGap := 0;
    var i := |history|;
    while i > 0
      invariant 0 <= i <= |history|
      invariant currentGap == LeadingMisses(b[i..])
      invariant 0 <= longestGap <= LongestGap(b[i..])
      invariant (if currentGap > longestGap then currentGap else longestGap) == LongestGap(b[i..])
    {
      i := i - 1;
      assert b[i..] == [b[i]] + b[i + 1..];
      if history[i] in target {
        PrependHit(b[i], b[i + 1..]);
        longestGap := if longestGap > currentGap then longestGap else currentGap;
        currentGap := 0;
      } else {
        PrependMiss(b[i], b[i + 1..]);
        currentGap := currentGap + 1;
      }
    }
    assert b[0..] == b;
    longestGap := if longestGap > currentGap then longestGap else currentGap;
    return longestGap;
  }

  /** The two calculators give the engine's analyzeGaps fields on the mapped history. */
  method CalculatorsAgreeWithEngine(history: seq<int>, target: seq<int>)
    returns (spins: int, longest: int, lastSeenAgo: int, longestGap: int)
    ensures spins == lastSeenAgo && longest == longestGap
    ensures spins <= longest <= |history|
  {
    spins := CalculateSpinsSinceHit(history, target);
    longest := CalculateLongestGap(history, target);
    lastSeenAgo, longestGap := AnalyzeGaps(MapHistoryToBinary(history, target));
    TrailingWithinLongest(MapHistoryToBinary(history, target));
  }

  /** Appending a member makes spinsSinceHit 0; appending anything else adds one. */
  lemma SpinsSinceHitAppend(history: seq<int>, target: seq<int>, x: int)
    ensures TrailingMisses(MapHistoryToBinary(history + [x], target))
         == if x in target then 0 else TrailingMisses(MapHistoryToBinary(history, target)) + 1
  {
    MapHistoryAppend(history, [x], target);
    TrailingAppend(MapHistoryToBinary(history, target), MapHistoryToBinary([x], target)[0]);
    assert MapHistoryToBinary([x], target) == [MapHistoryToBinary([x], target)[0]];
  }

  /** A JavaScript number after parseInt; None stands for NaN. */
  predicate InWheelRange(n: Option<int>)
  {
    n.Some? && 0 <= n.value <= 36
  }

  /**
   * The parse-and-filter step over the comma-separated pieces. parseInt
   * is the parameter parse, applied to each trimmed piece.
   */
  function ParsePieces(pieces: seq<string>, parse: string -> Option<int>): (r: seq<int>)
    ensures |r| <= |pieces|
    ensures forall i :: 0 <= i < |r| ==> 0 <= r[i] <= 36
  {
    if pieces == [] then [] else ParsePiece(pieces[0], parse) + ParsePieces(pieces[1..], parse)
  }

  /** One trimmed piece: its value when parseInt gives a number in 0..36, else nothing. */
  function ParsePiece(p: string, parse: string -> Option<int>): (r: seq<int>)
    ensures |r| <= 1
    ensures forall i :: 0 <= i < |r| ==> 0 <= r[i] <= 36
  {
    var n := parse(Text.Trim(p));
    if InWheelRange(n) then [n.value] else []
  }

  /** parseNumbers. */
  function ParseNumbers(input: string, parse: string -> Option<int>): (r: seq<int>)
    ensures forall i :: 0 <= i < |r| ==> 0 <= r[i] <= 36
  {
    ParsePieces(Text.Split(input, ','), parse)
  }

  /**
   * Order and duplicates are kept: the parsed list of a concatenation of
   * pieces is the concatenation of the parsed lists.
   */
  lemma {:induction false} ParsePiecesAppend(a: seq<string>, b: seq<string>, parse: string -> Option<int>)
    ensures ParsePieces(a + b, parse) == ParsePieces(a, parse) + ParsePieces(b, parse)
  {
    if a != [] {
      var ab := a + b;
      var head := ParsePiece(a[0], parse);
      ConsAppend(a, b);
      assert ParsePieces(ab, parse) == head + ParsePieces(a[1..] + b, parse);
      assert ParsePieces(a, parse) == head + ParsePieces(a[1..], parse);
      ParsePiecesAppend(a[1..], b, parse);
      AppendAssociative(head, ParsePieces(a[1..], parse), ParsePieces(b, parse));
    } else {
      assert a + b == b;
    }
  }

  /** A single piece yields its value exactly when parseInt gives a number in 0..36. */
  lemma ParsePiecesSingle(p: string, parse: string -> Option<int>)
    ensures ParsePieces([p], parse) == if InWheelRange(parse(Text.Trim(p))) then [parse(Text.Trim(p)).value] else []
  {
    assert [p][1..] == [];
    assert ParsePieces([p], parse) == ParsePiece(p, parse) + [];
  }

  /** The number of times x is kept equals the number of pieces parsing to x. */
  function PiecesParsingTo(pieces: seq<string>, parse: string -> Option<int>, x: int): nat
  {
    if pieces == [] then 0
    else (if parse(Text.Trim(pieces[0])) == Some(x) then 1 else 0) + PiecesParsingTo(pieces[1..], parse, x)
  }

  lemma {:induction false} ParsePiecesCounts(pieces: seq<string>, parse: string -> Option<int>, x: int)
    ensures multiset(ParsePieces(pieces, parse))[x] == if 0 <= x <= 36 then PiecesParsingTo(pieces, parse, x) else 0
  {
    if pieces != [] {
      ParsePiecesCounts(pieces[1..], parse, x);
    }
  }
}
