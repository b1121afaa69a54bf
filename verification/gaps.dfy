/**
 * Gap analysis over a hit/miss history (1 = hit, anything else = miss):
 * reference definitions of lastSeenAgo and longestGap, and the backward
 * scan that computes them.
 */
module Gaps {
  import opened Seqs

  predicate IsHit(b: int)
  {
    b == 1
  }

  /** mapHistoryToBinary: 1 where the spin is one of the entity's numbers, 0 elsewhere. */
  function MapHistoryToBinary(spins: seq<int>, numbers: seq<int>): (r: seq<int>)
    ensures |r| == |spins|
    ensures forall i :: 0 <= i < |r| ==> (IsHit(r[i]) <==> spins[i] in numbers) && (r[i] == 0 || r[i] == 1)
  {
    Map(spins, (x: int) => if x in numbers then 1 else 0)
  }

  /** Mapping distributes over concatenation of histories. */
  lemma MapHistoryAppend(h1: seq<int>, h2: seq<int>, numbers: seq<int>)
    ensures MapHistoryToBinary(h1 + h2, numbers) == MapHistoryToBinary(h1, numbers) + MapHistoryToBinary(h2, numbers)
  {
    MapAppend(h1, h2, (x: int) => if x in numbers then 1 else 0);
  }

  /** Every entry of b[lo..hi] is a miss. */
  ghost predicate AllMisses(b: seq<int>, lo: int, hi: int)
  {
    0 <= lo <= hi <= |b| && forall i :: lo <= i < hi ==> !IsHit(b[i])
  }

  /** The number of misses at the front of b. */
  function LeadingMisses(b: seq<int>): (r: nat)
    ensures r <= |b|
  {
    if b == [] || IsHit(b[0]) then 0 else 1 + LeadingMisses(b[1..])
  }

  /** The number of misses at the end of b: spins since the last hit. */
  function TrailingMisses(b: seq<int>): (r: nat)
    ensures r <= |b|
  {
    if b == [] || IsHit(b[|b| - 1]) then 0 else 1 + TrailingMisses(b[..|b| - 1])
  }

  /** The longest run of misses: the best run starting at each position. */
  function LongestGap(b: seq<int>): (r: nat)
    ensures r <= |b|
  {
    if b == [] then 0
    else
      var rest := LongestGap(b[1..]);
      var here := LeadingMisses(b);
      if here > rest then here else rest
  }

  lemma {:induction false} LeadingMissesSpec(b: seq<int>)
    ensures AllMisses(b, 0, LeadingMisses(b))
    ensures LeadingMisses(b) < |b| ==> IsHit(b[LeadingMisses(b)])
  {
    if b != [] && !IsHit(b[0]) {
      LeadingMissesSpec(b[1..]);
      forall i | 1 <= i < LeadingMisses(b)
        ensures !IsHit(b[i])
      {
        assert b[i] == b[1..][i - 1];
      }
    }
  }

  /**
   * lastSeenAgo: the trailing misses are misses, and unless the whole
   * history is misses the entry just before them is the most recent hit.
   */
  lemma {:induction false} TrailingMissesSpec(b: seq<int>)
    ensures AllMisses(b, |b| - TrailingMisses(b), |b|)
    ensures TrailingMisses(b) < |b| ==> IsHit(b[|b| - 1 - TrailingMisses(b)])
  {
    if b != [] && !IsHit(b[|b| - 1]) {
      var p := b[..|b| - 1];
      TrailingMissesSpec(p);
      forall i | |b| - TrailingMisses(b) <= i < |b|
        ensures !IsHit(b[i])
      {
        if i < |b| - 1 {
          assert b[i] == p[i];
        }
      }
      if TrailingMisses(b) < |b| {
        assert b[|b| - 1 - TrailingMisses(b)] == p[|p| - 1 - TrailingMisses(p)];
      }
    }
  }

  /** A run of misses starting at position lo is no longer than the leading misses of b[lo..]. */
  lemma {:induction false} RunBoundedByLeading(b: seq<int>, lo: int, hi: int)
    requires AllMisses(b, lo, hi)
    ensures hi - lo <= LeadingMisses(b[lo..])
    decreases hi - lo
  {
    if lo < hi {
      assert b[lo..][0] == b[lo];
      assert b[lo..][1..] == b[lo + 1..];
      RunBoundedByLeading(b, lo + 1, hi);
    }
  }

  /** No run of misses is longer than LongestGap. */
  lemma {:induction false} LongestGapIsUpperBound(b: seq<int>, lo: int, hi: int)
    requires AllMisses(b, lo, hi)
    ensures hi - lo <= LongestGap(b)
  {
    if lo == hi {
    } else if lo == 0 {
      RunBoundedByLeading(b, 0, hi);
      assert b[0..] == b;
    } else {
      assert AllMisses(b[1..], lo - 1, hi - 1) by {
        forall i | lo - 1 <= i < hi - 1
          ensures !IsHit(b[1..][i])
        {
          assert b[1..][i] == b[i + 1];
        }
      }
      LongestGapIsUpperBound(b[1..], lo - 1, hi - 1);
    }
  }

  /** Some run of misses is exactly LongestGap long; lo is where it starts. */
  lemma {:induction false} LongestGapIsAttained(b: seq<int>) returns (lo: nat)
    ensures lo + LongestGap(b) <= |b|
    ensures AllMisses(b, lo, lo + LongestGap(b))
  {
    if b == [] {
      lo := 0;
    } else if LeadingMisses(b) > LongestGap(b[1..]) {
      LeadingMissesSpec(b);
      lo := 0;
    } else {
      var k := LongestGapIsAttained(b[1..]);
      lo := k + 1;
      forall i | lo <= i < lo + LongestGap(b)
        ensures !IsHit(b[i])
      {
        assert b[i] == b[1..][i - 1];
      }
    }
  }

  /** lastSeenAgo <= longestGap <= length. */
  lemma TrailingWithinLongest(b: seq<int>)
    ensures TrailingMisses(b) <= LongestGap(b) <= |b|
  {
    TrailingMissesSpec(b);
    LongestGapIsUpperBound(b, |b| - TrailingMisses(b), |b|);
  }

  /** Appending a hit resets lastSeenAgo to 0; appending a miss adds one. */
  lemma TrailingAppend(b: seq<int>, x: int)
    ensures TrailingMisses(b + [x]) == if IsHit(x) then 0 else TrailingMisses(b) + 1
  {
    assert (b + [x])[..|b|] == b;
  }

  /** With no hit at all, lastSeenAgo is the length and so is longestGap. */
  lemma {:induction false} NoHits(b: seq<int>)
    requires AllMisses(b, 0, |b|)
    ensures TrailingMisses(b) == |b| && LongestGap(b) == |b|
  {
    if b != [] {
      var p := b[..|b| - 1];
      assert AllMisses(p, 0, |p|) by {
        forall i | 0 <= i < |p|
          ensures !IsHit(p[i])
        {
          assert p[i] == b[i];
        }
      }
      NoHits(p);
    }
    TrailingWithinLongest(b);
  }

  /** LongestGap of a hit followed by s: the hit adds no run. */
  lemma PrependHit(x: int, s: seq<int>)
    requires IsHit(x)
    ensures LongestGap([x] + s) == LongestGap(s)
    ensures LeadingMisses([x] + s) == 0
  {
    assert ([x] + s)[1..] == s;
  }

  lemma PrependMiss(x: int, s: seq<int>)
    requires !IsHit(x)
    ensures LeadingMisses([x] + s) == LeadingMisses(s) + 1
    ensures LongestGap([x] + s) == if LeadingMisses(s) + 1 > LongestGap(s) then LeadingMisses(s) + 1 else LongestGap(s)
  {
    assert ([x] + s)[1..] == s;
  }

  /** A hit at i with only misses after it: lastSeenAgo is |b| - 1 - i. */
  lemma {:induction false} LastHitAt(b: seq<int>, i: int)
    requires 0 <= i < |b| && IsHit(b[i]) && AllMisses(b, i + 1, |b|)
    ensures TrailingMisses(b) == |b| - 1 - i
  {
    if i < |b| - 1 {
      var p := b[..|b| - 1];
      assert !IsHit(b[|b| - 1]);
      assert p[i] == b[i];
      assert AllMisses(p, i + 1, |p|) by {
        forall j | i + 1 <= j < |p|
          ensures !IsHit(p[j])
        {
          assert p[j] == b[j];
        }
      }
      LastHitAt(p, i);
    }
  }

  /**
   * analyzeGaps: the backward scan. It returns lastSeenAgo and longestGap
   * as the reference definitions give them.
   */
  method AnalyzeGaps(b: seq<int>) returns (lastSeenAgo: int, longestGap: int)
    ensures lastSeenAgo == TrailingMisses(b)
    ensures longestGap == LongestGap(b)
  {
    lastSeenAgo := -1;
    longestGap := 0;
    var currentGap := 0;
    var i := |b|;
    while i > 0
      invariant 0 <= i <= |b|
      invariant currentGap == LeadingMisses(b[i..])
      invariant 0 <= longestGap <= LongestGap(b[i..])
      invariant (if currentGap > longestGap then currentGap else longestGap) == LongestGap(b[i..])
      invariant lastSeenAgo == -1 <==> AllMisses(b, i, |b|)
      invariant lastSeenAgo != -1 ==> lastSeenAgo == TrailingMisses(b)
    {
      i := i - 1;
      assert b[i..] == [b[i]] + b[i + 1..];
      if b[i] == 1 {
        PrependHit(b[i], b[i + 1..]);
        longestGap := if currentGap > longestGap then currentGap else longestGap;
        if lastSeenAgo == -1 {
          LastHitAt(b, i);
          lastSeenAgo := |b| - 1 - i;
        }
        currentGap := 0;
      } else {
        PrependMiss(b[i], b[i + 1..]);
        currentGap := currentGap + 1;
      }
    }
    assert b[0..] == b;
    longestGap := if currentGap > longestGap then currentGap else longestGap;
    if lastSeenAgo == -1 {
      NoHits(b);
      lastSeenAgo := |b|;
    }
  }
}
