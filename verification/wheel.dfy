/**
 * The European wheel order and the seven-number neighbourhood of a number
 * on it.
 */
module Wheel {
  import opened Seqs

  /** The pockets clockwise from 0. */
  const WheelSequence: seq<int> := [
    0, 32, 15, 19, 4, 21, 2, 25, 17, 34, 6, 27, 13, 36, 11, 30, 8, 23, 10, 5, 24, 16, 33, 1, 20,
    14, 31, 9, 22, 18, 29, 7, 28, 12, 35, 3, 26]

  /** Where each number sits on the wheel: the inverse of WheelSequence. */
  const Position: seq<int> := [
    0, 23, 6, 35, 4, 19, 10, 31, 16, 27, 18, 14, 33, 12, 25, 2, 21, 8, 29, 3, 24, 5, 28, 17, 20,
    7, 36, 11, 32, 30, 15, 26, 1, 22, 9, 34, 13]

  const WheelSize: nat := 37

  /** Position undoes WheelSequence, and the other way round. */
  lemma PositionInverts()
    ensures |WheelSequence| == WheelSize && |Position| == WheelSize
    ensures forall i :: 0 <= i < WheelSize ==> 0 <= WheelSequence[i] < WheelSize && Position[WheelSequence[i]] == i
    ensures forall n :: 0 <= n < WheelSize ==> 0 <= Position[n] < WheelSize && WheelSequence[Position[n]] == n
  {
    PositionUndoesWheel();
    WheelUndoesPosition();
  }

  lemma PositionUndoesWheel()
    ensures |WheelSequence| == 37 && |Position| == 37
    ensures forall i :: 0 <= i < 37 ==> 0 <= WheelSequence[i] < 37 && Position[WheelSequence[i]] == i
  {
  }

  lemma WheelUndoesPosition()
    ensures |WheelSequence| == 37 && |Position| == 37
    ensures forall n :: 0 <= n < 37 ==> 0 <= Position[n] < 37 && WheelSequence[Position[n]] == n
  {
  }

  /** A wheel: the 37 numbers 0..36, each once. */
  ghost predicate IsWheel(w: seq<int>)
  {
    |w| == WheelSize && Distinct(w) && forall n :: n in w <==> 0 <= n <= 36
  }

  /** The wheel order is a permutation of 0..36. */
  lemma WheelIsPermutation()
    ensures IsWheel(WheelSequence)
  {
    PositionInverts();
    forall n | 0 <= n <= 36
      ensures n in WheelSequence
    {
      assert WheelSequence[Position[n]] == n;
    }
  }

  /** indexOf: the first position holding n, or -1. */
  function IndexOf(s: seq<int>, n: int): (r: int)
    ensures -1 <= r < |s|
    ensures r == -1 <==> n !in s
    ensures r >= 0 ==> s[r] == n && n !in s[..r]
  {
    if s == [] then -1
    else if s[0] == n then 0
    else
      var k := IndexOf(s[1..], n);
      if k == -1 then -1
      else
        assert s[..k + 1] == [s[0]] + s[1..][..k];
        k + 1
  }

  /** On the wheel, indexOf finds the number's position. */
  lemma IndexOfWheel(n: int)
    requires 0 <= n <= 36
    ensures IndexOf(WheelSequence, n) == Position[n]
  {
    WheelIsPermutation();
    PositionInverts();
    var k := IndexOf(WheelSequence, n);
    assert WheelSequence[k] == n == WheelSequence[Position[n]];
  }

  /** The seven pockets around position index of wheel w, the middle one given as n. */
  function NeighborsAt(w: seq<int>, index: int, n: int): (r: seq<int>)
    requires |w| > 0
    ensures |r| == 7 && r[3] == n
  {
    var len := |w|;
    [w[(index - 3 + len) % len], w[(index - 2 + len) % len], w[(index - 1 + len) % len],
     n,
     w[(index + 1) % len], w[(index + 2) % len], w[(index + 3) % len]]
  }

  /**
   * getNeighbors on wheel w: three pockets counter-clockwise, the number,
   * three pockets clockwise; nothing for a number not on the wheel.
   */
  function NeighborsOn(w: seq<int>, n: int): (r: seq<int>)
    ensures n !in w ==> r == []
    ensures n in w ==> |r| == 7 && r[3] == n
  {
    var index := IndexOf(w, n);
    if index == -1 then [] else NeighborsAt(w, index, n)
  }

  /** getNeighbors on the European wheel. */
  function GetNeighbors(n: int): seq<int>
  {
    NeighborsOn(WheelSequence, n)
  }

  /** Positions less than a full turn apart wrap to different pockets. */
  lemma WrapDistinct(x: int, y: int)
    requires 0 < y - x < 37
    ensures x % 37 != y % 37
  {
    var qx, qy := x / 37, y / 37;
    assert x == qx * 37 + x % 37;
    assert y == qy * 37 + y % 37;
  }

  /** A number on a wheel is found by indexOf at its pocket. */
  lemma FoundOnWheel(w: seq<int>, n: int)
    requires IsWheel(w) && 0 <= n <= 36
    ensures 0 <= IndexOf(w, n) < 37 && w[IndexOf(w, n)] == n
  {
    assert n in w;
  }

  /**
   * For a number on a wheel, element k of the neighbourhood is the pocket
   * k - 3 places clockwise of it, wrapping round.
   */
  lemma NeighborsAreCyclic(w: seq<int>, n: int)
    requires |w| == 37 && n in w
    ensures |NeighborsOn(w, n)| == 7
    ensures forall k :: 0 <= k < 7 ==> NeighborsOn(w, n)[k] == w[(IndexOf(w, n) + k - 3) % 37]
    ensures w[IndexOf(w, n)] == n
  {
    NeighborsOnCyclic(w, n, IndexOf(w, n));
  }

  /** The neighbourhood of n when indexOf finds it at pocket p. */
  lemma NeighborsOnCyclic(w: seq<int>, n: int, p: int)
    requires |w| == 37 && 0 <= p < 37 && IndexOf(w, n) == p && w[p] == n
    ensures |NeighborsOn(w, n)| == 7
    ensures forall k :: 0 <= k < 7 ==> NeighborsOn(w, n)[k] == w[(p + k - 3) % 37]
  {
    assert NeighborsOn(w, n) == NeighborsAt(w, p, n);
    NeighborsAtCyclic(w, p, n);
  }

  /** The neighbourhood around pocket p, stated position by position. */
  lemma NeighborsAtCyclic(w: seq<int>, p: int, n: int)
    requires |w| == 37 && 0 <= p < 37 && w[p] == n
    ensures forall k :: 0 <= k < 7 ==> NeighborsAt(w, p, n)[k] == w[(p + k - 3) % 37]
  {
    var r := NeighborsAt(w, p, n);
    assert r[0] == w[(p - 3) % 37] by {
      assert (p - 3 + 37) % 37 == (p - 3) % 37;
    }
    assert r[1] == w[(p - 2) % 37] by {
      assert (p - 2 + 37) % 37 == (p - 2) % 37;
    }
    assert r[2] == w[(p - 1) % 37] by {
      assert (p - 1 + 37) % 37 == (p - 1) % 37;
    }
    assert r[3] == w[p % 37];
  }

  /** The seven neighbours on a wheel are seven different numbers. */
  lemma NeighborsDistinct(w: seq<int>, n: int)
    requires IsWheel(w) && 0 <= n <= 36
    ensures Distinct(NeighborsOn(w, n))
  {
    FoundOnWheel(w, n);
    NeighborsAtDistinct(w, IndexOf(w, n), n);
  }

  lemma NeighborsAtDistinct(w: seq<int>, p: int, n: int)
    requires |w| == 37 && Distinct(w) && 0 <= p < 37 && w[p] == n
    ensures Distinct(NeighborsAt(w, p, n))
  {
    NeighborsAtCyclic(w, p, n);
    var r := NeighborsAt(w, p, n);
    forall i, j | 0 <= i < j < 7
      ensures r[i] != r[j]
    {
      var a, b := (p + i - 3) % 37, (p + j - 3) % 37;
      WrapDistinct(p + i - 3, p + j - 3);
      assert r[i] == w[a] && r[j] == w[b];
      if a < b {
        assert w[a] != w[b];
      } else {
        assert w[b] != w[a];
      }
    }
  }

  /** Off the wheel there are no neighbours. */
  lemma NoNeighborsOffWheel(w: seq<int>, n: int)
    requires IsWheel(w) && !(0 <= n <= 36)
    ensures NeighborsOn(w, n) == []
  {
  }

  /** On the European wheel: seven distinct numbers for 0..36, none otherwise. */
  lemma EuropeanNeighbors(n: int)
    ensures 0 <= n <= 36 ==> |GetNeighbors(n)| == 7 && GetNeighbors(n)[3] == n && Distinct(GetNeighbors(n))
    ensures !(0 <= n <= 36) ==> GetNeighbors(n) == []
  {
    WheelIsPermutation();
    if 0 <= n <= 36 {
      NeighborsDistinct(WheelSequence, n);
    }
  }
}
