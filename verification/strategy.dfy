/**
 * The strategy intersection panel: trackers past their threshold on the
 * active view, and the numbers that four or more of them share.
 */
module Strategy {
  import opened Seqs
  import opened Sorting
  import opened Gaps
  import opened Tally
  import opened Trackers
  import Session

  const MinCommonCount: nat := 4

  function SpinsSinceHit(history: seq<int>, t: Tracker): nat
  {
    TrailingMisses(MapHistoryToBinary(history, t.numbers))
  }

  /** Triggered: strictly more spins since the last hit than the threshold. */
  predicate Triggered(history: seq<int>, t: Tracker)
  {
    SpinsSinceHit(history, t) > t.threshold
  }

  /** The triggered trackers, in tracker order, judged on the active view. */
  function TriggeredStrategies(trackers: seq<Tracker>, s: Session.Session): (r: seq<Tracker>)
    ensures forall t :: t in r <==> t in trackers && SpinsSinceHit(Session.ActiveView(s), t) > t.threshold
  {
    Filter(trackers, (t: Tracker) => Triggered(Session.ActiveView(s), t))
  }

  function TriggeredLists(trackers: seq<Tracker>, s: Session.Session): seq<seq<int>>
  {
    Map(TriggeredStrategies(trackers, s), (t: Tracker) => t.numbers)
  }

  /** Count descending; equal counts keep the count map's order. */
  function CommonKey(c: NumberCount): Key
  {
    Key(-(c.count as int), 0)
  }

  /** commonNumbers: whatever the number of triggered trackers. */
  function CommonNumbers(trackers: seq<Tracker>, s: Session.Session): seq<NumberCount>
  {
    Ranked(TriggeredLists(trackers, s), MinCommonCount, CommonKey)
  }

  /**
   * Each listed count is the number's occurrences across the triggered
   * trackers' lists, duplicates included, and at least 4; every number
   * reaching 4 is listed, none twice, by count descending.
   */
  lemma CommonNumbersSpec(trackers: seq<Tracker>, s: Session.Session, x: int)
    ensures var r := CommonNumbers(trackers, s);
      && (forall c :: c in r ==> c.count == Occurrences(TriggeredLists(trackers, s), c.number) >= MinCommonCount)
      && (Occurrences(TriggeredLists(trackers, s), x) >= MinCommonCount ==> x in NumbersOf(r))
      && Distinct(NumbersOf(r))
      && (forall i, j :: 0 <= i < j < |r| ==> r[i].count >= r[j].count)
  {
    RankedSpec(TriggeredLists(trackers, s), MinCommonCount, CommonKey);
    if Occurrences(TriggeredLists(trackers, s), x) >= MinCommonCount {
      RankedComplete(TriggeredLists(trackers, s), MinCommonCount, CommonKey, x);
    }
  }

  /** Duplicates inside one list count separately, so a single triggered tracker can be enough. */
  lemma OneListCanQualify(numbers: seq<int>, x: int)
    requires multiset(numbers)[x] >= MinCommonCount
    ensures x in NumbersOf(Ranked([numbers], MinCommonCount, CommonKey))
  {
    assert Occurrences([numbers], x) == multiset(numbers)[x] + Occurrences([numbers][1..], x);
    assert [numbers][1..] == [];
    RankedComplete([numbers], MinCommonCount, CommonKey, x);
  }
}
