/**
 * The tracker grid: the add-tracker form's validation and the order the
 * tracker cards are shown in.
 */
module TrackerGrid {
  import opened Wrappers
  import opened Sorting
  import opened Gaps
  import Text
  import GapAnalysis
  import opened Trackers
  import AutoThreshold
  import Session

  /**
   * handleAddTracker: adds a tracker when the trimmed name and numbers are
   * non-empty and the numbers text parses to at least one value in 0..36.
   * The boolean says whether a tracker was added.
   */
  function HandleAddTracker(st: TrackerState, nameInput: string, numbersInput: string, threshold: int,
                            parse: string -> Option<int>, id: string): (r: (TrackerState, bool))
    ensures !r.1 ==> r.0 == st
    ensures r.1 ==> Text.Trim(nameInput) != [] && Text.Trim(numbersInput) != []
    ensures r.1 ==> |r.0.trackers| == |st.trackers| + 1
    ensures r.1 ==>
      var t := r.0.trackers[|st.trackers|];
      && r.0 == AddTracker(st, TrackerInput(Text.Trim(nameInput), t.numbers, threshold, None), id)
      && t.numbers == GapAnalysis.ParseNumbers(numbersInput, parse) && |t.numbers| > 0
      && (forall i :: 0 <= i < |t.numbers| ==> 0 <= t.numbers[i] <= 36)
      && AutoThreshold.Eligible(t)
  {
    if Text.Trim(nameInput) != [] && Text.Trim(numbersInput) != [] then
      var numbers := GapAnalysis.ParseNumbers(numbersInput, parse);
      if |numbers| > 0 then
        (AddTracker(st, TrackerInput(Text.Trim(nameInput), numbers, threshold, None), id), true)
      else (st, false)
    else (st, false)
  }

  /** A tracker is added exactly when both fields are filled in and a value in 0..36 parses. */
  lemma HandleAddTrackerAdds(st: TrackerState, nameInput: string, numbersInput: string, threshold: int,
                             parse: string -> Option<int>, id: string)
    ensures HandleAddTracker(st, nameInput, numbersInput, threshold, parse, id).1
        <==> Text.Trim(nameInput) != [] && Text.Trim(numbersInput) != []
             && GapAnalysis.ParseNumbers(numbersInput, parse) != []
  {
  }

  function SpinsSinceHit(history: seq<int>, t: Tracker): nat
  {
    TrailingMisses(MapHistoryToBinary(history, t.numbers))
  }

  /** The tracker is in its longest gap right now. */
  predicate InLongestGap(history: seq<int>, t: Tracker)
  {
    SpinsSinceHit(history, t) == LongestGap(MapHistoryToBinary(history, t.numbers))
  }

  function GridKey(history: seq<int>, t: Tracker): Key
  {
    Key(if InLongestGap(history, t) then 0 else 1, -(SpinsSinceHit(history, t) as int))
  }

  /** The cards' order, computed on the whole stored history rather than the active view. */
  function SortedTrackers(trackers: seq<Tracker>, s: Session.Session): (r: seq<Tracker>)
    ensures multiset(r) == multiset(trackers)
  {
    SortBy(trackers, (t: Tracker) => GridKey(s.spinHistory, t))
  }

  /**
   * Trackers in their longest gap come first, and within each group the
   * spins since the last hit do not increase.
   */
  lemma SortedTrackersOrder(trackers: seq<Tracker>, s: Session.Session)
    ensures var r := SortedTrackers(trackers, s);
      var h := s.spinHistory;
      forall i, j :: 0 <= i < j < |r| ==>
        && (InLongestGap(h, r[j]) ==> InLongestGap(h, r[i]))
        && (InLongestGap(h, r[i]) == InLongestGap(h, r[j]) ==> SpinsSinceHit(h, r[i]) >= SpinsSinceHit(h, r[j]))
  {
    SortBySorted(trackers, (t: Tracker) => GridKey(s.spinHistory, t));
  }
}
