/**
 * The auto-threshold rule: once the active view holds 30 spins, an
 * eligible tracker's threshold rises to its longest gap whenever that gap
 * is larger.
 */
module AutoThreshold {
  import opened Wrappers
  import opened Seqs
  import opened Gaps
  import opened Trackers
  import Session

  const MinSpinsForAutoThreshold: nat := 30

  /** Eligible unless the flag is explicitly false; an absent flag counts as on. */
  predicate Eligible(t: Tracker)
  {
    t.useAutoThreshold != Some(false)
  }

  function TrackerLongestGap(history: seq<int>, t: Tracker): nat
  {
    LongestGap(MapHistoryToBinary(history, t.numbers))
  }

  /** Whether the rule raises t's threshold on this history. */
  predicate Raises(history: seq<int>, t: Tracker)
  {
    Eligible(t) && TrackerLongestGap(history, t) > t.threshold && TrackerLongestGap(history, t) > 0
  }

  function ThresholdUpdate(gap: int): TrackerUpdate
  {
    TrackerUpdate(None, None, None, Some(gap), None)
  }

  /** One iteration of the forEach: an updateTracker call by id when the rule fires. */
  function AutoStep(current: seq<Tracker>, t: Tracker, history: seq<int>): seq<Tracker>
  {
    if Raises(history, t) then UpdateList(current, t.id, ThresholdUpdate(TrackerLongestGap(history, t))) else current
  }

  /** The forEach over the snapshot, from position k on, applied to the live list. */
  function AutoFrom(current: seq<Tracker>, snapshot: seq<Tracker>, k: nat, history: seq<int>): seq<Tracker>
    decreases |snapshot| - k
  {
    if k >= |snapshot| then current
    else AutoFrom(AutoStep(current, snapshot[k], history), snapshot, k + 1, history)
  }

  /** The effect, as written, on the trackers, given the session's history and pointer. */
  function ApplyAutoThreshold(trackers: seq<Tracker>, s: Session.Session): (r: seq<Tracker>)
    ensures |Session.ActiveView(s)| < MinSpinsForAutoThreshold ==> r == trackers
  {
    var view := Session.ActiveView(s);
    if |view| < MinSpinsForAutoThreshold then trackers else AutoFrom(trackers, trackers, 0, view)
  }

  /** The reference rule, tracker by tracker. */
  function Raise(history: seq<int>, t: Tracker): (r: Tracker)
    ensures r.id == t.id && r.name == t.name && r.numbers == t.numbers && r.useAutoThreshold == t.useAutoThreshold
    ensures r.threshold >= t.threshold
    ensures r.threshold != t.threshold ==> Eligible(t) && r.threshold == TrackerLongestGap(history, t) > 0
  {
    if Raises(history, t) then t.(threshold := TrackerLongestGap(history, t)) else t
  }

  function RaiseAll(ts: seq<Tracker>, history: seq<int>): (r: seq<Tracker>)
    ensures |r| == |ts| && forall i :: 0 <= i < |ts| ==> r[i] == Raise(history, ts[i])
  {
    Map(ts, (t: Tracker) => Raise(history, t))
  }

  /** A raised threshold is the longest gap, so the rule does not fire again on the same history. */
  lemma RaiseIdempotent(history: seq<int>, t: Tracker)
    ensures Raise(history, Raise(history, t)) == Raise(history, t)
  {
  }

  /**
   * With distinct ids the updates by id touch only the tracker they come
   * from: the positions before k are already raised, the rest untouched.
   */
  lemma {:induction false} AutoFromPointwise(current: seq<Tracker>, snapshot: seq<Tracker>, k: nat, history: seq<int>)
    requires DistinctIds(snapshot) && k <= |snapshot| && |current| == |snapshot|
    requires forall i :: 0 <= i < |snapshot| ==> current[i] == if i < k then Raise(history, snapshot[i]) else snapshot[i]
    ensures AutoFrom(current, snapshot, k, history) == RaiseAll(snapshot, history)
    decreases |snapshot| - k
  {
    if k < |snapshot| {
      var t := snapshot[k];
      var next := AutoStep(current, t, history);
      forall i | 0 <= i < |snapshot|
        ensures next[i] == if i < k + 1 then Raise(history, snapshot[i]) else snapshot[i]
      {
        if i != k {
          assert current[i].id == snapshot[i].id != t.id;
        }
      }
      AutoFromPointwise(next, snapshot, k + 1, history);
    } else {
      assert current == RaiseAll(snapshot, history);
    }
  }

  /** With distinct ids, the rule as written is the reference rule on the active view. */
  lemma ApplyIsRaiseAll(trackers: seq<Tracker>, s: Session.Session)
    requires DistinctIds(trackers)
    ensures ApplyAutoThreshold(trackers, s)
         == if |Session.ActiveView(s)| < MinSpinsForAutoThreshold then trackers else RaiseAll(trackers, Session.ActiveView(s))
  {
    if |Session.ActiveView(s)| >= MinSpinsForAutoThreshold {
      AutoFromPointwise(trackers, trackers, 0, Session.ActiveView(s));
    }
  }

  /**
   * With distinct ids: thresholds never go down, only eligible trackers'
   * thresholds move, nothing else about a tracker changes, and applying
   * the rule twice equals applying it once.
   */
  lemma AutoThresholdProperties(trackers: seq<Tracker>, s: Session.Session)
    requires DistinctIds(trackers)
    ensures var r := ApplyAutoThreshold(trackers, s);
      && |r| == |trackers|
      && (forall i :: 0 <= i < |r| ==> r[i].threshold >= trackers[i].threshold)
      && (forall i :: 0 <= i < |r| ==> r[i].threshold != trackers[i].threshold ==> Eligible(trackers[i]))
      && (forall i :: 0 <= i < |r| ==> r[i].(threshold := 0) == trackers[i].(threshold := 0))
      && ApplyAutoThreshold(r, s) == r
  {
    ApplyIsRaiseAll(trackers, s);
    var r := ApplyAutoThreshold(trackers, s);
    assert DistinctIds(r) by {
      forall i, j | 0 <= i < j < |r|
        ensures r[i].id != r[j].id
      {
        if |Session.ActiveView(s)| >= MinSpinsForAutoThreshold {
          assert r[i].id == trackers[i].id && r[j].id == trackers[j].id;
        }
      }
    }
    ApplyIsRaiseAll(r, s);
    if |Session.ActiveView(s)| >= MinSpinsForAutoThreshold {
      var h := Session.ActiveView(s);
      forall i | 0 <= i < |r|
        ensures RaiseAll(r, h)[i] == r[i]
      {
        RaiseIdempotent(h, trackers[i]);
      }
    }
  }
}
