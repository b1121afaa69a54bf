/**
 * The two alert panels over the entity store: the ranked list of active
 * alerts with its sound rule, and the numbers shared by three or more
 * active alerts.
 */
module Alerts {
  import opened Seqs
  import opened Sorting
  import opened Tally
  import opened EntityStore
  import opened Gaps
  import Session

  /**
   * The panel's refresh effect: once initialised, the entity store
   * reprocesses the session's whole stored history, whatever part of it
   * the history pointer makes active.
   */
  function RefreshEntities(st: EntityState, s: Session.Session): (r: EntityState)
    ensures r.isInitialized == st.isInitialized && SameExceptGaps(st.entities, r.entities)
    ensures !st.isInitialized ==> r == st
  {
    ProcessSpinHistory(st, s.spinHistory)
  }

  /** With consistent ids each entity's figures are its misses over the whole stored history. */
  lemma RefreshUsesStoredHistory(st: EntityState, s: Session.Session, i: int)
    requires st.isInitialized && s.spinHistory != [] && 0 <= i < |st.entities| && ConsistentIds(st.entities)
    ensures var b := MapHistoryToBinary(s.spinHistory, st.entities[i].numbers);
      && RefreshEntities(st, s).entities[i].lastSeenAgo == TrailingMisses(b)
      && RefreshEntities(st, s).entities[i].longestGap == LongestGap(b)
  {
    ProcessSpinHistoryOwnFigures(st, s.spinHistory, i);
  }

  /** The refresh does not depend on the history pointer. */
  lemma RefreshIgnoresPointer(st: EntityState, s: Session.Session, p: int)
    ensures RefreshEntities(st, s.(historyPointer := p)) == RefreshEntities(st, s)
  {
  }

  /**
   * Undo and redo move the active view but never the entity alerts: the
   * entity pipeline is fed the stored history, unlike the strategy panel.
   */
  lemma UndoRedoKeepEntities(st: EntityState, s: Session.Session)
    requires Session.Valid(s)
    ensures RefreshEntities(st, Session.Undo(s)) == RefreshEntities(st, s)
    ensures RefreshEntities(st, Session.Redo(s)) == RefreshEntities(st, s)
    ensures |Session.ActiveView(s)| >= 2 ==> Session.ActiveView(Session.Undo(s)) != Session.ActiveView(s)
  {
    Session.UndoShortensView(s);
  }

  /** The panels' own alert filter: score at most 6 and lastSeenAgo at or past the threshold. */
  function ActiveAlerts(entities: seq<TrackableEntity>): (r: seq<TrackableEntity>)
    ensures forall e :: e in r <==> e in entities && IsAlert(e, DefaultMaxScore)
  {
    Filter(entities, PanelAlert)
  }

  /** The test both panels write out: entity.score <= 6 && entity.lastSeenAgo >= entity.threshold. */
  predicate PanelAlert(e: TrackableEntity)
  {
    e.score <= 6 && e.lastSeenAgo as real >= e.threshold
  }

  /** The alerts of a + b are the alerts of a followed by those of b, each in entity order. */
  lemma ActiveAlertsAppend(a: seq<TrackableEntity>, b: seq<TrackableEntity>)
    ensures ActiveAlerts(a + b) == ActiveAlerts(a) + ActiveAlerts(b)
  {
    FilterAppend(a, b, PanelAlert);
  }

  /** A lone entity is listed once if it is an alert and not at all otherwise. */
  lemma ActiveAlertsSingle(e: TrackableEntity)
    ensures ActiveAlerts([e]) == if IsAlert(e, DefaultMaxScore) then [e] else []
  {
    FilterSingle(e, PanelAlert);
  }

  /** An alert appears as many times as it occurs among the entities. */
  lemma ActiveAlertsCount(entities: seq<TrackableEntity>, e: TrackableEntity)
    ensures multiset(ActiveAlerts(entities))[e] == if IsAlert(e, DefaultMaxScore) then multiset(entities)[e] else 0
  {
    FilterCount(entities, PanelAlert, e);
  }

  /** The panels see the same alerts as getActiveAlerts with its default. */
  lemma PanelsMatchStore(st: EntityState)
    ensures ActiveAlerts(st.entities) == GetActiveAlerts(st, DefaultMaxScore)
  {
    FilterCongruent(st.entities, PanelAlert, (e: TrackableEntity) => IsAlert(e, DefaultMaxScore));
  }

  /** Lower score first, then the longer absence first. */
  function AlertKey(e: TrackableEntity): Key
  {
    Key(e.score, -e.lastSeenAgo)
  }

  function SortedAlerts(entities: seq<TrackableEntity>): seq<TrackableEntity>
  {
    SortBy(ActiveAlerts(entities), AlertKey)
  }

  /** The ranked alerts are the active alerts, by score ascending, then lastSeenAgo descending. */
  lemma SortedAlertsSpec(entities: seq<TrackableEntity>)
    ensures var r := SortedAlerts(entities);
      && multiset(r) == multiset(ActiveAlerts(entities))
      && forall i, j :: 0 <= i < j < |r| ==>
           r[i].score < r[j].score || (r[i].score == r[j].score && r[i].lastSeenAgo >= r[j].lastSeenAgo)
  {
    SortBySorted(ActiveAlerts(entities), AlertKey);
  }

  /** The sound plays when the number of alerts rose and is not zero; the count is remembered either way. */
  function AlertSound(previousCount: int, currentCount: int): (r: (bool, int))
    ensures r.0 ==> currentCount >= 1 && currentCount > previousCount
    ensures !r.0 ==> currentCount <= previousCount || currentCount <= 0
    ensures r.1 == currentCount
  {
    (currentCount > previousCount && currentCount > 0, currentCount)
  }

  /** A steady alert count never plays the sound twice. */
  lemma SoundOncePerRise(previousCount: int, currentCount: int)
    ensures !AlertSound(AlertSound(previousCount, currentCount).1, currentCount).0
  {
  }

  const MinIntersectionAlerts: nat := 3

  /** Count descending, then number ascending. */
  function IntersectionKey(c: NumberCount): Key
  {
    Key(-(c.count as int), c.number)
  }

  /** intersectionNumbers: the numbers in three or more alerts' lists, when there are three or more alerts. */
  function IntersectionNumbers(entities: seq<TrackableEntity>): (r: seq<NumberCount>)
    ensures |ActiveAlerts(entities)| < MinIntersectionAlerts ==> r == []
  {
    var alerts := ActiveAlerts(entities);
    if |alerts| < MinIntersectionAlerts then []
    else Ranked(Map(alerts, (a: TrackableEntity) => a.numbers), MinIntersectionAlerts, IntersectionKey)
  }

  function AlertLists(entities: seq<TrackableEntity>): seq<seq<int>>
  {
    Map(ActiveAlerts(entities), (a: TrackableEntity) => a.numbers)
  }

  /**
   * With three or more alerts: each listed count is the number's
   * occurrences across the alerts' lists and at least three, every number
   * occurring three or more times is listed, and none is listed twice.
   */
  lemma IntersectionNumbersSpec(entities: seq<TrackableEntity>, x: int)
    requires |ActiveAlerts(entities)| >= MinIntersectionAlerts
    ensures forall c :: c in IntersectionNumbers(entities) ==>
      c.count == Occurrences(AlertLists(entities), c.number) >= MinIntersectionAlerts
    ensures Occurrences(AlertLists(entities), x) >= MinIntersectionAlerts ==> x in NumbersOf(IntersectionNumbers(entities))
    ensures Distinct(NumbersOf(IntersectionNumbers(entities)))
  {
    RankedSpec(AlertLists(entities), MinIntersectionAlerts, IntersectionKey);
    if Occurrences(AlertLists(entities), x) >= MinIntersectionAlerts {
      RankedComplete(AlertLists(entities), MinIntersectionAlerts, IntersectionKey, x);
    }
  }

  /** The list runs by count descending, then number ascending. */
  lemma IntersectionOrder(entities: seq<TrackableEntity>)
    ensures var r := IntersectionNumbers(entities);
      forall i, j :: 0 <= i < j < |r| ==>
        r[i].count > r[j].count || (r[i].count == r[j].count && r[i].number <= r[j].number)
  {
    if |ActiveAlerts(entities)| >= MinIntersectionAlerts {
      SortBySorted(CommonNumbers(AlertLists(entities), MinIntersectionAlerts), IntersectionKey);
    }
  }
}
