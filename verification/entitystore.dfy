/**
 * The entity store: the lexicon's entities with their alert thresholds and
 * the gap figures the engine last computed for them.
 */
module EntityStore {
  import opened Seqs
  import opened Gaps
  import GapEngine
  import Lexicon
  import Combinations

  /** An entity with its statistics; expectedGap and threshold are exact reals. */
  datatype TrackableEntity = TrackableEntity(
    id: string,
    name: string,
    numbers: seq<int>,
    score: int,
    lastSeenAgo: int,
    longestGap: int,
    expectedGap: real,
    threshold: real)

  datatype EntityState = EntityState(
    entities: seq<TrackableEntity>,
    gapMap: GapEngine.GapMap,
    isInitialized: bool,
    engine: GapEngine.GapMap)

  function InitialState(): EntityState
  {
    EntityState([], map[], false, map[])
  }

  /** The expected spacing of hits for a group of score numbers, and three times it. */
  function ExpectedGap(score: int): (r: real)
    requires score >= 1
    ensures r * score as real == 37.0
  {
    37.0 / score as real
  }

  function Threshold(score: int): (r: real)
    requires score >= 1
    ensures r * score as real == 111.0
  {
    ExpectedGap(score) * 3.0
  }

  /** An alert in whole numbers: lastSeenAgo reaches the threshold exactly when lastSeenAgo * score >= 111. */
  lemma ThresholdIntegerForm(lastSeenAgo: int, score: int)
    requires score >= 1
    ensures lastSeenAgo as real >= Threshold(score) <==> lastSeenAgo * score >= 111
  {
    var t := Threshold(score);
    var s := score as real;
    var l := lastSeenAgo as real;
    assert (l * s) == (lastSeenAgo * score) as real;
    if l >= t {
      assert l * s >= t * s;
    } else {
      assert l * s < t * s;
    }
  }

  function Track(d: Lexicon.EntityDefinition): (r: TrackableEntity)
    requires d.score >= 1
    ensures r.id == d.id && r.name == d.name && r.numbers == d.numbers && r.score == d.score
    ensures r.lastSeenAgo == 0 && r.longestGap == 0
  {
    TrackableEntity(d.id, d.name, d.numbers, d.score, 0, 0, ExpectedGap(d.score), Threshold(d.score))
  }

  function TrackAll(defs: seq<Lexicon.EntityDefinition>): (r: seq<TrackableEntity>)
    requires forall d :: d in defs ==> d.score >= 1
    ensures |r| == |defs|
    ensures forall i :: 0 <= i < |r| ==> r[i] == Track(defs[i])
  {
    if defs == [] then [] else [Track(defs[0])] + TrackAll(defs[1..])
  }

  /** Every entity's figures are the ones initialisation gave it. */
  ghost predicate WellFormed(st: EntityState)
  {
    forall e :: e in st.entities ==>
      e.score >= 1 && e.expectedGap == ExpectedGap(e.score) && e.threshold == Threshold(e.score)
  }

  /** initializeEntities over the lexicon generated from v; a no-op once initialised. */
  function InitializeEntities(st: EntityState, v: Combinations.Vocabulary): (r: EntityState)
    ensures st.isInitialized ==> r == st
    ensures !st.isInitialized ==>
      && r.isInitialized
      && r.entities == TrackAll(Lexicon.GenerateEntityLexicon(v))
      && r.gapMap == st.gapMap && r.engine == st.engine
    ensures WellFormed(st) ==> WellFormed(r)
  {
    if st.isInitialized then st
    else st.(entities := TrackAll(Lexicon.GenerateEntityLexicon(v)), isInitialized := true)
  }

  /** After initialisation from a vocabulary listing its streets, entities sharing an id share their numbers. */
  lemma InitializedIdsConsistent(st: EntityState, v: Combinations.Vocabulary)
    requires !st.isInitialized && Combinations.StreetsListed(v)
    ensures ConsistentIds(InitializeEntities(st, v).entities)
  {
    var defs := Lexicon.GenerateEntityLexicon(v);
    var es := InitializeEntities(st, v).entities;
    Lexicon.LexiconIdsDetermineNumbers(v);
    forall i, j | 0 <= i < |es| && 0 <= j < |es| && es[i].id == es[j].id
      ensures es[i].numbers == es[j].numbers
    {
      assert defs[i] in defs && defs[j] in defs;
    }
  }

  /** Initialising twice is initialising once. */
  lemma InitializeOnce(st: EntityState, v: Combinations.Vocabulary, w: Combinations.Vocabulary)
    ensures InitializeEntities(InitializeEntities(st, v), w) == InitializeEntities(st, v)
  {
  }

  function ClearGaps(e: TrackableEntity): TrackableEntity
  {
    e.(lastSeenAgo := 0, longestGap := 0)
  }

  function ApplyGapData(e: TrackableEntity, gm: GapEngine.GapMap): TrackableEntity
  {
    if e.id in gm then e.(lastSeenAgo := gm[e.id].lastSeenAgo, longestGap := gm[e.id].longestGap) else e
  }

  function EngineRef(e: TrackableEntity): GapEngine.EntityRef
  {
    GapEngine.EntityRef(e.id, e.numbers)
  }

  /** Only the two gap figures may differ between the entity lists a and b. */
  ghost predicate SameExceptGaps(a: seq<TrackableEntity>, b: seq<TrackableEntity>)
  {
    |a| == |b| && forall i :: 0 <= i < |a| ==> a[i].(lastSeenAgo := 0, longestGap := 0) == b[i].(lastSeenAgo := 0, longestGap := 0)
  }

  /**
   * processSpinHistory: a no-op before initialisation; the empty history
   * clears every gap; otherwise the engine reprocesses the whole history.
   */
  function ProcessSpinHistory(st: EntityState, history: seq<int>): (r: EntityState)
    ensures !st.isInitialized ==> r == st
    ensures SameExceptGaps(st.entities, r.entities)
    ensures r.isInitialized == st.isInitialized
    ensures st.isInitialized && history == [] ==>
      r.gapMap == map[] && r.engine == map[] && forall i :: 0 <= i < |r.entities| ==> r.entities[i] == ClearGaps(st.entities[i])
  {
    if !st.isInitialized then st
    else if |history| == 0 then
      st.(engine := GapEngine.Reset(), entities := Map(st.entities, ClearGaps), gapMap := map[])
    else
      var gm := GapEngine.ProcessAllEntities(Map(st.entities, EngineRef), history);
      st.(engine := gm, entities := Map(st.entities, (e: TrackableEntity) => ApplyGapData(e, gm)), gapMap := gm)
  }

  /**
   * For a non-empty history each entity gets the engine's figures for its
   * id: those of the last entity listed with that id.
   */
  lemma ProcessSpinHistoryFigures(st: EntityState, history: seq<int>, i: int)
    requires st.isInitialized && history != [] && 0 <= i < |st.entities|
    ensures var refs := Map(st.entities, EngineRef);
      var e := st.entities[i];
      var ns := GapEngine.LastNumbers(refs, e.id);
      var b := MapHistoryToBinary(history, ns.value);
      && ns.Some?
      && ProcessSpinHistory(st, history).entities[i].lastSeenAgo == TrailingMisses(b)
      && ProcessSpinHistory(st, history).entities[i].longestGap == LongestGap(b)
  {
    var refs := Map(st.entities, EngineRef);
    var e := st.entities[i];
    assert refs[i].id == e.id;
    GapEngine.ProcessAllEntitiesSpec(refs, history, e.id);
  }

  /** Entities that share an id also share their numbers. */
  ghost predicate ConsistentIds(es: seq<TrackableEntity>)
  {
    forall i, j :: 0 <= i < |es| && 0 <= j < |es| && es[i].id == es[j].id ==> es[i].numbers == es[j].numbers
  }

  /** With consistent ids each entity's figures are those of its own numbers. */
  lemma ProcessSpinHistoryOwnFigures(st: EntityState, history: seq<int>, i: int)
    requires st.isInitialized && history != [] && 0 <= i < |st.entities| && ConsistentIds(st.entities)
    ensures var e := st.entities[i];
      var b := MapHistoryToBinary(history, e.numbers);
      && ProcessSpinHistory(st, history).entities[i].lastSeenAgo == TrailingMisses(b)
      && ProcessSpinHistory(st, history).entities[i].longestGap == LongestGap(b)
  {
    var refs := Map(st.entities, EngineRef);
    ProcessSpinHistoryFigures(st, history, i);
    var j := GapEngine.LastNumbersIsLast(refs, st.entities[i].id);
    assert refs[j].numbers == st.entities[j].numbers;
  }

  /** resetEngine: clears every gap and the map, whether or not initialised. */
  function ResetEngine(st: EntityState): (r: EntityState)
    ensures SameExceptGaps(st.entities, r.entities)
    ensures forall i :: 0 <= i < |r.entities| ==> r.entities[i].lastSeenAgo == 0 && r.entities[i].longestGap == 0
    ensures r.gapMap == map[] && r.engine == map[] && r.isInitialized == st.isInitialized
  {
    st.(engine := GapEngine.Reset(), entities := Map(st.entities, ClearGaps), gapMap := map[])
  }

  /** Processing and resetting keep the thresholds initialisation set. */
  lemma ThresholdsFixed(st: EntityState, history: seq<int>)
    requires WellFormed(st)
    ensures WellFormed(ProcessSpinHistory(st, history))
    ensures WellFormed(ResetEngine(st))
  {
    var a := ProcessSpinHistory(st, history).entities;
    forall e | e in a
      ensures e.score >= 1 && e.expectedGap == ExpectedGap(e.score) && e.threshold == Threshold(e.score)
    {
      var i :| 0 <= i < |a| && a[i] == e;
      assert st.entities[i] in st.entities;
    }
    var b := ResetEngine(st).entities;
    forall e | e in b
      ensures e.score >= 1 && e.expectedGap == ExpectedGap(e.score) && e.threshold == Threshold(e.score)
    {
      var i :| 0 <= i < |b| && b[i] == e;
      assert st.entities[i] in st.entities;
    }
  }

  /** The alert test: a small group that has been absent for at least its threshold. */
  predicate IsAlert(e: TrackableEntity, maxScore: int)
  {
    e.score <= maxScore && e.lastSeenAgo as real >= e.threshold
  }

  /** getActiveAlerts, with 6 as the default maxScore. */
  function GetActiveAlerts(st: EntityState, maxScore: int): (r: seq<TrackableEntity>)
    ensures forall e :: e in r <==> e in st.entities && IsAlert(e, maxScore)
  {
    Filter(st.entities, (e: TrackableEntity) => IsAlert(e, maxScore))
  }

  /** The alerts of a + b are the alerts of a followed by those of b, each in entity order. */
  lemma GetActiveAlertsAppend(st: EntityState, a: seq<TrackableEntity>, b: seq<TrackableEntity>, maxScore: int)
    requires st.entities == a + b
    ensures GetActiveAlerts(st, maxScore)
      == GetActiveAlerts(st.(entities := a), maxScore) + GetActiveAlerts(st.(entities := b), maxScore)
  {
    FilterAppend(a, b, (e: TrackableEntity) => IsAlert(e, maxScore));
  }

  /** A lone entity is listed once if it is an alert and not at all otherwise. */
  lemma GetActiveAlertsSingle(st: EntityState, e: TrackableEntity, maxScore: int)
    requires st.entities == [e]
    ensures GetActiveAlerts(st, maxScore) == if IsAlert(e, maxScore) then [e] else []
  {
    FilterSingle(e, (e: TrackableEntity) => IsAlert(e, maxScore));
  }

  /** An alert appears as many times as it occurs among the entities. */
  lemma GetActiveAlertsCount(st: EntityState, maxScore: int, e: TrackableEntity)
    ensures multiset(GetActiveAlerts(st, maxScore))[e] == if IsAlert(e, maxScore) then multiset(st.entities)[e] else 0
  {
    FilterCount(st.entities, (e: TrackableEntity) => IsAlert(e, maxScore), e);
  }

  const DefaultMaxScore: int := 6

  /** In whole numbers, the active alerts are the entities with score <= maxScore and lastSeenAgo * score >= 111. */
  lemma ActiveAlertsIntegerForm(st: EntityState, maxScore: int)
    requires WellFormed(st)
    ensures forall e :: e in GetActiveAlerts(st, maxScore) <==>
      e in st.entities && e.score <= maxScore && e.lastSeenAgo * e.score >= 111
  {
    forall e | e in st.entities
      ensures IsAlert(e, maxScore) <==> e.score <= maxScore && e.lastSeenAgo * e.score >= 111
    {
      ThresholdIntegerForm(e.lastSeenAgo, e.score);
    }
  }
}
