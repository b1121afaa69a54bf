/**
 * The tracker store: user and preset number groups, each with a trigger
 * threshold and an optional auto-threshold flag.
 */
module Trackers {
  import opened Wrappers
  import opened Seqs

  /** useAutoThreshold None is the absent optional field. */
  datatype Tracker = Tracker(
    id: string,
    name: string,
    numbers: seq<int>,
    threshold: int,
    useAutoThreshold: Option<bool>)

  /** A tracker without its id, as addTracker receives it. */
  datatype TrackerInput = TrackerInput(
    name: string,
    numbers: seq<int>,
    threshold: int,
    useAutoThreshold: Option<bool>)

  /** A prebuilt strategy; the list of them is an input of the model. */
  datatype Preset = Preset(name: string, numbers: seq<int>, threshold: int)

  /** A partial tracker: None leaves the field as it is. */
  datatype TrackerUpdate = TrackerUpdate(
    id: Option<string>,
    name: Option<string>,
    numbers: Option<seq<int>>,
    threshold: Option<int>,
    useAutoThreshold: Option<bool>)

  datatype TrackerState = TrackerState(trackers: seq<Tracker>, isInitialized: bool)

  function IdsOf(ts: seq<Tracker>): set<string>
  {
    set i | 0 <= i < |ts| :: ts[i].id
  }

  ghost predicate DistinctIds(ts: seq<Tracker>)
  {
    forall i, j :: 0 <= i < j < |ts| ==> ts[i].id != ts[j].id
  }

  function FromPreset(p: Preset, id: string): (r: Tracker)
    ensures r.name == p.name && r.numbers == p.numbers && r.threshold == p.threshold
    ensures r.id == id && r.useAutoThreshold == Some(false)
  {
    Tracker(id, p.name, p.numbers, p.threshold, Some(false))
  }

  function FromPresets(presets: seq<Preset>, freshId: nat -> string, from: nat): (r: seq<Tracker>)
    ensures |r| == |presets|
    ensures forall i :: 0 <= i < |r| ==> r[i] == FromPreset(presets[i], freshId(from + i))
  {
    if presets == [] then [] else [FromPreset(presets[0], freshId(from))] + FromPresets(presets[1..], freshId, from + 1)
  }

  /**
   * initializeTrackers: once only, the presets in order with their own
   * thresholds, auto-threshold off, and ids from the generator.
   */
  function InitializeTrackers(st: TrackerState, presets: seq<Preset>, freshId: nat -> string): (r: TrackerState)
    ensures st.isInitialized ==> r == st
    ensures !st.isInitialized ==> r.isInitialized && r.trackers == FromPresets(presets, freshId, 0)
  {
    if st.isInitialized then st else TrackerState(FromPresets(presets, freshId, 0), true)
  }

  lemma InitializeIdempotent(st: TrackerState, presets: seq<Preset>, others: seq<Preset>, freshId: nat -> string)
    ensures InitializeTrackers(InitializeTrackers(st, presets, freshId), others, freshId) == InitializeTrackers(st, presets, freshId)
  {
  }

  /** addTracker: one new tracker with the given fields and the fresh id, at the end. */
  function AddTracker(st: TrackerState, t: TrackerInput, id: string): (r: TrackerState)
    ensures |r.trackers| == |st.trackers| + 1 && r.trackers[..|st.trackers|] == st.trackers
    ensures r.trackers[|st.trackers|] == Tracker(id, t.name, t.numbers, t.threshold, t.useAutoThreshold)
    ensures r.isInitialized == st.isInitialized
  {
    st.(trackers := st.trackers + [Tracker(id, t.name, t.numbers, t.threshold, t.useAutoThreshold)])
  }

  /** A fresh id keeps the ids distinct. */
  lemma AddTrackerFresh(st: TrackerState, t: TrackerInput, id: string)
    requires DistinctIds(st.trackers) && id !in IdsOf(st.trackers)
    ensures DistinctIds(AddTracker(st, t, id).trackers)
  {
    var r := AddTracker(st, t, id).trackers;
    forall i, j | 0 <= i < j < |r|
      ensures r[i].id != r[j].id
    {
      if j == |st.trackers| {
        assert r[i] == st.trackers[i];
        assert st.trackers[i].id in IdsOf(st.trackers);
      } else {
        assert r[i] == st.trackers[i] && r[j] == st.trackers[j];
      }
    }
  }

  /** The object spread: fields present in the update win. */
  function Merge(t: Tracker, u: TrackerUpdate): Tracker
  {
    Tracker(
      u.id.GetOr(t.id),
      u.name.GetOr(t.name),
      u.numbers.GetOr(t.numbers),
      u.threshold.GetOr(t.threshold),
      if u.useAutoThreshold.Some? then u.useAutoThreshold else t.useAutoThreshold)
  }

  function UpdateList(ts: seq<Tracker>, id: string, u: TrackerUpdate): (r: seq<Tracker>)
    ensures |r| == |ts|
    ensures forall i :: 0 <= i < |ts| ==> r[i] == if ts[i].id == id then Merge(ts[i], u) else ts[i]
  {
    if ts == [] then []
    else [if ts[0].id == id then Merge(ts[0], u) else ts[0]] + UpdateList(ts[1..], id, u)
  }

  /** updateTracker: every tracker with that id takes the update; the others and the order stay. */
  function UpdateTracker(st: TrackerState, id: string, u: TrackerUpdate): (r: TrackerState)
    ensures r.trackers == UpdateList(st.trackers, id, u) && r.isInitialized == st.isInitialized
  {
    st.(trackers := UpdateList(st.trackers, id, u))
  }

  /** Updating an unknown id changes nothing. */
  lemma UpdateUnknown(st: TrackerState, id: string, u: TrackerUpdate)
    requires id !in IdsOf(st.trackers)
    ensures UpdateTracker(st, id, u) == st
  {
    var r := UpdateTracker(st, id, u).trackers;
    forall i | 0 <= i < |r|
      ensures r[i] == st.trackers[i]
    {
      assert st.trackers[i].id in IdsOf(st.trackers);
    }
  }

  /** deleteTracker: drops exactly the trackers with that id. */
  function DeleteTracker(st: TrackerState, id: string): (r: TrackerState)
    ensures forall t :: t in r.trackers <==> t in st.trackers && t.id != id
    ensures r.isInitialized == st.isInitialized
  {
    st.(trackers := Filter(st.trackers, (t: Tracker) => t.id != id))
  }

  /** Deleting keeps the survivors in order: it works segment by segment. */
  lemma DeleteKeepsOrder(a: seq<Tracker>, b: seq<Tracker>, id: string, init: bool)
    ensures DeleteTracker(TrackerState(a + b, init), id).trackers
         == DeleteTracker(TrackerState(a, init), id).trackers + DeleteTracker(TrackerState(b, init), id).trackers
  {
    FilterAppend(a, b, (t: Tracker) => t.id != id);
  }

  /** Deleting an unknown id changes nothing. */
  lemma {:induction false} DeleteUnknown(ts: seq<Tracker>, id: string, init: bool)
    requires id !in IdsOf(ts)
    ensures DeleteTracker(TrackerState(ts, init), id) == TrackerState(ts, init)
  {
    if ts != [] {
      assert ts[0].id in IdsOf(ts);
      assert id !in IdsOf(ts[1..]) by {
        forall i | 0 <= i < |ts[1..]|
          ensures ts[1..][i].id != id
        {
          assert ts[1..][i] == ts[i + 1];
          assert ts[i + 1].id in IdsOf(ts);
        }
      }
      DeleteUnknown(ts[1..], id, init);
      assert ts == [ts[0]] + ts[1..];
    }
  }
}
