/**
 * The gap analysis engine: a map from entity id to gap data, rebuilt from
 * the whole history (full mode) or extended by new spins (incremental mode).
 */
module GapEngine {
  import opened Wrappers
  import opened Gaps

  datatype GapData = GapData(lastSeenAgo: int, longestGap: int, hitMissHistory: seq<int>)

  /** What the engine needs of an entity: its id and its numbers. */
  datatype EntityRef = EntityRef(id: string, numbers: seq<int>)

  type GapMap = map<string, GapData>

  /** The entry processNewSpins starts from for an id with no data. */
  function EmptyGapData(): GapData
  {
    GapData(0, 0, [])
  }

  function Lookup(gm: GapMap, k: string): GapData
  {
    if k in gm then gm[k] else EmptyGapData()
  }

  /** The engine's analysis of a binary history, as the reference functions define it. */
  function Analyze(b: seq<int>): (r: GapData)
    ensures r.hitMissHistory == b
    ensures r.lastSeenAgo <= r.longestGap <= |b|
  {
    TrailingWithinLongest(b);
    GapData(TrailingMisses(b), LongestGap(b), b)
  }

  /** analyzeGaps as the engine runs it gives the record Analyze describes. */
  method AnalyzeEntry(b: seq<int>) returns (r: GapData)
    ensures r == Analyze(b)
  {
    var lastSeenAgo, longestGap := AnalyzeGaps(b);
    r := GapData(lastSeenAgo, longestGap, b);
  }

  /** processEntity: map the history, append it to the existing binary history if any, analyze. */
  function ProcessEntity(numbers: seq<int>, history: seq<int>, existing: Option<GapData>): (r: GapData)
    ensures r.hitMissHistory
         == (if existing.Some? then existing.value.hitMissHistory else []) + MapHistoryToBinary(history, numbers)
    ensures existing.None? ==> |r.hitMissHistory| == |history|
  {
    var binary := MapHistoryToBinary(history, numbers);
    Analyze(if existing.Some? then existing.value.hitMissHistory + binary else binary)
  }

  /** The ids of a list of entities. */
  function IdSet(es: seq<EntityRef>): set<string>
  {
    set i | 0 <= i < |es| :: es[i].id
  }

  ghost predicate DistinctIds(es: seq<EntityRef>)
  {
    forall i, j :: 0 <= i < j < |es| ==> es[i].id != es[j].id
  }

  /** The numbers of the last entity with id k: the one whose write survives. */
  function LastNumbers(es: seq<EntityRef>, k: string): (r: Option<seq<int>>)
    ensures r.None? <==> forall i :: 0 <= i < |es| ==> es[i].id != k
  {
    if es == [] then None
    else
      var rest := LastNumbers(es[1..], k);
      if rest.Some? then rest
      else if es[0].id == k then Some(es[0].numbers)
      else None
  }

  /** The index of the entity LastNumbers picks: no later entity has that id. */
  lemma {:induction false} LastNumbersIsLast(es: seq<EntityRef>, k: string) returns (i: nat)
    requires LastNumbers(es, k).Some?
    ensures i < |es| && es[i].id == k && es[i].numbers == LastNumbers(es, k).value
    ensures forall j :: i < j < |es| ==> es[j].id != k
  {
    if LastNumbers(es[1..], k).Some? {
      var i' := LastNumbersIsLast(es[1..], k);
      i := i' + 1;
      forall j | i < j < |es|
        ensures es[j].id != k
      {
        assert es[j] == es[1..][j - 1];
      }
    } else {
      i := 0;
      forall j | 0 < j < |es|
        ensures es[j].id != k
      {
        assert es[j] == es[1..][j - 1];
      }
    }
  }

  /** With distinct ids, the entity at index i is the one LastNumbers picks for its id. */
  lemma LastNumbersDistinct(es: seq<EntityRef>, i: int)
    requires DistinctIds(es) && 0 <= i < |es|
    ensures LastNumbers(es, es[i].id) == Some(es[i].numbers)
  {
    var j := LastNumbersIsLast(es, es[i].id);
  }

  // ---- full mode ----

  function ProcessAllFrom(acc: GapMap, es: seq<EntityRef>, history: seq<int>): GapMap
    decreases |es|
  {
    if es == [] then acc
    else ProcessAllFrom(acc[es[0].id := ProcessEntity(es[0].numbers, history, None)], es[1..], history)
  }

  /** processAllEntities: a fresh map built by writing every entity in order. */
  function ProcessAllEntities(es: seq<EntityRef>, history: seq<int>): GapMap
  {
    ProcessAllFrom(map[], es, history)
  }

  lemma {:induction false} ProcessAllFromSpec(acc: GapMap, es: seq<EntityRef>, history: seq<int>, k: string)
    ensures var r := ProcessAllFrom(acc, es, history);
      && (k in r <==> k in acc || LastNumbers(es, k).Some?)
      && (LastNumbers(es, k).Some? ==> k in r && r[k] == ProcessEntity(LastNumbers(es, k).value, history, None))
      && (LastNumbers(es, k).None? && k in acc ==> r[k] == acc[k])
    decreases |es|
  {
    if es != [] {
      ProcessAllFromSpec(acc[es[0].id := ProcessEntity(es[0].numbers, history, None)], es[1..], history, k);
    }
  }

  /**
   * processAllEntities: the keys are exactly the ids given, and each id
   * holds the fresh analysis of the whole history for the last entity
   * with that id.
   */
  lemma ProcessAllEntitiesSpec(es: seq<EntityRef>, history: seq<int>, k: string)
    ensures var r := ProcessAllEntities(es, history);
      && (k in r <==> k in IdSet(es))
      && (k in r <==> LastNumbers(es, k).Some?)
      && (k in r ==> (r[k] == ProcessEntity(LastNumbers(es, k).value, history, None)
                      && |r[k].hitMissHistory| == |history|))
  {
    ProcessAllFromSpec(map[], es, history, k);
    if k in IdSet(es) {
      var i :| 0 <= i < |es| && es[i].id == k;
      assert LastNumbers(es, k).Some?;
    }
  }

  // ---- reset and incremental mode ----

  /** reset: the engine forgets all gap data. */
  function Reset(): (r: GapMap)
    ensures forall k :: k !in r
  {
    map[]
  }

  /** processNewSpins as written: one append per entity in the list, in order. */
  function ProcessNewSpins(gm: GapMap, es: seq<EntityRef>, spins: seq<int>): GapMap
    decreases |es|
  {
    if es == [] then gm
    else
      var e := es[0];
      ProcessNewSpins(gm[e.id := ProcessEntity(e.numbers, spins, Some(Lookup(gm, e.id)))], es[1..], spins)
  }

  /** processNewSpins leaves every id outside the list as it was. */
  lemma {:induction false} ProcessNewSpinsOthers(gm: GapMap, es: seq<EntityRef>, spins: seq<int>, k: string)
    requires k !in IdSet(es)
    ensures var r := ProcessNewSpins(gm, es, spins);
      (k in r <==> k in gm) && (k in gm ==> r[k] == gm[k])
    decreases |es|
  {
    if es != [] {
      assert es[0].id != k;
      assert k !in IdSet(es[1..]) by {
        forall i | 0 <= i < |es[1..]|
          ensures es[1..][i].id != k
        {
          assert es[1..][i] == es[i + 1];
        }
      }
      ProcessNewSpinsOthers(gm[es[0].id := ProcessEntity(es[0].numbers, spins, Some(Lookup(gm, es[0].id)))], es[1..], spins, k);
    }
  }

  /** With distinct ids, each listed id is extended exactly once, from its previous data. */
  lemma {:induction false} ProcessNewSpinsDistinct(gm: GapMap, es: seq<EntityRef>, spins: seq<int>, k: string)
    requires DistinctIds(es)
    ensures var r := ProcessNewSpins(gm, es, spins);
      && (k in r <==> k in gm || LastNumbers(es, k).Some?)
      && (LastNumbers(es, k).Some? ==> r[k] == ProcessEntity(LastNumbers(es, k).value, spins, Some(Lookup(gm, k))))
      && (LastNumbers(es, k).None? && k in gm ==> r[k] == gm[k])
    decreases |es|
  {
    if es != [] {
      var e := es[0];
      var gm' := gm[e.id := ProcessEntity(e.numbers, spins, Some(Lookup(gm, e.id)))];
      assert DistinctIds(es[1..]) by {
        forall i, j | 0 <= i < j < |es[1..]|
          ensures es[1..][i].id != es[1..][j].id
        {
          assert es[1..][i] == es[i + 1] && es[1..][j] == es[j + 1];
        }
      }
      ProcessNewSpinsDistinct(gm', es[1..], spins, k);
      if k == e.id {
        assert LastNumbers(es[1..], k).None? by {
          forall i | 0 <= i < |es[1..]|
            ensures es[1..][i].id != k
          {
            assert es[1..][i] == es[i + 1];
          }
        }
      }
    }
  }

  /** Extending a fresh analysis of h1 by h2 gives the fresh analysis of h1 + h2. */
  lemma ExtendFresh(numbers: seq<int>, h1: seq<int>, h2: seq<int>)
    ensures ProcessEntity(numbers, h2, Some(ProcessEntity(numbers, h1, None))) == ProcessEntity(numbers, h1 + h2, None)
  {
    MapHistoryAppend(h1, h2, numbers);
  }

  /** Extending the empty entry is processing fresh. */
  lemma ExtendEmpty(numbers: seq<int>, h: seq<int>)
    ensures ProcessEntity(numbers, h, Some(EmptyGapData())) == ProcessEntity(numbers, h, None)
  {
    assert [] + MapHistoryToBinary(h, numbers) == MapHistoryToBinary(h, numbers);
  }

  /** One id's entry after full then incremental mode, when ids are distinct. */
  lemma IncrementalAgreesAt(es: seq<EntityRef>, h1: seq<int>, h2: seq<int>, k: string)
    requires DistinctIds(es)
    ensures var a := ProcessNewSpins(ProcessAllEntities(es, h1), es, h2);
      var b := ProcessAllEntities(es, h1 + h2);
      (k in a <==> k in b) && (k in a ==> a[k] == b[k])
  {
    var m1 := ProcessAllEntities(es, h1);
    var a := ProcessNewSpins(m1, es, h2);
    var b := ProcessAllEntities(es, h1 + h2);
    ProcessAllEntitiesSpec(es, h1, k);
    ProcessAllEntitiesSpec(es, h1 + h2, k);
    ProcessNewSpinsDistinct(m1, es, h2, k);
    if LastNumbers(es, k).Some? {
      var ns := LastNumbers(es, k).value;
      assert Lookup(m1, k) == ProcessEntity(ns, h1, None);
      ExtendFresh(ns, h1, h2);
      assert a[k] == b[k];
    } else {
      assert k !in m1 && k !in a && k !in b;
    }
  }

  /** Full then incremental equals full over the concatenated history, when ids are distinct. */
  lemma IncrementalAgreesWithFull(es: seq<EntityRef>, h1: seq<int>, h2: seq<int>)
    requires DistinctIds(es)
    ensures ProcessNewSpins(ProcessAllEntities(es, h1), es, h2) == ProcessAllEntities(es, h1 + h2)
  {
    var a := ProcessNewSpins(ProcessAllEntities(es, h1), es, h2);
    var b := ProcessAllEntities(es, h1 + h2);
    forall k
      ensures (k in a <==> k in b) && (k in a ==> a[k] == b[k])
    {
      IncrementalAgreesAt(es, h1, h2, k);
    }
    assert a.Keys == b.Keys;
  }

  /** One id's entry after reset then incremental mode, when ids are distinct. */
  lemma ResetThenIncrementalAt(es: seq<EntityRef>, h: seq<int>, k: string)
    requires DistinctIds(es)
    ensures var a := ProcessNewSpins(Reset(), es, h);
      var b := ProcessAllEntities(es, h);
      (k in a <==> k in b) && (k in a ==> a[k] == b[k])
  {
    ProcessAllEntitiesSpec(es, h, k);
    ProcessNewSpinsDistinct(Reset(), es, h, k);
    if LastNumbers(es, k).Some? {
      ExtendEmpty(LastNumbers(es, k).value, h);
    }
  }

  /** After reset, incremental equals full, when ids are distinct. */
  lemma ResetThenIncremental(es: seq<EntityRef>, h: seq<int>)
    requires DistinctIds(es)
    ensures ProcessNewSpins(Reset(), es, h) == ProcessAllEntities(es, h)
  {
    var a := ProcessNewSpins(Reset(), es, h);
    var b := ProcessAllEntities(es, h);
    forall k
      ensures (k in a <==> k in b) && (k in a ==> a[k] == b[k])
    {
      ResetThenIncrementalAt(es, h, k);
    }
    assert a.Keys == b.Keys;
  }

  // ---- duplicate ids ----

  /**
   * With two entities sharing an id, processNewSpins as written appends
   * the new spins twice to that id's history, while the full mode holds
   * them once.
   */
  lemma DuplicateIdsDiverge()
    ensures var es := [EntityRef("zero", [0]), EntityRef("zero", [0])];
      && ProcessNewSpins(Reset(), es, [5])["zero"].hitMissHistory == [0, 0]
      && ProcessAllEntities(es, [5])["zero"].hitMissHistory == [0]
  {
    DuplicateIncremental(EntityRef("zero", [0]), [5]);
    DuplicateFull(EntityRef("zero", [0]), [5]);
  }

  /** processNewSpins on a twice-listed entity from an empty map records the spins twice. */
  lemma DuplicateIncremental(e: EntityRef, spins: seq<int>)
    ensures e.id in ProcessNewSpins(Reset(), [e, e], spins)
    ensures ProcessNewSpins(Reset(), [e, e], spins)[e.id].hitMissHistory
         == MapHistoryToBinary(spins, e.numbers) + MapHistoryToBinary(spins, e.numbers)
  {
    var b := MapHistoryToBinary(spins, e.numbers);
    var once := ProcessEntity(e.numbers, spins, Some(EmptyGapData()));
    var m1 := Reset()[e.id := once];
    assert [e, e][1..] == [e];
    assert ProcessNewSpins(Reset(), [e, e], spins) == ProcessNewSpins(m1, [e], spins);
    var twice := ProcessEntity(e.numbers, spins, Some(once));
    assert ProcessNewSpins(m1, [e], spins) == m1[e.id := twice];
    assert once.hitMissHistory == b;
  }

  /** processAllEntities on a twice-listed entity records the spins once. */
  lemma DuplicateFull(e: EntityRef, spins: seq<int>)
    ensures e.id in ProcessAllEntities([e, e], spins)
    ensures ProcessAllEntities([e, e], spins)[e.id].hitMissHistory == MapHistoryToBinary(spins, e.numbers)
  {
    ProcessAllEntitiesSpec([e, e], spins, e.id);
    assert LastNumbers([e, e], e.id) == Some(e.numbers);
  }

  /** The entities whose write survives: each one kept only if no later entity has its id. */
  function DedupeLast(es: seq<EntityRef>): (r: seq<EntityRef>)
    ensures |r| <= |es|
  {
    if es == [] then []
    else if es[0].id in IdSet(es[1..]) then DedupeLast(es[1..])
    else [es[0]] + DedupeLast(es[1..])
  }

  lemma {:induction false} DedupeLastSpec(es: seq<EntityRef>)
    ensures DistinctIds(DedupeLast(es))
    ensures forall k :: LastNumbers(DedupeLast(es), k) == LastNumbers(es, k)
  {
    if es != [] {
      var e := es[0];
      var d := DedupeLast(es[1..]);
      DedupeLastSpec(es[1..]);
      forall k
        ensures LastNumbers(es, k) == if LastNumbers(es[1..], k).Some? then LastNumbers(es[1..], k)
                                      else if e.id == k then Some(e.numbers) else None
      {
      }
      if e.id !in IdSet(es[1..]) {
        var r := [e] + d;
        assert r[1..] == d;
        assert LastNumbers(d, e.id).None?;
        forall i, j | 0 <= i < j < |r|
          ensures r[i].id != r[j].id
        {
          if i == 0 {
            assert r[j] == d[j - 1];
          } else {
            assert r[i] == d[i - 1] && r[j] == d[j - 1];
          }
        }
      } else {
        var i :| 0 <= i < |es[1..]| && es[1..][i].id == e.id;
        assert LastNumbers(es[1..], e.id).Some?;
      }
    }
  }

  /** The full mode depends only on the surviving entity of each id. */
  lemma ProcessAllDependsOnLast(es1: seq<EntityRef>, es2: seq<EntityRef>, history: seq<int>)
    requires forall k :: LastNumbers(es1, k) == LastNumbers(es2, k)
    ensures ProcessAllEntities(es1, history) == ProcessAllEntities(es2, history)
  {
    var a := ProcessAllEntities(es1, history);
    var b := ProcessAllEntities(es2, history);
    forall k
      ensures (k in a <==> k in b) && (k in a ==> a[k] == b[k])
    {
      ProcessAllEntitiesSpec(es1, history, k);
      ProcessAllEntitiesSpec(es2, history, k);
    }
    assert a.Keys == b.Keys;
  }

  /** processNewSpins corrected: each id is extended once, with the numbers of its surviving entity. */
  function ProcessNewSpinsOnce(gm: GapMap, es: seq<EntityRef>, spins: seq<int>): GapMap
  {
    ProcessNewSpins(gm, DedupeLast(es), spins)
  }

  /** The corrected incremental mode agrees with the full mode for every entity list. */
  lemma IncrementalOnceAgreesWithFull(es: seq<EntityRef>, h1: seq<int>, h2: seq<int>)
    ensures ProcessNewSpinsOnce(ProcessAllEntities(es, h1), es, h2) == ProcessAllEntities(es, h1 + h2)
  {
    var d := DedupeLast(es);
    DedupeLastSpec(es);
    ProcessAllDependsOnLast(es, d, h1);
    ProcessAllDependsOnLast(es, d, h1 + h2);
    IncrementalAgreesWithFull(d, h1, h2);
  }

  /** After reset, the corrected incremental mode equals the full mode for every entity list. */
  lemma ResetThenIncrementalOnce(es: seq<EntityRef>, h: seq<int>)
    ensures ProcessNewSpinsOnce(Reset(), es, h) == ProcessAllEntities(es, h)
  {
    var d := DedupeLast(es);
    DedupeLastSpec(es);
    ProcessAllDependsOnLast(es, d, h);
    ResetThenIncremental(d, h);
  }
}
