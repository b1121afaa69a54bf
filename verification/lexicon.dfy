/**
 * The lexicon of entities: each curated tag combination resolved against
 * the master table, named, given an id, and scored by its size.
 */
module Lexicon {
  import opened Wrappers
  import opened Seqs
  import opened Text
  import opened Classification
  import opened Naming
  import opened Combinations
  import opened Partitions
  import Identity

  datatype EntityDefinition = EntityDefinition(
    id: string,
    name: string,
    tags: TagSet,
    numbers: seq<int>,
    score: int)

  /** createEntity: null when the tags resolve to no number. */
  function CreateEntity(tags: TagSet): (r: Option<EntityDefinition>)
    ensures r.None? <==> ResolveNumbersByTags(tags) == []
    ensures r.Some? ==>
      && r.value.tags == tags
      && r.value.name == EntityName(tags)
      && r.value.id == EntityId(r.value.name)
      && r.value.score == |r.value.numbers| >= 1
      && Increasing(r.value.numbers)
      && forall x :: x in r.value.numbers <==> 0 <= x <= 36 && Matches(tags, Classify(x))
  {
    var numbers := ResolveNumbersByTags(tags);
    if |numbers| == 0 then None
    else
      var name := EntityName(tags);
      Some(EntityDefinition(EntityId(name), name, tags, numbers, |numbers|))
  }

  /** The forEach bodies: push every non-null createEntity result, in order. */
  function EmitEntities(qs: seq<TagSet>): (r: seq<EntityDefinition>)
    ensures |r| <= |qs|
    ensures forall e :: e in r ==> e.tags in qs && CreateEntity(e.tags) == Some(e)
    ensures forall q :: q in qs && CreateEntity(q).Some? ==> CreateEntity(q).value in r
  {
    if qs == [] then []
    else
      var rest := EmitEntities(qs[1..]);
      assert forall q' :: q' in qs[1..] ==> q' in qs;
      assert forall q' :: q' in qs ==> q' == qs[0] || q' in qs[1..];
      match CreateEntity(qs[0])
      case Some(e) => [e] + rest
      case None => rest
  }

  /** generateEntityLexicon over the given loop lists (Standard() holds the source's). */
  function GenerateEntityLexicon(v: Vocabulary): seq<EntityDefinition>
  {
    EmitEntities(QueriesOf(v))
  }

  /**
   * Every lexicon entity has one to three tags, a positive score equal to
   * its size, numbers that are the master table's answer, and an id that
   * is its name with spaces as underscores and ASCII letters lower-cased.
   */
  lemma LexiconSound(v: Vocabulary)
    requires StreetsListed(v)
    ensures forall e :: e in GenerateEntityLexicon(v) ==>
      && 1 <= TagCount(e.tags) <= 3
      && e.score == |e.numbers| >= 1
      && e.numbers == ResolveNumbersByTags(e.tags)
      && |e.id| == |e.name|
      && forall i :: 0 <= i < |e.name| ==> e.id[i] == IdChar(e.name[i])
  {
    var qs := QueriesOf(v);
    forall e | e in EmitEntities(qs)
      ensures 1 <= TagCount(e.tags) <= 3
      ensures e.score == |e.numbers| >= 1 && e.numbers == ResolveNumbersByTags(e.tags)
      ensures |e.id| == |e.name| && forall i :: 0 <= i < |e.name| ==> e.id[i] == IdChar(e.name[i])
    {
      assert e.tags in qs;
      CreatedEntitySound(e);
    }
  }

  lemma CreatedEntitySound(e: EntityDefinition)
    requires CreateEntity(e.tags) == Some(e) && TagCount(e.tags) >= 1
    ensures e.score == |e.numbers| >= 1 && e.numbers == ResolveNumbersByTags(e.tags)
    ensures |e.id| == |e.name| && forall i :: 0 <= i < |e.name| ==> e.id[i] == IdChar(e.name[i])
  {
    EntityIdOfName(e.tags);
  }

  /** Emitting over two runs of combinations emits over each in turn. */
  lemma {:induction false} EmitEntitiesAppend(a: seq<TagSet>, b: seq<TagSet>)
    ensures EmitEntities(a + b) == EmitEntities(a) + EmitEntities(b)
  {
    if a != [] {
      assert (a + b)[0] == a[0];
      assert (a + b)[1..] == a[1..] + b;
      EmitEntitiesAppend(a[1..], b);
      match CreateEntity(a[0])
      case Some(e) =>
        assert EmitEntities(a + b) == [e] + EmitEntities(a[1..] + b);
        assert EmitEntities(a) == [e] + EmitEntities(a[1..]);
      case None =>
        assert EmitEntities(a + b) == EmitEntities(a[1..] + b);
        assert EmitEntities(a) == EmitEntities(a[1..]);
    } else {
      assert a + b == b;
    }
  }

  /** Three runs with tag counts 1, 2 and 3 concatenate to a run whose counts never decrease. */
  lemma CountsNonDecreasing(singles: seq<EntityDefinition>, pairs: seq<EntityDefinition>, triples: seq<EntityDefinition>)
    requires forall e :: e in singles ==> TagCount(e.tags) == 1
    requires forall e :: e in pairs ==> TagCount(e.tags) == 2
    requires forall e :: e in triples ==> TagCount(e.tags) == 3
    ensures var lex := singles + pairs + triples;
      forall i, j :: 0 <= i < j < |lex| ==> TagCount(lex[i].tags) <= TagCount(lex[j].tags)
  {
    var lex := singles + pairs + triples;
    forall i | 0 <= i < |lex|
      ensures TagCount(lex[i].tags) == (if i < |singles| then 1 else if i < |singles| + |pairs| then 2 else 3)
    {
      if i < |singles| {
        assert lex[i] == singles[i];
      } else if i < |singles| + |pairs| {
        assert lex[i] == pairs[i - |singles|];
      } else {
        assert lex[i] == triples[i - |singles| - |pairs|];
      }
    }
  }

  /**
   * The enumeration order: the single-tag entities come first, then the
   * pairs, then the triples, so tag counts never decrease along the
   * lexicon, and no single-tag entity is a street.
   */
  lemma LexiconOrder(v: Vocabulary)
    requires StreetsListed(v)
    ensures GenerateEntityLexicon(v) == EmitEntities(SinglesOf(v)) + EmitEntities(PairsOf(v)) + EmitEntities(TriplesOf(v))
    ensures var lex := GenerateEntityLexicon(v);
      forall i, j :: 0 <= i < j < |lex| ==> TagCount(lex[i].tags) <= TagCount(lex[j].tags)
    ensures forall e :: e in GenerateEntityLexicon(v) && TagCount(e.tags) == 1 ==> e.tags.street.None?
  {
    var singles := EmitEntities(SinglesOf(v));
    var pairs := EmitEntities(PairsOf(v));
    var triples := EmitEntities(TriplesOf(v));
    EmitEntitiesAppend(SinglesOf(v), PairsOf(v));
    EmitEntitiesAppend(SinglesOf(v) + PairsOf(v), TriplesOf(v));
    assert GenerateEntityLexicon(v) == singles + pairs + triples;
    CountsNonDecreasing(singles, pairs, triples);
  }

  /** The lexicon's view of an entity as the other generator records it. */
  function AsTrackable(e: EntityDefinition): TrackableEntity
  {
    TrackableEntity(e.name, e.tags, e.numbers)
  }

  lemma {:induction false} EmitAgrees(qs: seq<TagSet>)
    requires forall q :: q in qs ==> 1 <= TagCount(q) <= 3 && ListedStreet(q)
    ensures Map(EmitEntities(qs), AsTrackable) == EmitTrackable(qs)
  {
    if qs != [] {
      assert forall q :: q in qs[1..] ==> q in qs;
      EmitAgrees(qs[1..]);
      CuratedResolversAgree(qs[0]);
      var rest := EmitEntities(qs[1..]);
      match CreateEntity(qs[0])
      case Some(e) =>
        assert Map([e] + rest, AsTrackable) == [AsTrackable(e)] + Map(rest, AsTrackable);
      case None =>
    }
  }

  /**
   * Both generators try the same combinations in the same order and, on
   * them, their resolvers agree: they produce the same entities.
   */
  lemma GeneratorsAgree(v: Vocabulary)
    requires StreetsListed(v)
    ensures Map(GenerateEntityLexicon(v), AsTrackable) == GenerateAllTrackableEntities(v)
  {
    EmitAgrees(QueriesOf(v));
  }

  /** A lone Zero range, dozen or column tag picks out exactly the number 0. */
  lemma ZeroTagResolves(tags: TagSet)
    requires TagCount(tags) == 1
    requires tags.range == Some(RangeZero) || tags.dozen == Some(DozenZero) || tags.column == Some(ColumnZero)
    ensures ResolveNumbersByTags(tags) == [0]
  {
    var m := ResolveNumbersByTags(tags);
    forall x
      ensures x in m <==> x in [0]
    {
      if 1 <= x <= 36 {
        NonZeroRangeAndDozen(x);
        NonZeroColumn(x);
      }
    }
    IncreasingUnique(m, [0]);
  }

  /** The name of a lone Zero range, dozen or column tag is its label "Zero". */
  lemma ZeroName(tags: TagSet)
    requires TagCount(tags) == 1
    requires tags.range == Some(RangeZero) || tags.dozen == Some(DozenZero) || tags.column == Some(ColumnZero)
    ensures EntityName(tags) == "Zero"
  {
    var ts := SetTags(tags);
    assert |ts| == 1;
    assert TagLabel(ts[0]) == "Zero";
    assert Map(ts, TagLabel) == ["Zero"];
  }

  lemma ZeroId()
    ensures EntityId("Zero") == "zero"
  {
    var low := Lower("Zero");
    assert low == "zero";
    assert !IsWhitespace('z') && !IsWhitespace('e') && !IsWhitespace('r') && !IsWhitespace('o');
    assert low[1..] == "ero" && low[2..] == "ro" && low[3..] == "o";
    assert ReplaceWhitespaceRuns("o") == "o";
    assert ReplaceWhitespaceRuns("ro") == "ro";
    assert ReplaceWhitespaceRuns("ero") == "ero";
  }

  /**
   * Ids are not unique: the Zero range, dozen and column entities are three
   * different entities that all get the id "zero" and the numbers [0].
   */
  lemma ZeroEntitiesShareId(v: Vocabulary)
    requires RangeZero in v.ranges && DozenZero in v.dozens && ColumnZero in v.columns
    ensures forall tags :: tags in [RangeOnly(RangeZero), DozenOnly(DozenZero), ColumnOnly(ColumnZero)] ==>
      && CreateEntity(tags).Some?
      && CreateEntity(tags).value in GenerateEntityLexicon(v)
      && CreateEntity(tags).value.id == "zero"
      && CreateEntity(tags).value.numbers == [0]
  {
    var zs := [RangeOnly(RangeZero), DozenOnly(DozenZero), ColumnOnly(ColumnZero)];
    ZeroId();
    forall tags | tags in zs
      ensures CreateEntity(tags).Some? && CreateEntity(tags).value.numbers == [0]
      ensures CreateEntity(tags).value.id == "zero"
      ensures tags in QueriesOf(v)
    {
      ZeroTagResolves(tags);
      ZeroName(tags);
      var ranges := Map(v.ranges, RangeOnly);
      var dozens := Map(v.dozens, DozenOnly);
      var columns := Map(v.columns, ColumnOnly);
      if tags == RangeOnly(RangeZero) {
        var i :| 0 <= i < |v.ranges| && v.ranges[i] == RangeZero;
        assert ranges[i] == tags;
      } else if tags == DozenOnly(DozenZero) {
        var i :| 0 <= i < |v.dozens| && v.dozens[i] == DozenZero;
        assert dozens[i] == tags;
      } else {
        var i :| 0 <= i < |v.columns| && v.columns[i] == ColumnZero;
        assert columns[i] == tags;
      }
      assert tags in SinglesOf(v);
    }
  }

  /**
   * Ids are not unique, but entities that share an id share their numbers:
   * the id fixes the tags up to one Zero tag standing for another.
   */
  lemma LexiconIdsDetermineNumbers(v: Vocabulary)
    requires StreetsListed(v)
    ensures forall e1, e2 :: e1 in GenerateEntityLexicon(v) && e2 in GenerateEntityLexicon(v) && e1.id == e2.id ==>
      e1.numbers == e2.numbers
  {
    var lex := GenerateEntityLexicon(v);
    LexiconSound(v);
    forall e1, e2 | e1 in lex && e2 in lex && e1.id == e2.id
      ensures e1.numbers == e2.numbers
    {
      Identity.IdDeterminesNumbers(e1.tags, e2.tags);
    }
  }
}
