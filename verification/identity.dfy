/**
 * Why an entity id determines the entity's numbers. An id is the
 * underscore-joined list of its tags' fragments (each label lower-cased,
 * its space an underscore); no fragment followed by an underscore begins
 * another, so the id gives the fragments back one by one; and two tags
 * with the same fragment are the same tag, or both name zero.
 */
module Identity {
  import opened Seqs
  import opened Text
  import opened Classification
  import opened Naming

  /** A label character other than its one space: printable and not an underscore. */
  predicate Plain(c: char)
  {
    Visible(c) && c != '_'
  }

  predicate IsLowerLetter(c: char)
  {
    'a' <= c <= 'z'
  }

  ghost predicate AllPlain(s: string)
  {
    forall i :: 0 <= i < |s| ==> Plain(s[i])
  }

  /** A non-empty label with its one space at p (no space when p is -1) and plain characters elsewhere. */
  ghost predicate Shaped(l: string, p: int)
  {
    && l != []
    && (p == -1 || 0 < p < |l| - 1)
    && (p != -1 ==> l[p] == ' ')
    && forall i :: 0 <= i < |l| && i != p ==> Plain(l[i])
  }

  lemma OneWordShaped(a: string)
    requires a != [] && AllPlain(a)
    ensures Shaped(a, -1)
  {
  }

  lemma TwoWordsShaped(a: string, b: string)
    requires a != [] && AllPlain(a) && b != [] && AllPlain(b)
    ensures Shaped(a + " " + b, |a|)
  {
    var s := a + " " + b;
    forall i | 0 <= i < |s| && i != |a|
      ensures Plain(s[i])
    {
      if i < |a| {
        assert s[i] == a[i];
      } else {
        assert s[i] == b[i - |a| - 1];
      }
    }
  }

  /** Where a tag's label has its space; -1 for the one-word labels. */
  function SpaceAt(t: Tag): int
  {
    match t
    case ColorTag(_) => -1
    case ParityTag(_) => -1
    case RangeTag(r) => if r == Low then 3 else if r == High then 4 else -1
    case DozenTag(d) => if d == DozenZero then -1 else 3
    case ColumnTag(c) => if c == ColumnZero then -1 else 3
    case StreetTag(s) => if s.StreetZero? then -1 else |IntToString(s.ordinal)| + 2
  }

  lemma RangeLabelShaped(r: Range)
    ensures Shaped(RangeLabel(r), SpaceAt(RangeTag(r)))
  {
    match r
    case Low =>
      assert "Low (1-18)" == "Low" + " " + "(1-18)";
      TwoWordsShaped("Low", "(1-18)");
    case High =>
      assert "High (19-36)" == "High" + " " + "(19-36)";
      TwoWordsShaped("High", "(19-36)");
    case RangeZero => OneWordShaped("Zero");
  }

  lemma DozenLabelShaped(d: Dozen)
    ensures Shaped(DozenLabel(d), SpaceAt(DozenTag(d)))
  {
    match d
    case FirstDozen =>
      assert "1st Dozen" == "1st" + " " + "Dozen";
      TwoWordsShaped("1st", "Dozen");
    case SecondDozen =>
      assert "2nd Dozen" == "2nd" + " " + "Dozen";
      TwoWordsShaped("2nd", "Dozen");
    case ThirdDozen =>
      assert "3rd Dozen" == "3rd" + " " + "Dozen";
      TwoWordsShaped("3rd", "Dozen");
    case DozenZero => OneWordShaped("Zero");
  }

  lemma ColumnLabelShaped(c: Column)
    ensures Shaped(ColumnLabel(c), SpaceAt(ColumnTag(c)))
  {
    match c
    case FirstColumn =>
      assert "1st Column" == "1st" + " " + "Column";
      TwoWordsShaped("1st", "Column");
    case SecondColumn =>
      assert "2nd Column" == "2nd" + " " + "Column";
      TwoWordsShaped("2nd", "Column");
    case ThirdColumn =>
      assert "3rd Column" == "3rd" + " " + "Column";
      TwoWordsShaped("3rd", "Column");
    case ColumnZero => OneWordShaped("Zero");
  }

  lemma StreetLabelShaped(s: Street)
    ensures Shaped(StreetLabel(s), SpaceAt(StreetTag(s)))
  {
    match s
    case StreetZero => OneWordShaped("Zero");
    case StreetNo(k) =>
      var head := IntToString(k) + Suffix(k);
      assert AllPlain(head) by {
        forall i | 0 <= i < |head|
          ensures Plain(head[i])
        {
          if i >= |IntToString(k)| {
            assert head[i] == Suffix(k)[i - |IntToString(k)|];
          }
        }
      }
      assert StreetLabel(s) == head + " " + "Street";
      TwoWordsShaped(head, "Street");
  }

  lemma LabelShaped(t: Tag)
    ensures Shaped(TagLabel(t), SpaceAt(t))
  {
    match t
    case ColorTag(c) => OneWordShaped(ColorLabel(c));
    case ParityTag(p) => OneWordShaped(ParityLabel(p));
    case RangeTag(r) => RangeLabelShaped(r);
    case DozenTag(d) => DozenLabelShaped(d);
    case ColumnTag(c) => ColumnLabelShaped(c);
    case StreetTag(s) => StreetLabelShaped(s);
  }

  /** The first letters of the one-word labels. */
  predicate OneWordInitial(c: char)
  {
    c == 'R' || c == 'B' || c == 'G' || c == 'O' || c == 'E' || c == 'Z'
  }

  /** No label starts with a lower-case letter, and only the one-word labels start with R, B, G, O, E or Z. */
  lemma Initial(t: Tag)
    ensures TagLabel(t) != [] && !IsLowerLetter(TagLabel(t)[0])
    ensures OneWordInitial(TagLabel(t)[0]) <==> SpaceAt(t) == -1
  {
    if t.StreetTag? && t.street.StreetNo? {
      var k := t.street.ordinal;
      assert TagLabel(t)[0] == IntToString(k)[0];
    }
  }

  /** The character after the space: '(' for the halves, D, C and S for dozens, columns and streets. */
  lemma SecondInitial(t: Tag)
    requires SpaceAt(t) != -1
    ensures SpaceAt(t) + 1 < |TagLabel(t)|
    ensures var c := TagLabel(t)[SpaceAt(t) + 1];
      && !IsLowerLetter(c)
      && (t.RangeTag? ==> c == '(')
      && (t.DozenTag? ==> c == 'D')
      && (t.ColumnTag? ==> c == 'C')
      && (t.StreetTag? ==> c == 'S')
  {
    LabelShaped(t);
    if t.StreetTag? {
      var k := t.street.ordinal;
      var head := IntToString(k) + Suffix(k);
      assert TagLabel(t) == head + " " + "Street";
      assert TagLabel(t)[|head| + 1] == 'S';
    }
  }

  /** A tag's fragment of the id. */
  function TagId(t: Tag): (r: string)
    ensures |r| == |TagLabel(t)|
    ensures forall i :: 0 <= i < |r| ==> r[i] == IdChar(TagLabel(t)[i])
  {
    Map(TagLabel(t), IdChar)
  }

  lemma PlainIdChar(c: char)
    requires Plain(c)
    ensures IdChar(c) == LowerChar(c) && IdChar(c) != '_'
  {
    VisibleNotWhitespace(c);
  }

  /** Lower-casing tells apart two plain characters that are not lower-case letters. */
  lemma IdCharSeparates(c: char, d: char)
    requires Plain(c) && Plain(d) && !IsLowerLetter(c) && !IsLowerLetter(d)
    requires IdChar(c) == IdChar(d)
    ensures c == d
  {
    PlainIdChar(c);
    PlainIdChar(d);
  }

  /** A fragment has its underscore exactly where the label has its space. */
  lemma UnderscoreAtSpace(t: Tag, i: int)
    requires 0 <= i < |TagId(t)|
    ensures TagId(t)[i] == '_' <==> i == SpaceAt(t)
  {
    LabelShaped(t);
    if i != SpaceAt(t) {
      PlainIdChar(TagLabel(t)[i]);
    } else {
      assert IsWhitespace(' ');
    }
  }

  /** f followed by an underscore begins g. */
  predicate UnderscorePrefix(f: string, g: string)
  {
    |f| < |g| && g[..|f|] == f && g[|f|] == '_'
  }

  /** No tag's fragment followed by an underscore begins another tag's fragment. */
  lemma TagIdPrefixFree(a: Tag, b: Tag)
    ensures !UnderscorePrefix(TagId(a), TagId(b))
  {
    var fa, fb := TagId(a), TagId(b);
    if UnderscorePrefix(fa, fb) {
      var n := |fa|;
      UnderscoreAtSpace(b, n);
      LabelShaped(a);
      LabelShaped(b);
      if SpaceAt(a) != -1 {
        var p := SpaceAt(a);
        UnderscoreAtSpace(a, p);
        assert fb[p] == fa[p];
        UnderscoreAtSpace(b, p);
        assert false;
      } else {
        assert fb[0] == fa[0];
        Initial(a);
        Initial(b);
        IdCharSeparates(TagLabel(a)[0], TagLabel(b)[0]);
        assert false;
      }
    }
  }

  /** The four Zero tags: range, dozen, column and street Zero. */
  predicate IsZeroTag(t: Tag)
  {
    t == RangeTag(RangeZero) || t == DozenTag(DozenZero) || t == ColumnTag(ColumnZero) || t == StreetTag(StreetZero)
  }

  /** Every Zero tag holds of 0 and of no other number. */
  lemma ZeroTagHolds(t: Tag, x: int)
    requires IsZeroTag(t) && 0 <= x <= 36
    ensures Holds(t, Classify(x)) <==> x == 0
  {
    if x == 0 {
      ZeroEntry();
    } else {
      NonZeroRangeAndDozen(x);
      NonZeroColumn(x);
      NonZeroStreet(x);
    }
  }

  /** Two street numbers with equal fragments are the same street. */
  lemma StreetIdInjective(j: int, k: int)
    requires TagId(StreetTag(StreetNo(j))) == TagId(StreetTag(StreetNo(k)))
    ensures j == k
  {
    var a, b := StreetTag(StreetNo(j)), StreetTag(StreetNo(k));
    var sj, sk := IntToString(j), IntToString(k);
    UnderscoreAtSpace(a, SpaceAt(a));
    UnderscoreAtSpace(b, SpaceAt(a));
    assert |sj| == |sk|;
    forall i | 0 <= i < |sj|
      ensures sj[i] == sk[i]
    {
      assert TagLabel(a)[i] == sj[i];
      assert TagLabel(b)[i] == sk[i];
      assert TagId(a)[i] == TagId(b)[i];
      IdCharSeparates(sj[i], sk[i]);
    }
    assert sj == sk;
    IntToStringInjective(j, k);
  }

  /** Tags with equal fragments are equal, or are both Zero tags. */
  lemma TagIdInjective(a: Tag, b: Tag)
    requires TagId(a) == TagId(b)
    ensures a == b || (IsZeroTag(a) && IsZeroTag(b))
  {
    var la, lb := TagLabel(a), TagLabel(b);
    LabelShaped(a);
    LabelShaped(b);
    if SpaceAt(a) != -1 {
      UnderscoreAtSpace(a, SpaceAt(a));
      UnderscoreAtSpace(b, SpaceAt(a));
    } else if SpaceAt(b) != -1 {
      UnderscoreAtSpace(b, SpaceAt(b));
      UnderscoreAtSpace(a, SpaceAt(b));
    }
    assert SpaceAt(a) == SpaceAt(b);
    Initial(a);
    Initial(b);
    assert TagId(a)[0] == TagId(b)[0];
    IdCharSeparates(la[0], lb[0]);
    var p := SpaceAt(a);
    if p == -1 {
      OneWordInjective(a, b);
    } else {
      SecondInitial(a);
      SecondInitial(b);
      assert TagId(a)[p + 1] == TagId(b)[p + 1];
      IdCharSeparates(la[p + 1], lb[p + 1]);
      if a.StreetTag? || b.StreetTag? {
        assert a.StreetTag? && b.StreetTag?;
        StreetIdInjective(a.street.ordinal, b.street.ordinal);
      } else {
        TwoWordsInjective(a, b);
      }
    }
  }

  /** One-word labels with the same first letter are the same label, or both Zero. */
  lemma OneWordInjective(a: Tag, b: Tag)
    requires SpaceAt(a) == -1 && SpaceAt(b) == -1
    requires TagLabel(a)[0] == TagLabel(b)[0]
    ensures a == b || (IsZeroTag(a) && IsZeroTag(b))
  {
  }

  /** Two-word labels other than streets are told apart by their two initials. */
  lemma TwoWordsInjective(a: Tag, b: Tag)
    requires !a.StreetTag? && !b.StreetTag? && SpaceAt(a) != -1 && SpaceAt(a) == SpaceAt(b)
    requires TagLabel(a)[0] == TagLabel(b)[0]
    requires SpaceAt(a) + 1 < |TagLabel(a)| && SpaceAt(b) + 1 < |TagLabel(b)|
    requires TagLabel(a)[SpaceAt(a) + 1] == TagLabel(b)[SpaceAt(b) + 1]
    ensures a == b
  {
  }

  /** A string as it appears in an id, character by character. */
  function IdFold(s: string): string
  {
    Map(s, IdChar)
  }

  /** Folding a space-joined list is joining the folded parts with underscores. */
  lemma {:induction false} IdFoldJoin(parts: seq<string>)
    ensures IdFold(Join(parts, " ")) == Join(Map(parts, IdFold), "_")
  {
    var folded := Map(parts, IdFold);
    if |parts| == 1 {
      assert folded == [IdFold(parts[0])];
    } else if |parts| > 1 {
      var rest := Join(parts[1..], " ");
      IdFoldJoin(parts[1..]);
      MapAppend(parts[0] + " ", rest, IdChar);
      MapAppend(parts[0], " ", IdChar);
      assert Map(" ", IdChar) == "_" by {
        assert IsWhitespace(' ');
      }
      assert folded[1..] == Map(parts[1..], IdFold);
    }
  }

  /** An id is its tags' fragments joined by underscores. */
  lemma IdAsFragments(tags: TagSet)
    requires SetTags(tags) != []
    ensures EntityId(EntityName(tags)) == Join(Map(SetTags(tags), TagId), "_")
  {
    var ts := SetTags(tags);
    var name := EntityName(tags);
    EntityIdOfName(tags);
    assert EntityId(name) == IdFold(name);
    IdFoldJoin(Map(ts, TagLabel));
    assert Map(Map(ts, TagLabel), IdFold) == Map(ts, TagId);
  }

  /** The underscore join gives its parts back when no part followed by an underscore begins another. */
  lemma {:induction false} JoinUnderscoreInjective(fs: seq<string>, gs: seq<string>)
    requires forall i :: 0 <= i < |fs| ==> fs[i] != []
    requires forall j :: 0 <= j < |gs| ==> gs[j] != []
    requires forall i, j :: 0 <= i < |fs| && 0 <= j < |gs| ==>
      !UnderscorePrefix(fs[i], gs[j]) && !UnderscorePrefix(gs[j], fs[i])
    requires Join(fs, "_") == Join(gs, "_")
    ensures fs == gs
    decreases |fs|
  {
    if fs != [] && gs != [] {
      var s := Join(fs, "_");
      var f, g := fs[0], gs[0];
      JoinBegins(fs);
      JoinBegins(gs);
      if |f| == |g| {
        assert f == g;
        if |fs| > 1 && |gs| > 1 {
          assert s[|f| + 1..] == Join(fs[1..], "_");
          assert s[|g| + 1..] == Join(gs[1..], "_");
          JoinUnderscoreInjective(fs[1..], gs[1..]);
          assert fs == [f] + fs[1..];
          assert gs == [g] + gs[1..];
        } else if |fs| > 1 || |gs| > 1 {
          assert false;
        } else {
          assert fs == [f] && gs == [g];
        }
      } else if |f| < |g| {
        assert false;
      } else {
        assert false;
      }
    } else if fs != [] {
      JoinBegins(fs);
    } else if gs != [] {
      JoinBegins(gs);
    }
  }

  /** An underscore join starts with its first part, followed by an underscore when more parts come. */
  lemma JoinBegins(fs: seq<string>)
    requires fs != []
    ensures |Join(fs, "_")| >= |fs[0]| && Join(fs, "_")[..|fs[0]|] == fs[0]
    ensures |fs| == 1 ==> Join(fs, "_") == fs[0]
    ensures |fs| > 1 ==>
      |Join(fs, "_")| > |fs[0]| && Join(fs, "_")[|fs[0]|] == '_' && Join(fs, "_")[|fs[0]| + 1..] == Join(fs[1..], "_")
  {
  }

  /**
   * Tag sets whose generated names have the same id resolve to the same
   * numbers: the id fixes the tags up to exchanging one Zero tag for another.
   */
  lemma IdDeterminesNumbers(t1: TagSet, t2: TagSet)
    requires SetTags(t1) != [] && SetTags(t2) != []
    requires EntityId(EntityName(t1)) == EntityId(EntityName(t2))
    ensures ResolveNumbersByTags(t1) == ResolveNumbersByTags(t2)
  {
    var s1, s2 := SetTags(t1), SetTags(t2);
    var fs, gs := Map(s1, TagId), Map(s2, TagId);
    IdAsFragments(t1);
    IdAsFragments(t2);
    forall i | 0 <= i < |fs|
      ensures fs[i] != []
    {
      LabelShaped(s1[i]);
    }
    forall j | 0 <= j < |gs|
      ensures gs[j] != []
    {
      LabelShaped(s2[j]);
    }
    forall i, j | 0 <= i < |fs| && 0 <= j < |gs|
      ensures !UnderscorePrefix(fs[i], gs[j]) && !UnderscorePrefix(gs[j], fs[i])
    {
      TagIdPrefixFree(s1[i], s2[j]);
      TagIdPrefixFree(s2[j], s1[i]);
    }
    JoinUnderscoreInjective(fs, gs);
    forall x | 0 <= x <= 36
      ensures Matches(t1, Classify(x)) <==> Matches(t2, Classify(x))
    {
      var e := Classify(x);
      forall i | 0 <= i < |s1|
        ensures Holds(s1[i], e) <==> Holds(s2[i], e)
      {
        assert fs[i] == gs[i];
        TagIdInjective(s1[i], s2[i]);
        if s1[i] != s2[i] {
          ZeroTagHolds(s1[i], x);
          ZeroTagHolds(s2[i], x);
        }
      }
      MatchesIsEveryTag(t1, e);
      MatchesIsEveryTag(t2, e);
      if Matches(t1, e) {
        forall t | t in s2
          ensures Holds(t, e)
        {
          var j :| 0 <= j < |s2| && s2[j] == t;
          assert s1[j] in s1;
        }
      }
      if Matches(t2, e) {
        forall t | t in s1
          ensures Holds(t, e)
        {
          var j :| 0 <= j < |s1| && s1[j] == t;
          assert s2[j] in s2;
        }
      }
    }
    IncreasingUnique(ResolveNumbersByTags(t1), ResolveNumbersByTags(t2));
  }
}
