/**
 * The display labels of tags, the entity name built from them, and the
 * entity id derived from the name.
 */
module Naming {
  import opened Seqs
  import opened Text
  import opened Classification

  function ColorLabel(c: Color): string
  {
    match c
    case Red => "Red"
    case Black => "Black"
    case Green => "Green"
  }

  function ParityLabel(p: Parity): string
  {
    match p
    case Odd => "Odd"
    case Even => "Even"
  }

  function RangeLabel(r: Range): string
  {
    match r
    case Low => "Low (1-18)"
    case High => "High (19-36)"
    case RangeZero => "Zero"
  }

  function DozenLabel(d: Dozen): string
  {
    match d
    case FirstDozen => "1st Dozen"
    case SecondDozen => "2nd Dozen"
    case ThirdDozen => "3rd Dozen"
    case DozenZero => "Zero"
  }

  function ColumnLabel(c: Column): string
  {
    match c
    case FirstColumn => "1st Column"
    case SecondColumn => "2nd Column"
    case ThirdColumn => "3rd Column"
    case ColumnZero => "Zero"
  }

  predicate IsDigit(c: char)
  {
    48 <= c as int <= 57
  }

  function DigitChar(d: int): (c: char)
    requires 0 <= d <= 9
    ensures IsDigit(c) && c as int - 48 == d
  {
    (48 + d) as char
  }

  /** The decimal numeral of n, as `${n}` writes it. */
  function NatToString(n: nat): (r: string)
    ensures r != []
    ensures forall i :: 0 <= i < |r| ==> IsDigit(r[i])
  {
    if n < 10 then [DigitChar(n)] else NatToString(n / 10) + [DigitChar(n % 10)]
  }

  /** The value of a numeral: the inverse of NatToString. */
  function DigitsValue(s: string): nat
    requires forall i :: 0 <= i < |s| ==> IsDigit(s[i])
  {
    if s == [] then 0
    else
      assert IsDigit(s[|s| - 1]);
      10 * DigitsValue(s[..|s| - 1]) + (s[|s| - 1] as int - 48)
  }

  lemma {:induction false} NatToStringRoundTrip(n: nat)
    ensures DigitsValue(NatToString(n)) == n
  {
    if n >= 10 {
      NatToStringRoundTrip(n / 10);
      var r := NatToString(n);
      assert r[..|r| - 1] == NatToString(n / 10);
    }
  }

  /** `${k}` for an integer k. */
  function IntToString(k: int): (r: string)
    ensures r != []
    ensures forall i :: 0 <= i < |r| ==> IsDigit(r[i]) || (i == 0 && r[i] == '-')
    ensures r[0] == '-' <==> k < 0
  {
    if k < 0 then "-" + NatToString(-k) else NatToString(k)
  }

  /** Different integers print differently. */
  lemma IntToStringInjective(a: int, b: int)
    requires IntToString(a) == IntToString(b)
    ensures a == b
  {
    var s := IntToString(a);
    assert a < 0 <==> b < 0;
    if a < 0 {
      assert s[1..] == NatToString(-a);
      assert s[1..] == NatToString(-b);
      NatToStringRoundTrip(-a);
      NatToStringRoundTrip(-b);
    } else {
      NatToStringRoundTrip(a);
      NatToStringRoundTrip(b);
    }
  }

  /** The ordinal suffix as the table builder chooses it: only 1, 2 and 3 are special. */
  function Suffix(k: int): (r: string)
    ensures |r| == 2
  {
    if k == 1 then "st" else if k == 2 then "nd" else if k == 3 then "rd" else "th"
  }

  /** The street label: "Zero", or `${k}${suffix} Street`. */
  function StreetLabel(s: Street): string
  {
    match s
    case StreetZero => "Zero"
    case StreetNo(k) => IntToString(k) + Suffix(k) + " Street"
  }

  /** Street labels compare equal exactly when the streets do. */
  lemma StreetLabelInjective(a: Street, b: Street)
    ensures StreetLabel(a) == StreetLabel(b) <==> a == b
  {
    if StreetLabel(a) == StreetLabel(b) && a.StreetNo? && b.StreetNo? {
      var la := StreetLabel(a);
      var na := IntToString(a.ordinal);
      var nb := IntToString(b.ordinal);
      assert |na| == |nb|;
      assert la[..|na|] == na;
      assert StreetLabel(b)[..|nb|] == nb;
      IntToStringInjective(a.ordinal, b.ordinal);
    }
  }

  function TagLabel(t: Tag): string
  {
    match t
    case ColorTag(c) => ColorLabel(c)
    case ParityTag(p) => ParityLabel(p)
    case RangeTag(r) => RangeLabel(r)
    case DozenTag(d) => DozenLabel(d)
    case ColumnTag(c) => ColumnLabel(c)
    case StreetTag(s) => StreetLabel(s)
  }

  /** generateEntityName: the labels of the specified tags, in order, joined by single spaces. */
  function EntityName(tags: TagSet): string
  {
    Join(Map(SetTags(tags), TagLabel), " ")
  }

  lemma StreetLabelClean(s: Street)
    ensures CleanWord(StreetLabel(s))
  {
    if s.StreetNo? {
      var n := IntToString(s.ordinal);
      var l := StreetLabel(s);
      assert l == n + Suffix(s.ordinal) + " Street";
      forall i | 0 <= i < |n|
        ensures !IsWhitespace(l[i])
      {
        assert l[i] == n[i];
      }
      forall i | 0 < i < |l|
        ensures !(IsWhitespace(l[i - 1]) && IsWhitespace(l[i]))
      {
        if i < |n| {
          assert !IsWhitespace(l[i]);
        } else if i == |n| + 2 {
          assert l[i - 1] == Suffix(s.ordinal)[1];
        } else {
          assert l[i] == (Suffix(s.ordinal) + " Street")[i - |n|];
        }
      }
    }
  }

  /** A printable ASCII character other than the space. */
  predicate Visible(c: char)
  {
    '!' <= c <= '~'
  }

  lemma VisibleNotWhitespace(c: char)
    requires Visible(c)
    ensures !IsWhitespace(c)
  {
  }

  /** A word of visible characters is clean. */
  lemma VisibleWordClean(a: string)
    requires a != [] && forall i :: 0 <= i < |a| ==> Visible(a[i])
    ensures CleanWord(a)
  {
    forall i | 0 <= i < |a|
      ensures !IsWhitespace(a[i])
    {
      VisibleNotWhitespace(a[i]);
    }
  }

  /** Two words of visible characters, joined by one space, make a clean word. */
  lemma TwoWordsClean(a: string, b: string)
    requires a != [] && forall i :: 0 <= i < |a| ==> Visible(a[i])
    requires b != [] && forall i :: 0 <= i < |b| ==> Visible(b[i])
    ensures CleanWord(a + " " + b)
  {
    var s := a + " " + b;
    forall i | 0 <= i < |s| && i != |a|
      ensures !IsWhitespace(s[i])
    {
      if i < |a| {
        assert s[i] == a[i];
      } else {
        assert s[i] == b[i - |a| - 1];
      }
      VisibleNotWhitespace(s[i]);
    }
  }

  lemma ColorLabelClean(c: Color)
    ensures CleanWord(ColorLabel(c))
  {
    VisibleWordClean(ColorLabel(c));
  }

  lemma ParityLabelClean(p: Parity)
    ensures CleanWord(ParityLabel(p))
  {
    VisibleWordClean(ParityLabel(p));
  }

  lemma RangeLabelClean(r: Range)
    ensures CleanWord(RangeLabel(r))
  {
    match r
    case Low =>
      assert "Low (1-18)" == "Low" + " " + "(1-18)";
      TwoWordsClean("Low", "(1-18)");
    case High =>
      assert "High (19-36)" == "High" + " " + "(19-36)";
      TwoWordsClean("High", "(19-36)");
    case RangeZero => VisibleWordClean("Zero");
  }

  lemma DozenLabelClean(d: Dozen)
    ensures CleanWord(DozenLabel(d))
  {
    match d
    case FirstDozen =>
      assert "1st Dozen" == "1st" + " " + "Dozen";
      TwoWordsClean("1st", "Dozen");
    case SecondDozen =>
      assert "2nd Dozen" == "2nd" + " " + "Dozen";
      TwoWordsClean("2nd", "Dozen");
    case ThirdDozen =>
      assert "3rd Dozen" == "3rd" + " " + "Dozen";
      TwoWordsClean("3rd", "Dozen");
    case DozenZero => VisibleWordClean("Zero");
  }

  lemma ColumnLabelClean(c: Column)
    ensures CleanWord(ColumnLabel(c))
  {
    match c
    case FirstColumn =>
      assert "1st Column" == "1st" + " " + "Column";
      TwoWordsClean("1st", "Column");
    case SecondColumn =>
      assert "2nd Column" == "2nd" + " " + "Column";
      TwoWordsClean("2nd", "Column");
    case ThirdColumn =>
      assert "3rd Column" == "3rd" + " " + "Column";
      TwoWordsClean("3rd", "Column");
    case ColumnZero => VisibleWordClean("Zero");
  }

  lemma TagLabelClean(t: Tag)
    ensures CleanWord(TagLabel(t))
  {
    match t
    case ColorTag(c) => ColorLabelClean(c);
    case ParityTag(p) => ParityLabelClean(p);
    case RangeTag(r) => RangeLabelClean(r);
    case DozenTag(d) => DozenLabelClean(d);
    case ColumnTag(c) => ColumnLabelClean(c);
    case StreetTag(s) => StreetLabelClean(s);
  }

  /** A name is one clean word per tag: no whitespace at the ends and no run of two. */
  lemma EntityNameClean(tags: TagSet)
    requires SetTags(tags) != []
    ensures CleanWord(EntityName(tags))
  {
    var labels := Map(SetTags(tags), TagLabel);
    forall i | 0 <= i < |labels|
      ensures CleanWord(labels[i])
    {
      TagLabelClean(SetTags(tags)[i]);
    }
    JoinClean(labels);
  }

  /** The id character for one name character. */
  function IdChar(c: char): char
  {
    if IsWhitespace(c) then '_' else LowerChar(c)
  }

  /** replace(/\s+/g, '_'): every maximal whitespace run becomes one underscore. */
  function ReplaceWhitespaceRuns(s: string): (r: string)
    ensures |r| <= |s|
    ensures forall i :: 0 <= i < |r| ==> !IsWhitespace(r[i])
  {
    if s == [] then []
    else if IsWhitespace(s[0]) then
      var t := DropLeadingWhitespace(s[1..]);
      assert |t| < |s|;
      var rest := ReplaceWhitespaceRuns(t);
      NoWhitespaceCons('_', rest);
      "_" + rest
    else
      var rest := ReplaceWhitespaceRuns(s[1..]);
      NoWhitespaceCons(s[0], rest);
      [s[0]] + rest
  }

  lemma NoWhitespaceCons(c: char, rest: string)
    requires !IsWhitespace(c)
    requires forall i :: 0 <= i < |rest| ==> !IsWhitespace(rest[i])
    ensures forall i :: 0 <= i < |[c] + rest| ==> !IsWhitespace(([c] + rest)[i])
  {
    forall i | 0 <= i < |[c] + rest|
      ensures !IsWhitespace(([c] + rest)[i])
    {
      if i > 0 {
        assert ([c] + rest)[i] == rest[i - 1];
      }
    }
  }

  /** createEntity's id: the name lower-cased, whitespace runs replaced by '_'. */
  function EntityId(name: string): string
  {
    ReplaceWhitespaceRuns(Lower(name))
  }

  lemma LowerKeepsWhitespace(c: char)
    ensures IsWhitespace(LowerChar(c)) <==> IsWhitespace(c)
  {
  }

  /** Without whitespace runs, the replacement works character by character. */
  lemma {:induction false} ReplaceSingleWhitespace(s: string)
    requires NoAdjacentWhitespace(s)
    ensures |ReplaceWhitespaceRuns(s)| == |s|
    ensures forall i :: 0 <= i < |s| ==> ReplaceWhitespaceRuns(s)[i] == (if IsWhitespace(s[i]) then '_' else s[i])
  {
    if s != [] {
      ReplaceSingleWhitespace(s[1..]);
      if IsWhitespace(s[0]) && |s| > 1 {
        assert s[1..][0] == s[1];
        assert DropLeadingWhitespace(s[1..]) == s[1..];
      }
    }
  }

  /** For a name without whitespace runs, the id is the name mapped by IdChar. */
  lemma EntityIdPointwise(name: string)
    requires NoAdjacentWhitespace(name)
    ensures |EntityId(name)| == |name|
    ensures forall i :: 0 <= i < |name| ==> EntityId(name)[i] == IdChar(name[i])
  {
    var low := Lower(name);
    forall i | 0 < i < |low|
      ensures !(IsWhitespace(low[i - 1]) && IsWhitespace(low[i]))
    {
      LowerKeepsWhitespace(name[i - 1]);
      LowerKeepsWhitespace(name[i]);
    }
    ReplaceSingleWhitespace(low);
    forall i | 0 <= i < |name|
      ensures EntityId(name)[i] == IdChar(name[i])
    {
      LowerKeepsWhitespace(name[i]);
    }
  }

  /** The id of a generated name: one character per name character, each space an underscore. */
  lemma EntityIdOfName(tags: TagSet)
    requires SetTags(tags) != []
    ensures |EntityId(EntityName(tags))| == |EntityName(tags)|
    ensures forall i :: 0 <= i < |EntityName(tags)| ==>
      EntityId(EntityName(tags))[i] == IdChar(EntityName(tags)[i])
  {
    EntityNameClean(tags);
    EntityIdPointwise(EntityName(tags));
  }
}
