/** String helpers with JavaScript's semantics: `\s`, trim, split, join, toLowerCase. */
module Text {

  /** The characters JavaScript's `\s` (and so `trim`) treats as whitespace. */
  predicate IsWhitespace(c: char)
  {
    var n := c as int;
    n == 0x20 || 0x09 <= n <= 0x0D || n == 0xA0 || n == 0x1680 || 0x2000 <= n <= 0x200A
    || n == 0x2028 || n == 0x2029 || n == 0x202F || n == 0x205F || n == 0x3000 || n == 0xFEFF
  }

  /** toLowerCase on one character, for the ASCII letters. */
  function LowerChar(c: char): char
  {
    if 'A' <= c <= 'Z' then (c as int + 32) as char else c
  }

  function Lower(s: string): (r: string)
    ensures |r| == |s|
    ensures forall i :: 0 <= i < |s| ==> r[i] == LowerChar(s[i])
  {
    if s == [] then [] else [LowerChar(s[0])] + Lower(s[1..])
  }

  ghost predicate AllWhitespace(s: string)
  {
    forall i :: 0 <= i < |s| ==> IsWhitespace(s[i])
  }

  /** The longest suffix of s that does not start with whitespace. */
  function DropLeadingWhitespace(s: string): (r: string)
    ensures |r| <= |s| && r == s[|s| - |r|..]
    ensures r != [] ==> !IsWhitespace(r[0])
  {
    if s != [] && IsWhitespace(s[0]) then DropLeadingWhitespace(s[1..]) else s
  }

  /** What DropLeadingWhitespace cuts off is whitespace. */
  lemma {:induction false} LeadingCutIsWhitespace(s: string)
    ensures AllWhitespace(s[..|s| - |DropLeadingWhitespace(s)|])
  {
    if s != [] && IsWhitespace(s[0]) {
      var r := DropLeadingWhitespace(s[1..]);
      LeadingCutIsWhitespace(s[1..]);
      assert s[..|s| - |r|] == [s[0]] + s[1..][..|s| - 1 - |r|];
    }
  }

  /** The longest prefix of s that does not end with whitespace. */
  function DropTrailingWhitespace(s: string): (r: string)
    ensures |r| <= |s| && r == s[..|r|]
    ensures r != [] ==> !IsWhitespace(r[|r| - 1])
  {
    if s != [] && IsWhitespace(s[|s| - 1]) then DropTrailingWhitespace(s[..|s| - 1]) else s
  }

  /** What DropTrailingWhitespace cuts off is whitespace. */
  lemma {:induction false} TrailingCutIsWhitespace(s: string)
    ensures AllWhitespace(s[|DropTrailingWhitespace(s)|..])
  {
    if s != [] && IsWhitespace(s[|s| - 1]) {
      var r := DropTrailingWhitespace(s[..|s| - 1]);
      TrailingCutIsWhitespace(s[..|s| - 1]);
      assert s[|r|..] == s[..|s| - 1][|r|..] + [s[|s| - 1]];
    }
  }

  /** String.prototype.trim: the middle of s left after cutting whitespace from both ends. */
  function Trim(s: string): (r: string)
    ensures r != [] ==> !IsWhitespace(r[0]) && !IsWhitespace(r[|r| - 1])
    ensures exists a, b :: 0 <= a <= b <= |s| && r == s[a..b] && AllWhitespace(s[..a]) && AllWhitespace(s[b..])
  {
    TrimWindow(s);
    DropTrailingWhitespace(DropLeadingWhitespace(s))
  }

  /** Cutting leading, then trailing whitespace leaves a window of s with only whitespace outside it. */
  lemma TrimWindow(s: string)
    ensures var r := DropTrailingWhitespace(DropLeadingWhitespace(s));
      && (r != [] ==> !IsWhitespace(r[0]) && !IsWhitespace(r[|r| - 1]))
      && exists a, b :: 0 <= a <= b <= |s| && r == s[a..b] && AllWhitespace(s[..a]) && AllWhitespace(s[b..])
  {
    var d := DropLeadingWhitespace(s);
    LeadingCutIsWhitespace(s);
    TrailingCutIsWhitespace(d);
    WindowOfWindow(s, d, DropTrailingWhitespace(d));
  }

  /** A prefix r of a suffix d of s is a slice of s; whitespace cut from either end is whitespace outside it. */
  lemma WindowOfWindow(s: string, d: string, r: string)
    requires |d| <= |s| && d == s[|s| - |d|..] && |r| <= |d| && r == d[..|r|]
    requires AllWhitespace(s[..|s| - |d|]) && AllWhitespace(d[|r|..])
    ensures r != [] ==> r[0] == d[0]
    ensures exists a, b :: 0 <= a <= b <= |s| && r == s[a..b] && AllWhitespace(s[..a]) && AllWhitespace(s[b..])
  {
    var a := |s| - |d|;
    var b := a + |r|;
    assert r == s[a..b];
    assert s[b..] == d[|r|..];
  }

  /** A trimmed string is empty exactly when the string is all whitespace. */
  lemma TrimEmpty(s: string)
    ensures Trim(s) == [] <==> forall i :: 0 <= i < |s| ==> IsWhitespace(s[i])
  {
    var d := DropLeadingWhitespace(s);
    LeadingCutIsWhitespace(s);
    if d != [] {
      TrailingCutIsWhitespace(d);
      assert d[0] == s[|s| - |d|];
      assert DropTrailingWhitespace(d) != [] by {
        assert !IsWhitespace(d[0]);
      }
    }
  }

  /** String.prototype.split with a one-character separator. */
  function Split(s: string, sep: char): (r: seq<string>)
    ensures |r| >= 1
    ensures forall i :: 0 <= i < |r| ==> sep !in r[i]
  {
    if s == [] then [""]
    else if s[0] == sep then [""] + Split(s[1..], sep)
    else
      var rest := Split(s[1..], sep);
      [[s[0]] + rest[0]] + rest[1..]
  }

  /** Array.prototype.join. */
  function Join(parts: seq<string>, sep: string): string
  {
    if parts == [] then ""
    else if |parts| == 1 then parts[0]
    else parts[0] + sep + Join(parts[1..], sep)
  }

  /** Splitting and re-joining on the separator gives back the string. */
  lemma {:induction false} SplitJoin(s: string, sep: char)
    ensures Join(Split(s, sep), [sep]) == s
  {
    if s != [] {
      SplitJoin(s[1..], sep);
      var rest := Split(s[1..], sep);
      if s[0] == sep {
        assert Split(s, sep) == [""] + rest;
        assert ([""] + rest)[1..] == rest;
        assert s == [sep] + s[1..];
      } else {
        var r := [[s[0]] + rest[0]] + rest[1..];
        if |rest| == 1 {
          assert s == [s[0]] + s[1..];
        } else {
          assert r[1..] == rest[1..];
          assert Join(rest, [sep]) == rest[0] + [sep] + Join(rest[1..], [sep]);
          assert s == [s[0]] + s[1..];
        }
      }
    }
  }

  /** No two neighbouring characters are both whitespace. */
  ghost predicate NoAdjacentWhitespace(s: string)
  {
    forall i :: 0 < i < |s| ==> !(IsWhitespace(s[i - 1]) && IsWhitespace(s[i]))
  }

  /** A non-empty word with no whitespace at either end and no whitespace run inside. */
  ghost predicate CleanWord(s: string)
  {
    && s != []
    && !IsWhitespace(s[0])
    && !IsWhitespace(s[|s| - 1])
    && NoAdjacentWhitespace(s)
  }

  /** Joining clean words with one space gives a clean word. */
  lemma {:induction false} JoinClean(parts: seq<string>)
    requires parts != []
    requires forall i :: 0 <= i < |parts| ==> CleanWord(parts[i])
    ensures CleanWord(Join(parts, " "))
  {
    if |parts| > 1 {
      JoinClean(parts[1..]);
      var a := parts[0];
      var b := Join(parts[1..], " ");
      var j := a + " " + b;
      assert CleanWord(a);
      forall i | 0 < i < |j|
        ensures !(IsWhitespace(j[i - 1]) && IsWhitespace(j[i]))
      {
        if i < |a| {
          assert j[i - 1] == a[i - 1] && j[i] == a[i];
        } else if i == |a| {
          assert j[i - 1] == a[|a| - 1];
        } else if i == |a| + 1 {
          assert j[i] == b[0];
        } else {
          assert j[i - 1] == b[i - |a| - 2] && j[i] == b[i - |a| - 1];
        }
      }
      assert j[0] == a[0];
      assert j[|j| - 1] == b[|b| - 1];
    }
  }
}
