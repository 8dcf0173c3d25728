/** The string operations the views rely on: case folding and substring search
    for the blog search box, and joining a tag list into the edit form's text. */
module Text {

  /** `toLowerCase` restricted to ASCII: letters A-Z fold, everything else stays. */
  function LowerChar(c: char): char {
    if 'A' <= c <= 'Z' then (c as int + 32) as char else c
  }

  function Lower(s: string): (r: string)
    ensures |r| == |s|
    ensures forall i :: 0 <= i < |s| ==> r[i] == LowerChar(s[i])
  {
    if |s| == 0 then "" else [LowerChar(s[0])] + Lower(s[1..])
  }

  /** `sub` occurs in `s` starting at offset `i`. */
  predicate OccursAt(s: string, sub: string, i: int) {
    0 <= i && i + |sub| <= |s| && s[i..i + |sub|] == sub
  }

  /** `s.includes(sub)`, stated as the existence of an occurrence. */
  predicate Contains(s: string, sub: string) {
    exists i | 0 <= i <= |s| - |sub| :: OccursAt(s, sub, i)
  }

  /** The left-to-right scan that `String.prototype.includes` performs. */
  method Includes(s: string, sub: string) returns (found: bool)
    ensures found <==> Contains(s, sub)
  {
    if |sub| > |s| {
      return false;
    }
    var i := 0;
    while i <= |s| - |sub|
      invariant 0 <= i <= |s| - |sub| + 1
      invariant forall j :: 0 <= j < i ==> !OccursAt(s, sub, j)
    {
      if s[i..i + |sub|] == sub {
        assert OccursAt(s, sub, i);
        return true;
      }
      i := i + 1;
    }
    return false;
  }

  /** The empty search term occurs in every string. */
  lemma ContainsEmpty(s: string)
    ensures Contains(s, "")
  {
    assert OccursAt(s, "", 0);
  }

  /** `parts.join(sep)`. */
  function Join(parts: seq<string>, sep: string): string
    decreases |parts|
  {
    if |parts| == 0 then ""
    else if |parts| == 1 then parts[0]
    else parts[0] + sep + Join(parts[1..], sep)
  }

  /** `s.split(c)` for a one-character separator: always at least one piece. */
  function SplitOn(s: string, c: char): (r: seq<string>)
    ensures |r| >= 1
    decreases |s|
  {
    if |s| == 0 then [""]
    else if s[0] == c then [""] + SplitOn(s[1..], c)
    else
      var rest := SplitOn(s[1..], c);
      [[s[0]] + rest[0]] + rest[1..]
  }

  /** Removes one leading blank, if there is one. */
  function DropLeadingSpace(s: string): string {
    if |s| > 0 && s[0] == ' ' then s[1..] else s
  }

  /** Reads a text written as `tags.join(", ")` back into the list:
      split at every comma and drop the blank the separator added. */
  function ReadTags(text: string): (r: seq<string>)
    ensures |r| == |SplitOn(text, ',')|
  {
    var parts := SplitOn(text, ',');
    [parts[0]] + seq(|parts| - 1, i requires 0 <= i < |parts| - 1 => DropLeadingSpace(parts[i + 1]))
  }

  predicate CommaFree(s: string) {
    forall i :: 0 <= i < |s| ==> s[i] != ','
  }

  /** Splitting at the first separator of a string whose head has none. */
  lemma {:induction false} SplitAfterHead(a: string, c: char, b: string)
    requires forall i :: 0 <= i < |a| ==> a[i] != c
    ensures SplitOn(a + [c] + b, c) == [a] + SplitOn(b, c)
    decreases |a|
  {
    if |a| == 0 {
      assert a + [c] + b == [c] + b;
      assert ([c] + b)[1..] == b;
    } else {
      assert (a + [c] + b)[1..] == a[1..] + [c] + b;
      SplitAfterHead(a[1..], c, b);
      assert [a[0]] + a[1..] == a;
    }
  }

  /** Splitting a string that has no separator yields it whole. */
  lemma {:induction false} SplitWithout(a: string, c: char)
    requires forall i :: 0 <= i < |a| ==> a[i] != c
    ensures SplitOn(a, c) == [a]
    decreases |a|
  {
    if |a| > 0 {
      SplitWithout(a[1..], c);
      assert [a[0]] + a[1..] == a;
    }
  }

  /** The pieces of a ", "-joined list: the first tag as is, every later one
      behind the blank of the separator. */
  lemma {:induction false} SplitJoined(tags: seq<string>)
    requires |tags| >= 1
    requires forall k :: 0 <= k < |tags| ==> CommaFree(tags[k])
    ensures |SplitOn(Join(tags, ", "), ',')| == |tags|
    ensures SplitOn(Join(tags, ", "), ',')[0] == tags[0]
    ensures forall k :: 1 <= k < |tags| ==> SplitOn(Join(tags, ", "), ',')[k] == " " + tags[k]
    decreases |tags|
  {
    if |tags| == 1 {
      SplitWithout(tags[0], ',');
    } else {
      var rest := Join(tags[1..], ", ");
      assert Join(tags, ", ") == tags[0] + [','] + ([' '] + rest);
      SplitAfterHead(tags[0], ',', [' '] + rest);
      SplitJoined(tags[1..]);
      var pieces := SplitOn(rest, ',');
      assert SplitOn([' '] + rest, ',') == [[' '] + pieces[0]] + pieces[1..] by {
        if |rest| == 0 {
          assert ([' '] + rest)[1..] == rest;
        } else {
          assert ([' '] + rest)[1..] == rest;
        }
      }
    }
  }

  /** Joining comma-free tags with ", " loses nothing: the list reads back. */
  lemma {:induction false} ReadTagsJoin(tags: seq<string>)
    requires |tags| >= 1
    requires forall k :: 0 <= k < |tags| ==> CommaFree(tags[k])
    ensures ReadTags(Join(tags, ", ")) == tags
  {
    SplitJoined(tags);
    var parts := SplitOn(Join(tags, ", "), ',');
    var r := ReadTags(Join(tags, ", "));
    assert |r| == |tags|;
    assert r[0] == tags[0];
    forall k | 1 <= k < |tags|
      ensures r[k] == tags[k]
    {
      assert r[k] == DropLeadingSpace(parts[k]);
      assert parts[k] == " " + tags[k];
      assert (" " + tags[k])[1..] == tags[k];
    }
  }

  /** A join is empty only for no tags or a single empty tag. */
  lemma JoinEmpty(parts: seq<string>, sep: string)
    requires |sep| > 0
    ensures Join(parts, sep) == "" <==> parts == [] || parts == [""]
  {
  }

  /** The digit character for `d`; `DigitValue` reads it back. */
  function DigitChar(d: int): char
    requires 0 <= d < 10
  {
    ('0' as int + d) as char
  }

  function DigitValue(c: char): int {
    c as int - '0' as int
  }

  /** Reads a string of decimal digits, most significant first. */
  function DigitsValue(s: string): int
    decreases |s|
  {
    if |s| == 0 then 0 else DigitsValue(s[..|s| - 1]) * 10 + DigitValue(s[|s| - 1])
  }

  /** The decimal notation JavaScript uses when a number is put into a string:
      digits only, no leading zero, and reading them back gives the number. */
  function Decimal(n: nat): (r: string)
    ensures |r| >= 1
    ensures forall i :: 0 <= i < |r| ==> '0' <= r[i] <= '9'
    ensures DigitsValue(r) == n
    ensures |r| > 1 ==> r[0] != '0'
  {
    if n < 10 then [DigitChar(n)]
    else
      var r := Decimal(n / 10) + [DigitChar(n % 10)];
      assert r[..|r| - 1] == Decimal(n / 10);
      r
  }
}
