/** The three string operations the header search relies on: `trim`,
    `toLowerCase` and `includes`. Characters are modelled as ASCII: `trim`
    drops the ASCII white-space characters and `toLowerCase` maps only
    'A'..'Z'. */
module Text {

  /** The ASCII characters JavaScript's `trim` removes: space, tab, line
      feed, vertical tab, form feed and carriage return. */
  predicate IsSpace(c: char)
  {
    c == ' ' || c == '\t' || c == '\n' || c == '\U{B}' || c == '\U{C}' || c == '\r'
  }

  /** Drops leading white space. */
  function TrimStart(s: string): (r: string)
    ensures |r| <= |s| && r == s[|s| - |r|..]
    ensures forall i :: 0 <= i < |s| - |r| ==> IsSpace(s[i])
    ensures |r| > 0 ==> !IsSpace(r[0])
  {
    if |s| > 0 && IsSpace(s[0]) then TrimStart(s[1..]) else s
  }

  /** Drops trailing white space. */
  function TrimEnd(s: string): (r: string)
    ensures |r| <= |s| && r == s[..|r|]
    ensures forall i :: |r| <= i < |s| ==> IsSpace(s[i])
    ensures |r| > 0 ==> !IsSpace(r[|r| - 1])
  {
    if |s| > 0 && IsSpace(s[|s| - 1]) then TrimEnd(s[..|s| - 1]) else s
  }

  /** `s.trim()`: white space removed from both ends. The result is a
      contiguous piece `s[k..k + |r|]` of `s` with only white space around it. */
  function Trim(s: string): (r: string)
    ensures |r| == 0 || (!IsSpace(r[0]) && !IsSpace(r[|r| - 1]))
    ensures exists k :: TrimmedAt(s, r, k)
  {
    var t := TrimStart(s);
    var r := TrimEnd(t);
    assert TrimmedAt(s, r, |s| - |t|) by {
      assert t[..|r|] == s[|s| - |t|..|s| - |t| + |r|];
      assert forall i :: |s| - |t| + |r| <= i < |s| ==> s[i] == t[i - (|s| - |t|)];
    }
    r
  }

  /** `r` sits at position `k` of `s`, and everything of `s` before and after it is white space. */
  ghost predicate TrimmedAt(s: string, r: string, k: int)
  {
    && 0 <= k && k + |r| <= |s|
    && r == s[k..k + |r|]
    && (forall i :: 0 <= i < k ==> IsSpace(s[i]))
    && (forall i :: k + |r| <= i < |s| ==> IsSpace(s[i]))
  }

  /** Every character is white space. */
  predicate Blank(s: string)
  {
    forall i :: 0 <= i < |s| ==> IsSpace(s[i])
  }

  /** A string trims to the empty string exactly when it is all white space. */
  lemma {:induction false} TrimEmptyIffBlank(s: string)
    ensures Trim(s) == "" <==> Blank(s)
  {
    var t := TrimStart(s);
    if Trim(s) == "" {
      assert |t| == 0;
    } else {
      var r := Trim(s);
      assert r[0] == t[0];
      assert t[0] == s[|s| - |t|];
    }
  }

  /** ASCII lower-casing of one character. */
  function LowerChar(c: char): (d: char)
    ensures 'A' <= c <= 'Z' ==> 'a' <= d <= 'z' && d as int - c as int == 32
    ensures !('A' <= c <= 'Z') ==> d == c
  {
    if 'A' <= c <= 'Z' then (c as int + 32) as char else c
  }

  /** `s.toLowerCase()`, character by character. */
  function ToLower(s: string): (r: string)
    ensures |r| == |s|
    ensures forall i :: 0 <= i < |s| ==> r[i] == LowerChar(s[i])
  {
    seq(|s|, i requires 0 <= i < |s| => LowerChar(s[i]))
  }

  /** Lower-casing twice is lower-casing once. */
  lemma ToLowerIdempotent(s: string)
    ensures ToLower(ToLower(s)) == ToLower(s)
  {
    forall i | 0 <= i < |s|
      ensures ToLower(ToLower(s))[i] == ToLower(s)[i]
    {
      var c := s[i];
      if 'A' <= c <= 'Z' {
        assert 'a' <= LowerChar(c) <= 'z';
      }
    }
  }

  /** `needle` occurs in `hay` starting at position `i`. */
  predicate OccursAt(hay: string, needle: string, i: int)
  {
    0 <= i && i + |needle| <= |hay| && hay[i..i + |needle|] == needle
  }

  /** `hay.includes(needle)`: some position of `hay` starts an occurrence of `needle`. */
  function Includes(hay: string, needle: string): (b: bool)
    ensures b <==> exists i :: OccursAt(hay, needle, i)
    decreases |hay|
  {
    if |needle| > |hay| then
      assert forall i :: !OccursAt(hay, needle, i);
      false
    else if hay[..|needle|] == needle then
      assert OccursAt(hay, needle, 0);
      true
    else
      var r := Includes(hay[1..], needle);
      OccursShift(hay, needle);
      r
  }

  /** An occurrence in `hay` other than at 0 is an occurrence in `hay[1..]` shifted by one. */
  lemma OccursShift(hay: string, needle: string)
    requires |hay| > 0 && !OccursAt(hay, needle, 0)
    ensures (exists i :: OccursAt(hay, needle, i)) <==> (exists i :: OccursAt(hay[1..], needle, i))
  {
    if exists i :: OccursAt(hay, needle, i) {
      var i :| OccursAt(hay, needle, i);
      assert i > 0;
      assert hay[1..][i - 1..i - 1 + |needle|] == hay[i..i + |needle|];
      assert OccursAt(hay[1..], needle, i - 1);
    }
    if exists i :: OccursAt(hay[1..], needle, i) {
      var i :| OccursAt(hay[1..], needle, i);
      assert hay[1..][i..i + |needle|] == hay[i + 1..i + 1 + |needle|];
      assert OccursAt(hay, needle, i + 1);
    }
  }

  /** Lower-casing neither makes a string blank nor makes a blank one non-blank. */
  lemma ToLowerKeepsBlank(s: string)
    ensures Trim(ToLower(s)) == "" <==> Trim(s) == ""
  {
    TrimEmptyIffBlank(s);
    TrimEmptyIffBlank(ToLower(s));
    BlankLower(s);
  }

  lemma BlankLower(s: string)
    ensures Blank(ToLower(s)) <==> Blank(s)
  {
    forall i | 0 <= i < |s|
      ensures IsSpace(ToLower(s)[i]) <==> IsSpace(s[i])
    {
    }
  }
}
