/** The string helpers of Python that the modelled code relies on:
    str.strip, str.lower, the regex module's split(r"\s+", ...) and " ".join. */
module Text {

  /** Whitespace as str.strip sees it (str.isspace), restricted to ASCII:
      space, tab, line feed, vertical tab, form feed, carriage return and
      the four separators U+001C to U+001F. */
  predicate IsSpace(c: char) {
    c == ' ' || '\t' <= c <= '\r' || '\U{001C}' <= c <= '\U{001F}'
  }

  /** Whitespace as the class \s of the third-party regex module sees it
      (the Unicode White_Space property), restricted to ASCII: space, tab,
      line feed, vertical tab, form feed and carriage return. The separators
      U+001C to U+001F are not in it, so every split space is a strip space. */
  predicate IsSplitSpace(c: char)
    ensures IsSplitSpace(c) ==> IsSpace(c)
  {
    c == ' ' || '\t' <= c <= '\r'
  }

  ghost predicate NoSplitSpace(s: string) {
    forall i :: 0 <= i < |s| ==> !IsSplitSpace(s[i])
  }

  ghost predicate AllSpace(s: string) {
    forall i :: 0 <= i < |s| ==> IsSpace(s[i])
  }

  /** Number of whitespace characters at the start of s. */
  function LeadingSpaces(s: string): (k: nat)
    ensures k <= |s| && AllSpace(s[..k])
    ensures k < |s| ==> !IsSpace(s[k])
  {
    if s != [] && IsSpace(s[0]) then 1 + LeadingSpaces(s[1..]) else 0
  }

  /** Number of whitespace characters at the end of s. */
  function TrailingSpaces(s: string): (k: nat)
    ensures k <= |s| && AllSpace(s[|s| - k..])
    ensures k < |s| ==> !IsSpace(s[|s| - k - 1])
  {
    if s != [] && IsSpace(s[|s| - 1]) then 1 + TrailingSpaces(s[..|s| - 1]) else 0
  }

  /** Index of the first split space of s, or |s| when there is none. */
  function FirstSplitSpace(s: string): (i: nat)
    ensures i <= |s| && NoSplitSpace(s[..i])
    ensures i < |s| ==> IsSplitSpace(s[i])
  {
    if s == [] || IsSplitSpace(s[0]) then 0 else 1 + FirstSplitSpace(s[1..])
  }

  /** Number of split spaces at the start of s. */
  function LeadingSplitSpaces(s: string): (k: nat)
    ensures k <= |s|
    ensures forall i :: 0 <= i < k ==> IsSplitSpace(s[i])
    ensures k < |s| ==> !IsSplitSpace(s[k])
  {
    if s != [] && IsSplitSpace(s[0]) then 1 + LeadingSplitSpaces(s[1..]) else 0
  }

  /** Python's str.strip(): whitespace removed from both ends. */
  function Strip(s: string): (r: string)
  {
    var t := s[LeadingSpaces(s)..];
    t[..|t| - TrailingSpaces(t)]
  }

  lemma StripShape(s: string)
    ensures var r := Strip(s);
      exists i, j :: 0 <= i <= j <= |s| && r == s[i..j] && AllSpace(s[..i]) && AllSpace(s[j..])
    ensures var r := Strip(s);
      r != [] ==> !IsSpace(r[0]) && !IsSpace(r[|r| - 1])
  {
    var i := LeadingSpaces(s);
    var t := s[i..];
    var k := TrailingSpaces(t);
    var j := |s| - k;
    var r := Strip(s);
    assert r == s[i..j];
    assert AllSpace(s[j..]) by {
      assert s[j..] == t[|t| - k..];
    }
    assert 0 <= i <= j <= |s| && r == s[i..j] && AllSpace(s[..i]) && AllSpace(s[j..]);
    if r != [] {
      assert r[0] == s[i];
      assert r[|r| - 1] == t[|t| - k - 1];
    }
  }

  /** The stripped string is empty exactly when the input is all whitespace. */
  lemma StripEmptyIff(s: string)
    ensures Strip(s) == [] <==> AllSpace(s)
  {
    var i := LeadingSpaces(s);
    if i < |s| {
      var t := s[i..];
      assert !IsSpace(t[0]);
      assert TrailingSpaces(t) < |t|;
    } else {
      assert s[..i] == s;
    }
  }

  /** Stripping twice is stripping once. */
  lemma StripIdempotent(s: string)
    ensures Strip(Strip(s)) == Strip(s)
  {
    StripShape(s);
    var r := Strip(s);
    if r != [] {
      assert LeadingSpaces(r) == 0;
      assert TrailingSpaces(r) == 0;
      assert r[0..] == r;
    }
  }

  function LowerChar(c: char): char {
    if 'A' <= c <= 'Z' then (c as int - 'A' as int + 'a' as int) as char else c
  }

  /** Python's str.lower(), on ASCII letters. */
  function Lower(s: string): (r: string)
    ensures |r| == |s|
    ensures forall i :: 0 <= i < |s| ==> r[i] == LowerChar(s[i])
  {
    seq(|s|, i requires 0 <= i < |s| => LowerChar(s[i]))
  }

  /** regex.split(r"\s+", s) with the third-party regex module: the pieces
      between maximal runs of split spaces. */
  function SplitWs(s: string): (r: seq<string>)
    ensures |r| >= 1
    decreases |s|
  {
    var i := FirstSplitSpace(s);
    if i == |s| then [s]
    else
      var j := i + LeadingSplitSpaces(s[i..]);
      [s[..i]] + SplitWs(s[j..])
  }

  /** Python's " ".join(words). */
  function Join(words: seq<string>): string
  {
    if |words| == 0 then ""
    else if |words| == 1 then words[0]
    else Join(words[..|words| - 1]) + " " + words[|words| - 1]
  }
}
