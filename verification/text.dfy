/**
 * The string operations the diary page relies on, over `string` = `seq<char>`:
 * substring containment (`String.prototype.includes`), lower-casing
 * (`toLowerCase`, for the Latin and Russian Cyrillic capitals) and
 * whitespace trimming (`trim`).
 */
module Text {

  /* ---------------------------------------------------------------------- */
  /* Substring containment                                                   */
  /* ---------------------------------------------------------------------- */

  /** `w` occurs in `t` as the window starting at index `i`. */
  predicate MatchesAt(t: string, w: string, i: int) {
    0 <= i && i + |w| <= |t| && t[i..i + |w|] == w
  }

  /** Dropping the first character of `t` moves every window one place to the left. */
  lemma MatchShift(t: string, w: string)
    requires t != []
    ensures (exists i :: MatchesAt(t[1..], w, i)) <==> (exists i :: 1 <= i && MatchesAt(t, w, i))
  {
    if exists i :: MatchesAt(t[1..], w, i) {
      var i :| MatchesAt(t[1..], w, i);
      assert t[1..][i..i + |w|] == t[i + 1..i + 1 + |w|];
      assert MatchesAt(t, w, i + 1);
    }
    if exists i :: 1 <= i && MatchesAt(t, w, i) {
      var i :| 1 <= i && MatchesAt(t, w, i);
      assert t[1..][i - 1..i - 1 + |w|] == t[i..i + |w|];
      assert MatchesAt(t[1..], w, i - 1);
    }
  }

  /**
   * `t.includes(w)`: scans the start positions of `t` from left to right;
   * it holds exactly when some window of `t` equals `w`, possibly inside a
   * longer word.
   */
  predicate Contains(t: string, w: string): (r: bool)
    ensures r <==> exists i :: MatchesAt(t, w, i)
    decreases |t|
  {
    if |w| > |t| then false
    else if t[..|w|] == w then
      assert MatchesAt(t, w, 0);
      true
    else
      assert t[0..|w|] == t[..|w|];
      if |w| == |t| then false
      else
        MatchShift(t, w);
        Contains(t[1..], w)
  }

  /** A window equal to `w` is a witness for containment. */
  lemma ContainsAt(t: string, w: string, i: int)
    requires MatchesAt(t, w, i)
    ensures Contains(t, w)
  {
  }

  /** Containment is transitive: a word inside a part of `t` is inside `t`. */
  lemma ContainsTransitive(t: string, u: string, w: string)
    requires Contains(t, u) && Contains(u, w)
    ensures Contains(t, w)
  {
    var i :| MatchesAt(t, u, i);
    var j :| MatchesAt(u, w, j);
    forall k | 0 <= k < |w|
      ensures t[i + j + k] == w[k]
    {
      assert w[k] == u[j + k] == t[i + j + k];
    }
    assert t[i + j..i + j + |w|] == w;
    ContainsAt(t, w, i + j);
  }

  /** Every text contains itself, and stays contained when text is added around it. */
  lemma ContainsInfix(a: string, t: string, b: string)
    ensures Contains(a + t + b, t)
  {
    assert (a + t + b)[|a|..|a| + |t|] == t;
    ContainsAt(a + t + b, t, |a|);
  }

  /** A word with a character that the text lacks does not occur in it. */
  lemma AbsentCharExcludes(t: string, w: string, c: char)
    requires c in w && c !in t
    ensures !Contains(t, w)
  {
    var j :| 0 <= j < |w| && w[j] == c;
    forall i | 0 <= i && i + |w| <= |t|
      ensures !MatchesAt(t, w, i)
    {
      assert t[i..i + |w|][j] == t[i + j];
    }
  }

  /** The characters `a`, `b` never stand side by side, in this order, in `t`. */
  predicate PairAbsent(t: string, a: char, b: char) {
    forall k :: 0 <= k < |t| - 1 ==> !(t[k] == a && t[k + 1] == b)
  }

  /** A word with two adjacent characters that never stand side by side in the text does not occur in it. */
  lemma AbsentPairExcludes(t: string, w: string, j: int)
    requires 0 <= j && j + 1 < |w|
    requires PairAbsent(t, w[j], w[j + 1])
    ensures !Contains(t, w)
  {
    forall i | 0 <= i && i + |w| <= |t|
      ensures !MatchesAt(t, w, i)
    {
      assert t[i..i + |w|][j] == t[i + j];
      assert t[i..i + |w|][j + 1] == t[i + j + 1];
    }
  }

  /* ---------------------------------------------------------------------- */
  /* Lower-casing                                                            */
  /* ---------------------------------------------------------------------- */

  /** Capital letters `toLowerCase` maps one-to-one: Latin A-Z and Cyrillic U+0400-U+042F. */
  predicate IsCapital(c: char) {
    || 'A' <= c <= 'Z'
    || '\U{0400}' <= c <= '\U{042F}'
  }

  /**
   * Lower-case one character: A-Z and А-Я move up by 0x20, the Cyrillic
   * capitals Ѐ-Џ (U+0400-U+040F, Ё among them) by 0x50; everything else is
   * left as it is.
   */
  function LowerChar(c: char): (r: char)
    ensures !IsCapital(r)
    ensures !IsCapital(c) ==> r == c
    ensures 'A' <= c <= 'Z' ==> r as int == c as int + 0x20 && 'a' <= r <= 'z'
    ensures '\U{0410}' <= c <= '\U{042F}' ==> r as int == c as int + 0x20 && '\U{0430}' <= r <= '\U{044F}'
    ensures '\U{0400}' <= c <= '\U{040F}' ==> r as int == c as int + 0x50 && '\U{0450}' <= r <= '\U{045F}'
  {
    if 'A' <= c <= 'Z' then (c as int + 0x20) as char
    else if '\U{0410}' <= c <= '\U{042F}' then (c as int + 0x20) as char
    else if '\U{0400}' <= c <= '\U{040F}' then (c as int + 0x50) as char
    else c
  }

  /** `s.toLowerCase()`, character by character: same length, no capital left. */
  function Lower(s: string): (r: string)
    ensures |r| == |s|
    ensures forall i :: 0 <= i < |s| ==> r[i] == LowerChar(s[i])
    ensures forall i :: 0 <= i < |r| ==> !IsCapital(r[i])
  {
    seq(|s|, i requires 0 <= i < |s| => LowerChar(s[i]))
  }

  /** Lower-casing a text that has no capitals changes nothing. */
  lemma LowerFixesLowercase(s: string)
    requires forall i :: 0 <= i < |s| ==> !IsCapital(s[i])
    ensures Lower(s) == s
  {
  }

  /** Lower-casing is idempotent. */
  lemma LowerIdempotent(s: string)
    ensures Lower(Lower(s)) == Lower(s)
  {
    LowerFixesLowercase(Lower(s));
  }

  /** Lower-casing works piecewise: it commutes with concatenation. */
  lemma LowerAppend(a: string, b: string)
    ensures Lower(a + b) == Lower(a) + Lower(b)
  {
  }

  /** Lower-casing keeps containment: a part of the text stays a part of the lowered text. */
  lemma LowerKeepsContains(t: string, u: string)
    requires Contains(t, u)
    ensures Contains(Lower(t), Lower(u))
  {
    var i :| MatchesAt(t, u, i);
    assert Lower(t)[i..i + |u|] == Lower(t[i..i + |u|]);
    ContainsAt(Lower(t), Lower(u), i);
  }

  /* ---------------------------------------------------------------------- */
  /* Trimming                                                                */
  /* ---------------------------------------------------------------------- */

  /** The characters `trim` removes: ECMAScript WhiteSpace and LineTerminator. */
  predicate IsWhitespace(c: char) {
    || c == '\t' || c == '\n' || c == '\U{000B}' || c == '\U{000C}' || c == '\r'
    || c == ' ' || c == '\U{00A0}' || c == '\U{1680}'
    || '\U{2000}' <= c <= '\U{200A}'
    || c == '\U{2028}' || c == '\U{2029}' || c == '\U{202F}' || c == '\U{205F}'
    || c == '\U{3000}' || c == '\U{FEFF}'
  }

  /** Every character of `s` is whitespace (so is the empty text). */
  predicate IsBlank(s: string) {
    forall i :: 0 <= i < |s| ==> IsWhitespace(s[i])
  }

  /** `s` without its leading whitespace. */
  function TrimStart(s: string): (r: string)
    ensures |r| <= |s| && r == s[|s| - |r|..]
    ensures IsBlank(s[..|s| - |r|])
    ensures r == [] || !IsWhitespace(r[0])
  {
    if s != [] && IsWhitespace(s[0]) then TrimStart(s[1..]) else s
  }

  /** `s` without its trailing whitespace. */
  function TrimEnd(s: string): (r: string)
    ensures |r| <= |s| && r == s[..|r|]
    ensures IsBlank(s[|r|..])
    ensures r == [] || !IsWhitespace(r[|r| - 1])
  {
    if s != [] && IsWhitespace(s[|s| - 1]) then TrimEnd(s[..|s| - 1]) else s
  }

  /** The length of the blank prefix of `s`: where its first non-whitespace character stands. */
  function LeadingBlanks(s: string): (k: nat)
    ensures k <= |s| && IsBlank(s[..k])
    ensures k == |s| || !IsWhitespace(s[k])
  {
    |s| - |TrimStart(s)|
  }

  /** A part `r` cut from the front of `u`, itself cut from the back of `s`, is the part of `s` at `|s| - |u|`. */
  lemma MiddleOfSuffix(s: string, u: string, r: string)
    requires |u| <= |s| && u == s[|s| - |u|..]
    requires |r| <= |u| && r == u[..|r|] && IsBlank(u[|r|..])
    ensures s[|s| - |u|..|s| - |u| + |r|] == r
    ensures IsBlank(s[|s| - |u| + |r|..])
  {
    var k := |s| - |u|;
    assert s[k..k + |r|] == u[..|r|];
    assert s[k + |r|..] == u[|r|..];
  }

  /**
   * `s.trim()`: the part of `s` that starts at its first non-whitespace
   * character and is followed only by whitespace; it neither starts nor
   * ends with whitespace.
   */
  function Trim(s: string): (r: string)
    ensures LeadingBlanks(s) + |r| <= |s|
    ensures s[LeadingBlanks(s)..LeadingBlanks(s) + |r|] == r
    ensures IsBlank(s[LeadingBlanks(s) + |r|..])
    ensures r == [] || (!IsWhitespace(r[0]) && !IsWhitespace(r[|r| - 1]))
  {
    var u := TrimStart(s);
    var r := TrimEnd(u);
    MiddleOfSuffix(s, u, r);
    r
  }


  /** Leading-whitespace removal empties a blank text. */
  lemma {:induction false} TrimStartOfBlank(s: string)
    requires IsBlank(s)
    ensures TrimStart(s) == []
  {
    if s != [] {
      TrimStartOfBlank(s[1..]);
    }
  }

  /** `!s.trim()` holds exactly for the blank texts. */
  lemma TrimEmptyIffBlank(s: string)
    ensures Trim(s) == [] <==> IsBlank(s)
  {
    var t := TrimStart(s);
    if Trim(s) == [] {
      assert IsBlank(t) by {
        assert t[0..] == t;
      }
      assert s == s[..|s| - |t|] + t;
    }
    if IsBlank(s) {
      TrimStartOfBlank(s);
    }
  }
}
