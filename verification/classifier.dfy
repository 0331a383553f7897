/**
 * The lexical emotion classifier: two fixed lists of Russian marker stems,
 * one per polarity; a text scores one point for every marker that occurs
 * in it (after lower-casing), and the polarity with more points wins, a
 * tie being neutral.
 */
module Classifier {
  import opened Text
  import opened Emotions

  /** Markers of a positive mood (`positiveWords`). */
  const PositiveMarkers: seq<string> :=
    ["хорошо", "отлично", "радост", "счастлив", "весел", "классно", "круто", "люблю", "прекрасно"]

  /** Markers of a negative mood (`negativeWords`). */
  const NegativeMarkers: seq<string> :=
    ["плохо", "грустно", "устал", "тяжело", "болит", "печаль", "одинок", "страшно", "больно"]

  /** No element of `s` is repeated. */
  predicate Distinct<T(==)>(s: seq<T>) {
    forall i, j :: 0 <= i < j < |s| ==> s[i] != s[j]
  }

  /** The markers that occur in `t`, in list order (`words.filter(w => t.includes(w))`). */
  function Matched(markers: seq<string>, t: string): (r: seq<string>)
    ensures |r| <= |markers|
    ensures forall w :: w in r <==> w in markers && Contains(t, w)
  {
    if markers == [] then []
    else (if Contains(t, markers[0]) then [markers[0]] else []) + Matched(markers[1..], t)
  }

  /**
   * Number of positive markers in the lower-cased text (`positiveCount`):
   * at most the nine markers, and zero exactly when none of them occurs.
   */
  function PositiveCount(text: string): (n: nat)
    ensures n <= |PositiveMarkers|
    ensures n == 0 <==> forall m :: m in PositiveMarkers ==> !Contains(Lower(text), m)
  {
    var found := Matched(PositiveMarkers, Lower(text));
    assert found != [] ==> found[0] in found;
    |found|
  }

  /**
   * Number of negative markers in the lower-cased text (`negativeCount`):
   * at most the nine markers, and zero exactly when none of them occurs.
   */
  function NegativeCount(text: string): (n: nat)
    ensures n <= |NegativeMarkers|
    ensures n == 0 <==> forall m :: m in NegativeMarkers ==> !Contains(Lower(text), m)
  {
    var found := Matched(NegativeMarkers, Lower(text));
    assert found != [] ==> found[0] in found;
    |found|
  }

  /** The three-way comparison of the two counts; a tie, 0/0 included, is neutral. */
  function Decide(positive: nat, negative: nat): (e: Emotion)
    ensures e == Positive <==> positive > negative
    ensures e == Negative <==> negative > positive
    ensures e == Neutral <==> positive == negative
  {
    if positive > negative then Positive
    else if negative > positive then Negative
    else Neutral
  }

  /** What an analysis shows the user: the category and its advice. */
  datatype Analysis = Analysis(emotion: Emotion, advice: string)

  /**
   * `analyzeEmotion` without its presentation delay: total over all texts,
   * and the advice always belongs to the category found.
   */
  function Analyze(text: string): (r: Analysis)
    ensures r.advice == Advice(r.emotion)
    ensures r.emotion == Positive <==> PositiveCount(text) > NegativeCount(text)
    ensures r.emotion == Negative <==> NegativeCount(text) > PositiveCount(text)
    ensures r.emotion == Neutral <==> PositiveCount(text) == NegativeCount(text)
  {
    var e := Decide(PositiveCount(text), NegativeCount(text));
    Analysis(e, Advice(e))
  }

  /* ---------------------------------------------------------------------- */
  /* The decision rule                                                       */
  /* ---------------------------------------------------------------------- */

  /** The category's score is the sign of the difference of the counts. */
  lemma DecideIsSignOfDifference(positive: nat, negative: nat)
    ensures Score(Decide(positive, negative)) == Sign(positive - negative)
  {
  }

  /** Swapping the counts swaps positive and negative; the rule favours neither side. */
  lemma DecideSymmetric(positive: nat, negative: nat)
    ensures Decide(negative, positive) == Opposite(Decide(positive, negative))
  {
  }

  /* ---------------------------------------------------------------------- */
  /* The counts                                                              */
  /* ---------------------------------------------------------------------- */

  /** A list without repeats has as many elements as positions. */
  lemma {:induction false} DistinctCardinality<T>(s: seq<T>)
    requires Distinct(s)
    ensures |set x | x in s| == |s|
  {
    if s != [] {
      DistinctCardinality(s[1..]);
      assert (set x | x in s) == {s[0]} + (set x | x in s[1..]);
      assert s[0] !in (set x | x in s[1..]);
    }
  }

  /** Filtering a list without repeats yields a list without repeats. */
  lemma {:induction false} MatchedDistinct(markers: seq<string>, t: string)
    requires Distinct(markers)
    ensures Distinct(Matched(markers, t))
  {
    if markers != [] {
      MatchedDistinct(markers[1..], t);
      assert markers[0] !in markers[1..];
    }
  }

  /**
   * For a list without repeats, the count is the number of distinct markers
   * that occur in the text.
   */
  lemma CountIsOccurringMarkers(markers: seq<string>, t: string)
    requires Distinct(markers)
    ensures |Matched(markers, t)| == |set w | w in markers && Contains(t, w)|
  {
    MatchedDistinct(markers, t);
    DistinctCardinality(Matched(markers, t));
    assert (set x | x in Matched(markers, t)) == (set w | w in markers && Contains(t, w));
  }

  /** Neither marker list repeats a marker. */
  lemma MarkersDistinct()
    ensures Distinct(PositiveMarkers) && Distinct(NegativeMarkers)
  {
  }

  /** Each count is the number of that list's markers found in the lower-cased text, at most 9. */
  lemma CountsAreMarkersFound(text: string)
    ensures PositiveCount(text) == |set w | w in PositiveMarkers && Contains(Lower(text), w)|
    ensures NegativeCount(text) == |set w | w in NegativeMarkers && Contains(Lower(text), w)|
    ensures PositiveCount(text) <= |PositiveMarkers| == 9
    ensures NegativeCount(text) <= |NegativeMarkers| == 9
  {
    MarkersDistinct();
    CountIsOccurringMarkers(PositiveMarkers, Lower(text));
    CountIsOccurringMarkers(NegativeMarkers, Lower(text));
  }

  /** A larger text (one containing the old one) matches at least the same markers. */
  lemma {:induction false} MatchedMonotone(markers: seq<string>, t: string, t': string)
    requires Contains(t', t)
    ensures |Matched(markers, t)| <= |Matched(markers, t')|
  {
    if markers != [] {
      MatchedMonotone(markers[1..], t, t');
      if Contains(t, markers[0]) {
        ContainsTransitive(t', t, markers[0]);
      }
    }
  }

  /** A larger text that also gains a new marker of the list matches strictly more. */
  lemma {:induction false} MatchedGrowsStrictly(markers: seq<string>, t: string, t': string, m: string)
    requires Contains(t', t)
    requires m in markers && Contains(t', m) && !Contains(t, m)
    ensures |Matched(markers, t)| < |Matched(markers, t')|
  {
    if markers[0] == m {
      MatchedMonotone(markers[1..], t, t');
    } else {
      MatchedGrowsStrictly(markers[1..], t, t', m);
      if Contains(t, markers[0]) {
        ContainsTransitive(t', t, markers[0]);
      }
    }
  }

  /** All positive markers are already lower case. */
  lemma PositiveMarkersAreLowercase()
    ensures forall m :: m in PositiveMarkers ==> Lower(m) == m
  {
  }

  /** All negative markers are already lower case. */
  lemma NegativeMarkersAreLowercase()
    ensures forall m :: m in NegativeMarkers ==> Lower(m) == m
  {
  }

  /** Adding text around an entry never lowers either count. */
  lemma CountsMonotone(text: string, text': string)
    requires Contains(text', text)
    ensures PositiveCount(text) <= PositiveCount(text')
    ensures NegativeCount(text) <= NegativeCount(text')
  {
    LowerKeepsContains(text', text);
    MatchedMonotone(PositiveMarkers, Lower(text), Lower(text'));
    MatchedMonotone(NegativeMarkers, Lower(text), Lower(text'));
  }

  /**
   * Appending a positive marker the text did not yet hold raises the
   * positive count and leaves the negative count no lower.
   */
  lemma AppendingPositiveMarker(text: string, m: string)
    requires m in PositiveMarkers && !Contains(Lower(text), m)
    ensures PositiveCount(text) < PositiveCount(text + m)
    ensures NegativeCount(text) <= NegativeCount(text + m)
  {
    ContainsInfix([], text, m);
    assert [] + text + m == text + m;
    CountsMonotone(text, text + m);
    LowerAppend(text, m);
    PositiveMarkersAreLowercase();
    ContainsInfix(Lower(text), m, []);
    assert Lower(text) + m + [] == Lower(text + m);
    LowerKeepsContains(text + m, text);
    MatchedGrowsStrictly(PositiveMarkers, Lower(text), Lower(text + m), m);
  }

  /**
   * Appending a negative marker the text did not yet hold raises the
   * negative count and leaves the positive count no lower.
   */
  lemma AppendingNegativeMarker(text: string, m: string)
    requires m in NegativeMarkers && !Contains(Lower(text), m)
    ensures NegativeCount(text) < NegativeCount(text + m)
    ensures PositiveCount(text) <= PositiveCount(text + m)
  {
    ContainsInfix([], text, m);
    assert [] + text + m == text + m;
    CountsMonotone(text, text + m);
    LowerAppend(text, m);
    NegativeMarkersAreLowercase();
    ContainsInfix(Lower(text), m, []);
    assert Lower(text) + m + [] == Lower(text + m);
    LowerKeepsContains(text + m, text);
    MatchedGrowsStrictly(NegativeMarkers, Lower(text), Lower(text + m), m);
  }
}
