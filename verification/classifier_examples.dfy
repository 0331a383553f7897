/**
 * Worked examples of the classifier on concrete diary texts. That a marker
 * is absent is shown by evidence: a character of the marker outside the
 * text's alphabet, or two adjacent characters of the marker that never
 * stand side by side in the text.
 */
module ClassifierExamples {
  import opened Text
  import opened Emotions
  import opened Classifier

  /** Why a word cannot occur in a text: its character at `j`, or its pair at `j`, `j + 1`. */
  datatype Evidence = MissingChar(j: int) | MissingPair(j: int)

  /** `evidence` shows that `w` does not occur in `t`, whose characters all lie in `alphabet`. */
  predicate Rules(t: string, alphabet: set<char>, w: string, evidence: Evidence) {
    match evidence
    case MissingChar(j) => 0 <= j < |w| && w[j] !in alphabet
    case MissingPair(j) => 0 <= j && j + 1 < |w| && PairAbsent(t, w[j], w[j + 1])
  }

  /** A text for which each marker has its evidence of absence matches no marker. */
  lemma {:induction false} NoneMatchedByEvidence(
    markers: seq<string>, t: string, alphabet: set<char>, evidence: seq<Evidence>)
    requires forall k :: 0 <= k < |t| ==> t[k] in alphabet
    requires |evidence| == |markers|
    requires forall i :: 0 <= i < |markers| ==> Rules(t, alphabet, markers[i], evidence[i])
    ensures Matched(markers, t) == []
  {
    if markers != [] {
      match evidence[0] {
        case MissingChar(j) => AbsentCharExcludes(t, markers[0], markers[0][j]);
        case MissingPair(j) => AbsentPairExcludes(t, markers[0], j);
      }
      NoneMatchedByEvidence(markers[1..], t, alphabet, evidence[1..]);
    }
  }

  /* "Сегодня был отличный день!" */

  const GoodDay := "сегодня был отличный день!"
  const GoodDayAlphabet := {'с', 'е', 'г', 'о', 'д', 'н', 'я', ' ', 'б', 'ы', 'л', 'т', 'и', 'ч', 'й', 'ь', '!'}

  /** The text lower-cased. */
  lemma GoodDayLower()
    ensures Lower("Сегодня был отличный день!") == GoodDay
  {
  }

  /** Every character of the text lies in its alphabet. */
  lemma GoodDayAlphabetCovers()
    ensures forall k :: 0 <= k < |GoodDay| ==> GoodDay[k] in GoodDayAlphabet
  {
  }

  /** The text never holds the pairs "но" and "бо". */
  lemma GoodDayPairs()
    ensures PairAbsent(GoodDay, 'н', 'о') && PairAbsent(GoodDay, 'б', 'о')
  {
  }

  lemma GoodDayNoPositive()
    ensures Matched(PositiveMarkers, GoodDay) == []
  {
    GoodDayAlphabetCovers();
    GoodDayPairs();
    NoneMatchedByEvidence(PositiveMarkers, GoodDay, GoodDayAlphabet, [
      MissingChar(0),  // хорошо: no 'х'
      MissingPair(5),  // отлично: no "но"
      MissingChar(0),  // радост: no 'р'
      MissingChar(2),  // счастлив: no 'а'
      MissingChar(0),  // весел: no 'в'
      MissingChar(0),  // классно: no 'к'
      MissingChar(0),  // круто: no 'к'
      MissingChar(1),  // люблю: no 'ю'
      MissingChar(0)]);  // прекрасно: no 'п'
  }

  lemma GoodDayNoNegative()
    ensures Matched(NegativeMarkers, GoodDay) == []
  {
    GoodDayAlphabetCovers();
    GoodDayPairs();
    NoneMatchedByEvidence(NegativeMarkers, GoodDay, GoodDayAlphabet, [
      MissingChar(0),  // плохо: no 'п'
      MissingChar(1),  // грустно: no 'р'
      MissingChar(0),  // устал: no 'у'
      MissingChar(2),  // тяжело: no 'ж'
      MissingPair(0),  // болит: no "бо"
      MissingChar(0),  // печаль: no 'п'
      MissingChar(5),  // одинок: no 'к'
      MissingChar(2),  // страшно: no 'р'
      MissingPair(0)]);  // больно: no "бо"
  }

  /**
   * "Сегодня был отличный день!" holds no marker at all: `отлично` is not a
   * substring of `отличный`, so the text is classified neutral.
   */
  lemma GoodDayIsNeutral()
    ensures Analyze("Сегодня был отличный день!").emotion == Neutral
  {
    GoodDayLower();
    GoodDayNoPositive();
    GoodDayNoNegative();
  }

  /* "Я устал сегодня, было тяжело." */

  const TiredDay := "я устал сегодня, было тяжело."
  const TiredDayAlphabet := {'я', ' ', 'у', 'с', 'т', 'а', 'л', 'е', 'г', 'о', 'д', 'н', ',', 'б', 'ы', 'ж', '.'}

  /** The text lower-cased. */
  lemma TiredDayLower()
    ensures Lower("Я устал сегодня, было тяжело.") == TiredDay
  {
  }

  /** Every character of the text lies in its alphabet. */
  lemma TiredDayAlphabetCovers()
    ensures forall k :: 0 <= k < |TiredDay| ==> TiredDay[k] in TiredDayAlphabet
  {
  }

  lemma TiredDayNoPositive()
    ensures Matched(PositiveMarkers, TiredDay) == []
  {
    TiredDayAlphabetCovers();
    NoneMatchedByEvidence(PositiveMarkers, TiredDay, TiredDayAlphabet, [
      MissingChar(0),  // хорошо: no 'х'
      MissingChar(3),  // отлично: no 'и'
      MissingChar(0),  // радост: no 'р'
      MissingChar(1),  // счастлив: no 'ч'
      MissingChar(0),  // весел: no 'в'
      MissingChar(0),  // классно: no 'к'
      MissingChar(0),  // круто: no 'к'
      MissingChar(1),  // люблю: no 'ю'
      MissingChar(0)]);  // прекрасно: no 'п'
  }

  /** `устал` occurs at index 2. */
  lemma TiredDayHasNegative()
    ensures "устал" in Matched(NegativeMarkers, TiredDay)
  {
    assert forall j :: 0 <= j < 5 ==> TiredDay[2 + j] == "устал"[j];
    assert TiredDay[2..7] == "устал";
    ContainsAt(TiredDay, "устал", 2);
    assert "устал" in NegativeMarkers;
  }

  /** "Я устал сегодня, было тяжело." holds a negative marker and no positive one. */
  lemma TiredDayIsNegative()
    ensures Analyze("Я устал сегодня, было тяжело.").emotion == Negative
  {
    TiredDayLower();
    TiredDayNoPositive();
    TiredDayHasNegative();
  }

  /* "Обычный рабочий день." */

  const OrdinaryDay := "обычный рабочий день."
  const OrdinaryDayAlphabet := {'о', 'б', 'ы', 'ч', 'н', 'й', ' ', 'р', 'а', 'и', 'д', 'е', 'ь', '.'}

  /** The text lower-cased. */
  lemma OrdinaryDayLower()
    ensures Lower("Обычный рабочий день.") == OrdinaryDay
  {
  }

  /** Every character of the text lies in its alphabet. */
  lemma OrdinaryDayAlphabetCovers()
    ensures forall k :: 0 <= k < |OrdinaryDay| ==> OrdinaryDay[k] in OrdinaryDayAlphabet
  {
  }

  lemma OrdinaryDayNoPositive()
    ensures Matched(PositiveMarkers, OrdinaryDay) == []
  {
    OrdinaryDayAlphabetCovers();
    NoneMatchedByEvidence(PositiveMarkers, OrdinaryDay, OrdinaryDayAlphabet, [
      MissingChar(0),  // хорошо: no 'х'
      MissingChar(1),  // отлично: no 'т'
      MissingChar(4),  // радост: no 'с'
      MissingChar(0),  // счастлив: no 'с'
      MissingChar(0),  // весел: no 'в'
      MissingChar(0),  // классно: no 'к'
      MissingChar(0),  // круто: no 'к'
      MissingChar(0),  // люблю: no 'л'
      MissingChar(0)]);  // прекрасно: no 'п'
  }

  lemma OrdinaryDayNoNegative()
    ensures Matched(NegativeMarkers, OrdinaryDay) == []
  {
    OrdinaryDayAlphabetCovers();
    NoneMatchedByEvidence(NegativeMarkers, OrdinaryDay, OrdinaryDayAlphabet, [
      MissingChar(0),  // плохо: no 'п'
      MissingChar(0),  // грустно: no 'г'
      MissingChar(0),  // устал: no 'у'
      MissingChar(0),  // тяжело: no 'т'
      MissingChar(2),  // болит: no 'л'
      MissingChar(0),  // печаль: no 'п'
      MissingChar(5),  // одинок: no 'к'
      MissingChar(0),  // страшно: no 'с'
      MissingChar(2)]);  // больно: no 'л'
  }

  /** "Обычный рабочий день." holds no marker at all, so it is classified neutral. */
  lemma OrdinaryDayIsNeutral()
    ensures Analyze("Обычный рабочий день.").emotion == Neutral
  {
    OrdinaryDayLower();
    OrdinaryDayNoPositive();
    OrdinaryDayNoNegative();
  }
}
