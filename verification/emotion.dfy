/**
 * The three emotion categories and the static tables attached to them: the
 * polarity score the mood chart plots, the canned advice shown and spoken
 * after an analysis, and the tooltip's mapping from a plotted value back to
 * a category.
 */
module Emotions {

  /** The closed set of categories the classifier can return. */
  datatype Emotion = Positive | Neutral | Negative

  /** The polarity score of a category (`emotionConfig[e].value`): +1, 0 or -1. */
  function Score(e: Emotion): (v: int)
    ensures -1 <= v <= 1
    ensures v > 0 <==> e == Positive
    ensures v < 0 <==> e == Negative
  {
    match e
    case Positive => 1
    case Neutral => 0
    case Negative => -1
  }

  /** Advice shown for a positive analysis (`adviceText.positive`). */
  const AdvicePositive: string :=
    "Кажется, у тебя отличное настроение! Запиши, что сделало этот день таким классным."

  /** Advice shown for a neutral analysis (`adviceText.neutral`). */
  const AdviceNeutral: string :=
    "Спокойный день — тоже хорошо. Может, стоит попробовать сделать что-то приятное для себя?"

  /** Advice shown for a negative analysis (`adviceText.negative`). */
  const AdviceNegative: string :=
    "Ты звучишь немного грустно. Попробуй глубоко вдохнуть. Что именно тебя расстроило? Можешь рассказать мне."

  /** The fixed advice for a category (`adviceText[e]`): each category has its own table entry. */
  function Advice(e: Emotion): (a: string)
    ensures a in {AdvicePositive, AdviceNeutral, AdviceNegative}
    ensures a == AdvicePositive <==> e == Positive
    ensures a == AdviceNeutral <==> e == Neutral
    ensures a == AdviceNegative <==> e == Negative
  {
    assert |AdvicePositive| == 82 && |AdviceNeutral| == 88 && |AdviceNegative| == 105;
    match e
    case Positive => AdvicePositive
    case Neutral => AdviceNeutral
    case Negative => AdviceNegative
  }

  /** Each category has its own advice, so a shown advice names one category. */
  lemma AdviceInjective(e1: Emotion, e2: Emotion)
    ensures Advice(e1) == Advice(e2) <==> e1 == e2
  {
    assert |AdvicePositive| == 82 && |AdviceNeutral| == 88 && |AdviceNegative| == 105;
  }

  /** The sign of an integer: 1, 0 or -1. */
  function Sign(v: int): int {
    if v > 0 then 1 else if v < 0 then -1 else 0
  }

  /** The category on the other side of neutral. */
  function Opposite(e: Emotion): Emotion {
    match e
    case Positive => Negative
    case Neutral => Neutral
    case Negative => Positive
  }

  /**
   * The chart tooltip's reading of a plotted value: positive above zero,
   * negative below zero, neutral at zero. The category it picks has the
   * value's sign as its score.
   */
  function FromScore(v: int): (e: Emotion)
    ensures Score(e) == Sign(v)
  {
    if v > 0 then Positive else if v < 0 then Negative else Neutral
  }

  /** The tooltip undoes the score table: reading back a category's score gives the category. */
  lemma FromScoreInvertsScore(e: Emotion)
    ensures FromScore(Score(e)) == e
  {
  }

  /** Distinct categories have distinct scores, so a plotted value names one category. */
  lemma ScoreInjective(e1: Emotion, e2: Emotion)
    ensures Score(e1) == Score(e2) <==> e1 == e2
  {
  }

  /** Opposite categories have opposite scores. */
  lemma OppositeNegatesScore(e: Emotion)
    ensures Score(Opposite(e)) == -Score(e)
    ensures Opposite(Opposite(e)) == e
  {
  }
}
