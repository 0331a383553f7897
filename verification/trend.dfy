/**
 * The mood chart: the newest entries, at most ten of them, plotted oldest
 * first, one point per entry at the polarity score of its category.
 */
module Trend {
  import opened Wrappers
  import opened Emotions
  import opened Diary

  /** How many of the newest entries the chart shows (`slice(0, 10)`). */
  const ChartWindow: nat := 10

  /** One plotted point: the entry's date label and its score (`{ date, mood }`). */
  datatype Point = Point(date: string, mood: int)

  function Min(a: int, b: int): int {
    if a <= b then a else b
  }

  /** `s.slice(0, n)`: the first `n` elements, or all of `s` when it is shorter. */
  function Take<T>(s: seq<T>, n: nat): (r: seq<T>)
    ensures |r| == Min(n, |s|)
    ensures forall i :: 0 <= i < |r| ==> r[i] == s[i]
  {
    if |s| <= n then s else s[..n]
  }

  /** `reverse()`: the same elements, last first. */
  function Reverse<T>(s: seq<T>): (r: seq<T>)
    ensures |r| == |s|
    ensures forall i :: 0 <= i < |s| ==> r[i] == s[|s| - 1 - i]
  {
    if s == [] then [] else Reverse(s[1..]) + [s[0]]
  }

  /**
   * The point of one entry. The locale date formatting is a parameter:
   * `dateLabel` turns a timestamp into its day/month label.
   */
  function ToPoint(e: Entry, dateLabel: Timestamp -> string): (p: Point)
    ensures p.date == dateLabel(e.timestamp)
    ensures -1 <= p.mood <= 1 && FromScore(p.mood) == e.emotion
  {
    FromScoreInvertsScore(e.emotion);
    Point(dateLabel(e.timestamp), Score(e.emotion))
  }

  /**
   * `chartData`: the newest `ChartWindow` entries, reversed so that time
   * runs left to right, each drawn as its point. Entries are stored newest
   * first, so the last point is the newest entry and point `i` comes from
   * the entry at position `|r| - 1 - i`; every mood lies on the axis range.
   */
  function ChartData(entries: seq<Entry>, dateLabel: Timestamp -> string): (r: seq<Point>)
    ensures |r| == Min(ChartWindow, |entries|)
    ensures forall i :: 0 <= i < |r| ==> r[i] == ToPoint(entries[|r| - 1 - i], dateLabel)
    ensures forall i :: 0 <= i < |r| ==> -1 <= r[i].mood <= 1
  {
    var shown := Reverse(Take(entries, ChartWindow));
    seq(|shown|, i requires 0 <= i < |shown| => ToPoint(shown[i], dateLabel))
  }

  /* ---------------------------------------------------------------------- */
  /* Laws of the chart                                                       */
  /* ---------------------------------------------------------------------- */

  /** The chart is empty (its placeholder is shown) exactly when there are no entries. */
  lemma ChartEmptyIffNoEntries(entries: seq<Entry>, dateLabel: Timestamp -> string)
    ensures ChartData(entries, dateLabel) == [] <==> entries == []
  {
  }

  /** The tooltip names the category of the entry behind a point. */
  lemma TooltipRecoversEmotion(entries: seq<Entry>, dateLabel: Timestamp -> string, i: int)
    requires 0 <= i < |ChartData(entries, dateLabel)|
    ensures FromScore(ChartData(entries, dateLabel)[i].mood)
            == entries[|ChartData(entries, dateLabel)| - 1 - i].emotion
  {
    var r := ChartData(entries, dateLabel);
    FromScoreInvertsScore(entries[|r| - 1 - i].emotion);
  }

  /** The rightmost point is the newest entry. */
  lemma ChartEndsWithNewest(entries: seq<Entry>, dateLabel: Timestamp -> string)
    requires entries != []
    ensures ChartData(entries, dateLabel)[|ChartData(entries, dateLabel)| - 1] == ToPoint(entries[0], dateLabel)
  {
  }

  /**
   * Saving slides the window: the new entry's point is appended on the
   * right, and once the window is full the oldest point drops off the left.
   */
  lemma ChartAfterSave(entries: seq<Entry>, text: string, emotion: Option<Emotion>, id: Id, now: Timestamp,
                       dateLabel: Timestamp -> string)
    requires Save(entries, text, emotion, id, now).Success?
    ensures var before := ChartData(entries, dateLabel);
            var after := ChartData(Save(entries, text, emotion, id, now).value, dateLabel);
            var added := ToPoint(Save(entries, text, emotion, id, now).value[0], dateLabel);
            && (|entries| < ChartWindow ==> after == before + [added])
            && (|entries| >= ChartWindow ==> after == before[1..] + [added])
  {
    var saved := Save(entries, text, emotion, id, now).value;
    var before := ChartData(entries, dateLabel);
    var after := ChartData(saved, dateLabel);
    var added := ToPoint(saved[0], dateLabel);
    if |entries| < ChartWindow {
      assert after == before + [added] by {
        forall i | 0 <= i < |after|
          ensures after[i] == (before + [added])[i]
        {
          if i < |before| {
            assert saved[|after| - 1 - i] == entries[|before| - 1 - i];
          }
        }
      }
    } else {
      assert after == before[1..] + [added] by {
        forall i | 0 <= i < |after|
          ensures after[i] == (before[1..] + [added])[i]
        {
          if i < |before| - 1 {
            assert saved[|after| - 1 - i] == entries[|before| - 1 - (i + 1)];
          }
        }
      }
    }
  }

  /**
   * Saving a positive, a neutral and a negative entry, in this order, into an
   * empty diary plots the moods +1, 0, -1 from left to right.
   */
  lemma ThreeSavesPlotInOrder(text: string, ids: seq<Id>, times: seq<Timestamp>, dateLabel: Timestamp -> string)
    requires text != [] && |ids| == 3 && |times| == 3
    ensures var d1 := Save([], text, Some(Positive), ids[0], times[0]);
            var d2 := Save(d1.value, text, Some(Neutral), ids[1], times[1]);
            var d3 := Save(d2.value, text, Some(Negative), ids[2], times[2]);
            && d3.Success?
            && |ChartData(d3.value, dateLabel)| == 3
            && ChartData(d3.value, dateLabel)[0].mood == 1
            && ChartData(d3.value, dateLabel)[1].mood == 0
            && ChartData(d3.value, dateLabel)[2].mood == -1
  {
    var d1 := Save([], text, Some(Positive), ids[0], times[0]);
    var d2 := Save(d1.value, text, Some(Neutral), ids[1], times[1]);
    var d3 := Save(d2.value, text, Some(Negative), ids[2], times[2]);
    assert d3.value[2].emotion == Positive && d3.value[1].emotion == Neutral;
  }
}
