/**
 * The diary's entry list, newest first: guarded saving at the front,
 * deletion by id, and the demo entries a fresh diary starts with.
 */
module Diary {
  import opened Wrappers
  import opened Emotions

  /** Entry ids are opaque strings (the page derives them from the clock). */
  type Id = string

  /** Creation instants, in milliseconds since the epoch. */
  type Timestamp = int

  /** One diary record (`DiaryEntry`). */
  datatype Entry = Entry(id: Id, text: string, emotion: Emotion, advice: string, timestamp: Timestamp)

  /** The user-facing refusals of the page. */
  datatype Refusal =
    | EmptyInput                 // analysis requested for blank text
    | SaveWithoutClassification  // save requested before text was analysed

  /** The entry stores the canned advice of its own category. */
  predicate Consistent(e: Entry) {
    e.advice == Advice(e.emotion)
  }

  /** Every entry of the list is consistent. */
  predicate AllConsistent(entries: seq<Entry>) {
    forall e :: e in entries ==> Consistent(e)
  }

  /** No two entries share an id. */
  predicate UniqueIds(entries: seq<Entry>) {
    forall i, j :: 0 <= i < j < |entries| ==> entries[i].id != entries[j].id
  }

  /** The ids in use. */
  function Ids(entries: seq<Entry>): set<Id> {
    set e | e in entries :: e.id
  }

  /**
   * `saveEntry`: refused unless there is recognised text and a category;
   * otherwise the new entry, carrying its category's advice, goes in front
   * of the old entries, which follow unchanged and in order.
   */
  function Save(entries: seq<Entry>, text: string, emotion: Option<Emotion>, id: Id, now: Timestamp)
    : (r: Result<seq<Entry>, Refusal>)
    ensures r.Failure? <==> text == [] || emotion.None?
    ensures r.Failure? ==> r.error == SaveWithoutClassification
    ensures r.Success? ==> |r.value| == |entries| + 1 && r.value[1..] == entries
    ensures r.Success? ==>
      && r.value[0].id == id && r.value[0].text == text && r.value[0].timestamp == now
      && r.value[0].emotion == emotion.value && Consistent(r.value[0])
  {
    if text == [] || emotion.None? then
      Failure(SaveWithoutClassification)
    else
      Success([Entry(id, text, emotion.value, Advice(emotion.value), now)] + entries)
  }

  /** `deleteEntry`: keeps, in order, exactly the entries whose id differs from `id`. */
  function Delete(entries: seq<Entry>, id: Id): (r: seq<Entry>)
    ensures forall e :: e in r <==> e in entries && e.id != id
    ensures |r| <= |entries|
    ensures id !in Ids(entries) ==> r == entries
  {
    if entries == [] then []
    else if entries[0].id == id then Delete(entries[1..], id)
    else [entries[0]] + Delete(entries[1..], id)
  }

  /* ---------------------------------------------------------------------- */
  /* Laws of saving and deleting                                             */
  /* ---------------------------------------------------------------------- */

  /** Saving keeps every entry's advice consistent with its category. */
  lemma SaveKeepsConsistent(entries: seq<Entry>, text: string, emotion: Option<Emotion>, id: Id, now: Timestamp)
    requires AllConsistent(entries)
    ensures Save(entries, text, emotion, id, now).Success? ==>
              AllConsistent(Save(entries, text, emotion, id, now).value)
  {
    var r := Save(entries, text, emotion, id, now);
    if r.Success? {
      forall e | e in r.value
        ensures Consistent(e)
      {
        if e != r.value[0] {
          assert e in r.value[1..];
        }
      }
    }
  }

  /** Saving under an id not yet in use keeps ids unique. */
  lemma SaveFreshIdKeepsUnique(entries: seq<Entry>, text: string, emotion: Option<Emotion>, id: Id, now: Timestamp)
    requires UniqueIds(entries) && id !in Ids(entries)
    ensures Save(entries, text, emotion, id, now).Success? ==>
              UniqueIds(Save(entries, text, emotion, id, now).value)
  {
    var r := Save(entries, text, emotion, id, now);
    if r.Success? {
      assert r.value == [r.value[0]] + entries;
      UniqueIdsCons(r.value[0], entries);
    }
  }

  /** Deleting the id just saved under a fresh id undoes the save. */
  lemma DeleteUndoesSave(entries: seq<Entry>, text: string, emotion: Option<Emotion>, id: Id, now: Timestamp)
    requires id !in Ids(entries)
    ensures Save(entries, text, emotion, id, now).Success? ==>
              Delete(Save(entries, text, emotion, id, now).value, id) == entries
  {
    var r := Save(entries, text, emotion, id, now);
    if r.Success? {
      assert r.value == [r.value[0]] + entries;
    }
  }

  /** Deletion distributes over concatenation, so survivors keep their relative order. */
  lemma {:induction false} DeleteAppend(a: seq<Entry>, b: seq<Entry>, id: Id)
    ensures Delete(a + b, id) == Delete(a, id) + Delete(b, id)
  {
    if a == [] {
      assert a + b == b;
    } else {
      var ab := a + b;
      assert ab[0] == a[0] && ab[1..] == a[1..] + b;
      DeleteAppend(a[1..], b, id);
      if a[0].id == id {
        assert Delete(ab, id) == Delete(a[1..] + b, id);
      } else {
        assert Delete(ab, id) == [a[0]] + Delete(a[1..] + b, id);
      }
    }
  }

  /** Deleting twice is deleting once. */
  lemma DeleteIdempotent(entries: seq<Entry>, id: Id)
    ensures Delete(Delete(entries, id), id) == Delete(entries, id)
  {
  }

  /** The tail of a list with unique ids has unique ids, none of them the head's. */
  lemma UniqueIdsTail(entries: seq<Entry>)
    requires entries != [] && UniqueIds(entries)
    ensures UniqueIds(entries[1..])
    ensures entries[0].id !in Ids(entries[1..])
  {
    var rest := entries[1..];
    forall i, j | 0 <= i < j < |rest|
      ensures rest[i].id != rest[j].id
    {
      assert rest[i] == entries[i + 1] && rest[j] == entries[j + 1];
    }
    forall e | e in rest
      ensures e.id != entries[0].id
    {
      var k :| 0 <= k < |rest| && rest[k] == e;
      assert entries[k + 1] == e;
    }
  }

  /** Putting an entry with an unused id in front of a list with unique ids keeps them unique. */
  lemma UniqueIdsCons(x: Entry, entries: seq<Entry>)
    requires UniqueIds(entries) && x.id !in Ids(entries)
    ensures UniqueIds([x] + entries)
  {
    var r := [x] + entries;
    forall i, j | 0 <= i < j < |r|
      ensures r[i].id != r[j].id
    {
      assert r[j] == entries[j - 1];
      if i > 0 {
        assert r[i] == entries[i - 1];
      } else {
        assert entries[j - 1] in entries;
      }
    }
  }

  /** Deletion keeps ids unique. */
  lemma {:induction false} DeleteKeepsUnique(entries: seq<Entry>, id: Id)
    requires UniqueIds(entries)
    ensures UniqueIds(Delete(entries, id))
  {
    if entries != [] {
      UniqueIdsTail(entries);
      DeleteKeepsUnique(entries[1..], id);
      if entries[0].id != id {
        var rest := Delete(entries[1..], id);
        assert entries[0].id !in Ids(rest);
        UniqueIdsCons(entries[0], rest);
      }
    }
  }

  /** Deletion keeps the advice of the surviving entries consistent. */
  lemma DeleteKeepsConsistent(entries: seq<Entry>, id: Id)
    requires AllConsistent(entries)
    ensures AllConsistent(Delete(entries, id))
  {
  }

  /** With unique ids, deleting an id in use removes exactly one entry. */
  lemma {:induction false} DeleteRemovesOne(entries: seq<Entry>, id: Id)
    requires UniqueIds(entries) && id in Ids(entries)
    ensures |Delete(entries, id)| == |entries| - 1
  {
    UniqueIdsTail(entries);
    if entries[0].id != id {
      var e :| e in entries && e.id == id;
      assert e in entries[1..];
      DeleteRemovesOne(entries[1..], id);
    }
  }

  /* ---------------------------------------------------------------------- */
  /* The demo diary                                                          */
  /* ---------------------------------------------------------------------- */

  /** One day in milliseconds. */
  const DayMillis: int := 24 * 60 * 60 * 1000

  /** Text of the first demo entry. */
  const SeedTextGoodDay: string :=
    "Сегодня был отличный день! Встретился с друзьями, мы много смеялись и гуляли в парке."

  /** Text of the second demo entry. */
  const SeedTextOrdinaryDay: string :=
    "Работал весь день, ничего особенного не произошло. Обычный рабочий день."

  /** Text of the third demo entry. */
  const SeedTextTiredDay: string :=
    "Я устал сегодня в школе, было тяжело. Много домашних заданий."

  /** A demo entry: its advice is looked up from its category, as the page does. */
  function SeedEntry(id: Id, text: string, emotion: Emotion, timestamp: Timestamp): (e: Entry)
    ensures Consistent(e) && e.id == id && e.emotion == emotion && e.timestamp == timestamp
  {
    Entry(id, text, emotion, Advice(emotion), timestamp)
  }

  /** The three demo entries a diary without stored entries starts with, in the page's order. */
  function Seed(now: Timestamp): (r: seq<Entry>)
    ensures |r| == 3
    ensures r[0].emotion == Positive && r[1].emotion == Neutral && r[2].emotion == Negative
    ensures r[0].timestamp == now - 2 * DayMillis && r[1].timestamp == now - DayMillis && r[2].timestamp == now
  {
    [
      SeedEntry("1", SeedTextGoodDay, Positive, now - 2 * DayMillis),
      SeedEntry("2", SeedTextOrdinaryDay, Neutral, now - DayMillis),
      SeedEntry("3", SeedTextTiredDay, Negative, now)
    ]
  }

  /** A three-entry list whose ids differ pairwise has unique ids. */
  lemma UniqueIdsOfThree(s: seq<Entry>)
    requires |s| == 3 && s[0].id != s[1].id && s[0].id != s[2].id && s[1].id != s[2].id
    ensures UniqueIds(s)
  {
  }

  /** A three-entry list whose entries are consistent is consistent. */
  lemma AllConsistentOfThree(s: seq<Entry>)
    requires |s| == 3 && Consistent(s[0]) && Consistent(s[1]) && Consistent(s[2])
    ensures AllConsistent(s)
  {
  }

  /** The demo entries carry the advice of their categories. */
  lemma SeedConsistent(now: Timestamp)
    ensures |Seed(now)| == 3 && AllConsistent(Seed(now))
  {
    AllConsistentOfThree(Seed(now));
  }

  /** The demo entries have the distinct ids "1", "2", "3", in this order. */
  lemma SeedIdsUnique(now: Timestamp)
    ensures |Seed(now)| == 3 && UniqueIds(Seed(now))
  {
    var s := Seed(now);
    assert s[0].id[0] == '1' && s[1].id[0] == '2' && s[2].id[0] == '3';
    UniqueIdsOfThree(s);
  }
}
