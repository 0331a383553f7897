# Mood diary: classifier, entry list and mood chart

This project models the logic of the single-page mood diary in
`src/pages/Index.tsx`. The page:

- sorts a Russian text into one of three moods (positive, neutral, negative) by counting fixed marker stems;
- attaches a canned piece of advice to each mood;
- keeps a newest-first list of diary entries, with guarded saving and deletion by id;
- plots the newest ten entries as a mood chart whose tooltip maps a plotted value back to a mood.

The Dafny modules follow the page's parts:

| module | file | what it holds |
|---|---|---|
| `Wrappers` | `wrappers.dfy` | `Option` (a missing mood) and `Result` (a refused action) |
| `Text` | `text.dfy` | `includes`, `toLowerCase` and `trim` over `seq<char>` |
| `Emotions` | `emotion.dfy` | the three moods, their chart scores, their advice, and the tooltip's inverse mapping |
| `Classifier` | `classifier.dfy` | the marker lists, the two counts, the decision, `analyzeEmotion` |
| `ClassifierExamples` | `classifier_examples.dfy` | three worked sentences, proved verdicts |
| `Diary` | `diary.dfy` | entries, `saveEntry`'s guard and prepend, `deleteEntry`'s filter, the demo entries |
| `Trend` | `trend.dfy` | `chartData` (slice, reverse, map) and its laws |
| `Page` | `page.dfy` | the page state and the user's actions as transitions, with the invariant they keep |

The classifier lower-cases the text and counts how many of the nine positive
stems and how many of the nine negative stems occur in it. Each stem counts once
however often it occurs, and a stem may sit inside a longer word. The larger
count wins, and a tie is neutral. Every function here is total, and every
refusal of the page is a `Refusal` value, returned as a `Result` failure:

- `EmptyInput` is returned when the typed text is blank.
- `SaveWithoutClassification` is returned when a save comes before an analysis.

"Сегодня был отличный день!" holds no marker of either list. The positive
stem "отлично" does not occur in "отличный", because "отличн" is followed by
"ы", not "о". So `analyzeEmotion` returns neutral for this sentence, which
`ClassifierExamples.GoodDayIsNeutral` proves.

## Model

| member | source | states |
|---|---|---|
| Text.Contains | src/pages/Index.tsx:181-182 | `includes`, as a left-to-right scan, holds exactly when some window of the text equals the marker |
| Text.LowerChar | src/pages/Index.tsx:180 | A-Z and А-Я (U+0410-U+042F) move up by 0x20 into a-z and а-я, Ѐ-Џ (U+0400-U+040F) move up by 0x50 into ѐ-џ, every other character is unchanged, and the result is never a capital |
| Text.Lower | src/pages/Index.tsx:180 | `Lower` keeps the length, lower-cases each character on its own, and leaves no capital behind |
| Text.LowerIdempotent | src/pages/Index.tsx:180 | lower-casing an already lower-cased text changes nothing |
| Text.LowerKeepsContains | src/pages/Index.tsx:180-182 | a part of a text stays a part of it after both are lower-cased |
| Text.LeadingBlanks | src/pages/Index.tsx:243 | the whitespace that `trim()` cuts from the front ends at the first non-whitespace character, or at the end of a blank text |
| Text.Trim | src/pages/Index.tsx:243 | the trimmed text is the part of the text that starts after its whitespace prefix (`LeadingBlanks`, which ends at the first non-whitespace character) and is followed only by whitespace; it neither starts nor ends with whitespace |
| Text.TrimEmptyIffBlank | src/pages/Index.tsx:243 | the trimmed text is empty exactly when every character is whitespace |
| Emotions.Score | src/pages/Index.tsx:29-48 | a mood's chart value lies in -1..1, and is positive exactly for positive and negative exactly for negative |
| Emotions.ScoreInjective | src/pages/Index.tsx:29-48 | two moods have the same chart value exactly when they are the same mood |
| Emotions.Advice | src/pages/Index.tsx:50-54 | a mood's advice is one of the three `adviceText` strings, and it is the positive, neutral or negative string exactly when the mood is positive, neutral or negative |
| Emotions.AdviceInjective | src/pages/Index.tsx:50-54 | two moods have the same advice text exactly when they are the same mood |
| Emotions.OppositeNegatesScore | src/pages/Index.tsx:29-48 | the opposite mood has the negated chart value, and taking the opposite twice gives the mood back; with `Classifier.DecideSymmetric` this makes swapping the counts negate the plotted value |
| Emotions.FromScore | src/pages/Index.tsx:508 | the tooltip's mood for a value has that value's sign as its score |
| Emotions.FromScoreInvertsScore | src/pages/Index.tsx:508 | reading back a mood's own value gives that mood |
| Classifier.Matched | src/pages/Index.tsx:181-182 | the filtered list holds a marker exactly when it is in the list and occurs in the text, and is no longer than the list |
| Classifier.PositiveCount | src/pages/Index.tsx:181 | the positive count is at most 9, and is zero exactly when no positive stem occurs in the lower-cased text |
| Classifier.NegativeCount | src/pages/Index.tsx:182 | the negative count is at most 9, and is zero exactly when no negative stem occurs in the lower-cased text |
| Classifier.Decide | src/pages/Index.tsx:184-191 | positive exactly when the positive count is larger, negative exactly when the negative count is larger, neutral exactly on a tie |
| Classifier.Analyze | src/pages/Index.tsx:174-198 | the verdict follows the counts of the lower-cased text in all three directions, and the advice is that verdict's advice |
| Classifier.DecideIsSignOfDifference | src/pages/Index.tsx:184-191 | the verdict's chart value is the sign of positive count minus negative count |
| Classifier.DecideSymmetric | src/pages/Index.tsx:184-191 | swapping the two counts turns the verdict into its opposite |
| Classifier.CountIsOccurringMarkers | src/pages/Index.tsx:181-182 | for a list without repeats, the count equals the number of distinct listed markers occurring in the text |
| Classifier.MarkersDistinct | src/pages/Index.tsx:177-178 | neither marker list repeats a stem |
| Classifier.CountsAreMarkersFound | src/pages/Index.tsx:177-182 | each count is the number of that list's stems found in the lower-cased text, at most 9 |
| Classifier.CountsMonotone | src/pages/Index.tsx:180-182 | a text that contains another has counts at least as large |
| Classifier.AppendingPositiveMarker | src/pages/Index.tsx:180-182 | appending a positive stem not yet present raises the positive count and does not lower the negative one |
| Classifier.AppendingNegativeMarker | src/pages/Index.tsx:180-182 | appending a negative stem not yet present raises the negative count and does not lower the positive one |
| ClassifierExamples.GoodDayIsNeutral | src/pages/Index.tsx:174-191 | "Сегодня был отличный день!" holds no stem of either list and is classified neutral |
| ClassifierExamples.TiredDayIsNegative | src/pages/Index.tsx:174-191 | "Я устал сегодня, было тяжело." holds a negative stem and no positive stem and is classified negative |
| ClassifierExamples.OrdinaryDayIsNeutral | src/pages/Index.tsx:174-191 | "Обычный рабочий день." holds no stem and is classified neutral |
| Diary.Save | src/pages/Index.tsx:210-228 | refused, with the save error, exactly when the text is empty or no mood is set; otherwise one longer, the new entry first with the given id, text, mood, time and its mood's advice, the old entries after it unchanged and in order |
| Diary.SaveKeepsConsistent | src/pages/Index.tsx:220-228 | if every entry carried its mood's advice before a save, every entry does after it |
| Diary.SaveFreshIdKeepsUnique | src/pages/Index.tsx:220-228 | saving under an id not yet in use keeps all ids distinct |
| Diary.DeleteUndoesSave | src/pages/Index.tsx:228 | deleting the fresh id just saved gives back the list from before the save |
| Diary.Delete | src/pages/Index.tsx:255-258 | the survivors are exactly the entries with another id; the list does not grow; a list without that id is returned unchanged |
| Diary.DeleteAppend | src/pages/Index.tsx:256 | deletion distributes over concatenation, so survivors keep their relative order |
| Diary.DeleteIdempotent | src/pages/Index.tsx:256 | deleting the same id twice is the same as deleting it once |
| Diary.DeleteKeepsUnique | src/pages/Index.tsx:256 | deletion keeps ids distinct |
| Diary.DeleteKeepsConsistent | src/pages/Index.tsx:256 | deletion keeps every entry's advice matching its mood |
| Diary.DeleteRemovesOne | src/pages/Index.tsx:256 | with distinct ids, deleting an id in use shortens the list by exactly one |
| Diary.Seed | src/pages/Index.tsx:74-96 | the demo list has three entries: positive two days before `now`, neutral one day before, negative at `now` |
| Diary.SeedConsistent | src/pages/Index.tsx:74-96 | the three demo entries each carry their mood's advice |
| Diary.SeedIdsUnique | src/pages/Index.tsx:74-96 | the three demo entries have distinct ids |
| Trend.Take | src/pages/Index.tsx:266 | the first ten entries: min(10, n) of them, in place |
| Trend.Reverse | src/pages/Index.tsx:267 | the reversed list has the same length and element i is element n-1-i of the input |
| Trend.ToPoint | src/pages/Index.tsx:268-271 | a point carries the entry's date label and a value in -1..1 from which the tooltip recovers the entry's mood |
| Trend.ChartData | src/pages/Index.tsx:265-271 | the chart has min(10, n) points, point i is drawn from entry k-1-i where k is the chart's length, and every value lies in -1..1 |
| Trend.ChartEmptyIffNoEntries | src/pages/Index.tsx:492 | the chart is empty, so the placeholder shows, exactly when there are no entries |
| Trend.TooltipRecoversEmotion | src/pages/Index.tsx:508 | the tooltip of a point names the mood of the entry the point was drawn from |
| Trend.ChartEndsWithNewest | src/pages/Index.tsx:265-271 | the rightmost point is drawn from the newest entry |
| Trend.ChartAfterSave | src/pages/Index.tsx:228 | a save appends the new entry's point on the right; with ten or more entries already present, the leftmost point drops off |
| Trend.ThreeSavesPlotInOrder | src/pages/Index.tsx:265-271 | saving a positive, a neutral and a negative entry into an empty diary plots +1, 0, -1 from left to right |
| Page.Initial | src/pages/Index.tsx:68-98 | a fresh page has nothing pending and shows the stored entries, or the demo entries when nothing is stored (a stored empty list stays empty) |
| Page.EditText | src/pages/Index.tsx:360 | typing changes the text field and nothing else |
| Page.Transcribed | src/pages/Index.tsx:141-145 | a transcript becomes the pending text, with the classifier's verdict on it, without a blank check |
| Page.AnalyzeTyped | src/pages/Index.tsx:242-253 | refused with the empty-input error exactly when the typed text is blank; otherwise the typed text is pending with its verdict, and nothing else changes |
| Page.SaveEntry | src/pages/Index.tsx:210-240 | refused exactly when no text or no mood is pending; otherwise the diary gets the saved entry in front, and the pending text, mood and text field are cleared |
| Page.DeleteEntry | src/pages/Index.tsx:255-258 | the diary loses the entries with that id, and nothing else changes |
| Page.InitialValid | src/pages/Index.tsx:68-98 | a fresh page satisfies the page invariant whenever the stored entries do; the demo entries always do |
| Page.EditTextKeepsValid | src/pages/Index.tsx:360 | typing keeps the page invariant |
| Page.TranscribedKeepsValid | src/pages/Index.tsx:141-145 | a transcript keeps the page invariant |
| Page.AnalyzeTypedKeepsValid | src/pages/Index.tsx:242-253 | analysing typed text keeps the page invariant |
| Page.SaveEntryKeepsValid | src/pages/Index.tsx:210-240 | saving keeps the page invariant |
| Page.DeleteEntryKeepsValid | src/pages/Index.tsx:255-258 | deleting keeps the page invariant |
| Page.SavedEntryIsClassified | src/pages/Index.tsx:220-225 | on a valid page, a saved entry's mood is the classifier's verdict on the entry's own text, and its advice is that verdict's advice |
| Page.SecondSaveRefused | src/pages/Index.tsx:210-239 | a successful save clears the pending analysis, so an immediate second save is refused |
| Page.TypeAnalyzeSave | src/pages/Index.tsx:242-253 | typing a non-blank text, analysing it and saving it puts exactly one entry in front of the diary, with that text, its verdict, the verdict's advice, the given id and the time |

The page invariant (`Page.Valid`) has two parts. Every entry carries its
mood's advice. A displayed mood is the classifier's verdict on the pending text.

## Left out

- The 800 ms delay before a verdict appears is not modelled: an analysis completes at once. In the page, `recognizedText` changes immediately while the mood only changes after the delay. A save inside that window would store the new text with the previous mood. `Page.SavedEntryIsClassified` therefore describes the page after every pending analysis has completed.
- Speech recognition is left out: starting it, its error kinds and the fallback to typed input are browser I/O. Only the arrival of a transcript is modelled (`Page.Transcribed`).
- Speech synthesis, notifications, the light/dark theme, and the emoji, labels and colours of the mood table are left out. They are presentation only.
- Storage is left out: reading and writing the entry list in `localStorage` and its JSON form are I/O. A previously stored list is a parameter of `Page.Initial`.
- Date formatting is left out: the day/month label of the chart comes from the locale formatter, which is a parameter (`dateLabel`) of `Trend.ChartData`.
- Id and time generation are left out: a new entry's id (`Date.now().toString()`) and its time are parameters of `Diary.Save`. `Diary.Seed` takes one clock reading `now`, while the page reads the clock once per demo entry, so its offsets of two days, one day and zero are exact only if the clock does not advance between those reads.
- Diary.SaveFreshIdKeepsUnique: assumes the new id is not yet in use. Ids come from the millisecond clock, and the page does not check them.
- Diary.DeleteRemovesOne: holds only when ids are distinct. With repeated ids, `deleteEntry` removes every entry carrying the id, which `Diary.Delete` models.
- Text.Lower: lower-cases Latin A-Z and the Cyrillic capitals U+0400-U+042F only, one character at a time. `toLowerCase` also maps other scripts, can lengthen the text ('İ', U+0130, becomes the two characters "i̇") and lower-cases 'Σ' by context (final 'ς' or 'σ'). No classifier marker is affected: every marker is made of the letters а-я, and the source and the model both map А-Я to а-я and leave а-я alone, so the runs of а-я letters in the lower-cased text are the same in both.
- Emotions.FromScore: takes an integer. The tooltip reads a JavaScript number, and the chart only ever plots -1, 0 or 1.
- Diary.Seed states each demo entry's mood and time. The demo entries run oldest-first by timestamp, so "newest first" holds of insertion order only, and no timestamp ordering is claimed of the diary in general.
- ClassifierExamples.TiredDayIsNegative: shows one negative stem ("устал") present and no positive stem. It does not pin the negative count to its exact value of 2.
