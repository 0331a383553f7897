/**
 * The diary page as a state machine: the text awaiting a save, the category
 * found for it, the typed-text field and the entry list, with the user's
 * actions as transitions. Analysis is taken to finish at once; the page's
 * presentation delay, speech, notifications and storage are outside the model.
 */
module Page {
  import opened Wrappers
  import opened Text
  import opened Emotions
  import opened Classifier
  import opened Diary

  /** The page's model-relevant state. */
  datatype Page = Page(
    recognizedText: string,     // the text the next save would store
    emotion: Option<Emotion>,   // the category found for it, if analysed
    textInput: string,          // the typed-text field
    entries: seq<Entry>)        // the diary, newest first

  /**
   * The page after loading: the stored entry list when there is one,
   * otherwise the demo entries; nothing pending.
   */
  function Initial(stored: Option<seq<Entry>>, now: Timestamp): (p: Page)
    ensures p.recognizedText == [] && p.emotion.None? && p.textInput == []
    ensures stored.Some? ==> p.entries == stored.value
    ensures stored.None? ==> p.entries == Seed(now)
  {
    Page([], None, [], if stored.Some? then stored.value else Seed(now))
  }

  /** Typing into the text field. */
  function EditText(p: Page, input: string): (q: Page)
    ensures q.textInput == input
    ensures q.recognizedText == p.recognizedText && q.emotion == p.emotion && q.entries == p.entries
  {
    p.(textInput := input)
  }

  /** A speech transcript arrives: it becomes the pending text and is analysed, blank or not. */
  function Transcribed(p: Page, transcript: string): (q: Page)
    ensures q.recognizedText == transcript && q.emotion == Some(Analyze(transcript).emotion)
    ensures q.textInput == p.textInput && q.entries == p.entries
  {
    p.(recognizedText := transcript, emotion := Some(Analyze(transcript).emotion))
  }

  /**
   * `handleTextAnalyze`: refused when the typed text is blank (nothing but
   * whitespace); otherwise the typed text becomes the pending text and is
   * analysed.
   */
  function AnalyzeTyped(p: Page): (r: Result<Page, Refusal>)
    ensures r.Failure? <==> IsBlank(p.textInput)
    ensures r.Failure? ==> r.error == EmptyInput
    ensures r.Success? ==>
      && r.value.recognizedText == p.textInput
      && r.value.emotion == Some(Analyze(p.textInput).emotion)
      && r.value.textInput == p.textInput && r.value.entries == p.entries
  {
    TrimEmptyIffBlank(p.textInput);
    if Trim(p.textInput) == [] then Failure(EmptyInput)
    else Success(Transcribed(p, p.textInput))
  }

  /**
   * `saveEntry`: refused without pending text or category; otherwise the
   * entry is put in front of the diary and the pending text, category and
   * text field are cleared.
   */
  function SaveEntry(p: Page, id: Id, now: Timestamp): (r: Result<Page, Refusal>)
    ensures r.Failure? <==> p.recognizedText == [] || p.emotion.None?
    ensures r.Failure? ==> r.error == SaveWithoutClassification
    ensures r.Success? ==>
      && r.value.entries == Save(p.entries, p.recognizedText, p.emotion, id, now).value
      && r.value.recognizedText == [] && r.value.emotion.None? && r.value.textInput == []
  {
    var saved := Save(p.entries, p.recognizedText, p.emotion, id, now);
    if saved.Failure? then Failure(saved.error)
    else Success(Page([], None, [], saved.value))
  }

  /** `deleteEntry`: removes the entries with the given id; nothing else changes. */
  function DeleteEntry(p: Page, id: Id): (q: Page)
    ensures q.entries == Delete(p.entries, id)
    ensures q.recognizedText == p.recognizedText && q.emotion == p.emotion && q.textInput == p.textInput
  {
    p.(entries := Delete(p.entries, id))
  }

  /* ---------------------------------------------------------------------- */
  /* The page invariant                                                      */
  /* ---------------------------------------------------------------------- */

  /**
   * Every stored entry carries its category's advice, and a category on
   * display is the classifier's verdict on the pending text.
   */
  predicate Valid(p: Page) {
    && AllConsistent(p.entries)
    && (p.emotion.Some? ==> p.emotion.value == Analyze(p.recognizedText).emotion)
  }

  /** A fresh page is valid when the stored entries are (the demo entries always are). */
  lemma InitialValid(stored: Option<seq<Entry>>, now: Timestamp)
    requires stored.Some? ==> AllConsistent(stored.value)
    ensures Valid(Initial(stored, now))
  {
    if stored.None? {
      SeedConsistent(now);
    }
  }

  /** Typing keeps the page valid. */
  lemma EditTextKeepsValid(p: Page, input: string)
    requires Valid(p)
    ensures Valid(EditText(p, input))
  {
  }

  /** A transcript keeps the page valid. */
  lemma TranscribedKeepsValid(p: Page, transcript: string)
    requires Valid(p)
    ensures Valid(Transcribed(p, transcript))
  {
  }

  /** Analysing typed text keeps the page valid. */
  lemma AnalyzeTypedKeepsValid(p: Page)
    requires Valid(p)
    ensures AnalyzeTyped(p).Success? ==> Valid(AnalyzeTyped(p).value)
  {
  }

  /** Saving keeps the page valid. */
  lemma SaveEntryKeepsValid(p: Page, id: Id, now: Timestamp)
    requires Valid(p)
    ensures SaveEntry(p, id, now).Success? ==> Valid(SaveEntry(p, id, now).value)
  {
    SaveKeepsConsistent(p.entries, p.recognizedText, p.emotion, id, now);
  }

  /** Deleting keeps the page valid. */
  lemma DeleteEntryKeepsValid(p: Page, id: Id)
    requires Valid(p)
    ensures Valid(DeleteEntry(p, id))
  {
    DeleteKeepsConsistent(p.entries, id);
  }

  /* ---------------------------------------------------------------------- */
  /* End-to-end behaviour                                                    */
  /* ---------------------------------------------------------------------- */

  /**
   * On a valid page, a saved entry records the classifier's verdict on its
   * own text, together with that verdict's advice.
   */
  lemma SavedEntryIsClassified(p: Page, id: Id, now: Timestamp)
    requires Valid(p) && SaveEntry(p, id, now).Success?
    ensures var e := SaveEntry(p, id, now).value.entries[0];
            && e.text == p.recognizedText
            && e.emotion == Analyze(e.text).emotion
            && e.advice == Analyze(e.text).advice
  {
  }

  /** A save clears the pending analysis, so saving again at once is refused. */
  lemma SecondSaveRefused(p: Page, id: Id, now: Timestamp, id': Id, now': Timestamp)
    requires SaveEntry(p, id, now).Success?
    ensures SaveEntry(SaveEntry(p, id, now).value, id', now') == Failure(SaveWithoutClassification)
  {
  }

  /**
   * Typing a non-blank text, analysing it and saving it puts one entry in
   * front of the diary, carrying that text, its category and the category's
   * advice.
   */
  lemma TypeAnalyzeSave(p: Page, input: string, id: Id, now: Timestamp)
    requires !IsBlank(input)
    ensures AnalyzeTyped(EditText(p, input)).Success?
    ensures var saved := SaveEntry(AnalyzeTyped(EditText(p, input)).value, id, now);
            && saved.Success?
            && saved.value.entries
               == [Entry(id, input, Analyze(input).emotion, Analyze(input).advice, now)] + p.entries
  {
    var analysed := AnalyzeTyped(EditText(p, input)).value;
    assert IsBlank([]);
    var saved := SaveEntry(analysed, id, now);
    assert saved.value.entries[1..] == p.entries;
    assert saved.value.entries == [saved.value.entries[0]] + p.entries;
  }
}
