/**
 * The translation job (translate/translate.py): split a text into sentences,
 * translate it into each Indian target language, speak the translated summary,
 * and record the result under `translations.<lang>` of the press release.
 * The translation model and the speech step are parameters.
 */
module Translation {
  import opened Wrappers
  import opened Text
  import opened Values
  import opened Db
  import Speech

  const SrcLang := "eng_Latn"

  /** `tgt_langs`: language name to the model's language code, in source order. */
  const TgtLangs: seq<(string, string)> := [
    ("hindi",     "hin_Deva"),
    ("urdu",      "urd_Arab"),
    ("gujrati",   "guj_Gujr"),
    ("marathi",   "mar_Deva"),
    ("telugu",    "tel_Telu"),
    ("kannada",   "kan_Knda"),
    ("malayalam", "mal_Mlym"),
    ("tamil",     "tam_Taml"),
    ("bengali",   "ben_Beng")
  ]

  const InProgress := "in_progress"

  /** The voice table lists English followed by exactly the target languages,
      in the same order. */
  lemma RegistryOrder()
    ensures |Speech.Languages| == |TgtLangs| + 1 && Speech.Languages[0].0 == "english"
    ensures forall i :: 0 <= i < |TgtLangs| ==> Speech.Languages[i + 1].0 == TgtLangs[i].0
  {
  }

  /** Every target language can be spoken. */
  lemma TargetHasVoice(lang: string)
    requires Lookup(TgtLangs, lang).Some?
    ensures Speech.VoiceFor(lang).Some?
  {
    var i :| 0 <= i < |TgtLangs| && TgtLangs[i].0 == lang;
    RegistryOrder();
    assert Speech.Languages[i + 1].0 == lang;
  }

  // ---------------------------------------------------------------- translateIn

  /** `text.split('.')` without its last piece when that piece is empty. */
  function Sentences(text: string): (r: seq<string>)
    ensures forall i :: 0 <= i < |r| ==> '.' !in r[i]
  {
    var pieces := Split(text, '.');
    if pieces[|pieces| - 1] == "" then pieces[..|pieces| - 1] else pieces
  }

  /** Nothing of the text is lost: the sentences joined with `.`, plus the final
      `.` when the text ends with one, give the text back; only the empty text
      has no sentences. */
  lemma SentencesRejoin(text: string)
    ensures Sentences(text) == [] <==> text == ""
    ensures Join(Sentences(text), '.') + (if text != "" && text[|text| - 1] == '.' then "." else "") == text
  {
    var pieces := Split(text, '.');
    JoinSplit(text, '.');
    SplitLastEmpty(text, '.');
    if pieces[|pieces| - 1] == "" {
      if |pieces| == 1 {
        assert text == "";
      } else {
        assert pieces == pieces[..|pieces| - 1] + [""];
        JoinSnoc(pieces[..|pieces| - 1], "", '.');
      }
    } else {
      assert text != "";
    }
  }

  /** The preprocessing, the model and the postprocessing for a batch of
      sentences and a target code (`None` when the language has none): the
      translated sentences, or `None` when any of them raises. */
  type Translator = (seq<string>, Option<string>) -> Option<seq<string>>

  const TranslationFailure := ServiceError("translation")

  /** `translateIn(text, tgt_lang)`: the translated sentences concatenated and
      stripped of surrounding whitespace. */
  function TranslateIn(translate: Translator, text: string, lang: string): (r: Result<string>)
    ensures r.Err? <==> translate(Sentences(text), Lookup(TgtLangs, lang)).None?
    ensures r.Err? ==> r.error == TranslationFailure
    ensures r.Ok? ==> IsStripOf(r.value, Concat(translate(Sentences(text), Lookup(TgtLangs, lang)).value), Whitespace)
  {
    match translate(Sentences(text), Lookup(TgtLangs, lang))
    case None => Err(TranslationFailure)
    case Some(translations) =>
      StripIsStripOf(Concat(translations), Whitespace);
      Ok(Strip(Concat(translations), Whitespace))
  }

  // ---------------------------------------------------------------- translate_and_store

  /** The fields of a press release the job reads. */
  datatype Release = Release(id: ObjectId, title: string, content: string, summary: string, ministry: string)

  /** The four translations, in the order the job asks for them; the first
      failure stops the rest. */
  function TranslateTexts(translate: Translator, job: Release, lang: string): (r: Result<Texts>)
    ensures r.Ok? ==>
      && TranslateIn(translate, job.title, lang) == Ok(r.value.title)
      && TranslateIn(translate, job.ministry, lang) == Ok(r.value.ministry)
      && TranslateIn(translate, job.content, lang) == Ok(r.value.content)
      && TranslateIn(translate, job.summary, lang) == Ok(r.value.summary)
    ensures r.Err? ==> r.error == TranslationFailure
  {
    match TranslateIn(translate, job.title, lang)
    case Err(e) => Err(e)
    case Ok(title) =>
      match TranslateIn(translate, job.ministry, lang)
      case Err(e) => Err(e)
      case Ok(ministry) =>
        match TranslateIn(translate, job.content, lang)
        case Err(e) => Err(e)
        case Ok(content) =>
          match TranslateIn(translate, job.summary, lang)
          case Err(e) => Err(e)
          case Ok(summary) => Ok(Texts(title, ministry, content, summary))
  }

  /** The entry `translate_and_store` stores: the translations and the paths
      the speech reply names. */
  function Record(t: Texts, reply: map<string, Value>): map<string, Value>
  {
    Entry(t, Speech.GetOrNone(reply, "audio"), Speech.GetOrNone(reply, "subtitle"))
  }

  /** What a job returns or raises and the collection it leaves. */
  datatype Run = Run(outcome: Outcome, store: Store)

  /** `translate_and_store(_id, title, content, summary, ministry, lang)`: skip a
      language already completed; otherwise mark it `in_progress`, translate,
      speak the summary and store the completed entry. Any exception is
      re-raised as a failure of this language. */
  function TranslateAndStoreSpec(s: Store, job: Release, lang: string, translate: Translator, speak: Speech.SpeechCall): Run
  {
    match FindCompleted(s, job.id, lang)
    case Err(e) => Run(Fail(JobFailed(lang, e)), s)
    case Ok(Some(_)) => Run(Pass, s)
    case Ok(None) =>
      match WithStatus(s, job.id, lang, InProgress)
      case Err(e) => Run(Fail(JobFailed(lang, e)), s)
      case Ok(s1) =>
        match TranslateTexts(translate, job, lang)
        case Err(e) => Run(Fail(JobFailed(lang, e)), s1)
        case Ok(t) =>
          match speak(t.summary, job.title, lang)
          case Err(e) => Run(Fail(JobFailed(lang, e)), s1)
          case Ok(reply) =>
            match WithTranslation(s1, job.id, lang, Dict(Record(t, reply)))
            case Err(e) => Run(Fail(JobFailed(lang, e)), s1)
            case Ok(s2) => Run(Pass, s2)
  }

  /** A completed language is skipped: nothing is written and neither the
      translator nor the speech step is consulted. */
  lemma SkipWhenCompleted(s: Store, job: Release, lang: string,
                          translate: Translator, speak: Speech.SpeechCall, translate': Translator, speak': Speech.SpeechCall)
    requires FindCompleted(s, job.id, lang).Ok? && FindCompleted(s, job.id, lang).value.Some?
    ensures TranslateAndStoreSpec(s, job, lang, translate, speak) == Run(Pass, s)
    ensures TranslateAndStoreSpec(s, job, lang, translate', speak') == Run(Pass, s)
  {
  }

  /** The status is written before any translation: when the check or the status
      write fails, the outcome does not depend on the translator or the speech
      step, and the collection is unchanged. */
  lemma StatusBeforeTranslation(s: Store, job: Release, lang: string,
                                translate: Translator, speak: Speech.SpeechCall, translate': Translator, speak': Speech.SpeechCall)
    requires FindCompleted(s, job.id, lang).Err? ||
             (FindCompleted(s, job.id, lang) == Ok(None) && WithStatus(s, job.id, lang, InProgress).Err?)
    ensures TranslateAndStoreSpec(s, job, lang, translate, speak) == TranslateAndStoreSpec(s, job, lang, translate', speak')
    ensures TranslateAndStoreSpec(s, job, lang, translate, speak).store == s
    ensures TranslateAndStoreSpec(s, job, lang, translate, speak).outcome.Fail?
  {
  }

  /** A job that fails after marking its language leaves the entry `in_progress`,
      which a later check does not take for a translation. */
  lemma FailureLeavesInProgress(s: Store, job: Release, lang: string, translate: Translator, speak: Speech.SpeechCall)
    requires job.id in s.docs && FindCompleted(s, job.id, lang) == Ok(None)
    requires WithStatus(s, job.id, lang, InProgress).Ok?
    requires TranslateAndStoreSpec(s, job, lang, translate, speak).outcome.Fail?
    ensures var s' := TranslateAndStoreSpec(s, job, lang, translate, speak).store;
      && s' == WithStatus(s, job.id, lang, InProgress).value
      && GetPath(s'.docs[job.id], [TranslationsKey, lang, StatusKey]) == Some(Str(InProgress))
      && FindCompleted(s', job.id, lang) == Ok(None)
  {
    StatusWriteEffect(s, job.id, lang, InProgress);
    InProgressIsNotCompleted(s, job.id, lang);
  }

  /** A job that passes leaves its language completed; when it did the work, the
      completed entry is the record of the four translations and the reply. */
  lemma SuccessIsCompleted(s: Store, job: Release, lang: string, translate: Translator, speak: Speech.SpeechCall)
    requires TranslateAndStoreSpec(s, job, lang, translate, speak).outcome == Pass
    ensures var s' := TranslateAndStoreSpec(s, job, lang, translate, speak).store;
      && FindCompleted(s', job.id, lang).Ok? && FindCompleted(s', job.id, lang).value.Some?
      && (FindCompleted(s, job.id, lang) == Ok(None) ==>
            var t := TranslateTexts(translate, job, lang).value;
            FindCompleted(s', job.id, lang) == Ok(Some(Dict(Record(t, speak(t.summary, job.title, lang).value)))))
  {
    if FindCompleted(s, job.id, lang) == Ok(None) {
      var s1 := WithStatus(s, job.id, lang, InProgress).value;
      var t := TranslateTexts(translate, job, lang).value;
      CheckAfterStore(s1, job.id, lang, Record(t, speak(t.summary, job.title, lang).value));
    }
  }

  /** A job touches only its own language of its own press release. */
  lemma JobFrame(s: Store, job: Release, lang: string, translate: Translator, speak: Speech.SpeechCall)
    ensures var s' := TranslateAndStoreSpec(s, job, lang, translate, speak).store;
      && (forall l :: l != lang ==> EntryOf(s', job.id, l) == EntryOf(s, job.id, l))
      && (forall j :: j in s.docs && j != job.id ==> j in s'.docs && s'.docs[j] == s.docs[j])
      && (forall k :: job.id in s.docs && k in s.docs[job.id] && k != TranslationsKey ==>
            job.id in s'.docs && HasField(s'.docs[job.id], k, s.docs[job.id][k]))
  {
    if FindCompleted(s, job.id, lang) == Ok(None) && WithStatus(s, job.id, lang, InProgress).Ok? {
      var s1 := WithStatus(s, job.id, lang, InProgress).value;
      if job.id in s.docs {
        StatusWriteEffect(s, job.id, lang, InProgress);
        assert forall k :: k in s.docs[job.id] && k != TranslationsKey ==> k in s1.docs[job.id] && s1.docs[job.id][k] == s.docs[job.id][k];
      }
      var t := TranslateTexts(translate, job, lang);
      if t.Ok? && speak(t.value.summary, job.title, lang).Ok? {
        var entry := Dict(Record(t.value, speak(t.value.summary, job.title, lang).value));
        if WithTranslation(s1, job.id, lang, entry).Ok? {
          TranslationWriteEffect(s1, job.id, lang, entry);
        }
      }
    }
  }

  /** A job keeps the collection well formed. */
  lemma JobWellFormed(s: Store, job: Release, lang: string, translate: Translator, speak: Speech.SpeechCall)
    requires WellFormed(s)
    ensures WellFormed(TranslateAndStoreSpec(s, job, lang, translate, speak).store)
  {
    if FindCompleted(s, job.id, lang) == Ok(None) && WithStatus(s, job.id, lang, InProgress).Ok? {
      WithStatusWellFormed(s, job.id, lang, InProgress);
      var s1 := WithStatus(s, job.id, lang, InProgress).value;
      var t := TranslateTexts(translate, job, lang);
      if t.Ok? && speak(t.value.summary, job.title, lang).Ok? {
        var entry := Dict(Record(t.value, speak(t.value.summary, job.title, lang).value));
        if WithTranslation(s1, job.id, lang, entry).Ok? {
          WithTranslationWellFormed(s1, job.id, lang, entry);
        }
      }
    }
  }

  // ---------------------------------------------------------------- the speech call

  /** As written, a job that is not skipped never completes: it fails and its
      language stays uncompleted. */
  lemma AsWrittenJobNeverCompletes(s: Store, job: Release, lang: string, translate: Translator)
    requires FindCompleted(s, job.id, lang) == Ok(None)
    ensures var run := TranslateAndStoreSpec(s, job, lang, translate, Speech.AsWrittenCall());
      run.outcome.Fail? && FindCompleted(run.store, job.id, lang) == Ok(None)
  {
    if job.id in s.docs && WithStatus(s, job.id, lang, InProgress).Ok? {
      InProgressIsNotCompleted(s, job.id, lang);
    }
  }

  /** With the intended call, a job whose translations and speech succeed
      completes, and its entry carries the paths of the audio and subtitle files. */
  lemma IntendedJobCompletes(s: Store, job: Release, lang: string, translate: Translator,
                             engine: (string, Speech.VoiceConfig) -> Speech.Stream)
    requires FindCompleted(s, job.id, lang) == Ok(None) && WithStatus(s, job.id, lang, InProgress).Ok?
    requires TranslateTexts(translate, job, lang).Ok?
    requires Speech.SynthesisResult(true, TranslateTexts(translate, job, lang).value.summary, lang, engine).Ok?
    ensures var run := TranslateAndStoreSpec(s, job, lang, translate,
                                             Speech.IntendedCall((text, l) => Speech.SynthesisResult(true, text, l, engine)));
      && run.outcome == Pass
      && FindCompleted(run.store, job.id, lang).Ok? && FindCompleted(run.store, job.id, lang).value.Some?
      && HasField(EntryOf(run.store, job.id, lang).value.fields, "audio", Str(Speech.AudioPath(lang)))
      && HasField(EntryOf(run.store, job.id, lang).value.fields, "subtitle", Str(Speech.SubtitlePath(lang)))
  {
    var tts := (text, l) => Speech.SynthesisResult(true, text, l, engine);
    var speak := Speech.IntendedCall(tts);
    var s1 := WithStatus(s, job.id, lang, InProgress).value;
    var t := TranslateTexts(translate, job, lang).value;
    var reply := speak(t.summary, job.title, lang).value;
    var entry := Record(t, reply);
    if job.id in s.docs {
      StatusWriteEffect(s, job.id, lang, InProgress);
      var d := s1.docs[job.id];
      assert [TranslationsKey, lang, StatusKey][1..] == [lang, StatusKey];
      assert d[TranslationsKey].Dict?;
      assert !Blocked(d, [TranslationsKey, lang]);
    }
    CheckAfterStore(s1, job.id, lang, entry);
    TranslationWriteEffect(s1, job.id, lang, Dict(entry));
  }

  // ---------------------------------------------------------------- translate

  /** `translate(...)`: the job for each language in turn; the first failure is
      re-raised and stops the loop. */
  function TranslateAllSpec(s: Store, job: Release, langs: seq<string>, translate: Translator, speak: Speech.SpeechCall): Run
    decreases |langs|
  {
    if langs == [] then Run(Pass, s)
    else
      var prev := TranslateAllSpec(s, job, langs[..|langs| - 1], translate, speak);
      if prev.outcome.Fail? then prev
      else TranslateAndStoreSpec(prev.store, job, langs[|langs| - 1], translate, speak)
  }

  /** Once a language fails, the languages after it are not attempted. */
  lemma {:induction false} FailureStopsLoop(s: Store, job: Release, langs: seq<string>, k: nat,
                                            translate: Translator, speak: Speech.SpeechCall)
    requires k <= |langs| && TranslateAllSpec(s, job, langs[..k], translate, speak).outcome.Fail?
    ensures TranslateAllSpec(s, job, langs, translate, speak) == TranslateAllSpec(s, job, langs[..k], translate, speak)
    decreases |langs|
  {
    if k < |langs| {
      assert langs[..|langs| - 1][..k] == langs[..k];
      FailureStopsLoop(s, job, langs[..|langs| - 1], k, translate, speak);
    } else {
      assert langs[..k] == langs;
    }
  }

  /** Completed translations stay completed: a job for one language never
      changes whether another is completed. */
  lemma CompletedStays(s: Store, job: Release, lang: string, l: string, translate: Translator, speak: Speech.SpeechCall)
    requires l != lang
    ensures FindCompleted(TranslateAndStoreSpec(s, job, lang, translate, speak).store, job.id, l) == FindCompleted(s, job.id, l)
  {
    JobFrame(s, job, lang, translate, speak);
  }

  /** When the loop passes, every language it went through is completed. */
  lemma {:induction false} PassedLanguagesCompleted(s: Store, job: Release, langs: seq<string>,
                                                    translate: Translator, speak: Speech.SpeechCall)
    requires forall i, j :: 0 <= i < j < |langs| ==> langs[i] != langs[j]
    requires TranslateAllSpec(s, job, langs, translate, speak).outcome == Pass
    ensures forall i :: 0 <= i < |langs| ==>
      var found := FindCompleted(TranslateAllSpec(s, job, langs, translate, speak).store, job.id, langs[i]);
      found.Ok? && found.value.Some?
    decreases |langs|
  {
    if langs != [] {
      var init := langs[..|langs| - 1];
      var last := langs[|langs| - 1];
      var prev := TranslateAllSpec(s, job, init, translate, speak);
      var cur := TranslateAllSpec(s, job, langs, translate, speak);
      assert prev.outcome == Pass;
      assert cur == TranslateAndStoreSpec(prev.store, job, last, translate, speak);
      PassedLanguagesCompleted(s, job, init, translate, speak);
      SuccessIsCompleted(prev.store, job, last, translate, speak);
      forall i | 0 <= i < |langs|
        ensures FindCompleted(cur.store, job.id, langs[i]).Ok? && FindCompleted(cur.store, job.id, langs[i]).value.Some?
      {
        if i < |init| {
          assert langs[i] == init[i] != last;
          CompletedStays(prev.store, job, last, init[i], translate, speak);
        }
      }
    }
  }

  /** As written, the loop never completes a language that was not completed
      before it ran. */
  lemma {:induction false} AsWrittenCompletesNothing(s: Store, job: Release, langs: seq<string>, translate: Translator, l: string)
    requires FindCompleted(s, job.id, l) == Ok(None)
    ensures FindCompleted(TranslateAllSpec(s, job, langs, translate, Speech.AsWrittenCall()).store, job.id, l) == Ok(None)
    decreases |langs|
  {
    if langs != [] {
      var prev := TranslateAllSpec(s, job, langs[..|langs| - 1], translate, Speech.AsWrittenCall());
      AsWrittenCompletesNothing(s, job, langs[..|langs| - 1], translate, l);
      var last := langs[|langs| - 1];
      if last == l {
        AsWrittenJobNeverCompletes(prev.store, job, l, translate);
      } else {
        CompletedStays(prev.store, job, last, l, translate, Speech.AsWrittenCall());
      }
    }
  }

  // ---------------------------------------------------------------- the driver

  /** `translate_and_store`, against the collection. */
  method TranslateAndStore(db: Collection, job: Release, lang: string, translate: Translator, speak: Speech.SpeechCall)
    returns (r: Outcome)
    requires db.Valid()
    modifies db
    ensures db.Valid()
    ensures Run(r, db.State()) == TranslateAndStoreSpec(old(db.State()), job, lang, translate, speak)
  {
    var existing := db.CheckTranslationInDb(job.id, lang);
    if existing.Err? {
      return Fail(JobFailed(lang, existing.error));
    }
    if existing.value.Some? {
      return Pass;
    }
    var marked := db.UpdateTranslationStatus(job.id, lang, InProgress);
    if marked.Fail? {
      return Fail(JobFailed(lang, marked.error));
    }
    var title := TranslateIn(translate, job.title, lang);
    if title.Err? {
      return Fail(JobFailed(lang, title.error));
    }
    var ministry := TranslateIn(translate, job.ministry, lang);
    if ministry.Err? {
      return Fail(JobFailed(lang, ministry.error));
    }
    var content := TranslateIn(translate, job.content, lang);
    if content.Err? {
      return Fail(JobFailed(lang, content.error));
    }
    var summary := TranslateIn(translate, job.summary, lang);
    if summary.Err? {
      return Fail(JobFailed(lang, summary.error));
    }
    var texts := Texts(title.value, ministry.value, content.value, summary.value);
    assert TranslateTexts(translate, job, lang) == Ok(texts);
    var audio := speak(summary.value, job.title, lang);
    if audio.Err? {
      return Fail(JobFailed(lang, audio.error));
    }
    var stored := db.StoreTranslationInDb(job.id, lang, Dict(Record(texts, audio.value)));
    if stored.Fail? {
      return Fail(JobFailed(lang, stored.error));
    }
    r := Pass;
  }

  /** `translate(_id, title, content, summary, ministry)`: every target language
      in `tgt_langs` order. */
  method TranslateAll(db: Collection, job: Release, translate: Translator, speak: Speech.SpeechCall)
    returns (r: Outcome)
    requires db.Valid()
    modifies db
    ensures db.Valid()
    ensures Run(r, db.State()) == TranslateAllSpec(old(db.State()), job, KeysOf(TgtLangs), translate, speak)
  {
    var langs := KeysOf(TgtLangs);
    var i := 0;
    while i < |langs|
      invariant 0 <= i <= |langs| && db.Valid()
      invariant Run(Pass, db.State()) == TranslateAllSpec(old(db.State()), job, langs[..i], translate, speak)
    {
      ghost var before := db.State();
      assert langs[..i + 1][..i] == langs[..i] && langs[..i + 1][i] == langs[i];
      assert TranslateAllSpec(old(db.State()), job, langs[..i + 1], translate, speak)
          == TranslateAndStoreSpec(before, job, langs[i], translate, speak);
      var one := TranslateAndStore(db, job, langs[i], translate, speak);
      if one.Fail? {
        FailureStopsLoop(old(db.State()), job, langs, i + 1, translate, speak);
        return one;
      }
      i := i + 1;
    }
    assert langs[..i] == langs;
    r := Pass;
  }
}
