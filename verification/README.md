# Text-to-Video press-release pipeline: the verified core

This project models, in Dafny, the bookkeeping core of a pipeline that turns
press releases of the Press Information Bureau of India (pib.gov.in) into
narrated, illustrated, multi-lingual records. The core is what happens around
the machine-learning and web services. Those services are left abstract.

- **The `press_releases` collection** (`Db`). A class holding a map from
  ObjectId to document. It has the six operations the application performs:
  - look up by url and by title;
  - upsert scraped records by url;
  - set a translation's status;
  - replace a translation entry;
  - check for a completed translation.
  Updates follow Mongo's `$set` semantics on dotted paths.
- **The translation driver** (`Translation`). It does three things:
  - Splits a text into sentences, translates them and re-joins them.
  - Runs the per-(document, language) state machine. A language is skipped
    when completed; otherwise it goes through `in_progress` to `completed`.
  - Runs a sequential loop over the nine target languages that stops at the
    first failure.
- **Speech synthesis** (`Speech`). It covers:
  - the voice registry;
  - the refusal of unsupported languages;
  - the output paths;
  - the streaming loop, which sends audio bytes to one file and word
    boundaries to the subtitle maker.
- **The scraper** (`Scrap`). It covers:
  - text cleaning;
  - the summary length bounds;
  - the iframe and tweet source collection;
  - the day listing;
  - the scrape of one release: the already-scraped short-circuit, the record
    shape, and the upsert.
- **Helpers** (`Utils`). The folder-name sanitiser `rename` and the recursive
  `convert_object_ids`.
- **Illustration** (`ImageSearch`). It covers:
  - the query construction;
  - the projection of search results;
  - the JSON-or-lines parsing of the concept list;
  - the generated-image file name and the write of that file;
  - the lookaside filter;
  - the per-concept loop with its output projection.

Supporting modules:

- `Wrappers`: Option, Result, Outcome and the exceptions raised.
- `Values`: JSON/BSON values.
- `Text`: the Python `str` operations used, namely `split`, `join`, `strip`,
  `split()`, `replace`, `startswith` and slicing.
- `Files`: a file system of directories and whole-file contents, with
  `makedirs`, `open`+`write` and append. Paths are resolved component by
  component as the operating system does: `//` and `.` stay put, `..` goes
  up, and every other directory on the way must exist. `makedirs` fails when
  a file stands where a directory should be, and opening an existing
  directory for writing fails.

External calls are function-typed parameters, and none of them can see the
collection or the file system:

- the IndicTrans translator;
- the edge-tts stream and its SRT formatter;
- the summariser;
- OpenAI;
- Google Custom Search;
- the image generator;
- base64;
- HTTP with HTML parsing.

A call that raises is modelled as `None` or `Err`. Only `json.loads` (as a
parse result), `urljoin` and the SRT formatter are taken as total. `open` in
the speech step is taken as total: see `Speech.AudioPath` under
"## Left out".

Each imperative operation has two parts:

- A method on the state, for example `Db.Collection.StoreTranslationInDb`,
  `Translation.TranslateAll`, `Speech.Demultiplex` or
  `ImageSearch.SearchImagesFromContent`.
- A specification function that the method's `ensures` ties it to. The
  properties the source promises are proved as lemmas about that function.

## Model

| member | source | states |
|---|---|---|
| Db.SetPath | database/db.py:84-87 | A `$set` on a dotted path is refused exactly when some proper prefix of the path leads to a non-document. Otherwise the document gains the path's first key and keeps every other top-level field. |
| Db.SetThenGet | database/db.py:84-87 | After a successful `$set`, reading the same path gives the value just set. |
| Db.SetPathFrame | database/db.py:84-87 | A successful `$set` leaves every path that diverges from its own path unchanged. |
| Db.FindCompleted | database/db.py:121-126 | `check_translation_in_db` gives the entry exactly when it exists, is a document and has status `completed`. An entry that is not a document raises. Anything else gives `None`. |
| Db.WithStatus | database/db.py:84-87 | `update_translation_status` does not upsert. Without a document of that id the store is unchanged. It never adds or removes a document. |
| Db.WithTranslation | database/db.py:101-105 | `store_translation_in_db` upserts on `_id`. The document set grows by exactly that id. |
| Db.UrlOwner | database/db.py:37 | The document `find_one({'url': url})` finds: it has that url. `None` means no document has it. |
| Db.WithScraped | database/db.py:57-58 | The upsert keyed by `url`: data without a url raises `KeyError`, and data holding `_id` is refused. Afterwards the written document carries every given field and keeps its other fields. Every other document is unchanged. The document set grows by at most that one id. The store stays well formed, with at most one document per url. |
| Db.StoreScraped | database/db.py:54-69 | `store_scraped_data_in_db` keeps the store well formed. A dict gives the stored document, which carries every field of the dict. Data that is neither a dict nor a list raises `ValueError` and changes nothing. |
| Db.StoreItems | database/db.py:61-67 | The list branch returns one stored document per input item, in order. Each carries every field of its item with the value written. |
| Db.StoreStep | database/db.py:62-66 | One pass of the list loop: an earlier failure stands, a non-dict item raises `TypeError`. A successful pass appends one document, which carries the fields of its item. |
| Db.StoreItemsStops | database/db.py:61-67 | Once an item fails, the later items are not upserted. |
| Db.WithStatusWellFormed | database/db.py:84-87 | A status write keeps urls unique and ids below the id generator. |
| Db.WithTranslationWellFormed | database/db.py:101-105 | An entry write, including an upsert of a new id, keeps the store well formed. |
| Db.StatusWriteEffect | database/db.py:84-87 | A status write sets `translations.<lang>.status`. It changes no other language, no other key of that entry, no other top-level field and no other document. |
| Db.TranslationWriteEffect | database/db.py:101-105 | An entry write replaces the whole `translations.<lang>` entry, so earlier keys of that entry are gone. It creates the document when the id is absent. It leaves every other language, field and document as it was. |
| Db.CheckAfterStore | database/db.py:101-126 | After a completed entry is stored, `check_translation_in_db` returns that same entry. |
| Db.InProgressIsNotCompleted | database/db.py:121-126 | An entry marked `in_progress` is not reported as a translation, so it does not block a retry. |
| Db.Entry | translate/translate.py:123-133 | The stored translation entry has exactly the keys title, summary, ministry, content, audio, subtitle and status. Its status is `completed` and each key holds its value. |
| Db.Collection.IsUrlScraped | database/db.py:35-39 | The result is a document exactly when one has that url, and it is that document with its `_id`. |
| Db.Collection.ReleaseExistWithTitle | database/db.py:138-141 | The result is a document exactly when one has that title, and it is such a document. |
| Db.Collection.UpsertByUrl | database/db.py:57-58 | The new state and the returned document are those of `WithScraped`. On error nothing changes. The collection stays valid. |
| Db.Collection.StoreScrapedDataInDb | database/db.py:54-72 | The result and the new state are those of `StoreScraped`, with the collection valid. |
| Db.Collection.UpsertEach | database/db.py:61-67 | The loop's result and state are those of `StoreItems` on the whole list. |
| Db.Collection.UpdateTranslationStatus | database/db.py:83-89 | The new state is that of `WithStatus`, or unchanged with the failure reported. |
| Db.Collection.StoreTranslationInDb | database/db.py:100-107 | The new state is that of `WithTranslation`, or unchanged with the failure reported. |
| Db.Collection.CheckTranslationInDb | database/db.py:120-126 | The result is `FindCompleted` on the current state. |
| Files.Ancestry | image/image_search.py:126 | `os.makedirs` creates the directory and all its ancestors, and never the working directory itself. |
| Files.Locate | image/image_search.py:127 | Resolving a single component succeeds exactly when it is not empty, `.` or `..`. The name it resolves to may be an existing directory; `ImageSaved` refuses that case. |
| Files.LocateAppend | image/image_search.py:127 | An existing directory name at the head of the components is walked into. |
| Files.LocateBelow | image/image_search.py:127 | From the working directory, two existing directory names lead into the second. |
| Files.AncestryBelow | image/image_search.py:126 | `makedirs("a/b")` creates exactly `a` and `a/b`. |
| Files.FileSystem.MakeDirs | image/image_search.py:126 | `makedirs` fails exactly when the directory or one of its ancestors is an existing file, and then creates nothing. Otherwise it adds the ancestry of the directory. It writes no file. |
| Files.FileSystem.Write | image/image_search.py:127-128 | `open(..., "wb")` followed by one write leaves exactly that content in the file and touches nothing else. |
| Files.FileSystem.AppendBytes | speech/tts.py:94-95 | A further write to an open binary file appends the bytes. |
| Translation.RegistryOrder | speech/tts.py:9-70 | The voice table is English followed by exactly the nine target languages of `tgt_langs`, in the same order. |
| Translation.TargetHasVoice | translate/translate.py:28-38 | Every translation target language has a voice. |
| Wrappers.Lookup | translate/translate.py:47 | `dict.get`: a key has a value exactly when the table lists it. The value is that of its first entry, so any other name gives `None`. |
| Wrappers.KeysOf | translate/translate.py:144 | Iterating a dict gives its keys in table order. |
| Translation.Sentences | translate/translate.py:43-45 | No sentence contains a `.`. |
| Translation.SentencesRejoin | translate/translate.py:43-45 | The sentences re-joined with `.`, plus the final `.` when one was dropped, give back the text. Only the empty text has no sentences. |
| Translation.TranslateIn | translate/translate.py:40-87 | The result fails exactly when the translator raises, and then fails as a translation error. Otherwise it is the separator-free concatenation of the translated sentences, stripped of surrounding whitespace. |
| Translation.TranslateTexts | translate/translate.py:108-111 | On success, each of the four texts is `translateIn` of the corresponding field. Any failure is a translation failure. |
| Translation.SkipWhenCompleted | translate/translate.py:91-95 | A completed language is skipped. The store is unchanged, and the outcome does not depend on the translator or the speech step. |
| Translation.StatusBeforeTranslation | translate/translate.py:91-99 | When the check or the `in_progress` write fails, no translation is attempted. The outcome is a failure that does not depend on the translator or speech. The store is unchanged. |
| Translation.FailureLeavesInProgress | translate/translate.py:99-140 | A job that fails after marking its language leaves exactly the `in_progress` store. The status reads `in_progress` and the language is not reported completed. |
| Translation.SuccessIsCompleted | translate/translate.py:99-134 | A passing job leaves its language completed. When it did the work, the entry is the record of the four translations and the speech reply. |
| Translation.JobFrame | translate/translate.py:99-134 | A job touches only its own language of its own document. Other languages, other documents and the document's own top-level fields other than `translations` keep their values. |
| Translation.JobWellFormed | translate/translate.py:89-140 | A job keeps the store well formed. |
| Translation.CompletedStays | translate/translate.py:120-134 | A job for one language never changes whether another language is completed. |
| Translation.FailureStopsLoop | translate/translate.py:144-150 | Once a language fails, the later languages are not attempted and the failure is the loop's outcome. |
| Translation.PassedLanguagesCompleted | translate/translate.py:144-146 | When the loop passes, every language it went through is completed. |
| Translation.TranslateAndStore | translate/translate.py:89-140 | The outcome and the new collection are those of `TranslateAndStoreSpec`. |
| Translation.TranslateAll | translate/translate.py:142-150 | The outcome and the new collection are those of the sequential loop over `tgt_langs` in table order. |
| Translation.AsWrittenJobNeverCompletes | translate/translate.py:114 | With the call as written, every job that is not skipped fails and leaves its language uncompleted. |
| Translation.AsWrittenCompletesNothing | translate/translate.py:144-145 | With the call as written, the whole loop completes no language that was not completed before. |
| Translation.IntendedJobCompletes | translate/translate.py:114-134 | With the intended two-argument call, a job whose translations and speech succeed passes. Its entry is completed and carries the audio and subtitle paths. |
| Speech.VoiceFor | speech/tts.py:75-80 | A language is supported exactly when the registry lists it. Every voice has rate `+5%`, pitch `-5Hz` and subtitles on. |
| Speech.OutputPathsDistinct | speech/tts.py:82-83 | The audio path `output/audio_<lang>.mp3` never equals any subtitle path. Different languages never share a file. |
| Speech.Boundaries | speech/tts.py:96-97 | Only `WordBoundary` chunks are fed to the subtitle maker. |
| Speech.AudioDataAppend | speech/tts.py:93-95 | The audio bytes of a stream are those of its parts, in stream order. |
| Speech.BoundariesAppend | speech/tts.py:96-97 | The word boundaries fed are those of the parts, in stream order. |
| Speech.IgnoredChunks | speech/tts.py:93-97 | A chunk that is not `audio` adds no bytes, and one that is not `WordBoundary` is not fed, wherever it occurs. |
| Speech.Demultiplex | speech/tts.py:93-97 | The audio file ends up holding the `audio` bytes in stream order. The boundaries fed are the `WordBoundary` chunks in order. Nothing else changes. |
| Speech.ReplyCarriesNoPaths | speech/tts.py:102 | The reply as written has no `audio` or `subtitle` key, so the callers read `None`. |
| Speech.IntendedReply | speech/tts.py:102 | The corrected reply carries the audio and subtitle paths and the same message. |
| Speech.AsWrittenCall | translate/translate.py:114 | The three-argument call to a two-parameter function raises TypeError for every input. |
| Speech.IntendedCall | speech/tts.py:73 | The intended call passes only the text and the language to synthesis. |
| Speech.SynthesisAsWritten | speech/tts.py:73-105 | An unsupported language raises `ValueError`. Otherwise the call succeeds exactly when the output directory exists and the stream ends; any other failure raises `RuntimeError`. The reply holds the message and no `audio` or `subtitle` key. |
| Speech.SynthesisResult | speech/tts.py:73-105 | The corrected function fails exactly when the one as written fails, with the same error. Its reply has the same message plus the two output paths. |
| Speech.GenerateTtsAudioAndSubtitles | speech/tts.py:73-105 | The result is the as-written one (`SynthesisAsWritten`). The files are the streamed audio and the SRT of the boundaries. The directories never change. |
| Speech.Synthesize | speech/tts.py:85-102 | Once the voice is known, both files are truncated and the stream is demultiplexed. The SRT is written only when the stream ends. The result is the message-only reply when the stream ended, `RuntimeError` otherwise. |
| Scrap.Collapse | scrap/scrap.py:33 | `re.sub(r'\s+', ' ', ...)`: the result holds no whitespace but single spaces, never two in a row. A non-empty input gives a non-empty result that starts and ends with whitespace exactly when the input does. |
| Scrap.CollapseKeepsText | scrap/scrap.py:33 | Collapsing keeps every non-whitespace character, in order. |
| Scrap.CollapseFixed | scrap/scrap.py:33 | Collapsing an already collapsed text changes nothing. |
| Scrap.CleanedShape | scrap/scrap.py:31-35 | This lemma, with `CleanerKeepsText`, `CleanerIdempotent` and `CleanedIsJoin`, carries the contract of `Scrap.TxtCleaner`. `txt_cleaner` gives `''` for `None` and `''`. Its result neither starts nor ends with whitespace, and every whitespace run is a single space. |
| Scrap.StripKeepsOutside | scrap/scrap.py:32 | `strip` removes whitespace only. |
| Scrap.CleanerKeepsText | scrap/scrap.py:31-35 | Cleaning keeps the non-whitespace characters in order. |
| Scrap.CleanerIdempotent | scrap/scrap.py:31-35 | Cleaning a cleaned text changes nothing. |
| Scrap.CollapseKeepsWords | scrap/scrap.py:33 | Collapsing keeps the words of the text exactly: `split()` gives the same words in the same order before and after. |
| Scrap.CleanerKeepsWords | scrap/scrap.py:31-35 | Cleaning keeps the words of the text exactly, in order. |
| Scrap.CleanedIsJoin | scrap/scrap.py:31-35 | The cleaned text is the words of the text joined by single spaces (`''` when there are none). |
| Scrap.CollapsedJoin | scrap/scrap.py:33-35 | A collapsed text without whitespace at either end is its words joined by single spaces. |
| Scrap.SummaryBounds | scrap/scrap.py:170-173 | `max_length` lies in [300, 1024]. `min_length` is max(200, words // 4), so the outer `max(20, ...)` never matters. `min_length <= max_length` holds exactly below 4100 words. |
| Scrap.IframeSources | scrap/scrap.py:184-192 | Each matched element adds at most one source. |
| Scrap.IframeSourcesAppend | scrap/scrap.py:184-192 | The sources keep document order: those of a longer page are those of its prefix followed by those of the rest. |
| Scrap.CollectIframeSources | scrap/scrap.py:184-192 | The loop yields an iframe's `src` when it has one, or a `twitter-tweet` blockquote's first link when it has one, in document order. |
| Scrap.ImagesField | scrap/scrap.py:179 | No images are stored as `None`, not `[]`. Otherwise there is one entry per image, in order, `None` where it has no `src`. |
| Scrap.NewRecord | scrap/scrap.py:198-217 | The new record has the url, the cleaned date, the images, the iframe sources and the generated images. Its `translations` is exactly `{english: entry}`, and it has no `_id`. |
| Scrap.NewRecordEnglishOnly | scrap/scrap.py:204-216 | A new record has exactly one translation, `english`, and its status is `completed`. |
| Scrap.KnownUrlShortCircuit | scrap/scrap.py:132-135 | A url already stored returns the stored document with its ids converted. The store is unchanged, and no fetch, search, summary or speech result matters. |
| Scrap.AsWrittenScrapeStoresNothing | scrap/scrap.py:195 | With the call as written, scraping a new url stores nothing and returns `None`. |
| Scrap.PagePrepared | scrap/scrap.py:142-217 | A fetched page whose search, summary and speech succeed yields the record of that page. |
| Scrap.ArticlePrepared | scrap/scrap.py:165-217 | The search gets the cleaned content. The summariser gets the content with the bounds from its word count. The speech step gets the summary and the title in English. The record is built from their results. |
| Scrap.NewPageStored | scrap/scrap.py:219-222 | A new url's prepared record is upserted. The scrape returns a document exactly when that write succeeds. |
| Scrap.IntendedScrapeStores | scrap/scrap.py:195-222 | With the intended call, a new page whose services succeed is returned and stored. The stored document has that url and a completed `english` entry whose audio is the English audio file. |
| Scrap.PageRecordEntry | scrap/scrap.py:198-217 | The record of a page carries its url and no `_id`, and its only translation is the English entry. |
| Scrap.StoredEntry | scrap/scrap.py:219-222 | Upserting a record with a completed `english` entry stores a document whose entry is then found completed, with that entry's audio. |
| Scrap.DecimalText | scrap/scrap.py:74-76 | `str(n)` is a non-empty string of decimal digits that reads as `n`, with no leading zero unless it is `0`. |
| Scrap.Payload | scrap/scrap.py:72-84 | The posted form has the fixed fields plus the hidden fields. A hidden field overrides a fixed one (`payload.update`). A fixed field the page does not override has its value: the ministry id, the day, month and year in decimal, region `3`, language `1`, the ministry drop-down as event target and an empty event argument. |
| Scrap.FixedFields | scrap/scrap.py:72-81 | The fixed part of the form has exactly the eight fields `ddlMinistry`, `ddlday`, `ddlMonth`, `ddlYear`, `hydregionid`, `hydLangid`, `__EVENTTARGET` and `__EVENTARGUMENT`. |
| Scrap.ItemReleases | scrap/scrap.py:108-119 | Each list item adds at most one release. |
| Scrap.ItemReleasesShape | scrap/scrap.py:108-119 | Every release of a list carries the list's ministry, the requested date and a stripped title. |
| Scrap.ListingReleasesShape | scrap/scrap.py:104-119 | Every release of the day carries the requested date and the stripped header of one list. Its title is stripped. |
| Scrap.CollectListReleases | scrap/scrap.py:108-119 | The inner loop yields one release per item with an anchor, in order. |
| Scrap.CollectListingReleases | scrap/scrap.py:100-121 | The outer loop yields the releases of each list with a header, in document order. |
| Scrap.GetPressReleases | scrap/scrap.py:56-125 | The listing is empty when the form data is missing or empty, the post raises or there is no content area. Otherwise it is every release of every list with a header, in document order. |
| Scrap.PrepareRecord | scrap/scrap.py:142-217 | The steps between the lookup and the upsert compute `Prepared`: `None` as soon as a service raises. |
| Scrap.PrepareFrom | scrap/scrap.py:165-217 | The steps after the fetch compute `PreparedFrom`. |
| Scrap.ScrapePressRelease | scrap/scrap.py:127-226 | The result and the new collection are those of `ScrapeSpec`, with the collection kept valid. |
| Scrap.StoreRecord | scrap/scrap.py:219-226 | The upsert of a prepared record returns the stored document with its ids converted, or `None` when the write fails. |
| Utils.KeepAllowed | utils.py:16 | Removing `[^\w\s\-]` keeps only allowed characters, leaves an all-allowed text as it is, and drops a single disallowed character. |
| Utils.KeepAllowedAppend | utils.py:16 | The filter works character by character: filtering a concatenation concatenates the filtered parts. |
| Utils.Underscored | utils.py:16-19 | After the filtering and the space replacement, no space is left. The filtered text is kept position by position, except that spaces become `_`. |
| Utils.Sanitized | utils.py:16-22 | After `strip('_')`, the text is the underscored text without its runs of `_` at either end, and neither starts nor ends with `_`. |
| Utils.Rename | utils.py:5-26 | The name is the prefix of the sanitised title of length min(len, 245). Each character is a word character, a non-space whitespace character or `-`, and the name never starts with `_`. |
| Utils.RenameShortTitle | utils.py:22-26 | When the stripped name is at most 245 long it is returned whole, so it does not end with `_`. |
| Utils.RenameCleanTitle | utils.py:5-26 | A title that is already a clean folder name is returned unchanged. |
| Utils.OidText | utils.py:38 | `str(ObjectId)` has 24 characters. |
| Utils.ConvertObjectIds | utils.py:29-40 | The result holds no ObjectId. Each ObjectId becomes its string. Dicts keep their keys and each value is the converted value. Lists keep their length and each item is the converted item. Other leaves are unchanged. |
| Utils.ConvertWithoutOids | utils.py:33-40 | A value without ObjectIds is returned unchanged. |
| Utils.ConvertIdempotent | utils.py:33-40 | Converting twice is converting once. |
| Text.Strip | translate/translate.py:83 | `strip` gives the infix left after removing a prefix and a suffix of the given characters. The infix neither starts nor ends with one of them. |
| Text.StripIsStripOf | translate/translate.py:83 | What `strip` removes from either end is made only of the given characters. |
| Text.StripIdempotent | scrap/scrap.py:32 | Stripping twice is stripping once. |
| Text.Split | translate/translate.py:43 | `split('.')` gives at least one piece, none holding the separator. |
| Text.JoinSplit | translate/translate.py:43 | Joining the pieces of a split with the separator gives the text back. |
| Text.SplitAppend | image/image_search.py:127 | Splitting at one separator splits each side on its own. |
| Text.SplitWithoutSep | image/image_search.py:54 | A text without the separator splits into itself. |
| Text.SplitBelow | image/image_search.py:125-127 | A path under two separator-free names splits into those names and the components of the rest. |
| Text.SplitLastEmpty | translate/translate.py:44 | The last piece is empty exactly when the text is empty or ends with the separator. |
| Text.Words | scrap/scrap.py:170 | `split()` gives non-empty words without whitespace, and at least one word when the text starts with a non-whitespace character. |
| Text.SpaceThenWords | scrap/scrap.py:170 | Whitespace in front of a text is skipped. |
| Text.CharThenWords | scrap/scrap.py:170 | A non-whitespace character in front joins the first word when the text starts with one, and is a word of its own otherwise. With `SpaceThenWords` and `split("") == []` this determines `split()`. |
| Text.SpacesThenWords | scrap/scrap.py:170 | Leading whitespace does not change the words. |
| Text.WordsThenSpaces | scrap/scrap.py:170 | Trailing whitespace does not change the words. |
| Text.ReplaceChar | utils.py:19 | `replace` of one character changes exactly its occurrences. |
| Text.SliceTo | utils.py:26 | `[:n]` gives the prefix of length min(n, len). A negative `n` counts from the end. |
| ImageSearch.SearchQuery | image/image_search.py:147 | The query is `site:pib.gov.in ` + prompt when the PIB site is preferred, else `-site:pib.gov.in ` + prompt. |
| ImageSearch.Project | image/image_search.py:156-161 | A response without `items` gives `[]`. Otherwise there is one hit per item, in order: its `link`, `source` and `title` defaulting to `''`, and the prompt as context. An item without `link` raises `KeyError`. |
| ImageSearch.GoogleImageSearch | image/image_search.py:133-161 | A request that raises raises `google_image_search`. Otherwise the result is the projection of the response for the query built from the prompt. |
| ImageSearch.KeptLines | image/image_search.py:55 | The kept lines are non-blank and stripped, and there are no more of them than lines. |
| ImageSearch.KeptLinesFixed | image/image_search.py:55 | Non-blank stripped lines are all kept, unchanged and in order. |
| ImageSearch.KeptLinesIdempotent | image/image_search.py:55 | Keeping lines twice keeps the same lines. |
| ImageSearch.KeptLinesNoSep | image/image_search.py:55 | No kept line contains a newline. |
| ImageSearch.KeptLinesOne | image/image_search.py:55 | A blank line is dropped and any other line is kept, stripped. |
| ImageSearch.KeptLinesAppend | image/image_search.py:55 | Lines are kept independently, in order: the kept lines of a concatenation are the two kept parts concatenated. With `KeptLinesOne` this determines the comprehension. |
| ImageSearch.Concepts | image/image_search.py:39-55 | A failing request is handled by the caller. The reply is stripped; a JSON list is returned as parsed and any other JSON gives `[reply]`. Non-JSON gives the kept lines of the reply split at `\n`: non-blank, stripped and without newlines. |
| ImageSearch.OneLineReply | image/image_search.py:54-55 | A one-line reply that is not JSON is one concept: the stripped reply. |
| ImageSearch.ImageName | image/image_search.py:125 | The file name is the first 20 characters of the prompt, with each space turned into `_`, followed by `.png`. So it is 4 to 24 characters long, holds no space, and holds a `/` exactly when those 20 characters do. |
| ImageSearch.SharedPrefixSameImage | image/image_search.py:125-127 | Two prompts that agree on their first 20 characters write the same image file, so the later one overwrites the earlier. |
| ImageSearch.ImageDirAncestry | image/image_search.py:126 | `os.makedirs("output/generated_images")` creates exactly `output` and `output/generated_images`. |
| ImageSearch.ImagePathResolves | image/image_search.py:125-127 | Once the image directory exists, `open` walks into it and resolves the file name there, component by component. |
| ImageSearch.GenerationPayload | image/image_search.py:109-117 | The generator gets the prompt, the width, the height and the fixed parameters. |
| ImageSearch.GenerationOf | image/image_search.py:119-124 | A request that raises, or a 200 response whose body is not JSON, is an error. There is no image exactly when the status is not 200 or the image is empty. Decoded bytes are those of the image text. |
| ImageSearch.ImageSaved | image/image_search.py:119-129 | A raising request changes nothing. `generate_image` returns `None` exactly when there is no image, and raises on a decoding failure. For a decoded image, `makedirs` raises and nothing changes when `output` or the image directory is a file; otherwise it creates both. `FileNotFoundError` means the path does not resolve. `IsADirectoryError` means it resolves to a directory. A returned path is the generated image path; it resolves to a file that is not a directory, and that file holds the decoded bytes. Otherwise no file changes. |
| ImageSearch.ImageSavedWithoutSlash | image/image_search.py:125-129 | A decoded image whose first 20 prompt characters hold no `/` is saved under the generated image path, and that path is returned. This holds when no file blocks `makedirs` and no directory has that path. |
| ImageSearch.ImageOverDirectory | image/image_search.py:126-127 | When the generated image path is an existing directory, `open` raises `IsADirectoryError` after `makedirs`, and no file is written. |
| ImageSearch.SavedAt | image/image_search.py:126-129 | A decoded image whose path resolves to a file that is not a directory is written there, and the path is returned. |
| ImageSearch.LeadingSlashSaved | image/image_search.py:125-129 | A `/` only at the start of the name doubles the separator: the image is saved in the image directory under the rest of its name, and the returned path keeps the `//`. |
| ImageSearch.ImageWithSlashNotSaved | image/image_search.py:125-128 | A name with a `/` after a plain first component names a sub-directory that `makedirs` did not create. `open` raises `FileNotFoundError` and no file is written. |
| ImageSearch.GenerateImage | image/image_search.py:97-130 | The result and the file system are those of `ImageSaved`. |
| ImageSearch.WebImages | image/image_search.py:193 | No kept url starts with `https://lookaside`. The list is empty exactly when every result does. |
| ImageSearch.FirstWebImage | image/image_search.py:193-197 | The chosen web image is the url of the first result not served from `https://lookaside`. |
| ImageSearch.ChunkStep | image/image_search.py:181-199 | A prompt request that raises ends the pass with an error and writes nothing. Otherwise the pass is `PromptStep` on the stripped reply. |
| ImageSearch.PromptStep | image/image_search.py:186-199 | A failing search raises its error and writes nothing. After a successful search the disk is the one `generate_image` leaves, and its error is raised. Once it returns, the pass raises `IndexError` exactly when every hit is a lookaside url. Otherwise the image is the concept, the first non-lookaside url (`WebImages(hits)[0]`) and the returned image path. |
| ImageSearch.Illustrate | image/image_search.py:181-199 | Each image of the loop names its concept, in order, with no lookaside url. |
| ImageSearch.IllustrateStops | image/image_search.py:181-199 | Once a concept raises, the later concepts are not processed. |
| ImageSearch.IllustrateSnoc | image/image_search.py:181-199 | One more concept extends the loop's result by that concept's step. |
| ImageSearch.AsDict | image/image_search.py:202 | An output record has exactly the keys `web_image` and `ai_generated_image`. |
| ImageSearch.Filtered | image/image_search.py:202 | The output has one record per image, each with that image's urls. |
| ImageSearch.SearchImagesShape | image/image_search.py:164-204 | A failing concept extraction raises before anything is written. At most `max_chunks` concepts are processed. A successful run has one record per processed concept, none of them a lookaside image. |
| ImageSearch.ProcessChunk | image/image_search.py:182-199 | One pass of the loop body is `ChunkStep`. |
| ImageSearch.ProcessPrompt | image/image_search.py:186-199 | Once the prompt is written, the pass is `PromptStep`. |
| ImageSearch.SearchImagesFromContent | image/image_search.py:164-204 | The result and the file system are those of `SearchImagesSpec`. |

## Left out

- Services are function parameters, and a raising call is a `None` or `Err` result. This covers:
  - the database connection (database/db.py:9-23);
  - the IndicTrans tokenizer, model and processor;
  - edge-tts and SubMaker;
  - the summariser;
  - OpenAI;
  - Google Custom Search;
  - the image generator;
  - HTTP sessions;
  - BeautifulSoup.

  Their own behaviour, timing and retries are not modelled.
- Logging, `print(soup)`, the torch device set-up and `load_dotenv` have no effect on the state and are not modelled.
- `async`/`await` is modelled as sequential execution. The code has no concurrency of its own.
- The unused `content_length`, `max_length` and `min_length` of `translate_and_store` (translate/translate.py:102-105) are not modelled.
- The scraper's image-search step is a parameter returning the stored value. The project proves facts about `search_images_from_content` in `ImageSearch` but does not compose the two.
- Speech.GenerateTtsAudioAndSubtitles: the output files are modelled as written at once, in this order:
  - the audio file truncated;
  - the subtitle file truncated;
  - the audio appended chunk by chunk;
  - the SRT written when the stream ends.

  Buffering and partial writes inside the library are not modelled. A missing `output` directory is modelled as a `RuntimeError` before either file is written.
- Speech.SynthesisResult: the corrected result, with the two paths in the reply (see Findings). The methods return the result as written, `Speech.SynthesisAsWritten`.
- Speech.AudioPath: the output paths are taken literally. No registered language name holds a `/`, so path resolution is not needed there. An existing directory at one of these paths, which would make `open` raise `IsADirectoryError`, is not modelled.
- Utils.IsWordChar: `\w` is restricted to ASCII letters, digits and `_`. Python's `\w` on `str` also matches other Unicode letters and digits, which this model drops.
- Values.Value: dict key order and Python's distinction between `int` and `bool` keys are not modelled. Documents are maps.
- Db.WithScraped: data carrying an `_id` key is always refused. Mongo refuses such data only when it would change an existing document's id. No caller passes `_id`.
- Db.Collection.ReleaseExistWithTitle: which document is returned when several share a title depends on Mongo's natural order. The model returns some matching document.
- Db.Collection.IsUrlScraped: the in-memory collection never raises, so the re-raise at database/db.py:40-42 and the scraper's catch around it are not exercised.
- ImageSearch.Concepts: a JSON list is taken to hold strings. A list of non-strings would flow on into the loop and is not modelled.
- Utils.OidText: an ObjectId is identified with a natural number, and its text is the 24 low hexadecimal digits. The 12-byte layout is not modelled.
- Scrap.GetPressReleases: the date's `%Y-%m-%d` text and `urljoin` are parameters, and `get_form_data` is its result.
- Files.Locate: a `..` that climbs above the working directory is treated as failing, and absolute paths are not modelled. Every path the code builds is relative.
- Files.Disk: the disk does not enforce that a path is never both a directory and a file. The writes of `generate_image` keep them apart, and the speech step's writes are taken on trust (see `Speech.AudioPath`).
- Db.WithStatus and Db.WithTranslation: the language becomes one path component below `translations`. The source builds the dotted string `translations.<language>`, so a language name holding a `.` would reach deeper. Only names from the registered target languages reach these calls, and none of them holds a `.`.

## Findings

| source | as written | input that shows it | evidently intended | confidence | as-written member | corrected member |
|---|---|---|---|---|---|---|
| translate/translate.py:114 | The speech step is called with the translated summary, the title and the language, but the function takes only a text and a language. Python raises TypeError, so every language not yet completed fails and stays `in_progress`. | A release with no translations and any target language, e.g. `hindi`: the job fails, and the whole loop completes nothing. | Call synthesis with the text and the language only. | high (not executed) | Translation.AsWrittenJobNeverCompletes | Translation.IntendedJobCompletes |
| scrap/scrap.py:195 | The same three-argument call in the scraper raises TypeError, which the surrounding `except` turns into `None`. No new release is ever stored. | Any url not yet in the collection whose fetch, search and summary succeed. | Call synthesis with the summary and `english` only. | high (not executed) | Scrap.AsWrittenScrapeStoresNothing | Scrap.IntendedScrapeStores |
| speech/tts.py:102 | The reply holds only a `message`. The callers read its `audio` and `subtitle` (translate/translate.py:128-129, scrap/scrap.py:210-211) and store `None` for both. | Any successful synthesis, e.g. `english`: the reply has no `audio` key. | The reply carries the two output paths it wrote. | high (not executed) | Speech.ReplyCarriesNoPaths | Speech.IntendedReply |
