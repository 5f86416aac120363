/**
 * The press-release scraper (scrap/scrap.py): text cleaning, the summary
 * length bounds, the embed-source collection, the listing of a day's releases
 * and the scraping of one release into the collection. HTTP requests, HTML
 * parsing, summarisation and image search are parameters.
 */
module Scrap {
  import opened Wrappers
  import opened Text
  import opened Values
  import opened Db
  import Utils
  import Speech

  // ---------------------------------------------------------------- txt_cleaner

  /** `re.sub(r'\s+', ' ', s)`, with `cs` standing for `\s`: every maximal run of
      characters of `cs` becomes one space. */
  function Collapse(s: string, cs: set<char>): (r: string)
    requires ' ' in cs
    ensures s != [] ==> r != [] && (r[0] in cs <==> s[0] in cs)
    ensures s != [] ==> (r[|r| - 1] in cs <==> s[|s| - 1] in cs)
    ensures Collapsed(r, cs)
    decreases |s|
  {
    if s == [] then []
    else if s[0] in cs then
      var rest := LStrip(s[1..], cs);
      var tail := Collapse(rest, cs);
      LStripLast(s, cs);
      CollapsedCons(' ', tail, cs);
      [' '] + tail
    else
      var tail := Collapse(s[1..], cs);
      CollapsedCons(s[0], tail, cs);
      [s[0]] + tail
  }

  /** Past a leading character of `cs`, the rest of `s` without its run of `cs`
      ends as `s` does, or is empty when `s` ends inside that run. */
  lemma LStripLast(s: string, cs: set<char>)
    requires s != [] && s[0] in cs
    ensures var rest := LStrip(s[1..], cs);
      && (rest != [] ==> rest[|rest| - 1] == s[|s| - 1])
      && (rest == [] ==> s[|s| - 1] in cs)
  {
    var t := s[1..];
    LStripDrops(t, cs);
    if LStrip(t, cs) == [] && t != [] {
      assert t[|t| - 1] == s[|s| - 1];
    }
  }

  /** Every character of `cs` is a space and none is followed by another one. */
  ghost predicate Collapsed(s: string, cs: set<char>) {
    && (forall i :: 0 <= i < |s| && s[i] in cs ==> s[i] == ' ')
    && (forall i, j :: 0 <= i < j < |s| && j == i + 1 && s[i] in cs ==> s[j] !in cs)
  }

  /** A character in front of a collapsed text keeps it collapsed when it is not
      in `cs`, or when it is a space followed by no character of `cs`. */
  lemma CollapsedCons(c: char, tail: string, cs: set<char>)
    requires Collapsed(tail, cs)
    requires c in cs ==> c == ' ' && (tail != [] ==> tail[0] !in cs)
    ensures Collapsed([c] + tail, cs)
  {
    var t := [c] + tail;
    forall i | 0 <= i < |t| && t[i] in cs ensures t[i] == ' ' {
      if i > 0 {
        assert t[i] == tail[i - 1];
      }
    }
    forall i, j | 0 <= i < j < |t| && j == i + 1 && t[i] in cs ensures t[j] !in cs {
      assert t[j] == tail[j - 1];
      if i > 0 {
        assert t[i] == tail[i - 1];
      }
    }
  }

  /** The characters of `s` outside `cs`, in order. */
  function Outside(s: string, cs: set<char>): (r: string)
    ensures NoneIn(r, cs)
  {
    if s == [] then [] else (if s[0] in cs then [] else [s[0]]) + Outside(s[1..], cs)
  }

  /** The characters of `s` that are not whitespace, in order. */
  function NonSpace(s: string): string
  {
    Outside(s, Whitespace)
  }

  lemma {:induction false} OutsideAppend(a: string, b: string, cs: set<char>)
    ensures Outside(a + b, cs) == Outside(a, cs) + Outside(b, cs)
  {
    if a != [] {
      assert (a + b)[1..] == a[1..] + b;
      OutsideAppend(a[1..], b, cs);
    } else {
      assert a + b == b;
    }
  }

  lemma {:induction false} OutsideOfInside(s: string, cs: set<char>)
    requires AllIn(s, cs)
    ensures Outside(s, cs) == []
  {
    if s != [] {
      OutsideOfInside(s[1..], cs);
    }
  }

  /** Collapsing keeps every character outside `cs`, in order. */
  lemma {:induction false} CollapseKeepsText(s: string, cs: set<char>)
    requires ' ' in cs
    ensures Outside(Collapse(s, cs), cs) == Outside(s, cs)
    decreases |s|
  {
    if s != [] {
      if s[0] in cs {
        var rest := LStrip(s[1..], cs);
        CollapseKeepsText(rest, cs);
        OutsideAppend([' '], Collapse(rest, cs), cs);
        var t := s[1..];
        LStripDrops(t, cs);
        assert t == t[..|t| - |rest|] + rest;
        OutsideAppend(t[..|t| - |rest|], rest, cs);
        OutsideOfInside(t[..|t| - |rest|], cs);
      } else {
        CollapseKeepsText(s[1..], cs);
        OutsideAppend([s[0]], Collapse(s[1..], cs), cs);
      }
    }
  }

  /** A text already in collapsed form is left as it is. */
  lemma {:induction false} CollapseFixed(s: string, cs: set<char>)
    requires ' ' in cs && Collapsed(s, cs)
    ensures Collapse(s, cs) == s
    decreases |s|
  {
    if s != [] {
      assert Collapsed(s[1..], cs) by {
        var t := s[1..];
        forall i | 0 <= i < |t| && t[i] in cs ensures t[i] == ' ' {
          assert t[i] == s[i + 1];
        }
        forall i, j | 0 <= i < j < |t| && j == i + 1 && t[i] in cs ensures t[j] !in cs {
          assert t[i] == s[i + 1] && t[j] == s[j + 1];
        }
      }
      CollapseFixed(s[1..], cs);
      if s[0] in cs {
        assert s[1..] == [] || s[1] !in cs;
        assert LStrip(s[1..], cs) == s[1..];
      }
    }
  }

  /** `txt_cleaner(txt)`: `''` for `None` or the empty string; otherwise the text
      stripped, with each run of whitespace turned into one space. */
  function TxtCleaner(txt: Option<string>): string
  {
    match txt
    case None => ""
    case Some(t) =>
      if t == "" then ""
      else
        var stripped := Strip(t, Whitespace);
        assert ' ' in Whitespace;
        Collapse(stripped, Whitespace)
  }

  /** A cleaned text is empty for `None` and `""`, neither starts nor ends with
      whitespace, and holds no whitespace but single spaces. */
  lemma CleanedShape(txt: Option<string>)
    ensures txt == None || txt == Some("") ==> TxtCleaner(txt) == ""
    ensures var r := TxtCleaner(txt);
      r != [] ==> r[0] !in Whitespace && r[|r| - 1] !in Whitespace
    ensures Collapsed(TxtCleaner(txt), Whitespace)
  {
    if txt.Some? && txt.value != "" {
      var stripped := Strip(txt.value, Whitespace);
      assert ' ' in Whitespace;
      var r := Collapse(stripped, Whitespace);
      assert r != [] ==> stripped != [];
    }
  }

  /** Stripping drops characters of `cs` only. */
  lemma StripKeepsOutside(t: string, cs: set<char>)
    ensures Outside(Strip(t, cs), cs) == Outside(t, cs)
  {
    var r := Strip(t, cs);
    var i := StripStart(t, cs);
    var j := i + |r|;
    StripParts(t, cs);
    var pre, post := t[..i], t[j..];
    assert t == pre + r + post;
    OutsideAppend(pre + r, post, cs);
    OutsideAppend(pre, r, cs);
    OutsideOfInside(pre, cs);
    OutsideOfInside(post, cs);
  }

  /** Cleaning drops whitespace only: the other characters survive in order. */
  lemma CleanerKeepsText(t: string)
    ensures NonSpace(TxtCleaner(Some(t))) == NonSpace(t)
  {
    if t != "" {
      StripKeepsOutside(t, Whitespace);
      assert ' ' in Whitespace;
      CollapseKeepsText(Strip(t, Whitespace), Whitespace);
    }
  }

  /** Cleaning a cleaned text changes nothing. */
  lemma CleanerIdempotent(txt: Option<string>)
    ensures TxtCleaner(Some(TxtCleaner(txt))) == TxtCleaner(txt)
  {
    var c := TxtCleaner(txt);
    CleanedShape(txt);
    if c != "" {
      assert LStrip(c, Whitespace) == c;
      assert RStrip(c, Whitespace) == c;
      assert ' ' in Whitespace;
      CollapseFixed(c, Whitespace);
    }
  }

  /** Collapsing keeps the words of the text exactly: `split()` sees the same
      words, in the same order, before and after. */
  lemma {:induction false} CollapseKeepsWords(s: string)
    ensures ' ' in Whitespace && Words(Collapse(s, Whitespace)) == Words(s)
    decreases |s|
  {
    assert ' ' in Whitespace;
    if s != [] {
      var t := s[1..];
      assert s == [s[0]] + t;
      if s[0] in Whitespace {
        var rest := LStrip(t, Whitespace);
        CollapseKeepsWords(rest);
        SpaceThenWords(' ', Collapse(rest, Whitespace));
        LStripDrops(t, Whitespace);
        assert t == t[..|t| - |rest|] + rest;
        SpacesThenWords(t[..|t| - |rest|], rest);
        SpaceThenWords(s[0], t);
      } else {
        var tail := Collapse(t, Whitespace);
        CollapseKeepsWords(t);
        CharThenWords(s[0], t);
        CharThenWords(s[0], tail);
        assert t == [] <==> tail == [];
      }
    }
  }

  /** Cleaning keeps the words of the text exactly. */
  lemma CleanerKeepsWords(t: string)
    ensures Words(TxtCleaner(Some(t))) == Words(t)
  {
    if t != "" {
      var r := Strip(t, Whitespace);
      var i := StripStart(t, Whitespace);
      var j := i + |r|;
      StripParts(t, Whitespace);
      assert t == t[..i] + (r + t[j..]);
      SpacesThenWords(t[..i], r + t[j..]);
      WordsThenSpaces(r, t[j..]);
      CollapseKeepsWords(r);
    }
  }

  /** `txt_cleaner(t)` is the words of `t` joined by single spaces. */
  lemma CleanedIsJoin(t: string)
    ensures TxtCleaner(Some(t)) == Join(Words(t), ' ')
  {
    if t != "" {
      CleanedShape(Some(t));
      CollapsedJoin(TxtCleaner(Some(t)));
      CleanerKeepsWords(t);
    }
  }

  /** A collapsed text that neither starts nor ends with whitespace is its
      words joined by single spaces. */
  lemma {:induction false} CollapsedJoin(r: string)
    requires Collapsed(r, Whitespace)
    requires r != [] ==> r[0] !in Whitespace && r[|r| - 1] !in Whitespace
    ensures r == Join(Words(r), ' ')
    decreases |r|
  {
    if r != [] {
      var w := LeadingWord(r);
      if |w| == |r| {
        LoneWord(r);
      } else {
        var u := r[|w| + 1..];
        WordGap(r, |w|);
        CollapsedJoin(u);
        WordThenSpace(r, u);
        JoinCons(w, Words(u), ' ');
      }
    }
  }

  /** Between two words of a collapsed, trimmed text lies exactly one space. */
  lemma WordGap(r: string, k: nat)
    requires Collapsed(r, Whitespace) && r != [] && r[|r| - 1] !in Whitespace
    requires k < |r| && r[k] in Whitespace
    ensures k + 1 < |r| && r[k..] == [' '] + r[k + 1..]
    ensures r[k + 1] !in Whitespace && Collapsed(r[k + 1..], Whitespace)
  {
    CollapsedSuffix(r, k + 1);
  }

  /** Every suffix of a collapsed text is collapsed. */
  lemma CollapsedSuffix(s: string, k: nat)
    requires k <= |s| && Collapsed(s, Whitespace)
    ensures Collapsed(s[k..], Whitespace)
  {
    var t := s[k..];
    forall i | 0 <= i < |t| && t[i] in Whitespace ensures t[i] == ' ' {
      assert t[i] == s[i + k];
    }
    forall i, j | 0 <= i < j < |t| && j == i + 1 && t[i] in Whitespace ensures t[j] !in Whitespace {
      assert t[i] == s[i + k] && t[j] == s[j + k];
    }
  }

  // ---------------------------------------------------------------- summary bounds

  /** `min(1024, max(300, words // 2))`. */
  function MaxLength(words: nat): int
  {
    var half := words / 2;
    var atLeast := if half > 300 then half else 300;
    if atLeast < 1024 then atLeast else 1024
  }

  /** `max(20, max(200, words // 4))`. */
  function MinLength(words: nat): int
  {
    var quarter := words / 4;
    var inner := if quarter > 200 then quarter else 200;
    if inner > 20 then inner else 20
  }

  /** The summary bounds: the maximum lies in [300, 1024], the outer `max(20, ...)`
      never matters, and the minimum exceeds the maximum from 4100 words on. */
  lemma SummaryBounds(words: nat)
    ensures 300 <= MaxLength(words) <= 1024
    ensures MinLength(words) == if words / 4 > 200 then words / 4 else 200
    ensures MinLength(words) <= MaxLength(words) <==> words < 4100
  {
  }

  // ---------------------------------------------------------------- embeds and images

  /** An element the iframe/tweet selector matched: its tag name, its `src`
      attribute, its `class` attribute, and the `href` of its first anchor that
      has one. */
  datatype Embed = Embed(name: string, src: Option<string>, classes: Option<seq<string>>, anchorHref: Option<string>)

  /** What one element adds to `iframe_src`: an iframe its `src`, otherwise an
      element whose class list is exactly `['twitter-tweet']` its tweet link. */
  function EmbedSource(e: Embed): Option<string>
  {
    if e.name == "iframe" && e.src.Some? then e.src
    else if e.classes == Some(["twitter-tweet"]) then e.anchorHref
    else None
  }

  function AsList<T>(o: Option<T>): (r: seq<T>)
    ensures |r| <= 1
  {
    match o
    case None => []
    case Some(x) => [x]
  }

  /** `iframe_src` for the matched elements, in document order. */
  function IframeSources(embeds: seq<Embed>): (r: seq<string>)
    ensures |r| <= |embeds|
  {
    if embeds == [] then []
    else IframeSources(embeds[..|embeds| - 1]) + AsList(EmbedSource(embeds[|embeds| - 1]))
  }

  /** The sources keep document order: each element adds its own source, at most
      one, after those of the elements before it. */
  lemma {:induction false} IframeSourcesAppend(a: seq<Embed>, b: seq<Embed>)
    ensures IframeSources(a + b) == IframeSources(a) + IframeSources(b)
    decreases |b|
  {
    if b == [] {
      assert a + b == a;
    } else {
      assert (a + b)[..|a + b| - 1] == a + b[..|b| - 1];
      IframeSourcesAppend(a, b[..|b| - 1]);
    }
  }

  /** The loop over the matched elements that builds `iframe_src`. */
  method CollectIframeSources(embeds: seq<Embed>) returns (srcs: seq<string>)
    ensures srcs == IframeSources(embeds)
  {
    srcs := [];
    var i := 0;
    while i < |embeds|
      invariant 0 <= i <= |embeds|
      invariant srcs == IframeSources(embeds[..i])
    {
      var e := embeds[i];
      assert embeds[..i + 1][..i] == embeds[..i];
      if e.name == "iframe" && e.src.Some? {
        srcs := srcs + [e.src.value];
      } else if e.classes == Some(["twitter-tweet"]) {
        if e.anchorHref.Some? {
          srcs := srcs + [e.anchorHref.value];
        }
      }
      i := i + 1;
    }
    assert embeds[..i] == embeds;
  }

  /** `[img.get('src') for img in ...] or None`: no images give `None`, otherwise
      one entry per image, in order, `None` where the image has no `src`. */
  function ImagesField(srcs: seq<Option<string>>): (r: Value)
    ensures r == Null <==> srcs == []
    ensures srcs != [] ==> r.List? && |r.items| == |srcs| && forall i :: 0 <= i < |srcs| ==> r.items[i] == OptStr(srcs[i])
  {
    if srcs == [] then Null else List(seq(|srcs|, i requires 0 <= i < |srcs| => OptStr(srcs[i])))
  }

  // ---------------------------------------------------------------- scrape_press_release

  /** What the parser finds on a release page: the paragraph texts of the main
      content, the texts of the title, date and ministry elements when present,
      the `src` of each content image, and the embeds. */
  datatype Page = Page(paragraphs: seq<string>, heading: Option<string>, dateLine: Option<string>,
                       ministryLine: Option<string>, images: seq<Option<string>>, embeds: seq<Embed>)

  /** `session.get(url)` with `raise_for_status` and parsing; `None` when it raises. */
  type Fetch = string -> Option<Page>

  /** `search_images_from_content(content)`; `None` when it raises. */
  type ImageSearch = string -> Option<Value>

  /** `summarize_text(content, max_length, min_length)`; `None` when it raises. */
  type Summarize = (string, int, int) -> Option<string>

  function OrElse(o: Option<string>, default: string): string
  {
    match o
    case None => default
    case Some(t) => t
  }

  /** The cleaned texts of a page. */
  datatype Article = Article(title: string, datePosted: string, ministry: string, content: string)

  function ArticleOf(page: Page): Article
  {
    Article(
      TxtCleaner(Some(OrElse(page.heading, "No Title"))),
      TxtCleaner(Some(OrElse(page.dateLine, "No Date Provided"))),
      TxtCleaner(Some(OrElse(page.ministryLine, "No Ministry Provided"))),
      TxtCleaner(Some(Strip(Join(page.paragraphs, ' '), Whitespace))))
  }

  /** A list of strings as a stored value. */
  function StrList(xs: seq<string>): (r: Value)
    ensures r.List? && |r.items| == |xs| && forall i :: 0 <= i < |xs| ==> r.items[i] == Str(xs[i])
  {
    List(seq(|xs|, i requires 0 <= i < |xs| => Str(xs[i])))
  }

  /** The english entry of a new record. */
  function EnglishEntry(a: Article, summary: string, reply: map<string, Value>): map<string, Value>
  {
    Entry(Texts(a.title, a.ministry, a.content, summary), Speech.GetOrNone(reply, "audio"), Speech.GetOrNone(reply, "subtitle"))
  }

  /** The document `scrape_press_release` stores for a new url: the page data and
      exactly one translation, `english`, completed. */
  function NewRecord(url: string, a: Article, images: Value, iframes: seq<string>, generated: Value,
                     summary: string, reply: map<string, Value>): (r: Doc)
    ensures HasField(r, UrlKey, Str(url)) && IdKey !in r
    ensures HasField(r, "date_posted", Str(a.datePosted)) && HasField(r, "images", images)
    ensures HasField(r, "iframes", StrList(iframes)) && HasField(r, "generated_images", generated)
    ensures HasField(r, TranslationsKey, Dict(map["english" := Dict(EnglishEntry(a, summary, reply))]))
  {
    map[
      "date_posted" := Str(a.datePosted),
      "images" := images,
      "iframes" := StrList(iframes),
      UrlKey := Str(url),
      "generated_images" := generated,
      TranslationsKey := Dict(map["english" := Dict(EnglishEntry(a, summary, reply))])
    ]
  }

  /** A new record has exactly one translation, `english`, and it is completed. */
  lemma NewRecordEnglishOnly(url: string, a: Article, images: Value, iframes: seq<string>, generated: Value,
                             summary: string, reply: map<string, Value>)
    ensures var t := NewRecord(url, a, images, iframes, generated, summary, reply)[TranslationsKey];
      && t.Dict? && t.fields.Keys == {"english"}
      && t.fields["english"].Dict? && HasField(t.fields["english"].fields, StatusKey, Str(CompletedStatus))
  {
  }

  /** The record scraped from a page. */
  function PageRecord(url: string, page: Page, generated: Value, summary: string, reply: map<string, Value>): Doc
  {
    NewRecord(url, ArticleOf(page), ImagesField(page.images), IframeSources(page.embeds), generated, summary, reply)
  }

  /** What `scrape_press_release` returns and the collection it leaves. */
  datatype Scraped = Scraped(result: Option<Value>, store: Store)

  /** The record `scrape_press_release` builds for a url it has not stored yet:
      the page is fetched and cleaned, its content illustrated, summarised
      within the bounds its word count gives, and the summary spoken in English.
      `None` when any of these raises. */
  function Prepared(url: string, fetch: Fetch, search: ImageSearch, summarize: Summarize,
                    speak: Speech.SpeechCall): Option<Doc>
  {
    match fetch(url)
    case None => None
    case Some(page) => PreparedFrom(url, page, ArticleOf(page), search, summarize, speak)
  }

  /** The steps of `Prepared` once the page is fetched and its texts cleaned. */
  function PreparedFrom(url: string, page: Page, a: Article, search: ImageSearch, summarize: Summarize,
                        speak: Speech.SpeechCall): Option<Doc>
  {
    match search(a.content)
    case None => None
    case Some(generated) =>
      var words := |Words(a.content)|;
      match summarize(a.content, MaxLength(words), MinLength(words))
      case None => None
      case Some(summary) =>
        match speak(summary, a.title, "english")
        case Err(_) => None
        case Ok(reply) => Some(NewRecord(url, a, ImagesField(page.images), IframeSources(page.embeds), generated, summary, reply))
  }

  /** `scrape_press_release(url)`: a url already stored gives back its document;
      otherwise the prepared record is upserted. Any exception gives `None`. */
  ghost function ScrapeSpec(s: Store, url: string, fetch: Fetch, search: ImageSearch,
                            summarize: Summarize, speak: Speech.SpeechCall): Scraped
    requires WellFormed(s)
  {
    match UrlOwner(s, Str(url))
    case Some(id) => Scraped(Some(Utils.ConvertObjectIds(AsValue(id, s.docs[id]))), s)
    case None => RecordStored(s, Prepared(url, fetch, search, summarize, speak))
  }

  /** The end of `scrape_press_release` for a new url: a prepared record is
      upserted and the stored document returned; `None` when there is no record
      or the write fails. */
  ghost function RecordStored(s: Store, record: Option<Doc>): Scraped
    requires WellFormed(s)
  {
    match record
    case None => Scraped(None, s)
    case Some(record) =>
      var stored := StoreScraped(s, Dict(record));
      match stored.result
      case Err(_) => Scraped(None, stored.store)
      case Ok(doc) => Scraped(Some(Utils.ConvertObjectIds(doc)), stored.store)
  }

  /** A url already stored is answered from the collection: nothing is fetched,
      summarised or spoken, and nothing is written. */
  lemma KnownUrlShortCircuit(s: Store, url: string, fetch: Fetch, search: ImageSearch, summarize: Summarize,
                             speak: Speech.SpeechCall, fetch': Fetch, search': ImageSearch,
                             summarize': Summarize, speak': Speech.SpeechCall)
    requires WellFormed(s) && UrlOwner(s, Str(url)).Some?
    ensures var id := UrlOwner(s, Str(url)).value;
      && ScrapeSpec(s, url, fetch, search, summarize, speak) == Scraped(Some(Utils.ConvertObjectIds(AsValue(id, s.docs[id]))), s)
      && ScrapeSpec(s, url, fetch', search', summarize', speak') == ScrapeSpec(s, url, fetch, search, summarize, speak)
  {
  }

  /** As written, the speech call raises for every new url, so nothing new is
      ever stored and the caller gets `None`. */
  lemma AsWrittenScrapeStoresNothing(s: Store, url: string, fetch: Fetch, search: ImageSearch, summarize: Summarize)
    requires WellFormed(s) && UrlOwner(s, Str(url)).None?
    ensures ScrapeSpec(s, url, fetch, search, summarize, Speech.AsWrittenCall()) == Scraped(None, s)
  {
  }

  /** A new url whose record is prepared is upserted, and the caller gets the
      stored document back exactly when the write succeeds. */
  lemma NewPageStored(s: Store, url: string, fetch: Fetch, search: ImageSearch, summarize: Summarize,
                      speak: Speech.SpeechCall, record: Doc)
    requires WellFormed(s) && UrlOwner(s, Str(url)).None?
    requires Prepared(url, fetch, search, summarize, speak) == Some(record)
    ensures var stored := StoreScraped(s, Dict(record));
      && ScrapeSpec(s, url, fetch, search, summarize, speak).store == stored.store
      && (ScrapeSpec(s, url, fetch, search, summarize, speak).result.Some? <==> stored.result.Ok?)
  {
  }

  /** A page whose services all succeed prepares the record of that page. */
  lemma PagePrepared(url: string, fetch: Fetch, search: ImageSearch, summarize: Summarize,
                     speak: Speech.SpeechCall, page: Page, generated: Value, summary: string,
                     reply: map<string, Value>)
    requires fetch(url) == Some(page) && search(ArticleOf(page).content) == Some(generated)
    requires summarize(ArticleOf(page).content, MaxLength(|Words(ArticleOf(page).content)|),
                       MinLength(|Words(ArticleOf(page).content)|)) == Some(summary)
    requires speak(summary, ArticleOf(page).title, "english") == Ok(reply)
    ensures Prepared(url, fetch, search, summarize, speak) == Some(PageRecord(url, page, generated, summary, reply))
  {
    ArticlePrepared(url, page, ArticleOf(page), search, summarize, speak, generated, summary, reply);
  }

  /** The steps after the fetch succeed when every service does. */
  lemma ArticlePrepared(url: string, page: Page, a: Article, search: ImageSearch, summarize: Summarize,
                        speak: Speech.SpeechCall, generated: Value, summary: string, reply: map<string, Value>)
    requires search(a.content) == Some(generated)
    requires summarize(a.content, MaxLength(|Words(a.content)|), MinLength(|Words(a.content)|)) == Some(summary)
    requires speak(summary, a.title, "english") == Ok(reply)
    ensures PreparedFrom(url, page, a, search, summarize, speak)
      == Some(NewRecord(url, a, ImagesField(page.images), IframeSources(page.embeds), generated, summary, reply))
  {
  }

  /** With the intended speech call, a new page whose services succeed is stored:
      its document carries the url and a completed `english` translation whose
      audio is the English audio file. */
  lemma IntendedScrapeStores(s: Store, url: string, fetch: Fetch, search: ImageSearch, summarize: Summarize,
                             engine: (string, Speech.VoiceConfig) -> Speech.Stream,
                             page: Page, generated: Value, summary: string)
    requires WellFormed(s) && UrlOwner(s, Str(url)).None?
    requires fetch(url) == Some(page) && search(ArticleOf(page).content) == Some(generated)
    requires summarize(ArticleOf(page).content, MaxLength(|Words(ArticleOf(page).content)|),
                       MinLength(|Words(ArticleOf(page).content)|)) == Some(summary)
    requires Speech.SynthesisResult(true, summary, "english", engine).Ok?
    ensures var run := ScrapeSpec(s, url, fetch, search, summarize,
                                  Speech.IntendedCall((text, lang) => Speech.SynthesisResult(true, text, lang, engine)));
      && run.result.Some?
      && exists id :: id in run.store.docs && HasField(run.store.docs[id], UrlKey, Str(url))
                      && FindCompleted(run.store, id, "english").Ok? && FindCompleted(run.store, id, "english").value.Some?
                      && HasField(EntryOf(run.store, id, "english").value.fields, "audio", Str(Speech.AudioPath("english")))
  {
    var a := ArticleOf(page);
    var tts := (text, lang) => Speech.SynthesisResult(true, text, lang, engine);
    var speak := Speech.IntendedCall(tts);
    var reply := tts(summary, "english").value;
    var m := PageRecord(url, page, generated, summary, reply);
    var stored := StoreScraped(s, Dict(m));
    var run := ScrapeSpec(s, url, fetch, search, summarize, speak);
    assert run.store == stored.store && (run.result.Some? <==> stored.result.Ok?) by {
      assert speak(summary, a.title, "english") == Ok(reply);
      PagePrepared(url, fetch, search, summarize, speak, page, generated, summary, reply);
      NewPageStored(s, url, fetch, search, summarize, speak, m);
    }
    PageRecordEntry(url, page, generated, summary, reply);
    StoredEntry(s, m, EnglishEntry(a, summary, reply), Str(Speech.AudioPath("english")));
  }

  /** The record of a page carries its url, no `_id`, and the english entry
      as its only translation. */
  lemma PageRecordEntry(url: string, page: Page, generated: Value, summary: string, reply: map<string, Value>)
    ensures var m := PageRecord(url, page, generated, summary, reply);
      && HasField(m, UrlKey, Str(url)) && IdKey !in m
      && HasField(m, TranslationsKey, Dict(map["english" := Dict(EnglishEntry(ArticleOf(page), summary, reply))]))
  {
  }

  /** Upserting a record with a url and a completed `english` entry stores a
      document whose `english` entry is found completed, with that entry's audio. */
  lemma StoredEntry(s: Store, m: Doc, entry: Doc, audio: Value)
    requires WellFormed(s) && UrlKey in m && IdKey !in m
    requires HasField(m, TranslationsKey, Dict(map["english" := Dict(entry)]))
    requires HasField(entry, StatusKey, Str(CompletedStatus)) && HasField(entry, "audio", audio)
    ensures var stored := StoreScraped(s, Dict(m));
      && stored.result.Ok?
      && exists id :: id in stored.store.docs && HasField(stored.store.docs[id], UrlKey, m[UrlKey])
                      && FindCompleted(stored.store, id, "english").Ok? && FindCompleted(stored.store, id, "english").value.Some?
                      && HasField(EntryOf(stored.store, id, "english").value.fields, "audio", audio)
  {
    var w := WithScraped(s, m);
    var (s', id) := w.value;
    assert StoreScraped(s, Dict(m)).store == s';
    assert HasField(s'.docs[id], TranslationsKey, m[TranslationsKey]);
    assert HasField(s'.docs[id], UrlKey, m[UrlKey]);
    var english := map["english" := Dict(entry)];
    assert [TranslationsKey, "english"][1..] == ["english"];
    assert GetPath(english, ["english"]) == Some(Dict(entry));
    assert GetPath(s'.docs[id], [TranslationsKey, "english"]) == GetPath(english, ["english"]);
  }

  // ---------------------------------------------------------------- get_press_releases

  const BaseUrl := "https://pib.gov.in/allRel.aspx"

  /** `str(n)` for a natural number. */
  function DecimalText(n: nat): (r: string)
    ensures |r| >= 1 && AllDigits(r)
    ensures DigitsValue(r) == n
    ensures |r| > 1 ==> r[0] != '0'
  {
    var digit := [(('0' as int) + n % 10) as char];
    if n < 10 then digit
    else
      var front := DecimalText(n / 10);
      assert (front + digit)[..|front|] == front;
      front + digit
  }

  predicate AllDigits(s: string) {
    forall i :: 0 <= i < |s| ==> '0' <= s[i] <= '9'
  }

  /** The number a string of decimal digits reads as. */
  function DigitsValue(s: string): nat
    requires AllDigits(s)
  {
    if s == [] then 0
    else DigitsValue(s[..|s| - 1]) * 10 + (s[|s| - 1] as int - '0' as int)
  }

  /** The fields `get_press_releases` fills in itself. */
  function FixedFields(ministryId: string, day: nat, month: nat, year: nat): (r: map<string, string>)
    ensures r.Keys == {
      "ctl00$ContentPlaceHolder1$ddlMinistry", "ctl00$ContentPlaceHolder1$ddlday",
      "ctl00$ContentPlaceHolder1$ddlMonth", "ctl00$ContentPlaceHolder1$ddlYear",
      "ctl00$ContentPlaceHolder1$hydregionid", "ctl00$ContentPlaceHolder1$hydLangid",
      "__EVENTTARGET", "__EVENTARGUMENT"}
  {
    map[
      "ctl00$ContentPlaceHolder1$ddlMinistry" := ministryId,
      "ctl00$ContentPlaceHolder1$ddlday" := DecimalText(day),
      "ctl00$ContentPlaceHolder1$ddlMonth" := DecimalText(month),
      "ctl00$ContentPlaceHolder1$ddlYear" := DecimalText(year),
      "ctl00$ContentPlaceHolder1$hydregionid" := "3",
      "ctl00$ContentPlaceHolder1$hydLangid" := "1",
      "__EVENTTARGET" := "ctl00$ContentPlaceHolder1$ddlMinistry",
      "__EVENTARGUMENT" := ""
    ]
  }

  /** The form posted for a day's listing: the fixed fields, overridden by the
      hidden fields read from the page (`payload.update(form_data)`). A fixed
      field the page does not override keeps its value: the ministry, the day,
      month and year in decimal, region `3`, language `1`, the ministry
      drop-down as event target and an empty event argument. */
  function Payload(ministryId: string, day: nat, month: nat, year: nat, formData: map<string, string>): (r: map<string, string>)
    ensures r.Keys == formData.Keys + FixedFields(ministryId, day, month, year).Keys
    ensures forall k :: k in formData ==> r[k] == formData[k]
    ensures "ctl00$ContentPlaceHolder1$ddlMinistry" !in formData ==> r["ctl00$ContentPlaceHolder1$ddlMinistry"] == ministryId
    ensures "ctl00$ContentPlaceHolder1$ddlday" !in formData ==> r["ctl00$ContentPlaceHolder1$ddlday"] == DecimalText(day)
    ensures "ctl00$ContentPlaceHolder1$ddlMonth" !in formData ==> r["ctl00$ContentPlaceHolder1$ddlMonth"] == DecimalText(month)
    ensures "ctl00$ContentPlaceHolder1$ddlYear" !in formData ==> r["ctl00$ContentPlaceHolder1$ddlYear"] == DecimalText(year)
    ensures "ctl00$ContentPlaceHolder1$hydregionid" !in formData ==> r["ctl00$ContentPlaceHolder1$hydregionid"] == "3"
    ensures "ctl00$ContentPlaceHolder1$hydLangid" !in formData ==> r["ctl00$ContentPlaceHolder1$hydLangid"] == "1"
    ensures "__EVENTTARGET" !in formData ==> r["__EVENTTARGET"] == "ctl00$ContentPlaceHolder1$ddlMinistry"
    ensures "__EVENTARGUMENT" !in formData ==> r["__EVENTARGUMENT"] == ""
  {
    FixedFields(ministryId, day, month, year) + formData
  }

  datatype Anchor = Anchor(text: string, href: string)

  /** A `<ul>` of the listing: the text of its `h3.font104` header if it has one,
      and for each `<li>` its first anchor with an `href`, if any. */
  datatype Listing = Listing(header: Option<string>, items: seq<Option<Anchor>>)

  /** `session.post(BASE_URL, data=payload)` with `raise_for_status` and parsing:
      `None` when it raises, `Some(None)` when there is no `div.content-area`. */
  type Post = map<string, string> -> Option<Option<seq<Listing>>>

  /** One release of the listing: the dict with keys `title`, `url`, `ministry`
      and `date`. */
  datatype Listed = Listed(title: string, url: string, ministry: string, date: string)

  /** The release an anchor names; `resolve` stands for `urljoin(BASE_URL, ...)`. */
  function ReleaseOf(a: Anchor, ministry: string, date: string, resolve: string -> string): Listed
  {
    Listed(Strip(a.text, Whitespace), resolve(a.href), ministry, date)
  }

  /** The releases of one list, in order: one per item with an anchor. */
  function ItemReleases(items: seq<Option<Anchor>>, ministry: string, date: string, resolve: string -> string): (r: seq<Listed>)
    ensures |r| <= |items|
  {
    if items == [] then []
    else
      var last := items[|items| - 1];
      ItemReleases(items[..|items| - 1], ministry, date, resolve)
        + (if last.Some? then [ReleaseOf(last.value, ministry, date, resolve)] else [])
  }

  /** The releases of the whole listing, in order; a list without a header adds
      nothing. */
  function ListingReleases(lists: seq<Listing>, date: string, resolve: string -> string): seq<Listed>
  {
    if lists == [] then []
    else
      var last := lists[|lists| - 1];
      ListingReleases(lists[..|lists| - 1], date, resolve)
        + (match last.header
           case None => []
           case Some(h) => ItemReleases(last.items, Strip(h, Whitespace), date, resolve))
  }

  /** `t` neither starts nor ends with whitespace. */
  predicate Trimmed(t: string) {
    t != [] ==> t[0] !in Whitespace && t[|t| - 1] !in Whitespace
  }

  /** Every release carries the requested date and the stripped header of a list
      of the listing, and its title is stripped. */
  lemma {:induction false} ListingReleasesShape(lists: seq<Listing>, date: string, resolve: string -> string)
    ensures forall r :: r in ListingReleases(lists, date, resolve) ==>
      && r.date == date && Trimmed(r.title)
      && exists i :: 0 <= i < |lists| && lists[i].header.Some? && r.ministry == Strip(lists[i].header.value, Whitespace)
    decreases |lists|
  {
    if lists != [] {
      var init := lists[..|lists| - 1];
      var last := lists[|lists| - 1];
      ListingReleasesShape(init, date, resolve);
      forall r | r in ListingReleases(lists, date, resolve)
        ensures r.date == date && Trimmed(r.title)
        ensures exists i :: 0 <= i < |lists| && lists[i].header.Some? && r.ministry == Strip(lists[i].header.value, Whitespace)
      {
        if r in ListingReleases(init, date, resolve) {
          var i :| 0 <= i < |init| && init[i].header.Some? && r.ministry == Strip(init[i].header.value, Whitespace);
          assert lists[i] == init[i];
        } else {
          ItemReleasesShape(last.items, Strip(last.header.value, Whitespace), date, resolve);
          assert lists[|lists| - 1] == last;
        }
      }
    }
  }

  lemma {:induction false} ItemReleasesShape(items: seq<Option<Anchor>>, ministry: string, date: string, resolve: string -> string)
    ensures forall r :: r in ItemReleases(items, ministry, date, resolve) ==>
      r.date == date && r.ministry == ministry && Trimmed(r.title)
    decreases |items|
  {
    if items != [] {
      ItemReleasesShape(items[..|items| - 1], ministry, date, resolve);
      var last := items[|items| - 1];
    }
  }

  /** `get_press_releases(date, ministry_id)`: `formData` is what `get_form_data`
      read (`None` when it raised), `date` the `%Y-%m-%d` text of the day. */
  function PressReleasesSpec(formData: Option<map<string, string>>, post: Post, ministryId: string,
                             day: nat, month: nat, year: nat, date: string, resolve: string -> string): seq<Listed>
  {
    match formData
    case None => []
    case Some(form) =>
      if form == map[] then []
      else match post(Payload(ministryId, day, month, year, form))
        case None => []
        case Some(None) => []
        case Some(Some(lists)) => ListingReleases(lists, date, resolve)
  }

  /** The inner loop of `get_press_releases`: one release per `<li>` that holds
      an anchor, in order. */
  method CollectListReleases(items: seq<Option<Anchor>>, ministry: string, date: string, resolve: string -> string)
    returns (releases: seq<Listed>)
    ensures releases == ItemReleases(items, ministry, date, resolve)
  {
    releases := [];
    var j := 0;
    while j < |items|
      invariant 0 <= j <= |items|
      invariant releases == ItemReleases(items[..j], ministry, date, resolve)
    {
      assert items[..j + 1][..j] == items[..j];
      if items[j].Some? {
        releases := releases + [ReleaseOf(items[j].value, ministry, date, resolve)];
      }
      j := j + 1;
    }
    assert items[..j] == items;
  }

  /** The listing loops of `get_press_releases`. */
  method GetPressReleases(formData: Option<map<string, string>>, post: Post, ministryId: string,
                          day: nat, month: nat, year: nat, date: string, resolve: string -> string)
    returns (releases: seq<Listed>)
    ensures releases == PressReleasesSpec(formData, post, ministryId, day, month, year, date, resolve)
  {
    if formData.None? || formData.value == map[] {
      return [];
    }
    var response := post(Payload(ministryId, day, month, year, formData.value));
    if response.None? || response.value.None? {
      return [];
    }
    releases := CollectListingReleases(response.value.value, date, resolve);
  }

  /** The outer loop of `get_press_releases`: the releases of each `<ul>` with a
      header, in order. */
  method CollectListingReleases(lists: seq<Listing>, date: string, resolve: string -> string)
    returns (releases: seq<Listed>)
    ensures releases == ListingReleases(lists, date, resolve)
  {
    releases := [];
    var i := 0;
    while i < |lists|
      invariant 0 <= i <= |lists|
      invariant releases == ListingReleases(lists[..i], date, resolve)
    {
      assert lists[..i + 1][..i] == lists[..i];
      var ul := lists[i];
      if ul.header.Some? {
        var found := CollectListReleases(ul.items, Strip(ul.header.value, Whitespace), date, resolve);
        releases := releases + found;
      }
      i := i + 1;
    }
    assert lists[..i] == lists;
  }

  // ---------------------------------------------------------------- the scraper

  /** The steps of `scrape_press_release` between the lookup and the upsert. */
  method PrepareRecord(url: string, fetch: Fetch, search: ImageSearch, summarize: Summarize,
                       speak: Speech.SpeechCall) returns (record: Option<Doc>)
    ensures record == Prepared(url, fetch, search, summarize, speak)
  {
    var fetched := fetch(url);
    if fetched.None? {
      return None;
    }
    var page := fetched.value;
    record := PrepareFrom(url, page, ArticleOf(page), search, summarize, speak);
  }

  method PrepareFrom(url: string, page: Page, article: Article, search: ImageSearch, summarize: Summarize,
                     speak: Speech.SpeechCall) returns (record: Option<Doc>)
    ensures record == PreparedFrom(url, page, article, search, summarize, speak)
  {
    var generated := search(article.content);
    if generated.None? {
      return None;
    }
    var words := |Words(article.content)|;
    var summary := summarize(article.content, MaxLength(words), MinLength(words));
    if summary.None? {
      return None;
    }
    var iframes := CollectIframeSources(page.embeds);
    var audio := speak(summary.value, article.title, "english");
    if audio.Err? {
      return None;
    }
    record := Some(NewRecord(url, article, ImagesField(page.images), iframes, generated.value, summary.value, audio.value));
  }

  /** `scrape_press_release(url)` against the collection. */
  method ScrapePressRelease(db: Collection, url: string, fetch: Fetch, search: ImageSearch,
                            summarize: Summarize, speak: Speech.SpeechCall)
    returns (r: Option<Value>)
    requires db.Valid()
    modifies db
    ensures db.Valid()
    ensures Scraped(r, db.State()) == ScrapeSpec(old(db.State()), url, fetch, search, summarize, speak)
  {
    var scraped := db.IsUrlScraped(url);
    if scraped.Some? {
      return Some(Utils.ConvertObjectIds(scraped.value));
    }
    var record := PrepareRecord(url, fetch, search, summarize, speak);
    r := StoreRecord(db, record);
  }

  /** Upserts a prepared record, as the end of `scrape_press_release` does. */
  method StoreRecord(db: Collection, record: Option<Doc>) returns (r: Option<Value>)
    requires db.Valid()
    modifies db
    ensures db.Valid()
    ensures Scraped(r, db.State()) == RecordStored(old(db.State()), record)
  {
    if record.None? {
      return None;
    }
    var stored := db.StoreScrapedDataInDb(Dict(record.value));
    if stored.Err? {
      return None;
    }
    r := Some(Utils.ConvertObjectIds(stored.value));
  }
}
