/**
 * The `press_releases` collection (database/db.py) as an in-memory map from
 * ObjectId to document, with the six operations the application performs on it.
 * Updates follow Mongo's `$set` semantics: a dotted path creates the embedded
 * documents it needs and is refused when it runs through a non-document.
 */
module Db {
  import opened Wrappers
  import opened Values

  /** A stored document's top-level fields; its `_id` is the key it is stored under. */
  type Doc = map<string, Value>

  const TranslationsKey := "translations"
  const StatusKey := "status"
  const UrlKey := "url"
  const IdKey := "_id"
  const CompletedStatus := "completed"

  // ---------------------------------------------------------------- dotted paths

  /** The value at a dotted path, if every step of the path exists. */
  function GetPath(d: map<string, Value>, path: seq<string>): Option<Value>
    requires |path| > 0
    decreases |path|
  {
    if path[0] !in d then None
    else if |path| == 1 then Some(d[path[0]])
    else match d[path[0]]
      case Dict(m) => GetPath(m, path[1..])
      case _ => None
  }

  /** Some proper prefix of `path` leads to a value that is not a document. */
  predicate Blocked(d: map<string, Value>, path: seq<string>)
    requires |path| > 0
    decreases |path|
  {
    |path| > 1 && path[0] in d &&
    match d[path[0]]
    case Dict(m) => Blocked(m, path[1..])
    case _ => true
  }

  /** Two paths part ways: neither is a prefix of the other. */
  predicate Diverge(p: seq<string>, q: seq<string>)
    decreases |p|
  {
    |p| > 0 && |q| > 0 && (p[0] != q[0] || Diverge(p[1..], q[1..]))
  }

  /** The embedded document `{path[0]: {path[1]: ... v}}` Mongo creates for a
      path that does not exist yet. */
  function Nested(path: seq<string>, v: Value): (r: map<string, Value>)
    requires |path| > 0
    ensures r.Keys == {path[0]}
    decreases |path|
  {
    if |path| == 1 then map[path[0] := v] else map[path[0] := Dict(Nested(path[1..], v))]
  }

  /** `{"$set": {path: v}}` on one document. */
  function SetPath(d: map<string, Value>, path: seq<string>, v: Value): (r: Option<map<string, Value>>)
    requires |path| > 0
    ensures r.None? <==> Blocked(d, path)
    ensures r.Some? ==> r.value.Keys == d.Keys + {path[0]}
    ensures r.Some? ==> forall k :: k in d && k != path[0] ==> r.value[k] == d[k]
    decreases |path|
  {
    if |path| == 1 then Some(d[path[0] := v])
    else if path[0] !in d then Some(d[path[0] := Dict(Nested(path[1..], v))])
    else match d[path[0]]
      case Dict(m) =>
        (match SetPath(m, path[1..], v)
         case Some(m') => Some(d[path[0] := Dict(m')])
         case None => None)
      case _ => None
  }

  lemma {:induction false} NestedGet(path: seq<string>, v: Value)
    requires |path| > 0
    ensures GetPath(Nested(path, v), path) == Some(v)
    decreases |path|
  {
    if |path| > 1 {
      NestedGet(path[1..], v);
    }
  }

  lemma {:induction false} NestedMiss(path: seq<string>, v: Value, q: seq<string>)
    requires |path| > 0 && Diverge(path, q)
    ensures GetPath(Nested(path, v), q) == None
    decreases |path|
  {
    if path[0] == q[0] {
      NestedMiss(path[1..], v, q[1..]);
    }
  }

  /** After a successful `$set`, the path holds the new value. */
  lemma {:induction false} SetThenGet(d: map<string, Value>, path: seq<string>, v: Value)
    requires |path| > 0 && SetPath(d, path, v).Some?
    ensures GetPath(SetPath(d, path, v).value, path) == Some(v)
    decreases |path|
  {
    if |path| > 1 {
      if path[0] !in d {
        NestedGet(path[1..], v);
      } else {
        SetThenGet(d[path[0]].fields, path[1..], v);
      }
    }
  }

  /** A successful `$set` leaves every path that parts ways with its own as it was. */
  lemma {:induction false} SetPathFrame(d: map<string, Value>, path: seq<string>, v: Value, q: seq<string>)
    requires |path| > 0 && Diverge(path, q) && SetPath(d, path, v).Some?
    ensures GetPath(SetPath(d, path, v).value, q) == GetPath(d, q)
    decreases |path|
  {
    var r := SetPath(d, path, v).value;
    if path[0] == q[0] {
      if path[0] !in d {
        NestedMiss(path[1..], v, q[1..]);
      } else {
        SetPathFrame(d[path[0]].fields, path[1..], v, q[1..]);
      }
    }
  }

  // ---------------------------------------------------------------- the store

  datatype Store = Store(docs: map<ObjectId, Doc>, nextId: ObjectId)

  predicate HasField(doc: Doc, field: string, v: Value) {
    field in doc && doc[field] == v
  }

  /** What every reachable collection satisfies: ids below the id generator,
      no `_id` among the fields, and at most one document per url (only an
      upsert keyed by `url` ever creates a document with a url). */
  ghost predicate WellFormed(s: Store) {
    && (forall id :: id in s.docs ==> id < s.nextId && IdKey !in s.docs[id])
    && (forall i, j :: i in s.docs && j in s.docs && UrlKey in s.docs[i] && HasField(s.docs[j], UrlKey, s.docs[i][UrlKey]) ==> i == j)
  }

  /** A document `find_one` returned after writing `data` carries every field of
      `data` with the value written. */
  predicate Carries(found: Value, data: Value) {
    found.Dict? && data.Dict? && forall k :: k in data.fields ==> HasField(found.fields, k, data.fields[k])
  }

  /** A document as `find_one` returns it. */
  function AsValue(id: ObjectId, doc: Doc): Value
  {
    Dict(doc[IdKey := Oid(id)])
  }

  /** The `translations.<lang>` entry of a document, if present. */
  function EntryOf(s: Store, id: ObjectId, lang: string): Option<Value>
  {
    if id in s.docs then GetPath(s.docs[id], [TranslationsKey, lang]) else None
  }

  /** `check_translation_in_db`: the entry, when it is a document whose status is
      `"completed"`; nothing otherwise. An entry that is not a document makes
      `.get("status")` raise. */
  function FindCompleted(s: Store, id: ObjectId, lang: string): (r: Result<Option<Value>>)
    ensures r.Ok? && r.value.Some? <==>
              EntryOf(s, id, lang).Some? && EntryOf(s, id, lang).value.Dict? &&
              HasField(EntryOf(s, id, lang).value.fields, StatusKey, Str(CompletedStatus))
    ensures r.Ok? && r.value.Some? ==> r.value == EntryOf(s, id, lang)
    ensures r.Err? <==> EntryOf(s, id, lang).Some? && !EntryOf(s, id, lang).value.Dict?
  {
    match EntryOf(s, id, lang)
    case None => Ok(None)
    case Some(Dict(e)) =>
      if HasField(e, StatusKey, Str(CompletedStatus)) then Ok(Some(Dict(e))) else Ok(None)
    case Some(_) => Err(AttributeError)
  }

  /** `update_translation_status`: `$set` of `translations.<lang>.status`, without
      upsert. */
  function WithStatus(s: Store, id: ObjectId, lang: string, status: string): (r: Result<Store>)
    ensures id !in s.docs ==> r == Ok(s)
    ensures r.Ok? ==> r.value.docs.Keys == s.docs.Keys && r.value.nextId == s.nextId
  {
    if id !in s.docs then Ok(s)
    else match SetPath(s.docs[id], [TranslationsKey, lang, StatusKey], Str(status))
      case None => Err(WriteError)
      case Some(d) => Ok(s.(docs := s.docs[id := d]))
  }

  /** `store_translation_in_db`: `$set` of the whole `translations.<lang>` entry,
      with upsert on `_id`. */
  function WithTranslation(s: Store, id: ObjectId, lang: string, data: Value): (r: Result<Store>)
    ensures r.Ok? ==> r.value.docs.Keys == s.docs.Keys + {id}
  {
    if id in s.docs then
      match SetPath(s.docs[id], [TranslationsKey, lang], data)
      case None => Err(WriteError)
      case Some(d) => Ok(s.(docs := s.docs[id := d]))
    else
      Ok(Store(s.docs[id := Nested([TranslationsKey, lang], data)], if id < s.nextId then s.nextId else id + 1))
  }

  /** The document whose `url` field equals `url`, if any. */
  ghost function UrlOwner(s: Store, url: Value): (r: Option<ObjectId>)
    ensures r.Some? ==> r.value in s.docs && HasField(s.docs[r.value], UrlKey, url)
    ensures r.None? ==> forall id :: id in s.docs ==> !HasField(s.docs[id], UrlKey, url)
  {
    if exists id :: id in s.docs && HasField(s.docs[id], UrlKey, url) then
      Some(var id :| id in s.docs && HasField(s.docs[id], UrlKey, url); id)
    else None
  }

  /** `update_one({'url': data['url']}, {'$set': data}, upsert=True)`, giving the
      new store and the id of the document it wrote. */
  ghost function WithScraped(s: Store, data: Doc): (r: Result<(Store, ObjectId)>)
    requires WellFormed(s)
    ensures UrlKey !in data ==> r == Err(KeyError(UrlKey))
    ensures r.Ok? ==> IdKey !in data && WellFormed(r.value.0)
    ensures r.Ok? ==> var (s', id) := r.value;
      && id in s'.docs
      && (forall k :: k in data ==> HasField(s'.docs[id], k, data[k]))
      && (forall k :: id in s.docs && k in s.docs[id] && k !in data ==> HasField(s'.docs[id], k, s.docs[id][k]))
      && (forall j :: j in s.docs && j != id ==> j in s'.docs && s'.docs[j] == s.docs[j])
      && s'.docs.Keys == s.docs.Keys + {id}
  {
    if UrlKey !in data then Err(KeyError(UrlKey))
    else if IdKey in data then Err(WriteError)
    else match UrlOwner(s, data[UrlKey])
      case Some(id) => Ok((s.(docs := s.docs[id := s.docs[id] + data]), id))
      case None => Ok((Store(s.docs[s.nextId := data], s.nextId + 1), s.nextId))
  }

  /** The result of `store_scraped_data_in_db` and the store it leaves. */
  datatype Stored = Stored(result: Result<Value>, store: Store)

  /** `store_scraped_data_in_db(data)`. */
  ghost function StoreScraped(s: Store, data: Value): (r: Stored)
    requires WellFormed(s)
    ensures WellFormed(r.store)
    ensures !data.Dict? && !data.List? ==> r == Stored(Err(ValueError("Data must be dict or list of dicts.")), s)
    ensures data.Dict? && r.result.Ok? ==> Carries(r.result.value, data)
  {
    match data
    case Dict(m) =>
      (match WithScraped(s, m)
       case Err(e) => Stored(Err(e), s)
       case Ok((s', id)) => Stored(Ok(AsValue(id, s'.docs[id])), s'))
    case List(items) => StoreItems(s, items)
    case _ => Stored(Err(ValueError("Data must be dict or list of dicts.")), s)
  }

  /** The list branch: each item is upserted in order, the first failure stops
      the loop with the earlier upserts kept. */
  ghost function StoreItems(s: Store, items: seq<Value>): (r: Stored)
    requires WellFormed(s)
    ensures WellFormed(r.store)
    ensures r.result.Ok? ==> r.result.value.List? && |r.result.value.items| == |items|
    ensures r.result.Ok? ==> forall i :: 0 <= i < |items| ==> Carries(r.result.value.items[i], items[i])
    decreases |items|
  {
    if items == [] then Stored(Ok(List([])), s)
    else
      var prev := StoreItems(s, items[..|items| - 1]);
      var r := StoreStep(prev, items[|items| - 1]);
      if r.result.Ok? then
        CarriesSnoc(prev.result.value.items, r.result.value.items, items);
        r
      else r
  }

  /** One upsert after a successful prefix, as the loop performs it. */
  lemma StoreStepUpsert(updated: seq<Value>, before: Store, m: Doc)
    requires WellFormed(before)
    ensures var w := WithScraped(before, m);
      && (w.Err? ==> StoreStep(Stored(Ok(List(updated)), before), Dict(m)) == Stored(Err(w.error), before))
      && (w.Ok? ==>
            StoreStep(Stored(Ok(List(updated)), before), Dict(m))
            == Stored(Ok(List(updated + [AsValue(w.value.1, w.value.0.docs[w.value.1])])), w.value.0))
  {
  }

  /** The documents of a successful prefix followed by the one of the last
      item carry their items. */
  lemma CarriesSnoc(prev: seq<Value>, next: seq<Value>, items: seq<Value>)
    requires items != [] && |prev| == |items| - 1 && |next| == |items| && next[..|prev|] == prev
    requires forall i :: 0 <= i < |prev| ==> Carries(prev[i], items[..|items| - 1][i])
    requires Carries(next[|prev|], items[|items| - 1])
    ensures forall i :: 0 <= i < |items| ==> Carries(next[i], items[i])
  {
    forall i | 0 <= i < |items| ensures Carries(next[i], items[i]) {
      if i < |prev| {
        assert next[i] == prev[i] && items[..|items| - 1][i] == items[i];
      }
    }
  }

  /** One pass of the list loop after the earlier items: an earlier failure
      stands, a non-dict raises `TypeError`, otherwise the item is upserted and
      its stored document appended. */
  ghost function StoreStep(prev: Stored, item: Value): (r: Stored)
    requires WellFormed(prev.store)
    requires prev.result.Ok? ==> prev.result.value.List?
    ensures WellFormed(r.store)
    ensures prev.result.Err? ==> r == prev
    ensures prev.result.Ok? && !item.Dict? ==> r == Stored(Err(TypeError), prev.store)
    ensures r.result.Ok? ==>
      && prev.result.Ok? && r.result.value.List?
      && |r.result.value.items| == |prev.result.value.items| + 1
      && r.result.value.items[..|prev.result.value.items|] == prev.result.value.items
      && Carries(r.result.value.items[|prev.result.value.items|], item)
  {
    if prev.result.Err? then prev
    else match item
      case Dict(m) =>
        (match WithScraped(prev.store, m)
         case Err(e) => Stored(Err(e), prev.store)
         case Ok((s', id)) => Stored(Ok(List(prev.result.value.items + [AsValue(id, s'.docs[id])])), s'))
      case _ => Stored(Err(TypeError), prev.store)
  }

  // ---------------------------------------------------------------- properties


  /** Once an item fails, the items after it are not looked at. */
  lemma {:induction false} StoreItemsStops(s: Store, items: seq<Value>, k: nat)
    requires WellFormed(s) && k <= |items|
    requires StoreItems(s, items[..k]).result.Err?
    ensures StoreItems(s, items) == StoreItems(s, items[..k])
    decreases |items|
  {
    if k < |items| {
      assert items[..|items| - 1][..k] == items[..k];
      StoreItemsStops(s, items[..|items| - 1], k);
    } else {
      assert items[..k] == items;
    }
  }

  lemma WithStatusWellFormed(s: Store, id: ObjectId, lang: string, status: string)
    requires WellFormed(s) && WithStatus(s, id, lang, status).Ok?
    ensures WellFormed(WithStatus(s, id, lang, status).value)
  {
    var s' := WithStatus(s, id, lang, status).value;
    forall i | i in s'.docs
      ensures (UrlKey in s'.docs[i] <==> UrlKey in s.docs[i])
      ensures UrlKey in s.docs[i] ==> s'.docs[i][UrlKey] == s.docs[i][UrlKey]
    {
    }
  }

  lemma WithTranslationWellFormed(s: Store, id: ObjectId, lang: string, data: Value)
    requires WellFormed(s) && WithTranslation(s, id, lang, data).Ok?
    ensures WellFormed(WithTranslation(s, id, lang, data).value)
  {
    var s' := WithTranslation(s, id, lang, data).value;
    forall i | i in s.docs
      ensures (UrlKey in s'.docs[i] <==> UrlKey in s.docs[i])
      ensures UrlKey in s.docs[i] ==> s'.docs[i][UrlKey] == s.docs[i][UrlKey]
    {
    }
  }

  /** `update_translation_status` sets `translations.<lang>.status` of the document
      with that id and changes nothing else: no other document, no other language,
      no other key of the entry, no other top-level field. */
  lemma StatusWriteEffect(s: Store, id: ObjectId, lang: string, status: string)
    requires id in s.docs && WithStatus(s, id, lang, status).Ok?
    ensures var s' := WithStatus(s, id, lang, status).value;
      && GetPath(s'.docs[id], [TranslationsKey, lang, StatusKey]) == Some(Str(status))
      && (forall l :: l != lang ==> EntryOf(s', id, l) == EntryOf(s, id, l))
      && (forall k :: k != StatusKey ==> GetPath(s'.docs[id], [TranslationsKey, lang, k]) == GetPath(s.docs[id], [TranslationsKey, lang, k]))
      && (forall k :: k in s.docs[id] && k != TranslationsKey ==> HasField(s'.docs[id], k, s.docs[id][k]))
      && (forall j :: j in s.docs && j != id ==> s'.docs[j] == s.docs[j])
  {
    var path := [TranslationsKey, lang, StatusKey];
    SetThenGet(s.docs[id], path, Str(status));
    forall l | l != lang ensures EntryOf(WithStatus(s, id, lang, status).value, id, l) == EntryOf(s, id, l) {
      assert Diverge(path, [TranslationsKey, l]);
      SetPathFrame(s.docs[id], path, Str(status), [TranslationsKey, l]);
    }
    forall k | k != StatusKey
      ensures GetPath(WithStatus(s, id, lang, status).value.docs[id], [TranslationsKey, lang, k]) == GetPath(s.docs[id], [TranslationsKey, lang, k])
    {
      assert Diverge(path, [TranslationsKey, lang, k]) by {
        assert path[1..][1..] == [StatusKey];
        assert [TranslationsKey, lang, k][1..][1..] == [k];
      }
      SetPathFrame(s.docs[id], path, Str(status), [TranslationsKey, lang, k]);
    }
  }

  /** `store_translation_in_db` replaces the whole `translations.<lang>` entry
      (earlier keys of that entry are gone), creating the document when the id is
      absent, and leaves every other language, field and document as it was. */
  lemma TranslationWriteEffect(s: Store, id: ObjectId, lang: string, data: Value)
    requires WithTranslation(s, id, lang, data).Ok?
    ensures var s' := WithTranslation(s, id, lang, data).value;
      && id in s'.docs
      && EntryOf(s', id, lang) == Some(data)
      && (forall l :: l != lang ==> EntryOf(s', id, l) == EntryOf(s, id, l))
      && (forall k :: id in s.docs && k in s.docs[id] && k != TranslationsKey ==> HasField(s'.docs[id], k, s.docs[id][k]))
      && (forall j :: j in s.docs && j != id ==> s'.docs[j] == s.docs[j])
  {
    var path := [TranslationsKey, lang];
    var s' := WithTranslation(s, id, lang, data).value;
    if id in s.docs {
      SetThenGet(s.docs[id], path, data);
      forall l | l != lang ensures EntryOf(s', id, l) == EntryOf(s, id, l) {
        assert Diverge(path, [TranslationsKey, l]);
        SetPathFrame(s.docs[id], path, data, [TranslationsKey, l]);
      }
    } else {
      NestedGet(path, data);
      forall l | l != lang ensures EntryOf(s', id, l) == EntryOf(s, id, l) {
        assert Diverge(path, [TranslationsKey, l]);
        NestedMiss(path, data, [TranslationsKey, l]);
      }
    }
  }

  /** Storing a completed record and then checking for it gives that record back. */
  lemma CheckAfterStore(s: Store, id: ObjectId, lang: string, entry: map<string, Value>)
    requires HasField(entry, StatusKey, Str(CompletedStatus))
    requires WithTranslation(s, id, lang, Dict(entry)).Ok?
    ensures FindCompleted(WithTranslation(s, id, lang, Dict(entry)).value, id, lang) == Ok(Some(Dict(entry)))
  {
    TranslationWriteEffect(s, id, lang, Dict(entry));
  }

  /** An entry whose status is `in_progress` does not count as a translation. */
  lemma InProgressIsNotCompleted(s: Store, id: ObjectId, lang: string)
    requires id in s.docs && WithStatus(s, id, lang, "in_progress").Ok?
    ensures FindCompleted(WithStatus(s, id, lang, "in_progress").value, id, lang) == Ok(None)
  {
    var path := [TranslationsKey, lang, StatusKey];
    var s' := WithStatus(s, id, lang, "in_progress").value;
    SetThenGet(s.docs[id], path, Str("in_progress"));
    assert path[1..] == [lang, StatusKey] && path[1..][1..] == [StatusKey];
    var d := s'.docs[id];
    assert TranslationsKey in d && d[TranslationsKey].Dict?;
    var m := d[TranslationsKey].fields;
    assert GetPath(m, [lang, StatusKey]) == Some(Str("in_progress"));
    assert lang in m && m[lang].Dict?;
    assert GetPath(m[lang].fields, [StatusKey]) == Some(Str("in_progress"));
    assert GetPath(m, [lang]) == Some(m[lang]);
    assert GetPath(d, [TranslationsKey, lang]) == GetPath(m, [lang]) by {
      assert [TranslationsKey, lang][1..] == [lang];
    }
    assert id in s'.docs;
  }

  // ---------------------------------------------------------------- translation entries

  /** The four translated texts of a press release. */
  datatype Texts = Texts(title: string, ministry: string, content: string, summary: string)

  /** The entry stored under `translations.<lang>` once a language is done: the
      texts, the audio and subtitle paths, and status `completed`. */
  function Entry(t: Texts, audio: Value, subtitle: Value): (r: map<string, Value>)
    ensures r.Keys == {"title", "summary", "ministry", "content", "audio", "subtitle", StatusKey}
    ensures HasField(r, StatusKey, Str(CompletedStatus))
    ensures HasField(r, "title", Str(t.title)) && HasField(r, "summary", Str(t.summary))
    ensures HasField(r, "ministry", Str(t.ministry)) && HasField(r, "content", Str(t.content))
    ensures HasField(r, "audio", audio) && HasField(r, "subtitle", subtitle)
  {
    map[
      "title" := Str(t.title),
      "summary" := Str(t.summary),
      "ministry" := Str(t.ministry),
      "content" := Str(t.content),
      "audio" := audio,
      "subtitle" := subtitle,
      StatusKey := Str(CompletedStatus)
    ]
  }

  // ---------------------------------------------------------------- the collection

  class Collection {
    var docs: map<ObjectId, Doc>
    var nextId: ObjectId

    function State(): Store
      reads this
    {
      Store(docs, nextId)
    }

    ghost predicate Valid()
      reads this
    {
      WellFormed(State())
    }

    constructor ()
      ensures Valid() && docs == map[]
    {
      docs := map[];
      nextId := 0;
    }

    /** `is_url_scraped(url)`: the document whose `url` is `url`, if any. */
    method IsUrlScraped(url: string) returns (r: Option<Value>)
      requires Valid()
      ensures r.Some? <==> exists id :: id in docs && HasField(docs[id], UrlKey, Str(url))
      ensures r.Some? ==> exists id :: id in docs && HasField(docs[id], UrlKey, Str(url)) && r.value == AsValue(id, docs[id])
      ensures r.Some? ==> r == Some(AsValue(UrlOwner(State(), Str(url)).value, docs[UrlOwner(State(), Str(url)).value]))
    {
      if exists id :: id in docs && HasField(docs[id], UrlKey, Str(url)) {
        var id :| id in docs && HasField(docs[id], UrlKey, Str(url));
        r := Some(AsValue(id, docs[id]));
      } else {
        r := None;
      }
    }

    /** `release_exist_with_title(title)`: a document whose top-level `title` is
        `title`, if any (which one, when several match, is Mongo's natural order
        and is not modelled). */
    method ReleaseExistWithTitle(title: string) returns (r: Option<Value>)
      ensures r.Some? <==> exists id :: id in docs && HasField(docs[id], "title", Str(title))
      ensures r.Some? ==> exists id :: id in docs && HasField(docs[id], "title", Str(title)) && r.value == AsValue(id, docs[id])
    {
      if exists id :: id in docs && HasField(docs[id], "title", Str(title)) {
        var id :| id in docs && HasField(docs[id], "title", Str(title));
        r := Some(AsValue(id, docs[id]));
      } else {
        r := None;
      }
    }

    /** One upsert keyed by `url` followed by `find_one` on that url. */
    method UpsertByUrl(data: Doc) returns (r: Result<Value>)
      requires Valid()
      modifies this
      ensures Valid()
      ensures var w := WithScraped(old(State()), data);
        && (w.Err? ==> r == Err(w.error) && State() == old(State()))
        && (w.Ok? ==> State() == w.value.0 && r == Ok(AsValue(w.value.1, docs[w.value.1])))
    {
      if UrlKey !in data {
        return Err(KeyError(UrlKey));
      }
      if IdKey in data {
        return Err(WriteError);
      }
      var url := data[UrlKey];
      var id: ObjectId;
      if exists i :: i in docs && HasField(docs[i], UrlKey, url) {
        id :| id in docs && HasField(docs[id], UrlKey, url);
        docs := docs[id := docs[id] + data];
      } else {
        id := nextId;
        docs := docs[id := data];
        nextId := nextId + 1;
      }
      r := Ok(AsValue(id, docs[id]));
    }

    /** `store_scraped_data_in_db(data)`. */
    method StoreScrapedDataInDb(data: Value) returns (r: Result<Value>)
      requires Valid()
      modifies this
      ensures Valid()
      ensures r == StoreScraped(old(State()), data).result
      ensures State() == StoreScraped(old(State()), data).store
    {
      match data {
        case Dict(m) =>
          r := UpsertByUrl(m);
        case List(items) =>
          r := UpsertEach(items);
        case _ =>
          r := Err(ValueError("Data must be dict or list of dicts."));
      }
    }

    /** The list branch of `store_scraped_data_in_db`: one upsert per item, in
        order, collecting the stored documents. */
    method UpsertEach(items: seq<Value>) returns (r: Result<Value>)
      requires Valid()
      modifies this
      ensures Valid()
      ensures r == StoreItems(old(State()), items).result
      ensures State() == StoreItems(old(State()), items).store
    {
      var updated: seq<Value> := [];
      var i := 0;
      while i < |items|
        invariant 0 <= i <= |items| && Valid()
        invariant StoreItems(old(State()), items[..i]) == Stored(Ok(List(updated)), State())
      {
        ghost var before := State();
        assert items[..i + 1][..i] == items[..i];
        assert StoreItems(old(State()), items[..i + 1]) == StoreStep(Stored(Ok(List(updated)), before), items[i]);
        if !items[i].Dict? {
          StoreItemsStops(old(State()), items, i + 1);
          return Err(TypeError);
        }
        StoreStepUpsert(updated, before, items[i].fields);
        var one := UpsertByUrl(items[i].fields);
        if one.Err? {
          StoreItemsStops(old(State()), items, i + 1);
          return Err(one.error);
        }
        updated := updated + [one.value];
        i := i + 1;
      }
      assert items[..i] == items;
      r := Ok(List(updated));
    }

    /** `update_translation_status(_id, language, status)`. */
    method UpdateTranslationStatus(id: ObjectId, lang: string, status: string) returns (r: Outcome)
      requires Valid()
      modifies this
      ensures Valid()
      ensures var w := WithStatus(old(State()), id, lang, status);
        && (w.Err? ==> r == Fail(w.error) && State() == old(State()))
        && (w.Ok? ==> r == Pass && State() == w.value)
    {
      if id in docs {
        var d := SetPath(docs[id], [TranslationsKey, lang, StatusKey], Str(status));
        if d.None? {
          return Fail(WriteError);
        }
        WithStatusWellFormed(State(), id, lang, status);
        docs := docs[id := d.value];
      }
      r := Pass;
    }

    /** `store_translation_in_db(_id, language, translation_data)`. */
    method StoreTranslationInDb(id: ObjectId, lang: string, data: Value) returns (r: Outcome)
      requires Valid()
      modifies this
      ensures Valid()
      ensures var w := WithTranslation(old(State()), id, lang, data);
        && (w.Err? ==> r == Fail(w.error) && State() == old(State()))
        && (w.Ok? ==> r == Pass && State() == w.value)
    {
      if id in docs {
        var d := SetPath(docs[id], [TranslationsKey, lang], data);
        if d.None? {
          return Fail(WriteError);
        }
        WithTranslationWellFormed(State(), id, lang, data);
        docs := docs[id := d.value];
      } else {
        WithTranslationWellFormed(State(), id, lang, data);
        docs := docs[id := Nested([TranslationsKey, lang], data)];
        if nextId <= id {
          nextId := id + 1;
        }
      }
      r := Pass;
    }

    /** `check_translation_in_db(_id, lang)`. */
    method CheckTranslationInDb(id: ObjectId, lang: string) returns (r: Result<Option<Value>>)
      ensures r == FindCompleted(State(), id, lang)
    {
      var entry := if id in docs then GetPath(docs[id], [TranslationsKey, lang]) else None;
      if entry.None? {
        return Ok(None);
      }
      match entry.value {
        case Dict(e) =>
          if StatusKey in e && e[StatusKey] == Str(CompletedStatus) {
            r := Ok(Some(Dict(e)));
          } else {
            r := Ok(None);
          }
        case _ =>
          r := Err(AttributeError);
      }
    }
  }
}
