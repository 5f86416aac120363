/**
 * The illustration of a press release (image/image_search.py): the visual
 * concepts a language model extracts from the text, a web image search and a
 * generated image for each concept, and the records handed back to the
 * scraper. The language model, the search engine, the image generator and
 * base64 decoding are parameters; a call that raises gives `None`.
 */
module ImageSearch {
  import opened Wrappers
  import opened Text
  import opened Values
  import opened Files

  // ---------------------------------------------------------------- google_image_search

  const PibSite := "pib.gov.in"

  /** The query `google_image_search` sends: restricted to the PIB site when
      `prioritizePib`, excluding it otherwise, followed by the prompt. */
  function SearchQuery(prompt: string, prioritizePib: bool): (q: string)
    ensures prioritizePib ==> StartsWith(q, "site:pib.gov.in ")
    ensures !prioritizePib ==> StartsWith(q, "-site:pib.gov.in ")
    ensures |q| == |prompt| + (if prioritizePib then 16 else 17)
    ensures q[|q| - |prompt|..] == prompt
  {
    (if prioritizePib then "site:" else "-site:") + PibSite + " " + prompt
  }

  /** One item of the search response, a dict of strings. */
  type Item = map<string, string>

  /** `item.get(key, default)`. */
  function GetOr(item: Item, key: string, default: string): string
  {
    if key in item then item[key] else default
  }

  /** One search result as `google_image_search` returns it. */
  datatype Hit = Hit(url: string, source: string, title: string, context: string)

  /** The comprehension over `res.get('items', [])`; `None` stands for a
      response without `items`. An item without `link` raises `KeyError`. */
  function Project(items: Option<seq<Item>>, prompt: string): (r: Result<seq<Hit>>)
    ensures items.None? ==> r == Ok([])
    ensures items.Some? ==> (r.Ok? <==> forall i :: 0 <= i < |items.value| ==> "link" in items.value[i])
    ensures r.Err? ==> r.error == KeyError("link")
    ensures r.Ok? && items.Some? ==> |r.value| == |items.value|
    ensures r.Ok? && items.Some? ==> forall i :: 0 <= i < |r.value| ==>
      && r.value[i].url == items.value[i]["link"]
      && r.value[i].source == GetOr(items.value[i], "displayLink", "")
      && r.value[i].title == GetOr(items.value[i], "title", "")
      && r.value[i].context == prompt
  {
    match items
    case None => Ok([])
    case Some(xs) =>
      if forall i :: 0 <= i < |xs| ==> "link" in xs[i] then
        Ok(seq(|xs|, i requires 0 <= i < |xs| =>
          Hit(xs[i]["link"], GetOr(xs[i], "displayLink", ""), GetOr(xs[i], "title", ""), prompt)))
      else
        Err(KeyError("link"))
  }

  /** `service.cse().list(q=query, num=n, ...).execute()`: `None` when it raises,
      otherwise `res.get('items')`. */
  type Search = (string, int) -> Option<Option<seq<Item>>>

  const SearchFailure := ServiceError("google")

  /** `google_image_search(prompt, num_images, prioritize_pib)`: a failing
      request raises, otherwise the items are projected. */
  function GoogleImageSearch(search: Search, prompt: string, numImages: int, prioritizePib: bool): (r: Result<seq<Hit>>)
    ensures search(SearchQuery(prompt, prioritizePib), numImages).None? ==> r == Err(SearchFailure)
    ensures search(SearchQuery(prompt, prioritizePib), numImages).Some? ==>
      r == Project(search(SearchQuery(prompt, prioritizePib), numImages).value, prompt)
  {
    match search(SearchQuery(prompt, prioritizePib), numImages)
    case None => Err(SearchFailure)
    case Some(items) => Project(items, prompt)
  }

  // ---------------------------------------------------------------- process_with_gpt

  /** What `json.loads` makes of the model's reply. */
  datatype Parsed = JsonList(items: seq<string>) | JsonOther | NotJson

  /** `t` neither starts nor ends with whitespace. */
  predicate Trimmed(t: string) {
    t != [] ==> t[0] !in Whitespace && t[|t| - 1] !in Whitespace
  }

  /** The comprehension `[l.strip() for l in lines if l.strip()]`. */
  function KeptLines(lines: seq<string>): (r: seq<string>)
    ensures |r| <= |lines|
    ensures forall i :: 0 <= i < |r| ==> r[i] != [] && Trimmed(r[i])
  {
    if lines == [] then []
    else
      var line := Strip(lines[0], Whitespace);
      (if line != [] then [line] else []) + KeptLines(lines[1..])
  }

  /** Lines that are already non-blank and stripped are all kept, unchanged. */
  lemma {:induction false} KeptLinesFixed(lines: seq<string>)
    requires forall i :: 0 <= i < |lines| ==> lines[i] != [] && Trimmed(lines[i])
    ensures KeptLines(lines) == lines
  {
    if lines != [] {
      var l := lines[0];
      assert LStrip(l, Whitespace) == l;
      assert RStrip(l, Whitespace) == l;
      KeptLinesFixed(lines[1..]);
    }
  }

  /** Keeping the lines twice keeps the same lines. */
  lemma KeptLinesIdempotent(lines: seq<string>)
    ensures KeptLines(KeptLines(lines)) == KeptLines(lines)
  {
    KeptLinesFixed(KeptLines(lines));
  }

  /** Lines are kept one at a time: a blank line is dropped, any other is kept
      stripped. */
  lemma KeptLinesOne(line: string)
    ensures KeptLines([line]) == if Strip(line, Whitespace) == [] then [] else [Strip(line, Whitespace)]
  {
    assert [line][1..] == [];
  }

  /** Keeping the lines of a concatenation concatenates the kept lines. With
      `KeptLinesOne` this determines `KeptLines` on every list of lines. */
  lemma {:induction false} KeptLinesAppend(a: seq<string>, b: seq<string>)
    ensures KeptLines(a + b) == KeptLines(a) + KeptLines(b)
    decreases |a|
  {
    if a == [] {
      assert a + b == b;
    } else {
      assert (a + b)[0] == a[0] && (a + b)[1..] == a[1..] + b;
      KeptLinesAppend(a[1..], b);
    }
  }

  /** `process_with_gpt(content)`, given the model's reply text: the parsed list,
      the whole stripped reply when it parses to something else, and its
      non-blank stripped lines when it is not JSON. */
  function Concepts(reply: string, parse: string -> Parsed): (r: seq<string>)
    ensures parse(Strip(reply, Whitespace)).JsonList? ==> r == parse(Strip(reply, Whitespace)).items
    ensures parse(Strip(reply, Whitespace)).JsonOther? ==> r == [Strip(reply, Whitespace)]
    ensures parse(Strip(reply, Whitespace)).NotJson? ==> r == KeptLines(Split(Strip(reply, Whitespace), '\n'))
    ensures parse(Strip(reply, Whitespace)).NotJson? ==>
      forall i :: 0 <= i < |r| ==> r[i] != [] && Trimmed(r[i]) && '\n' !in r[i]
  {
    var text := Strip(reply, Whitespace);
    match parse(text)
    case JsonList(items) => items
    case JsonOther => [text]
    case NotJson =>
      var lines := Split(text, '\n');
      KeptLinesNoSep(lines, '\n');
      KeptLines(lines)
  }

  /** Keeping lines never brings a separator back. */
  lemma {:induction false} KeptLinesNoSep(lines: seq<string>, sep: char)
    requires forall i :: 0 <= i < |lines| ==> sep !in lines[i]
    ensures forall i :: 0 <= i < |KeptLines(lines)| ==> sep !in KeptLines(lines)[i]
  {
    if lines != [] {
      KeptLinesNoSep(lines[1..], sep);
      var l := Strip(lines[0], Whitespace);
      StripKeepsAbsent(lines[0], Whitespace, sep);
      var kept := KeptLines(lines);
      var first := if l != [] then [l] else [];
      assert kept == first + KeptLines(lines[1..]);
      forall i | 0 <= i < |kept| ensures sep !in kept[i] {
        if i >= |first| {
          assert kept[i] == KeptLines(lines[1..])[i - |first|];
        }
      }
    }
  }

  /** A one-line reply that is not JSON is one concept: the reply, stripped. */
  lemma OneLineReply(reply: string, parse: string -> Parsed)
    requires parse(Strip(reply, Whitespace)).NotJson?
    requires Strip(reply, Whitespace) != [] && '\n' !in Strip(reply, Whitespace)
    ensures Concepts(reply, parse) == [Strip(reply, Whitespace)]
  {
    var text := Strip(reply, Whitespace);
    SplitWithoutSep(text, '\n');
    KeptLinesFixed([text]);
  }

  // ---------------------------------------------------------------- generate_image

  const ImageDir := "output/generated_images"

  /** The file name of a generated image: the first 20 characters of the prompt
      with spaces turned into `_`, and `.png`. */
  function ImageName(prompt: string): (r: string)
    ensures 4 <= |r| <= 24 && ' ' !in r && r[|r| - 4..] == ".png"
    ensures ('/' in r) <==> ('/' in SliceTo(prompt, 20))
    ensures |r| == |SliceTo(prompt, 20)| + 4
    ensures forall i :: 0 <= i < |r| - 4 ==> r[i] == if prompt[i] == ' ' then '_' else prompt[i]
  {
    var stem := ReplaceChar(SliceTo(prompt, 20), ' ', '_');
    assert ('/' in stem) <==> ('/' in SliceTo(prompt, 20)) by {
      if '/' in SliceTo(prompt, 20) {
        var i :| 0 <= i < |SliceTo(prompt, 20)| && SliceTo(prompt, 20)[i] == '/';
        assert stem[i] == '/';
      }
    }
    var r := stem + ".png";
    assert '/' in r ==> '/' in stem by {
      if '/' in r {
        var i :| 0 <= i < |r| && r[i] == '/';
        assert i < |stem|;
        assert stem[i] == '/';
      }
    }
    r
  }

  /** Two prompts that agree on their first 20 characters write the same file. */
  lemma SharedPrefixSameImage(p: string, q: string)
    requires SliceTo(p, 20) == SliceTo(q, 20)
    ensures GeneratedImagePath(p) == GeneratedImagePath(q)
  {
  }

  /** `f"output/generated_images/{prompt[:20].replace(' ', '_')}.png"`. */
  function GeneratedImagePath(prompt: string): string
  {
    ImageDir + "/" + ImageName(prompt)
  }

  /** `os.makedirs("output/generated_images")` creates exactly these two
      directories. */
  lemma ImageDirAncestry()
    ensures Ancestry(ImageDir) == {ImageDir, "output"}
  {
    assert ImageDir == "output" + "/" + "generated_images";
    AncestryBelow("output", "generated_images");
  }

  /** Once the image directory exists, `open` walks into it and resolves the
      file name there. */
  lemma ImagePathResolves(dirs: set<string>, name: string)
    requires ImageDir in dirs && "output" in dirs
    ensures Resolve(Disk(dirs, map[]), ImageDir + "/" + name) == Locate(dirs, ImageDir, Split(name, '/'))
  {
    ImagePathSplit(name);
    ImageDirWalk(dirs, Split(name, '/'));
  }

  lemma ImagePathSplit(name: string)
    ensures Split(ImageDir + "/" + name, '/') == ["output", "generated_images"] + Split(name, '/')
  {
    assert ImageDir + "/" + name == "output" + ['/'] + ("generated_images" + ['/'] + name);
    SplitBelow("output", "generated_images", name, '/');
  }

  lemma ImageDirWalk(dirs: set<string>, comps: seq<string>)
    requires ImageDir in dirs && "output" in dirs && comps != []
    ensures Locate(dirs, "", ["output", "generated_images"] + comps) == Locate(dirs, ImageDir, comps)
  {
    assert ImageDir == "output" + "/" + "generated_images";
    LocateBelow(dirs, "output", "generated_images", comps);
  }

  const DefaultWidth := 720
  const DefaultHeight := 1280

  /** The JSON body posted to the image generator. */
  function GenerationPayload(prompt: string, width: int, height: int): (r: map<string, Value>)
    ensures r.Keys == {"prompt", "width", "height", "guidance_scale", "num_inference_steps", "max_sequence_length", "seed"}
    ensures r["prompt"] == Str(prompt) && r["width"] == Int(width) && r["height"] == Int(height)
  {
    map[
      "prompt" := Str(prompt),
      "width" := Int(width),
      "height" := Int(height),
      "guidance_scale" := Int(4),
      "num_inference_steps" := Int(10),
      "max_sequence_length" := Int(512),
      "seed" := Int(48029153120338)
    ]
  }

  /** The generator's answer: the status code and `response.json().get("image", "")`,
      `None` when the body is not JSON. */
  datatype Reply = Reply(status: int, image: Option<string>)

  /** `requests.post(IMAGE_GEN_URL, json=payload)`; `None` when it raises. */
  type Generator = map<string, Value> -> Option<Reply>

  const GeneratorFailure := ServiceError("image generation")

  /** `base64.b64decode`; `None` when it raises. */
  type Decode = string -> Option<seq<byte>>

  /** What the generator and the decoder give for a prompt. */
  datatype Generation = Raised(error: Error) | NoImage | Undecodable | Decoded(data: seq<byte>)

  function GenerationOf(prompt: string, post: Generator, decode: Decode): (g: Generation)
    ensures var reply := post(GenerationPayload(prompt, DefaultWidth, DefaultHeight));
      && (g.Raised? <==> reply.None? || (reply.value.status == 200 && reply.value.image.None?))
      && (g.Raised? ==> g.error == GeneratorFailure)
      && (g.NoImage? <==> reply.Some? && (reply.value.status != 200 || reply.value.image == Some("")))
      && (g.Decoded? ==> reply.Some? && reply.value.image.Some? && decode(reply.value.image.value) == Some(g.data))
  {
    match post(GenerationPayload(prompt, DefaultWidth, DefaultHeight))
    case None => Raised(GeneratorFailure)
    case Some(reply) =>
      if reply.status != 200 then NoImage
      else match reply.image
        case None => Raised(GeneratorFailure)
        case Some(image) =>
          if image == "" then NoImage
          else match decode(image)
            case None => Undecodable
            case Some(data) => Decoded(data)
  }

  /** What `generate_image` returns or raises and the disk it leaves. */
  datatype Saved = Saved(result: Result<Option<string>>, disk: Disk)

  /** The image directory or its parent exists as a file, so `makedirs` raises. */
  predicate ImageDirBlocked(d: Disk)
  {
    ImageDir in d.files || "output" in d.files
  }

  /** A name inside the image directory is neither of the two directories
      `makedirs` creates. */
  lemma InsideImageDir(name: string)
    ensures ImageDir + "/" + name !in {ImageDir, "output"}
  {
    assert |ImageDir + "/" + name| > |ImageDir| > |"output"|;
  }

  /** `makedirs` on the image directory fails exactly when a file stands in
      its way. */
  lemma ImageDirFree(files: set<string>)
    ensures Ancestry(ImageDir) !! files <==> !(ImageDir in files || "output" in files)
  {
    ImageDirAncestry();
  }

  /** `generate_image(prompt)`: no image gives `None`; otherwise the image
      directory is created and the decoded bytes are written to the file the
      image path resolves to, whose path is returned. `makedirs` raises when
      a file stands in the way, and `open` raises when the path is missing a
      directory or names one. */
  function ImageSaved(d: Disk, prompt: string, post: Generator, decode: Decode): (r: Saved)
    ensures GenerationOf(prompt, post, decode).Raised? ==> r == Saved(Err(GeneratorFailure), d)
    ensures r.result == Ok(None) <==> GenerationOf(prompt, post, decode).NoImage?
    ensures r.result == Err(DecodeError) <==> GenerationOf(prompt, post, decode).Undecodable?
    ensures GenerationOf(prompt, post, decode).Decoded? && ImageDirBlocked(d) ==>
      r == Saved(Err(MakeDirsFailed(ImageDir)), d)
    ensures GenerationOf(prompt, post, decode).Decoded? && !ImageDirBlocked(d) ==>
      r.disk.dirs == d.dirs + {ImageDir, "output"}
    ensures r.result == Err(FileNotFound(GeneratedImagePath(prompt))) ==>
      GenerationOf(prompt, post, decode).Decoded? && Resolve(r.disk, GeneratedImagePath(prompt)).None?
    ensures r.result == Err(IsADirectory(GeneratedImagePath(prompt))) ==>
      && GenerationOf(prompt, post, decode).Decoded?
      && Resolve(r.disk, GeneratedImagePath(prompt)).Some?
      && Resolve(r.disk, GeneratedImagePath(prompt)).value in r.disk.dirs
    ensures r.result.Ok? && r.result.value.Some? ==>
      && GenerationOf(prompt, post, decode).Decoded?
      && r.result.value.value == GeneratedImagePath(prompt)
      && Resolve(r.disk, GeneratedImagePath(prompt)).Some?
      && Resolve(r.disk, GeneratedImagePath(prompt)).value !in r.disk.dirs
      && r.disk.files == d.files[Resolve(r.disk, GeneratedImagePath(prompt)).value := Bytes(GenerationOf(prompt, post, decode).data)]
    ensures !(r.result.Ok? && r.result.value.Some?) ==> r.disk.files == d.files
  {
    match GenerationOf(prompt, post, decode)
    case Raised(e) => Saved(Err(e), d)
    case NoImage => Saved(Ok(None), d)
    case Undecodable => Saved(Err(DecodeError), d)
    case Decoded(data) =>
      var path := GeneratedImagePath(prompt);
      if ImageDirBlocked(d) then Saved(Err(MakeDirsFailed(ImageDir)), d)
      else
        var made := d.(dirs := d.dirs + {ImageDir, "output"});
        match Resolve(made, path)
        case None => Saved(Err(FileNotFound(path)), made)
        case Some(file) =>
          if file in made.dirs then Saved(Err(IsADirectory(path)), made)
          else Saved(Ok(Some(path)), made.(files := made.files[file := Bytes(data)]))
  }

  /** A decoded image whose path resolves, once the directories exist, to a
      file that is not a directory is written there. */
  lemma SavedAt(d: Disk, prompt: string, post: Generator, decode: Decode, file: string)
    requires GenerationOf(prompt, post, decode).Decoded? && !ImageDirBlocked(d)
    requires Resolve(Disk(d.dirs + {ImageDir, "output"}, d.files), GeneratedImagePath(prompt)) == Some(file)
    requires file !in d.dirs + {ImageDir, "output"}
    ensures ImageSaved(d, prompt, post, decode) ==
      Saved(Ok(Some(GeneratedImagePath(prompt))),
            Disk(d.dirs + {ImageDir, "output"}, d.files[file := Bytes(GenerationOf(prompt, post, decode).data)]))
  {
  }

  /** A decoded image whose prompt holds no `/` in its first 20 characters is
      saved under the image path itself. */
  lemma ImageSavedWithoutSlash(d: Disk, prompt: string, post: Generator, decode: Decode)
    requires GenerationOf(prompt, post, decode).Decoded? && '/' !in SliceTo(prompt, 20)
    requires !ImageDirBlocked(d) && GeneratedImagePath(prompt) !in d.dirs
    ensures var r := ImageSaved(d, prompt, post, decode);
      && r.result == Ok(Some(GeneratedImagePath(prompt)))
      && r.disk.files == d.files[GeneratedImagePath(prompt) := Bytes(GenerationOf(prompt, post, decode).data)]
  {
    var name := ImageName(prompt);
    PlainNameResolves(d.dirs + {ImageDir, "output"}, d.files, name);
    InsideImageDir(name);
    SavedAt(d, prompt, post, decode, GeneratedImagePath(prompt));
  }

  /** When the image path already names a directory, `open` raises
      `IsADirectoryError` after `makedirs`, and no file is written. */
  lemma ImageOverDirectory(d: Disk, prompt: string, post: Generator, decode: Decode)
    requires GenerationOf(prompt, post, decode).Decoded? && '/' !in SliceTo(prompt, 20)
    requires !ImageDirBlocked(d) && GeneratedImagePath(prompt) in d.dirs
    ensures ImageSaved(d, prompt, post, decode) ==
      Saved(Err(IsADirectory(GeneratedImagePath(prompt))), d.(dirs := d.dirs + {ImageDir, "output"}))
  {
    PlainNameResolves(d.dirs + {ImageDir, "output"}, d.files, ImageName(prompt));
    assert d.(dirs := d.dirs + {ImageDir, "output"}) == Disk(d.dirs + {ImageDir, "output"}, d.files);
  }

  /** The resolution behind `ImageSavedWithoutSlash`. */
  lemma PlainNameResolves(dirs: set<string>, files: map<string, Content>, name: string)
    requires ImageDir in dirs && "output" in dirs
    requires |name| >= 4 && '/' !in name
    ensures Resolve(Disk(dirs, files), ImageDir + "/" + name) == Some(ImageDir + "/" + name)
  {
    ImagePathResolves(dirs, name);
    SplitWithoutSep(name, '/');
  }

  /** A `/` at the very start of the prompt only doubles the separator: the
      image is saved in `output/generated_images` under the rest of its name,
      and the path returned still holds the doubled `/`. */
  lemma LeadingSlashSaved(d: Disk, prompt: string, post: Generator, decode: Decode)
    requires GenerationOf(prompt, post, decode).Decoded?
    requires ImageName(prompt)[0] == '/' && '/' !in ImageName(prompt)[1..]
    requires !ImageDirBlocked(d) && ImageDir + "/" + ImageName(prompt)[1..] !in d.dirs
    ensures var r := ImageSaved(d, prompt, post, decode);
      && r.result == Ok(Some(GeneratedImagePath(prompt)))
      && r.disk.files == d.files[ImageDir + "/" + ImageName(prompt)[1..] := Bytes(GenerationOf(prompt, post, decode).data)]
  {
    var name := ImageName(prompt);
    LeadingSlashResolves(d.dirs + {ImageDir, "output"}, d.files, name);
    InsideImageDir(name[1..]);
    SavedAt(d, prompt, post, decode, ImageDir + "/" + name[1..]);
  }

  /** The resolution behind `LeadingSlashSaved`. */
  lemma LeadingSlashResolves(dirs: set<string>, files: map<string, Content>, name: string)
    requires ImageDir in dirs && "output" in dirs
    requires |name| >= 4 && name[0] == '/' && '/' !in name[1..]
    ensures Resolve(Disk(dirs, files), ImageDir + "/" + name) == Some(ImageDir + "/" + name[1..])
  {
    ImagePathResolves(dirs, name);
    LocateEmptyFirst(dirs, ImageDir, name[1..]);
    assert name == "/" + name[1..];
  }

  /** An empty first component (a leading `/`) is skipped. */
  lemma LocateEmptyFirst(dirs: set<string>, at: string, rest: string)
    requires '/' !in rest && rest !in {"", ".", ".."}
    ensures Locate(dirs, at, Split("/" + rest, '/')) == Some(Child(at, rest))
  {
    assert "/" + rest == [] + ['/'] + rest;
    SplitAppend([], rest, '/');
    SplitWithoutSep(rest, '/');
    assert Split("/" + rest, '/') == ["", rest];
  }

  /** A decoded image whose name holds a `/` after a plain first component names
      a sub-directory that was never created: `open` raises and nothing is
      written. */
  lemma ImageWithSlashNotSaved(d: Disk, prompt: string, post: Generator, decode: Decode, first: string, rest: string)
    requires GenerationOf(prompt, post, decode).Decoded?
    requires ImageName(prompt) == first + "/" + rest && '/' !in first && first !in {"", ".", ".."}
    requires ImageDir + "/" + first !in d.dirs && !ImageDirBlocked(d)
    ensures ImageSaved(d, prompt, post, decode) ==
      Saved(Err(FileNotFound(GeneratedImagePath(prompt))), d.(dirs := d.dirs + {ImageDir, "output"}))
  {
    SubDirMissing(d, first, rest);
    ImageDirAncestry();
  }

  /** The resolution behind `ImageWithSlashNotSaved`: after `makedirs`, the
      sub-directory is still missing. */
  lemma SubDirMissing(d: Disk, first: string, rest: string)
    requires '/' !in first && first !in {"", ".", ".."}
    requires ImageDir + "/" + first !in d.dirs
    ensures Resolve(d.(dirs := d.dirs + {ImageDir, "output"}), ImageDir + "/" + (first + "/" + rest)) == None
  {
    var made := d.(dirs := d.dirs + {ImageDir, "output"});
    assert ImageDir + "/" + first !in made.dirs;
    assert Child(ImageDir, first) == ImageDir + "/" + first;
    LocateMissingDir(made.dirs, ImageDir, first, rest);
    ImagePathResolves(made.dirs, first + "/" + rest);
    assert made == Disk(made.dirs, made.files);
  }

  /** A first component naming a directory that does not exist makes `open`
      raise. */
  lemma LocateMissingDir(dirs: set<string>, at: string, first: string, rest: string)
    requires '/' !in first && first !in {"", ".", ".."} && Child(at, first) !in dirs
    ensures Locate(dirs, at, Split(first + "/" + rest, '/')) == None
  {
    assert first + "/" + rest == first + ['/'] + rest;
    SplitAppend(first, rest, '/');
    SplitWithoutSep(first, '/');
    assert Split(first + "/" + rest, '/') == [first] + Split(rest, '/');
  }

  /** `generate_image(prompt)` against the file system. */
  method GenerateImage(fs: FileSystem, prompt: string, post: Generator, decode: Decode)
    returns (r: Result<Option<string>>)
    modifies fs
    ensures Saved(r, fs.State()) == ImageSaved(old(fs.State()), prompt, post, decode)
  {
    var payload := GenerationPayload(prompt, DefaultWidth, DefaultHeight);
    var response := post(payload);
    if response.None? {
      return Err(GeneratorFailure);
    }
    if response.value.status != 200 {
      return Ok(None);
    }
    var image := response.value.image;
    if image.None? {
      return Err(GeneratorFailure);
    }
    if image.value == "" {
      return Ok(None);
    }
    var bytes := decode(image.value);
    if bytes.None? {
      return Err(DecodeError);
    }
    var path := GeneratedImagePath(prompt);
    ImageDirAncestry();
    ImageDirFree(fs.files.Keys);
    var made := fs.MakeDirs(ImageDir);
    if !made {
      return Err(MakeDirsFailed(ImageDir));
    }
    var file := Resolve(fs.State(), path);
    if file.None? {
      return Err(FileNotFound(path));
    }
    if file.value in fs.dirs {
      return Err(IsADirectory(path));
    }
    fs.Write(file.value, Bytes(bytes.value));
    r := Ok(Some(path));
  }

  // ---------------------------------------------------------------- search_images_from_content

  const Lookaside := "https://lookaside"

  /** `[img["url"] for img in web_images if not img["url"].startswith("https://lookaside")]`. */
  function WebImages(hits: seq<Hit>): (r: seq<string>)
    ensures |r| <= |hits|
    ensures forall i :: 0 <= i < |r| ==> !StartsWith(r[i], Lookaside)
    ensures r == [] <==> forall i :: 0 <= i < |hits| ==> StartsWith(hits[i].url, Lookaside)
  {
    if hits == [] then []
    else (if StartsWith(hits[0].url, Lookaside) then [] else [hits[0].url]) + WebImages(hits[1..])
  }

  /** The first web image is the url of the first result not served from
      `https://lookaside`. */
  lemma {:induction false} FirstWebImage(hits: seq<Hit>, k: nat)
    requires k < |hits| && !StartsWith(hits[k].url, Lookaside)
    requires forall j :: 0 <= j < k ==> StartsWith(hits[j].url, Lookaside)
    ensures WebImages(hits) != [] && WebImages(hits)[0] == hits[k].url
  {
    if k > 0 {
      FirstWebImage(hits[1..], k - 1);
    }
  }

  /** The services `search_images_from_content` calls: the concept extraction
      (the model's reply text and `json.loads`), the prompt writer, the web
      search, the image generator and the base64 decoder. A model call that
      raises gives `None`. */
  datatype Services = Services(
    extract: string -> Option<string>,
    parse: string -> Parsed,
    describe: (string, string) -> Option<string>,
    search: Search,
    post: Generator,
    decode: Decode)

  const ModelFailure := ServiceError("openai")

  /** One entry of `images`. */
  datatype Image = Image(concept: string, webImage: string, aiGeneratedImage: Option<string>)

  /** The outcome of one concept and the disk it leaves. */
  datatype Step = Step(result: Result<Image>, disk: Disk)

  /** One iteration of the loop: write the prompt (`generate_image_prompt`,
      the model's reply stripped), search the web, generate the image, then
      pick the first web image. */
  function ChunkStep(d: Disk, svc: Services, content: string, chunk: string, perChunk: int): (r: Step)
    ensures svc.describe(content, chunk).None? ==> r == Step(Err(ModelFailure), d)
    ensures svc.describe(content, chunk).Some? ==>
      r == PromptStep(d, svc, Strip(svc.describe(content, chunk).value, Whitespace), chunk, perChunk)
  {
    match svc.describe(content, chunk)
    case None => Step(Err(ModelFailure), d)
    case Some(reply) => PromptStep(d, svc, Strip(reply, Whitespace), chunk, perChunk)
  }

  /** The iteration once the prompt is written: an empty pick raises
      `IndexError` after the generated image is already written. */
  function PromptStep(d: Disk, svc: Services, prompt: string, chunk: string, perChunk: int): (r: Step)
    ensures r.result.Ok? ==> r.result.value.concept == chunk && !StartsWith(r.result.value.webImage, Lookaside)
    ensures GoogleImageSearch(svc.search, chunk, perChunk, false).Err? ==>
      r == Step(Err(GoogleImageSearch(svc.search, chunk, perChunk, false).error), d)
    ensures GoogleImageSearch(svc.search, chunk, perChunk, false).Ok? ==>
      var hits := GoogleImageSearch(svc.search, chunk, perChunk, false).value;
      var saved := ImageSaved(d, prompt, svc.post, svc.decode);
      && r.disk == saved.disk
      && (saved.result.Err? ==> r.result == Err(saved.result.error))
      && (saved.result.Ok? ==>
            && (r.result.Err? <==> forall i :: 0 <= i < |hits| ==> StartsWith(hits[i].url, Lookaside))
            && (r.result.Err? ==> r.result.error == IndexError)
            && (r.result.Ok? ==> r.result.value == Image(chunk, WebImages(hits)[0], saved.result.value)))
  {
    match GoogleImageSearch(svc.search, chunk, perChunk, false)
    case Err(e) => Step(Err(e), d)
    case Ok(hits) =>
      var saved := ImageSaved(d, prompt, svc.post, svc.decode);
      match saved.result
      case Err(e) => Step(Err(e), saved.disk)
      case Ok(path) =>
        var urls := WebImages(hits);
        if urls == [] then Step(Err(IndexError), saved.disk)
        else Step(Ok(Image(chunk, urls[0], path)), saved.disk)
  }

  /** The images of the loop and the disk it leaves. */
  datatype Illustrated = Illustrated(result: Result<seq<Image>>, disk: Disk)

  /** The loop over `chunks`, in order; the first exception ends it. */
  function Illustrate(d: Disk, svc: Services, content: string, chunks: seq<string>, perChunk: int): (r: Illustrated)
    ensures r.result.Ok? ==> Matches(r.result.value, chunks)
    decreases |chunks|
  {
    if chunks == [] then Illustrated(Ok([]), d)
    else
      var prev := Illustrate(d, svc, content, chunks[..|chunks| - 1], perChunk);
      if prev.result.Err? then prev
      else
        var step := ChunkStep(prev.disk, svc, content, chunks[|chunks| - 1], perChunk);
        match step.result
        case Err(e) => Illustrated(Err(e), step.disk)
        case Ok(image) =>
          ImagesSnoc(prev.result.value, image, chunks);
          Illustrated(Ok(prev.result.value + [image]), step.disk)
  }

  /** Each image names its concept and no `https://lookaside` url. */
  predicate Matches(images: seq<Image>, chunks: seq<string>) {
    |images| == |chunks| && forall i :: 0 <= i < |chunks| ==>
      images[i].concept == chunks[i] && !StartsWith(images[i].webImage, Lookaside)
  }

  lemma ImagesSnoc(images: seq<Image>, image: Image, chunks: seq<string>)
    requires chunks != [] && Matches(images, chunks[..|chunks| - 1])
    requires image.concept == chunks[|chunks| - 1] && !StartsWith(image.webImage, Lookaside)
    ensures Matches(images + [image], chunks)
  {
    var all := images + [image];
    forall i | 0 <= i < |chunks|
      ensures all[i].concept == chunks[i] && !StartsWith(all[i].webImage, Lookaside)
    {
      if i < |images| {
        assert all[i] == images[i] && chunks[i] == chunks[..|chunks| - 1][i];
      }
    }
  }

  /** Once a concept has raised, the later ones are never processed. */
  lemma {:induction false} IllustrateStops(d: Disk, svc: Services, content: string, chunks: seq<string>, perChunk: int, n: nat)
    requires n <= |chunks| && Illustrate(d, svc, content, chunks[..n], perChunk).result.Err?
    ensures Illustrate(d, svc, content, chunks, perChunk) == Illustrate(d, svc, content, chunks[..n], perChunk)
    decreases |chunks|
  {
    if n < |chunks| {
      var init := chunks[..|chunks| - 1];
      assert init[..n] == chunks[..n];
      IllustrateStops(d, svc, content, init, perChunk, n);
      IllustrateErrStays(d, svc, content, chunks, perChunk);
    } else {
      assert chunks[..n] == chunks;
    }
  }

  /** A concept after one that raised changes nothing. */
  lemma IllustrateErrStays(d: Disk, svc: Services, content: string, chunks: seq<string>, perChunk: int)
    requires chunks != [] && Illustrate(d, svc, content, chunks[..|chunks| - 1], perChunk).result.Err?
    ensures Illustrate(d, svc, content, chunks, perChunk) == Illustrate(d, svc, content, chunks[..|chunks| - 1], perChunk)
  {
  }

  /** One record of the result, with exactly the keys `web_image` and
      `ai_generated_image`. */
  datatype Illustration = Illustration(webImage: string, aiGeneratedImage: Option<string>)

  function AsDict(x: Illustration): (r: map<string, Value>)
    ensures r.Keys == {"web_image", "ai_generated_image"}
    ensures r["web_image"] == Str(x.webImage) && r["ai_generated_image"] == OptStr(x.aiGeneratedImage)
  {
    map["web_image" := Str(x.webImage), "ai_generated_image" := OptStr(x.aiGeneratedImage)]
  }

  /** `filtered_data`: each image without its concept. */
  function Filtered(images: seq<Image>): (r: seq<Illustration>)
    ensures |r| == |images|
    ensures forall i :: 0 <= i < |r| ==>
      r[i].webImage == images[i].webImage && r[i].aiGeneratedImage == images[i].aiGeneratedImage
  {
    seq(|images|, i requires 0 <= i < |images| => Illustration(images[i].webImage, images[i].aiGeneratedImage))
  }

  /** What `search_images_from_content` returns or raises and the disk it leaves. */
  datatype Searched = Searched(result: Result<seq<Illustration>>, disk: Disk)

  /** The concepts the loop processes: at most `maxChunks` of them. */
  function Chunks(reply: string, parse: string -> Parsed, maxChunks: int): seq<string>
  {
    SliceTo(Concepts(reply, parse), maxChunks)
  }

  /** `search_images_from_content(content, num_images_per_chunk, max_chunks)`. */
  function SearchImagesSpec(d: Disk, svc: Services, content: string, perChunk: int, maxChunks: int): Searched
  {
    match svc.extract(content)
    case None => Searched(Err(ModelFailure), d)
    case Some(reply) =>
      var run := Illustrate(d, svc, content, Chunks(reply, svc.parse, maxChunks), perChunk);
      match run.result
      case Err(e) => Searched(Err(e), run.disk)
      case Ok(images) => Searched(Ok(Filtered(images)), run.disk)
  }

  /** A failing concept extraction raises before anything is written. A
      successful search has one record per processed concept, at most
      `maxChunks` of them, none of them a `https://lookaside` image. */
  lemma SearchImagesShape(d: Disk, svc: Services, content: string, perChunk: int, maxChunks: int)
    ensures svc.extract(content).None? ==> SearchImagesSpec(d, svc, content, perChunk, maxChunks) == Searched(Err(ModelFailure), d)
    ensures var out := SearchImagesSpec(d, svc, content, perChunk, maxChunks).result;
      && (out.Ok? ==> svc.extract(content).Some? && |out.value| == |Chunks(svc.extract(content).value, svc.parse, maxChunks)|)
      && (out.Ok? && maxChunks >= 0 ==> |out.value| <= maxChunks)
      && (out.Ok? ==> forall i :: 0 <= i < |out.value| ==> !StartsWith(out.value[i].webImage, Lookaside))
  {
  }

  /** One pass of the loop body of `search_images_from_content`. */
  method ProcessChunk(fs: FileSystem, svc: Services, content: string, chunk: string, perChunk: int)
    returns (r: Result<Image>)
    modifies fs
    ensures Step(r, fs.State()) == ChunkStep(old(fs.State()), svc, content, chunk, perChunk)
  {
    var reply := svc.describe(content, chunk);
    if reply.None? {
      return Err(ModelFailure);
    }
    r := ProcessPrompt(fs, svc, Strip(reply.value, Whitespace), chunk, perChunk);
  }

  method ProcessPrompt(fs: FileSystem, svc: Services, prompt: string, chunk: string, perChunk: int)
    returns (r: Result<Image>)
    modifies fs
    ensures Step(r, fs.State()) == PromptStep(old(fs.State()), svc, prompt, chunk, perChunk)
  {
    var web := GoogleImageSearch(svc.search, chunk, perChunk, false);
    if web.Err? {
      return Err(web.error);
    }
    var ai := GenerateImage(fs, prompt, svc.post, svc.decode);
    if ai.Err? {
      return Err(ai.error);
    }
    var urls := WebImages(web.value);
    if urls == [] {
      return Err(IndexError);
    }
    r := Ok(Image(chunk, urls[0], ai.value));
  }

  /** One more concept extends the loop's result by the outcome of its step. */
  lemma IllustrateSnoc(d: Disk, svc: Services, content: string, chunks: seq<string>, perChunk: int,
                       i: nat, images: seq<Image>, before: Disk, one: Result<Image>, after: Disk)
    requires i < |chunks|
    requires Illustrate(d, svc, content, chunks[..i], perChunk) == Illustrated(Ok(images), before)
    requires Step(one, after) == ChunkStep(before, svc, content, chunks[i], perChunk)
    ensures Illustrate(d, svc, content, chunks[..i + 1], perChunk) ==
      match one
      case Ok(image) => Illustrated(Ok(images + [image]), after)
      case Err(e) => Illustrated(Err(e), after)
  {
    assert chunks[..i + 1][..i] == chunks[..i];
  }

  /** `search_images_from_content` against the file system. */
  method SearchImagesFromContent(fs: FileSystem, svc: Services, content: string, perChunk: int, maxChunks: int)
    returns (r: Result<seq<Illustration>>)
    modifies fs
    ensures Searched(r, fs.State()) == SearchImagesSpec(old(fs.State()), svc, content, perChunk, maxChunks)
  {
    var reply := svc.extract(content);
    if reply.None? {
      return Err(ModelFailure);
    }
    var chunks := SliceTo(Concepts(reply.value, svc.parse), maxChunks);
    var images: seq<Image> := [];
    var i := 0;
    while i < |chunks|
      invariant 0 <= i <= |chunks|
      invariant Illustrate(old(fs.State()), svc, content, chunks[..i], perChunk) == Illustrated(Ok(images), fs.State())
    {
      ghost var before := fs.State();
      var one := ProcessChunk(fs, svc, content, chunks[i], perChunk);
      IllustrateSnoc(old(fs.State()), svc, content, chunks, perChunk, i, images, before, one, fs.State());
      if one.Err? {
        IllustrateStops(old(fs.State()), svc, content, chunks, perChunk, i + 1);
        return Err(one.error);
      }
      images := images + [one.value];
      i := i + 1;
    }
    assert chunks[..i] == chunks;
    r := Ok(Filtered(images));
  }
}
