/**
 * Speech synthesis (speech/tts.py): the voice registry, the output paths, and
 * the streaming loop that writes audio bytes to one file and feeds word
 * boundaries to a subtitle maker. The speech engine and the SRT formatter are
 * parameters.
 */
module Speech {
  import opened Wrappers
  import opened Values
  import opened Files

  datatype VoiceConfig = VoiceConfig(voice: string, rate: string, pitch: string, generateSubtitles: bool)

  const Rate := "+5%"
  const Pitch := "-5Hz"

  /** The `LANGUAGES` table, in its order. */
  const Languages: seq<(string, VoiceConfig)> := [
    ("english",   VoiceConfig("en-IN-NeerjaNeural",   Rate, Pitch, true)),
    ("hindi",     VoiceConfig("hi-IN-SwaraNeural",    Rate, Pitch, true)),
    ("urdu",      VoiceConfig("ur-IN-GulNeural",      Rate, Pitch, true)),
    ("gujrati",   VoiceConfig("gu-IN-NiranjanNeural", Rate, Pitch, true)),
    ("marathi",   VoiceConfig("mr-IN-AarohiNeural",   Rate, Pitch, true)),
    ("telugu",    VoiceConfig("te-IN-MohanNeural",    Rate, Pitch, true)),
    ("kannada",   VoiceConfig("kn-IN-GaganNeural",    Rate, Pitch, true)),
    ("malayalam", VoiceConfig("ml-IN-MidhunNeural",   Rate, Pitch, true)),
    ("tamil",     VoiceConfig("ta-IN-PallaviNeural",  Rate, Pitch, true)),
    ("bengali",   VoiceConfig("bn-IN-TanishaaNeural", Rate, Pitch, true))
  ]

  /** `LANGUAGES.get(lang)`: a language is supported exactly when the table
      names it, and every voice speaks at rate `+5%`, pitch `-5Hz`, with
      subtitles. */
  function VoiceFor(lang: string): (r: Option<VoiceConfig>)
    ensures r.Some? <==> exists i :: 0 <= i < |Languages| && Languages[i].0 == lang
    ensures r.Some? ==> exists i :: 0 <= i < |Languages| && Languages[i] == (lang, r.value)
    ensures r.Some? ==> r.value.rate == "+5%" && r.value.pitch == "-5Hz" && r.value.generateSubtitles
  {
    Lookup(Languages, lang)
  }

  const OutputDir := "output"

  function AudioPath(lang: string): string { "output/audio_" + lang + ".mp3" }

  function SubtitlePath(lang: string): string { "output/audio_" + lang + ".srt" }

  /** The two output files of one language never coincide, and different
      languages never share a file. */
  lemma OutputPathsDistinct(lang: string, other: string)
    ensures AudioPath(lang) != SubtitlePath(other)
    ensures lang != other ==> AudioPath(lang) != AudioPath(other) && SubtitlePath(lang) != SubtitlePath(other)
  {
    var a, s := AudioPath(lang), SubtitlePath(other);
    if |a| == |s| {
      assert a[|a| - 2] == 'p' && s[|s| - 2] == 'r';
    }
    if lang != other && |lang| == |other| {
      var k :| 0 <= k < |lang| && lang[k] != other[k];
      assert AudioPath(lang)[13 + k] == lang[k];
      assert AudioPath(other)[13 + k] == other[k];
      assert SubtitlePath(lang)[13 + k] == lang[k];
      assert SubtitlePath(other)[13 + k] == other[k];
    }
  }

  /** One item of the engine's stream: its `type` and payload. Word-boundary
      chunks carry their timing and word, audio chunks their bytes. */
  datatype Chunk = Chunk(kind: string, data: seq<byte>, offset: int, duration: int, word: string)

  /** What the engine yields for a text and a voice: a sequence of chunks, after
      which it either ends or raises. */
  datatype Stream = Stream(chunks: seq<Chunk>, completes: bool)

  /** The bytes of the `audio` chunks, in stream order. */
  function AudioData(chunks: seq<Chunk>): seq<byte>
  {
    if chunks == [] then []
    else
      var last := chunks[|chunks| - 1];
      AudioData(chunks[..|chunks| - 1]) + (if last.kind == "audio" then last.data else [])
  }

  /** The `WordBoundary` chunks, in stream order. */
  function Boundaries(chunks: seq<Chunk>): (r: seq<Chunk>)
    ensures |r| <= |chunks|
    ensures forall i :: 0 <= i < |r| ==> r[i].kind == "WordBoundary"
  {
    if chunks == [] then []
    else
      var last := chunks[|chunks| - 1];
      Boundaries(chunks[..|chunks| - 1]) + (if last.kind == "WordBoundary" then [last] else [])
  }

  lemma {:induction false} AudioDataAppend(a: seq<Chunk>, b: seq<Chunk>)
    ensures AudioData(a + b) == AudioData(a) + AudioData(b)
    decreases |b|
  {
    if b != [] {
      assert (a + b)[..|a + b| - 1] == a + b[..|b| - 1];
      AudioDataAppend(a, b[..|b| - 1]);
    } else {
      assert a + b == a;
    }
  }

  lemma {:induction false} BoundariesAppend(a: seq<Chunk>, b: seq<Chunk>)
    ensures Boundaries(a + b) == Boundaries(a) + Boundaries(b)
    decreases |b|
  {
    if b != [] {
      assert (a + b)[..|a + b| - 1] == a + b[..|b| - 1];
      BoundariesAppend(a, b[..|b| - 1]);
    } else {
      assert a + b == a;
    }
  }

  /** A chunk that is not `audio` adds nothing to the audio file, and one that is
      not `WordBoundary` is never fed to the subtitle maker, wherever it occurs. */
  lemma IgnoredChunks(a: seq<Chunk>, c: Chunk, b: seq<Chunk>)
    ensures c.kind != "audio" ==> AudioData(a + [c] + b) == AudioData(a + b)
    ensures c.kind != "WordBoundary" ==> Boundaries(a + [c] + b) == Boundaries(a + b)
  {
    AudioDataAppend(a + [c], b);
    AudioDataAppend(a, b);
    BoundariesAppend(a + [c], b);
    BoundariesAppend(a, b);
    assert (a + [c])[..|a + [c]| - 1] == a;
  }

  /** The message of the dict `generate_tts_audio_and_subtitles` returns. */
  function Message(voice: string, lang: string): string
  {
    "TTS generated successfully with " + voice + " and saved to " + AudioPath(lang)
      + ", subtitles saved to " + SubtitlePath(lang)
  }

  /** The dict returned on success, as written: it has a `message` key only. */
  function Reply(voice: string, lang: string): map<string, Value>
  {
    map["message" := Str(Message(voice, lang))]
  }

  /** `reply.get(key)`. */
  function GetOrNone(reply: map<string, Value>, key: string): Value
  {
    if key in reply then reply[key] else Null
  }

  /** The callers read `audio` and `subtitle` from the reply, which never has them. */
  lemma ReplyCarriesNoPaths(voice: string, lang: string)
    ensures GetOrNone(Reply(voice, lang), "audio") == Null
    ensures GetOrNone(Reply(voice, lang), "subtitle") == Null
  {
  }

  /** The reply the callers expect: the message plus the two output paths. */
  function IntendedReply(voice: string, lang: string): (r: map<string, Value>)
    ensures GetOrNone(r, "audio") == Str(AudioPath(lang))
    ensures GetOrNone(r, "subtitle") == Str(SubtitlePath(lang))
    ensures GetOrNone(r, "message") == GetOrNone(Reply(voice, lang), "message")
  {
    Reply(voice, lang)["audio" := Str(AudioPath(lang))]["subtitle" := Str(SubtitlePath(lang))]
  }

  /** How the callers invoke `generate_tts_audio_and_subtitles`: with a text, the
      press release's title and a language. */
  type SpeechCall = (string, string, string) -> Result<map<string, Value>>

  /** The call as written, `generate_tts_audio_and_subtitles(text, title, lang)`,
      passes three arguments to a function of two and raises TypeError before
      any speech is produced. */
  function AsWrittenCall(): (call: SpeechCall)
    ensures forall text, title, lang :: call(text, title, lang) == Err(TypeError)
  {
    (text: string, title: string, lang: string) => Err(TypeError)
  }

  /** The intended call, `generate_tts_audio_and_subtitles(text, lang)`. */
  function IntendedCall(tts: (string, string) -> Result<map<string, Value>>): (call: SpeechCall)
    ensures forall text, title, lang :: call(text, title, lang) == tts(text, lang)
  {
    (text: string, title: string, lang: string) => tts(text, lang)
  }

  const SynthesisFailure := RuntimeError("Error during TTS generation")

  /** The files after a synthesis for a supported language whose output
      directory exists: the audio file holds the audio bytes streamed, the
      subtitle file the SRT of the word boundaries, or nothing if the stream
      broke off. */
  function SynthesisFiles(files: map<string, Content>, lang: string, stream: Stream, srt: seq<Chunk> -> string): map<string, Content>
  {
    files[AudioPath(lang) := Bytes(AudioData(stream.chunks))]
         [SubtitlePath(lang) := Text(if stream.completes then srt(Boundaries(stream.chunks)) else "")]
  }

  lemma StreamStep(chunks: seq<Chunk>, i: nat)
    requires i < |chunks|
    ensures AudioData(chunks[..i + 1])
      == AudioData(chunks[..i]) + (if chunks[i].kind == "audio" then chunks[i].data else [])
    ensures Boundaries(chunks[..i + 1])
      == Boundaries(chunks[..i]) + (if chunks[i].kind == "WordBoundary" then [chunks[i]] else [])
  {
    assert chunks[..i + 1][..i] == chunks[..i];
  }

  /** The `async for chunk in communicate.stream()` loop: audio bytes are
      appended to the open audio file, word boundaries handed to the subtitle
      maker (returned as `fed`); the subtitle file stays empty meanwhile. */
  method Demultiplex(fs: FileSystem, audio: string, subtitles: string, chunks: seq<Chunk>)
    returns (fed: seq<Chunk>)
    requires audio != subtitles
    requires audio in fs.files && fs.files[audio] == Bytes([])
    modifies fs
    ensures fs.files == old(fs.files)[audio := Bytes(AudioData(chunks))] && fs.dirs == old(fs.dirs)
    ensures fed == Boundaries(chunks)
  {
    fed := [];
    var i := 0;
    while i < |chunks|
      invariant 0 <= i <= |chunks| && fs.dirs == old(fs.dirs)
      invariant fs.files == old(fs.files)[audio := Bytes(AudioData(chunks[..i]))]
      invariant fed == Boundaries(chunks[..i])
    {
      var chunk := chunks[i];
      StreamStep(chunks, i);
      if chunk.kind == "audio" {
        fs.AppendBytes(audio, chunk.data);
      } else {
        assert AudioData(chunks[..i + 1]) == AudioData(chunks[..i]) + [] == AudioData(chunks[..i]);
        if chunk.kind == "WordBoundary" {
          fed := fed + [chunk];
        }
      }
      i := i + 1;
    }
    assert chunks[..i] == chunks;
  }

  function Unsupported(lang: string): Error
  {
    ValueError("Language '" + lang + "' is not supported.")
  }

  /** What `generate_tts_audio_and_subtitles(text, lang)` returns or raises, as
      written, given whether the output directory exists and what the engine
      streams: an unsupported language is refused first, a missing directory or
      a broken stream raises, and the reply holds the message only. */
  function SynthesisAsWritten(outputDirExists: bool, text: string, lang: string,
                              engine: (string, VoiceConfig) -> Stream): (r: Result<map<string, Value>>)
    ensures VoiceFor(lang).None? ==> r == Err(Unsupported(lang))
    ensures VoiceFor(lang).Some? ==> (r.Ok? <==> outputDirExists && engine(text, VoiceFor(lang).value).completes)
    ensures VoiceFor(lang).Some? && r.Err? ==> r == Err(SynthesisFailure)
    ensures r.Ok? ==> GetOrNone(r.value, "message") == Str(Message(VoiceFor(lang).value.voice, lang))
    ensures r.Ok? ==> GetOrNone(r.value, "audio") == Null && GetOrNone(r.value, "subtitle") == Null
  {
    match VoiceFor(lang)
    case None => Err(Unsupported(lang))
    case Some(cfg) =>
      if outputDirExists && engine(text, cfg).completes then Ok(Reply(cfg.voice, lang))
      else Err(SynthesisFailure)
  }

  /** The corrected `generate_tts_audio_and_subtitles(text, lang)`: it fails
      exactly when the function as written fails, with the same error, and its
      reply adds the two output paths to the same message. */
  function SynthesisResult(outputDirExists: bool, text: string, lang: string,
                           engine: (string, VoiceConfig) -> Stream): (r: Result<map<string, Value>>)
    ensures var w := SynthesisAsWritten(outputDirExists, text, lang, engine);
      && (r.Err? <==> w.Err?)
      && (w.Err? ==> r == w)
      && (r.Ok? ==> GetOrNone(r.value, "message") == GetOrNone(w.value, "message"))
    ensures r.Ok? ==> GetOrNone(r.value, "audio") == Str(AudioPath(lang))
                      && GetOrNone(r.value, "subtitle") == Str(SubtitlePath(lang))
  {
    match VoiceFor(lang)
    case None => Err(Unsupported(lang))
    case Some(cfg) =>
      if outputDirExists && engine(text, cfg).completes then Ok(IntendedReply(cfg.voice, lang))
      else Err(SynthesisFailure)
  }

  /** `generate_tts_audio_and_subtitles(text, lang)` as written. `engine` stands
      for `edge_tts.Communicate(...).stream()`, `srt` for `SubMaker.get_srt`. */
  method GenerateTtsAudioAndSubtitles(fs: FileSystem, text: string, lang: string,
                                      engine: (string, VoiceConfig) -> Stream, srt: seq<Chunk> -> string)
    returns (r: Result<map<string, Value>>)
    modifies fs
    ensures r == SynthesisAsWritten(OutputDir in old(fs.dirs), text, lang, engine)
    ensures fs.dirs == old(fs.dirs)
    ensures VoiceFor(lang).None? || OutputDir !in fs.dirs ==> fs.files == old(fs.files)
    ensures VoiceFor(lang).Some? && OutputDir in fs.dirs ==>
      fs.files == SynthesisFiles(old(fs.files), lang, engine(text, VoiceFor(lang).value), srt)
  {
    var cfg := VoiceFor(lang);
    if cfg.None? {
      return Err(Unsupported(lang));
    }
    var voice := cfg.value;
    if OutputDir !in fs.dirs {
      return Err(SynthesisFailure);
    }
    r := Synthesize(fs, text, lang, voice, engine, srt);
  }

  /** The body of `generate_tts_audio_and_subtitles` once the voice is known
      and the output directory exists: both files are opened, the stream is
      demultiplexed into them, and the SRT is written when the stream ends. */
  method Synthesize(fs: FileSystem, text: string, lang: string, voice: VoiceConfig,
                    engine: (string, VoiceConfig) -> Stream, srt: seq<Chunk> -> string)
    returns (r: Result<map<string, Value>>)
    modifies fs
    ensures r == if engine(text, voice).completes then Ok(Reply(voice.voice, lang)) else Err(SynthesisFailure)
    ensures fs.dirs == old(fs.dirs)
    ensures fs.files == SynthesisFiles(old(fs.files), lang, engine(text, voice), srt)
  {
    var outputFile := AudioPath(lang);
    var subtitleFile := SubtitlePath(lang);
    OutputPathsDistinct(lang, lang);
    var stream := engine(text, voice);
    fs.Write(outputFile, Bytes([]));
    fs.Write(subtitleFile, Text(""));
    var fed := Demultiplex(fs, outputFile, subtitleFile, stream.chunks);
    if !stream.completes {
      return Err(SynthesisFailure);
    }
    fs.Write(subtitleFile, Text(srt(fed)));
    r := Ok(Reply(voice.voice, lang));
  }
}
