/**
 * The handful of Python `str` operations the modelled code relies on:
 * `split(sep)`, `sep.join`, `''.join`, `strip`, `split()`, `replace`,
 * `startswith` and slicing `[:n]`.
 */
module Text {

  /** The characters for which Python's `str.isspace()` holds; `\s` in a `str`
      regular expression matches exactly these. */
  predicate IsSpace(c: char) {
    || ('\t' <= c <= '\r') || ('\U{001C}' <= c <= ' ')
    || c == '\U{0085}' || c == '\U{00A0}' || c == '\U{1680}'
    || ('\U{2000}' <= c <= '\U{200A}') || c == '\U{2028}' || c == '\U{2029}'
    || c == '\U{202F}' || c == '\U{205F}' || c == '\U{3000}'
  }

  const Whitespace: set<char> := set c: char | '\t' <= c <= '\U{3000}' && IsSpace(c)

  predicate AllIn(s: string, cs: set<char>) {
    forall k :: 0 <= k < |s| ==> s[k] in cs
  }

  predicate NoneIn(s: string, cs: set<char>) {
    forall k :: 0 <= k < |s| ==> s[k] !in cs
  }

  predicate StartsWith(s: string, prefix: string) {
    |prefix| <= |s| && s[..|prefix|] == prefix
  }

  /** `s.lstrip(chars)`. */
  function LStrip(s: string, cs: set<char>): (r: string)
    ensures |r| <= |s|
    ensures r != [] ==> r[0] !in cs
  {
    if s != [] && s[0] in cs then LStrip(s[1..], cs) else s
  }

  /** `lstrip` keeps a suffix of `s` and removes a prefix made only of `cs`. */
  lemma {:induction false} LStripDrops(s: string, cs: set<char>)
    ensures LStrip(s, cs) == s[|s| - |LStrip(s, cs)|..]
    ensures AllIn(s[..|s| - |LStrip(s, cs)|], cs)
    decreases |s|
  {
    if s != [] && s[0] in cs {
      var r := LStrip(s[1..], cs);
      LStripDrops(s[1..], cs);
      assert s[..|s| - |r|] == [s[0]] + s[1..][..|s| - 1 - |r|];
    }
  }

  /** `s.rstrip(chars)`. */
  function RStrip(s: string, cs: set<char>): (r: string)
    ensures |r| <= |s| && r == s[..|r|]
    ensures r != [] ==> r[|r| - 1] !in cs
  {
    if s != [] && s[|s| - 1] in cs then RStrip(s[..|s| - 1], cs) else s
  }

  /** What `rstrip` removes is made only of `cs`. */
  lemma {:induction false} RStripDrops(s: string, cs: set<char>)
    ensures AllIn(s[|RStrip(s, cs)|..], cs)
    decreases |s|
  {
    if s != [] && s[|s| - 1] in cs {
      var r := RStrip(s[..|s| - 1], cs);
      RStripDrops(s[..|s| - 1], cs);
      assert s[|r|..] == s[..|s| - 1][|r|..] + [s[|s| - 1]];
    }
  }

  /** `s.strip(chars)`: the result is the infix of `s` left after removing the
      longest prefix and the longest suffix made only of `cs`. */
  function Strip(s: string, cs: set<char>): (r: string)
    ensures r != [] ==> r[0] !in cs && r[|r| - 1] !in cs
    ensures StripStart(s, cs) + |r| <= |s| && r == s[StripStart(s, cs)..StripStart(s, cs) + |r|]
  {
    var l := LStrip(s, cs);
    var r := RStrip(l, cs);
    LStripDrops(s, cs);
    StripInfix(s, l, r);
    r
  }

  /** A text that neither starts nor ends with a character of `cs` is its own
      strip. */
  lemma StripKeeps(s: string, cs: set<char>)
    requires s != [] ==> s[0] !in cs && s[|s| - 1] !in cs
    ensures Strip(s, cs) == s
  {
    assert LStrip(s, cs) == s;
    assert RStrip(s, cs) == s;
  }

  /** An infix of an infix of `s` is an infix of `s`. */
  lemma StripInfix(s: string, l: string, r: string)
    requires |l| <= |s| && l == s[|s| - |l|..]
    requires |r| <= |l| && r == l[..|r|]
    ensures |s| - |l| + |r| <= |s| && r == s[|s| - |l|..|s| - |l| + |r|]
  {
  }

  /** `r` is what is left of `s` once a prefix and a suffix made only of `cs` are
      removed, and it neither starts nor ends with a character of `cs`. */
  ghost predicate IsStripOf(r: string, s: string, cs: set<char>) {
    && (r != [] ==> r[0] !in cs && r[|r| - 1] !in cs)
    && exists i, j :: 0 <= i <= j <= |s| && r == s[i..j] && AllIn(s[..i], cs) && AllIn(s[j..], cs)
  }

  /** Where the result of `Strip` starts inside its argument. */
  function StripStart(s: string, cs: set<char>): nat
  {
    |s| - |LStrip(s, cs)|
  }

  /** What `Strip` removes from either end is made only of `cs`. */
  lemma StripParts(s: string, cs: set<char>)
    ensures var start, r := StripStart(s, cs), Strip(s, cs);
      AllIn(s[..start], cs) && AllIn(s[start + |r|..], cs)
  {
    var l := LStrip(s, cs);
    var r := RStrip(l, cs);
    var start := |s| - |l|;
    assert StripStart(s, cs) == start && Strip(s, cs) == r;
    LStripDrops(s, cs);
    RStripDrops(l, cs);
    assert s[start + |r|..] == l[|r|..];
  }

  /** `Strip` meets its description. */
  lemma StripIsStripOf(s: string, cs: set<char>)
    ensures IsStripOf(Strip(s, cs), s, cs)
  {
    var start := StripStart(s, cs);
    StripParts(s, cs);
    assert Strip(s, cs) == s[start..start + |Strip(s, cs)|];
  }

  /** Stripping never brings in a character the text did not have. */
  lemma StripKeepsAbsent(s: string, cs: set<char>, c: char)
    requires c !in s
    ensures c !in Strip(s, cs)
  {
  }

  lemma StripIdempotent(s: string, cs: set<char>)
    ensures Strip(Strip(s, cs), cs) == Strip(s, cs)
  {
    var t := Strip(s, cs);
    assert LStrip(t, cs) == t;
    assert RStrip(t, cs) == t;
  }

  /** `''.join(pieces)`. */
  function Concat(pieces: seq<string>): (r: string)
  {
    if pieces == [] then "" else pieces[0] + Concat(pieces[1..])
  }

  /** `sep.join(pieces)` for a one-character separator. */
  function Join(pieces: seq<string>, sep: char): (r: string)
  {
    if |pieces| == 0 then ""
    else if |pieces| == 1 then pieces[0]
    else pieces[0] + [sep] + Join(pieces[1..], sep)
  }

  /** A piece in front of a non-empty join adds that piece and the separator. */
  lemma JoinCons(first: string, pieces: seq<string>, sep: char)
    requires pieces != []
    ensures Join([first] + pieces, sep) == first + [sep] + Join(pieces, sep)
  {
    assert ([first] + pieces)[1..] == pieces;
  }

  /** Appending one more piece to a join adds the separator and that piece. */
  lemma {:induction false} JoinSnoc(pieces: seq<string>, last: string, sep: char)
    requires |pieces| >= 1
    ensures Join(pieces + [last], sep) == Join(pieces, sep) + [sep] + last
    decreases |pieces|
  {
    if |pieces| > 1 {
      assert (pieces + [last])[1..] == pieces[1..] + [last];
      JoinSnoc(pieces[1..], last, sep);
    } else {
      assert (pieces + [last])[1..] == [last];
    }
  }

  /** `s.split(sep)` for a one-character separator: the maximal pieces between
      separators, always at least one. */
  function Split(s: string, sep: char): (r: seq<string>)
    ensures |r| >= 1
    ensures forall i :: 0 <= i < |r| ==> sep !in r[i]
  {
    if s == [] then [""]
    else
      var rest := Split(s[1..], sep);
      if s[0] == sep then [""] + rest
      else [[s[0]] + rest[0]] + rest[1..]
  }

  lemma {:induction false} JoinSplit(s: string, sep: char)
    ensures Join(Split(s, sep), sep) == s
  {
    if s != [] {
      var rest := Split(s[1..], sep);
      JoinSplit(s[1..], sep);
      if s[0] == sep {
        assert Split(s, sep) == [""] + rest;
        assert ([""] + rest)[1..] == rest;
      } else {
        assert Split(s, sep) == [[s[0]] + rest[0]] + rest[1..];
        if |rest| == 1 {
          assert Join(Split(s, sep), sep) == [s[0]] + rest[0];
        } else {
          assert ([[s[0]] + rest[0]] + rest[1..])[1..] == rest[1..];
          assert Join(rest, sep) == rest[0] + [sep] + Join(rest[1..], sep);
        }
      }
    }
  }

  /** The last piece of a split is empty exactly when the text is empty or
      ends with the separator. */
  lemma {:induction false} SplitLastEmpty(s: string, sep: char)
    ensures var r := Split(s, sep); r[|r| - 1] == "" <==> s == "" || s[|s| - 1] == sep
  {
    if s != [] {
      var rest := Split(s[1..], sep);
      SplitLastEmpty(s[1..], sep);
      if s[0] != sep && |rest| == 1 {
        assert Split(s, sep) == [[s[0]] + rest[0]];
        assert s[1..] == [] ==> s[|s| - 1] == s[0];
      } else if s[0] == sep {
        assert s[1..] == [] ==> s[|s| - 1] == s[0];
      } else {
        assert s[|s| - 1] == s[1..][|s[1..]| - 1];
      }
    }
  }

  /** Splitting at one separator splits each side on its own. */
  lemma {:induction false} SplitAppend(a: string, b: string, sep: char)
    ensures Split(a + [sep] + b, sep) == Split(a, sep) + Split(b, sep)
    decreases |a|
  {
    var s := a + [sep] + b;
    if a == [] {
      assert s[1..] == b;
    } else {
      assert s[0] == a[0] && s[1..] == a[1..] + [sep] + b;
      SplitAppend(a[1..], b, sep);
    }
  }

  /** A text without the separator splits into itself. */
  lemma {:induction false} SplitWithoutSep(s: string, sep: char)
    requires sep !in s
    ensures Split(s, sep) == [s]
  {
    if s != [] {
      SplitWithoutSep(s[1..], sep);
      assert [s[0]] + s[1..] == s;
    }
  }

  /** A text below two separator-free pieces splits into those pieces and the
      pieces of the rest. */
  lemma SplitBelow(a: string, b: string, rest: string, sep: char)
    requires sep !in a && sep !in b
    ensures Split(a + [sep] + (b + [sep] + rest), sep) == [a, b] + Split(rest, sep)
  {
    SplitAppend(b, rest, sep);
    SplitWithoutSep(b, sep);
    SplitAppend(a, b + [sep] + rest, sep);
    SplitWithoutSep(a, sep);
  }

  /** The words of `s.split()`: maximal runs of non-whitespace characters. */
  function Words(s: string): (r: seq<string>)
    ensures forall i :: 0 <= i < |r| ==> r[i] != [] && NoneIn(r[i], Whitespace)
    ensures s != [] && s[0] !in Whitespace ==> r != []
    decreases |s|
  {
    if s == [] then []
    else if s[0] in Whitespace then Words(s[1..])
    else
      var w := LeadingWord(s);
      [w] + Words(s[|w|..])
  }

  function LeadingWord(s: string): (w: string)
    ensures |w| <= |s| && w == s[..|w|] && NoneIn(w, Whitespace)
    ensures s != [] && s[0] !in Whitespace ==> w != []
    ensures |w| < |s| ==> s[|w|] in Whitespace
  {
    if s == [] || s[0] in Whitespace then [] else [s[0]] + LeadingWord(s[1..])
  }

  /** `split()` skips whitespace in front of the text. */
  lemma SpaceThenWords(c: char, s: string)
    requires c in Whitespace
    ensures Words([c] + s) == Words(s)
  {
    assert ([c] + s)[1..] == s;
  }

  /** A non-whitespace character in front of a text joins its first word when
      the text starts with one, and is a word of its own otherwise. Together with
      `SpaceThenWords` and `Words("") == []` this determines `split()`. */
  lemma CharThenWords(c: char, s: string)
    requires c !in Whitespace
    ensures Words([c] + s) == if s != [] && s[0] !in Whitespace then [[c] + Words(s)[0]] + Words(s)[1..] else [[c]] + Words(s)
  {
    var t := [c] + s;
    assert t[0] == c && t[1..] == s;
    var w := LeadingWord(s);
    assert LeadingWord(t) == [c] + w;
    assert t[|[c] + w|..] == s[|w|..];
  }

  /** Whitespace in front of a text does not change its words. */
  lemma {:induction false} SpacesThenWords(ws: string, s: string)
    requires AllIn(ws, Whitespace)
    ensures Words(ws + s) == Words(s)
    decreases |ws|
  {
    if ws == [] {
      assert ws + s == s;
    } else {
      assert ws + s == [ws[0]] + (ws[1..] + s);
      assert ws[0] in Whitespace;
      SpacesThenWords(ws[1..], s);
      SpaceThenWords(ws[0], ws[1..] + s);
    }
  }

  /** Whitespace after a text does not change its words. */
  lemma {:induction false} WordsThenSpaces(s: string, ws: string)
    requires AllIn(ws, Whitespace)
    ensures Words(s + ws) == Words(s)
    decreases |s|
  {
    if s == [] {
      assert s + ws == ws + s;
      SpacesThenWords(ws, s);
    } else {
      var t := s[1..];
      assert s + ws == [s[0]] + (t + ws) && s == [s[0]] + t;
      WordsThenSpaces(t, ws);
      if s[0] in Whitespace {
        SpaceThenWords(s[0], t + ws);
        SpaceThenWords(s[0], t);
      } else {
        CharThenWords(s[0], t + ws);
        CharThenWords(s[0], t);
        assert t == [] ==> t + ws == ws;
        assert t != [] ==> (t + ws)[0] == t[0];
      }
    }
  }

  /** A text that is one word is that word alone, joined. */
  lemma LoneWord(s: string)
    requires s != [] && s[0] !in Whitespace && |LeadingWord(s)| == |s|
    ensures Join(Words(s), ' ') == s
  {
    var w := LeadingWord(s);
    assert w == s && s[|w|..] == [];
    assert Words(s) == [w] + Words(s[|w|..]);
  }

  /** A text whose first word is followed by one space and a text starting
      with a word has that first word and then the words of the rest. */
  lemma WordThenSpace(s: string, u: string)
    requires s != [] && s[0] !in Whitespace && |LeadingWord(s)| < |s|
    requires s[|LeadingWord(s)|..] == [' '] + u
    requires u != [] && u[0] !in Whitespace
    ensures Words(u) != [] && Words(s) == [LeadingWord(s)] + Words(u)
    ensures s == LeadingWord(s) + [' '] + u
  {
    var w := LeadingWord(s);
    assert Words(s) == [w] + Words(s[|w|..]);
    SpaceThenWords(' ', u);
    SpaceAt(s, |w|, u);
  }

  lemma SpaceAt(s: string, k: nat, u: string)
    requires k <= |s| && s[k..] == [' '] + u
    ensures s == s[..k] + [' '] + u
  {
    assert s == s[..k] + s[k..];
  }

  /** `s.replace(a, b)` for single characters. */
  function ReplaceChar(s: string, a: char, b: char): (r: string)
    ensures |r| == |s|
    ensures forall i :: 0 <= i < |s| ==> r[i] == if s[i] == a then b else s[i]
  {
    seq(|s|, i requires 0 <= i < |s| => if s[i] == a then b else s[i])
  }

  /** Python's `xs[:n]`, where a negative `n` counts from the end. */
  function SliceTo<T>(xs: seq<T>, n: int): (r: seq<T>)
    ensures |r| <= |xs| && r == xs[..|r|]
    ensures n >= 0 ==> |r| == if n < |xs| then n else |xs|
    ensures n < 0 ==> |r| == if |xs| + n > 0 then |xs| + n else 0
  {
    if n >= 0 then (if n < |xs| then xs[..n] else xs)
    else if |xs| + n > 0 then xs[..|xs| + n] else []
  }
}
