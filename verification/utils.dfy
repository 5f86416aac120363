/** `rename` (a folder-name sanitiser) and `convert_object_ids` (utils.py). */
module Utils {
  import opened Text
  import opened Values

  /** The longest name `rename` returns. */
  const MaxNameLength := 245

  /** `\w`, restricted to ASCII: letters, digits and the underscore. */
  predicate IsWordChar(c: char) {
    ('a' <= c <= 'z') || ('A' <= c <= 'Z') || ('0' <= c <= '9') || c == '_'
  }

  /** A character the pattern `[^\w\s\-]` does not match. */
  predicate Allowed(c: char) {
    IsWordChar(c) || IsSpace(c) || c == '-'
  }

  /** `re.sub(r'[^\w\s\-]', '', s)`: drop every character that is not allowed,
      keeping the order of the others. */
  function KeepAllowed(s: string): (r: string)
    ensures |r| <= |s|
    ensures forall i :: 0 <= i < |r| ==> Allowed(r[i])
    ensures (forall i :: 0 <= i < |s| ==> Allowed(s[i])) ==> r == s
    ensures |s| == 1 && !Allowed(s[0]) ==> r == ""
  {
    if s == [] then ""
    else if Allowed(s[0]) then [s[0]] + KeepAllowed(s[1..])
    else KeepAllowed(s[1..])
  }

  /** The filter works character by character: filtering a concatenation
      concatenates the filtered parts. With the contract of `KeepAllowed` on one
      character this determines the filter on every text. */
  lemma {:induction false} KeepAllowedAppend(a: string, b: string)
    ensures KeepAllowed(a + b) == KeepAllowed(a) + KeepAllowed(b)
    decreases |a|
  {
    if a == [] {
      assert a + b == b;
    } else {
      assert (a + b)[0] == a[0] && (a + b)[1..] == a[1..] + b;
      KeepAllowedAppend(a[1..], b);
    }
  }

  /** The title after filtering, with every space turned into `_`. */
  function Underscored(title: string): (r: string)
    ensures forall i :: 0 <= i < |r| ==> Allowed(r[i]) && r[i] != ' '
    ensures |r| == |KeepAllowed(title)|
    ensures forall i :: 0 <= i < |r| && KeepAllowed(title)[i] != ' ' ==> r[i] == KeepAllowed(title)[i]
    ensures forall i :: 0 <= i < |r| ==> r[i] == if KeepAllowed(title)[i] == ' ' then '_' else KeepAllowed(title)[i]
  {
    ReplaceChar(KeepAllowed(title), ' ', '_')
  }

  /** The title after filtering, turning spaces into `_` and trimming `_` from
      both ends; `rename` truncates this. */
  function Sanitized(title: string): (r: string)
    ensures forall i :: 0 <= i < |r| ==> Allowed(r[i]) && r[i] != ' '
    ensures r != [] ==> r[0] != '_' && r[|r| - 1] != '_'
    ensures IsStripOf(r, Underscored(title), {'_'})
  {
    var u := Underscored(title);
    var r := Strip(u, {'_'});
    InfixAllowed(u, StripStart(u, {'_'}), r);
    StripIsStripOf(u, {'_'});
    r
  }

  /** Every infix of a filtered, underscored title is filtered and underscored. */
  lemma InfixAllowed(u: string, start: nat, r: string)
    requires forall i :: 0 <= i < |u| ==> Allowed(u[i]) && u[i] != ' '
    requires start + |r| <= |u| && r == u[start..start + |r|]
    ensures forall i :: 0 <= i < |r| ==> Allowed(r[i]) && r[i] != ' '
  {
    forall i | 0 <= i < |r| ensures Allowed(r[i]) && r[i] != ' ' {
      assert r[i] == u[start + i];
    }
  }

  /** `rename(title)`. */
  function Rename(title: string): (r: string)
    ensures |r| <= MaxNameLength
    ensures forall i :: 0 <= i < |r| ==> IsWordChar(r[i]) || (IsSpace(r[i]) && r[i] != ' ') || r[i] == '-'
    ensures r != [] ==> r[0] != '_'
    ensures |r| == if |Sanitized(title)| < MaxNameLength then |Sanitized(title)| else MaxNameLength
    ensures r == Sanitized(title)[..|r|]
  {
    var s := Sanitized(title);
    var r := SliceTo(s, MaxNameLength);
    assert forall i :: 0 <= i < |r| ==> r[i] == s[i];
    r
  }

  /** Truncation is the only way a name can end with `_`: a sanitised title of
      at most 245 characters is returned whole. */
  lemma RenameShortTitle(title: string)
    requires |Sanitized(title)| <= MaxNameLength
    ensures Rename(title) == Sanitized(title)
    ensures Rename(title) != [] ==> Rename(title)[|Rename(title)| - 1] != '_'
  {
  }

  /** A title that is already a clean folder name (word characters and `-`
      only, no `_` at either end, at most 245 characters) is returned unchanged. */
  lemma RenameCleanTitle(title: string)
    requires forall i :: 0 <= i < |title| ==> IsWordChar(title[i]) || title[i] == '-'
    requires title != [] ==> title[0] != '_' && title[|title| - 1] != '_'
    requires |title| <= MaxNameLength
    ensures Rename(title) == title
  {
    assert Underscored(title) == title by {
      assert KeepAllowed(title) == title;
      assert ReplaceChar(title, ' ', '_') == title;
    }
    assert Sanitized(title) == title by {
      StripKeeps(title, {'_'});
    }
  }

  /** The 24 lower-case hexadecimal digits of `str(ObjectId)`. */
  function OidText(id: ObjectId): (r: string)
    ensures |r| == 24
  {
    Hex(id, 24)
  }

  /** The low `width` hexadecimal digits of `n`, most significant first. */
  function Hex(n: nat, width: nat): (r: string)
    ensures |r| == width
    ensures forall i :: 0 <= i < |r| ==> r[i] in "0123456789abcdef"
  {
    if width == 0 then "" else Hex(n / 16, width - 1) + ["0123456789abcdef"[n % 16]]
  }

  /** No ObjectId occurs anywhere inside `v`. */
  predicate NoOids(v: Value) {
    match v
    case Oid(_) => false
    case List(xs) => forall i :: 0 <= i < |xs| ==> NoOids(xs[i])
    case Dict(m) => forall k :: k in m ==> NoOids(m[k])
    case _ => true
  }

  /** `convert_object_ids(data)`: every ObjectId becomes its string form, dicts
      keep their keys, lists their length and order, other leaves are kept. */
  function ConvertObjectIds(v: Value): (r: Value)
    ensures NoOids(r)
    ensures v.Oid? ==> r == Str(OidText(v.id))
    ensures v.Dict? ==> r.Dict? && r.fields.Keys == v.fields.Keys
    ensures v.Dict? ==> forall k :: k in v.fields ==> r.fields[k] == ConvertObjectIds(v.fields[k])
    ensures v.List? ==> r.List? && |r.items| == |v.items|
    ensures v.List? ==> forall i :: 0 <= i < |v.items| ==> r.items[i] == ConvertObjectIds(v.items[i])
    ensures !v.Oid? && !v.Dict? && !v.List? ==> r == v
  {
    match v
    case Dict(m) => Dict(map k | k in m :: ConvertObjectIds(m[k]))
    case List(xs) => List(seq(|xs|, i requires 0 <= i < |xs| => ConvertObjectIds(xs[i])))
    case Oid(id) => Str(OidText(id))
    case _ => v
  }

  /** A value without ObjectIds is left exactly as it is. */
  lemma {:induction false} ConvertWithoutOids(v: Value)
    requires NoOids(v)
    ensures ConvertObjectIds(v) == v
  {
    match v
    case Dict(m) =>
      forall k | k in m ensures ConvertObjectIds(m[k]) == m[k] {
        ConvertWithoutOids(m[k]);
      }
      assert (map k | k in m :: ConvertObjectIds(m[k])) == m;
    case List(xs) =>
      forall i | 0 <= i < |xs| ensures ConvertObjectIds(xs[i]) == xs[i] {
        ConvertWithoutOids(xs[i]);
      }
      assert seq(|xs|, i requires 0 <= i < |xs| => ConvertObjectIds(xs[i])) == xs;
    case _ =>
  }

  lemma ConvertIdempotent(v: Value)
    ensures ConvertObjectIds(ConvertObjectIds(v)) == ConvertObjectIds(v)
  {
    ConvertWithoutOids(ConvertObjectIds(v));
  }
}
