/**
 * Python's `str.format` restricted to keyword arguments: `{{` and `}}` stand
 * for literal braces, `{name}` is replaced by the keyword argument `name`,
 * a lone `}`, an unclosed `{` or a `{` inside a field name is an error, and a name that is not among
 * the keyword arguments raises `KeyError`. Replacement fields that use
 * positional indices, attribute or index access, a conversion or a format
 * specification are outside this model and yield `UnsupportedField`.
 */
module StrFormat {
  import opened Wrappers
  import opened Strings

  datatype FormatError =
    | KeyError(key: string)          // `KeyError`: no keyword argument of that name
    | UnmatchedOpenBrace             // `ValueError`: a `{` without a closing `}`
    | SingleCloseBrace               // `ValueError`: a `}` that is neither `}}` nor closes a field
    | OpenBraceInFieldName           // `ValueError`: a `{` inside a field name
    | UnsupportedField(field: string) // a field form this model does not cover

  /** A character that may appear in a plain keyword field name. */
  predicate PlainFieldChar(c: char) {
    c != '{' && c != '}' && c != '[' && c != '.' && c != '!' && c != ':'
  }

  /**
   * A field name that Python looks up directly among the keyword arguments:
   * not empty, not a positional index (all digits), and free of the characters
   * that start an attribute, an index, a conversion or a format specification.
   */
  predicate IsKeywordName(name: string) {
    |name| >= 1 && !AllDigits(name) && forall k :: 0 <= k < |name| ==> PlainFieldChar(name[k])
  }

  /**
   * A character that ends the scan of a field name: `}` closes the field,
   * `[` starts an index, `:` a format specification, `!` a conversion, and a
   * `{` is an error.
   */
  predicate FieldStopChar(c: char) {
    c == '{' || c == '}' || c == '[' || c == ':' || c == '!'
  }

  /** The index of the first character at or after `i` that ends a field name, if any. */
  function FieldStop(s: string, i: nat): (r: Option<nat>)
    requires i <= |s|
    ensures r.Some? ==>
      i <= r.value < |s| && FieldStopChar(s[r.value]) &&
      forall k :: i <= k < r.value ==> !FieldStopChar(s[k])
    ensures r.None? ==> forall k :: i <= k < |s| ==> !FieldStopChar(s[k])
    decreases |s| - i
  {
    if i == |s| then None
    else if FieldStopChar(s[i]) then Some(i)
    else FieldStop(s, i + 1)
  }

  /** Output `p` in front of whatever the rest of the format produces. */
  function Prefix(p: string, r: Result<string, FormatError>): Result<string, FormatError> {
    match r
    case Ok(v) => Ok(p + v)
    case Err(e) => Err(e)
  }

  lemma PrefixPrefix(p: string, q: string, r: Result<string, FormatError>)
    ensures Prefix(p, Prefix(q, r)) == Prefix(p + q, r)
  {
    if r.Ok? {
      assert p + (q + r.value) == (p + q) + r.value;
    }
  }

  /** `s.format(**kwargs)`, scanning `s` from left to right. */
  function Format(s: string, kwargs: map<string, string>): Result<string, FormatError>
    decreases |s|
  {
    if |s| == 0 then Ok("")
    else if s[0] == '{' then
      if |s| >= 2 && s[1] == '{' then Prefix("{", Format(s[2..], kwargs))
      else
        match FieldStop(s, 1)
        case None => Err(UnmatchedOpenBrace)
        case Some(j) =>
          var name := s[1..j];
          if s[j] == '{' then Err(OpenBraceInFieldName)
          else if s[j] != '}' || !IsKeywordName(name) then Err(UnsupportedField(name))
          else if name !in kwargs then Err(KeyError(name))
          else Prefix(kwargs[name], Format(s[j + 1..], kwargs))
    else if s[0] == '}' then
      if |s| >= 2 && s[1] == '}' then Prefix("}", Format(s[2..], kwargs))
      else Err(SingleCloseBrace)
    else Prefix([s[0]], Format(s[1..], kwargs))
  }

  /** A format string seen as literal text interleaved with keyword fields. */
  datatype Segment = Lit(text: string) | Field(name: string)

  /** Literal text as it must be written in a format string: braces doubled. */
  function Escape(t: string): (r: string)
    ensures (forall k :: 0 <= k < |t| ==> t[k] != '{' && t[k] != '}') ==> r == t
  {
    if t == [] then []
    else (if t[0] == '{' then "{{" else if t[0] == '}' then "}}" else [t[0]]) + Escape(t[1..])
  }

  function SegmentText(g: Segment): string {
    match g
    case Lit(t) => Escape(t)
    case Field(n) => "{" + n + "}"
  }

  /** The format string that a sequence of segments spells. */
  function Text(segs: seq<Segment>): string {
    if segs == [] then "" else SegmentText(segs[0]) + Text(segs[1..])
  }

  /**
   * The intended result of formatting: each literal as it stands and each
   * field replaced by its keyword argument; the first field whose name is
   * missing raises `KeyError`.
   */
  function Fill(segs: seq<Segment>, kwargs: map<string, string>): (r: Result<string, FormatError>)
    ensures r.Ok? <==> forall i :: 0 <= i < |segs| && segs[i].Field? ==> segs[i].name in kwargs
    ensures r.Err? ==>
      r.error.KeyError? && r.error.key !in kwargs &&
      exists i :: 0 <= i < |segs| && segs[i] == Field(r.error.key) &&
        forall j :: 0 <= j < i && segs[j].Field? ==> segs[j].name in kwargs
  {
    if segs == [] then Ok("")
    else
      var rest := Fill(segs[1..], kwargs);
      assert forall i :: 1 <= i < |segs| ==> segs[i] == segs[1..][i - 1];
      match segs[0]
      case Lit(t) => Prefix(t, rest)
      case Field(n) =>
        if n in kwargs then Prefix(kwargs[n], rest)
        else
          Err(KeyError(n))
  }

  /** Filling a concatenation fills each part in turn. */
  lemma {:induction false} FillAppend(a: seq<Segment>, b: seq<Segment>, kwargs: map<string, string>)
    ensures Fill(a + b, kwargs) ==
      match Fill(a, kwargs)
      case Err(e) => Err(e)
      case Ok(v) => Prefix(v, Fill(b, kwargs))
  {
    if a == [] {
      assert a + b == b;
      if Fill(b, kwargs).Ok? {
        assert "" + Fill(b, kwargs).value == Fill(b, kwargs).value;
      }
    } else {
      assert (a + b)[1..] == a[1..] + b;
      FillAppend(a[1..], b, kwargs);
      var rest := Fill(a[1..], kwargs);
      if rest.Ok? {
        match a[0]
        case Lit(t) =>
          PrefixPrefix(t, rest.value, Fill(b, kwargs));
        case Field(n) =>
          if n in kwargs {
            PrefixPrefix(kwargs[n], rest.value, Fill(b, kwargs));
          }
      }
    }
  }

  /**
   * Only the arguments the fields name matter: two keyword maps that agree on
   * every field name give the same result; any further arguments are ignored.
   */
  lemma {:induction false} FillAgree(segs: seq<Segment>, kw1: map<string, string>, kw2: map<string, string>)
    requires forall i :: 0 <= i < |segs| && segs[i].Field? ==>
      (segs[i].name in kw1 <==> segs[i].name in kw2) &&
      (segs[i].name in kw1 ==> kw1[segs[i].name] == kw2[segs[i].name])
    ensures Fill(segs, kw1) == Fill(segs, kw2)
  {
    if segs != [] {
      assert forall i :: 1 <= i < |segs| ==> segs[i] == segs[1..][i - 1];
      FillAgree(segs[1..], kw1, kw2);
    }
  }

  /** Escaped literal text comes out unchanged, and scanning resumes right after it. */
  lemma {:induction false} EscapeFormat(t: string, rest: string, kwargs: map<string, string>)
    ensures Format(Escape(t) + rest, kwargs) == Prefix(t, Format(rest, kwargs))
    decreases |t|
  {
    if t == [] {
      assert Escape(t) + rest == rest;
      if Format(rest, kwargs).Ok? {
        assert t + Format(rest, kwargs).value == Format(rest, kwargs).value;
      }
    } else {
      EscapeHead(t, rest, kwargs);
      EscapeFormat(t[1..], rest, kwargs);
      PrefixPrefix([t[0]], t[1..], Format(rest, kwargs));
      assert [t[0]] + t[1..] == t;
    }
  }

  /** Scanning escaped text reads its first character back and resumes after it. */
  lemma EscapeHead(t: string, rest: string, kwargs: map<string, string>)
    requires t != []
    ensures Format(Escape(t) + rest, kwargs) == Prefix([t[0]], Format(Escape(t[1..]) + rest, kwargs))
  {
    EscapeCons(t, rest);
    FormatHead(t[0], Escape(t[1..]) + rest, kwargs);
  }

  lemma EscapeCons(t: string, rest: string)
    requires t != []
    ensures Escape(t) + rest ==
      (if t[0] == '{' then "{{" else if t[0] == '}' then "}}" else [t[0]]) + (Escape(t[1..]) + rest)
  {
  }

  /** One escaped character is read back as that character. */
  lemma FormatHead(c: char, tail: string, kwargs: map<string, string>)
    ensures Format((if c == '{' then "{{" else if c == '}' then "}}" else [c]) + tail, kwargs) ==
      Prefix([c], Format(tail, kwargs))
  {
    var s := (if c == '{' then "{{" else if c == '}' then "}}" else [c]) + tail;
    if c == '{' || c == '}' {
      assert s[0] == c && s[1] == c && s[2..] == tail;
    } else {
      assert s[0] == c && s[1..] == tail;
    }
  }

  /**
   * A keyword field is replaced by its argument verbatim: the inserted value
   * is not scanned again, and scanning resumes after the closing brace.
   */
  lemma FormatField(name: string, rest: string, kwargs: map<string, string>)
    requires IsKeywordName(name)
    ensures Format("{" + name + "}" + rest, kwargs) ==
      if name in kwargs then Prefix(kwargs[name], Format(rest, kwargs)) else Err(KeyError(name))
  {
    var s := "{" + name + "}" + rest;
    var j := |name| + 1;
    assert s[1] == name[0];
    assert forall k :: 1 <= k < j ==> s[k] == name[k - 1];
    assert s[j] == '}';
    var e := FieldStop(s, 1);
    assert e == Some(j);
    assert s[1..j] == name;
    assert s[j + 1..] == rest;
  }

  /**
   * Formatting the text of a segment sequence whose fields are keyword names
   * gives exactly the intended filling.
   */
  lemma {:induction false} FormatText(segs: seq<Segment>, kwargs: map<string, string>)
    requires forall i :: 0 <= i < |segs| && segs[i].Field? ==> IsKeywordName(segs[i].name)
    ensures Format(Text(segs), kwargs) == Fill(segs, kwargs)
  {
    if segs != [] {
      assert forall i :: 1 <= i < |segs| ==> segs[i] == segs[1..][i - 1];
      FormatText(segs[1..], kwargs);
      match segs[0]
      case Lit(t) =>
        EscapeFormat(t, Text(segs[1..]), kwargs);
      case Field(n) =>
        FormatField(n, Text(segs[1..]), kwargs);
    }
  }

  /**
   * A `{` inside a field name is an error, whatever follows it: the text
   * `{a{b}` raises `ValueError` rather than naming a field `a{b`.
   */
  lemma OpenBraceInName(name: string, rest: string, kwargs: map<string, string>)
    requires |name| >= 1 && forall k :: 0 <= k < |name| ==> !FieldStopChar(name[k])
    ensures Format("{" + name + "{" + rest, kwargs) == Err(OpenBraceInFieldName)
  {
    var s := "{" + name + "{" + rest;
    var j := |name| + 1;
    assert forall k :: 1 <= k < j ==> s[k] == name[k - 1];
    assert s[j] == '{';
    assert FieldStop(s, 1) == Some(j);
  }

  /**
   * A `{` that no character ending a field name follows is an error: the
   * text ends inside the field.
   */
  lemma UnclosedField(t: string, kwargs: map<string, string>)
    requires forall k :: 0 <= k < |t| ==> !FieldStopChar(t[k])
    ensures Format("{" + t, kwargs) == Err(UnmatchedOpenBrace)
  {
    var s := "{" + t;
    assert forall k :: 1 <= k < |s| ==> s[k] == t[k - 1];
    assert FieldStop(s, 1) == None;
  }
}
