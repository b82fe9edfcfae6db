/** MediaType.parseMediaType: the grammar of a media type read from a header value,
    first as a function of the text, then as the loop over a StringReader that is
    proved to compute that function. */
module MediaTypeParser {
  import opened Wrappers
  import opened HttpParser
  import opened MediaTypes
  import Reader

  /** Why a header value is not a media type. */
  datatype ParseError =
    | MissingType
    | MissingSlash
    | MissingSubtype
    | InvalidParameterName
    | InvalidParameterValue
    | UnterminatedQuote

  /** A parameter value at the front of s, as a quoted-string (kept raw) when s starts
      with a quote and as a token otherwise, paired with the text after it. */
  function ParseValue(s: string): (r: Result<(string, string), ParseError>)
    ensures r.Success? ==> IsValueText(r.value.0) && s == r.value.0 + r.value.1
    ensures r.Success? ==> |r.value.1| < |s|
    ensures r.Failure? ==> r.error == (if s != [] && s[0] == '"' then UnterminatedQuote else InvalidParameterValue)
  {
    if s != [] && s[0] == '"' then
      match QuotedPrefix(s)
      case None => Failure(UnterminatedQuote)
      case Some(q) => Success((q, s[|q|..]))
    else
      var t := TokenPrefix(s);
      TokenPrefixShape(s);
      if t == [] then Failure(InvalidParameterValue) else Success((t, s[|t|..]))
  }

  /** A value text followed by text that cannot continue it is read whole. */
  lemma ParseValueOver(v: string, rest: string)
    requires IsValueText(v)
    requires IsToken(v) ==> rest == [] || !IsTokenChar(rest[0])
    ensures ParseValue(v + rest) == Success((v, rest))
  {
    var s := v + rest;
    assert s[0] == v[0];
    if IsQuotedString(v) {
      QuotedPrefixOver(v, rest);
    } else {
      AllTokenCharsAt(v, 0);
      TokenPrefixOver(v, rest);
    }
    assert s[|v|..] == rest;
  }

  /** The outcome of reading one parameter segment. */
  datatype Step =
    | Stop
    | Continue(rest: string, params: seq<Parameter>)
    | Fail(error: ParseError)

  /** One turn of the parameter loop on the text s that remains, with the parameters
      acc read so far: linear whitespace is skipped first. */
  function ParameterStep(s: string, acc: seq<Parameter>): (r: Step)
    ensures r.Continue? ==> |r.rest| < |s|
  {
    SegmentStart(SkipLws(s), acc)
  }

  /** No ';' ends the parameters (whatever follows is left unread). */
  function SegmentStart(s1: string, acc: seq<Parameter>): (r: Step)
    ensures r.Continue? ==> |r.rest| < |s1|
  {
    if s1 == [] || s1[0] != ';' then Stop else SegmentBody(SkipLws(s1[1..]), acc)
  }

  /** After ';' and whitespace: an empty segment (another ';' or the end) adds
      nothing; otherwise a parameter name must follow. */
  function SegmentBody(s2: string, acc: seq<Parameter>): (r: Step)
    ensures r.Continue? ==> |r.rest| <= |s2|
  {
    if s2 == [] || s2[0] == ';' then Continue(s2, acc)
    else
      var name := TokenPrefix(s2);
      if name == [] then Fail(InvalidParameterName)
      else ParameterTail(name, SkipLws(s2[|name|..]), acc)
  }

  /** After the name and whitespace: "=" and a value puts the value under the
      lower-cased name; a bare name puts the empty value. */
  function ParameterTail(name: string, s3: string, acc: seq<Parameter>): (r: Step)
    ensures r.Continue? ==> |r.rest| <= |s3|
  {
    if s3 != [] && s3[0] == '=' then
      var value := ParseValue(SkipLws(s3[1..]));
      if value.Failure? then Fail(value.error)
      else Continue(value.value.1, Put(acc, ToLower(name), value.value.0))
    else Continue(s3, Put(acc, ToLower(name), ""))
  }

  /** The parameter loop: steps until a step stops or fails. */
  function ParseParameters(s: string, acc: seq<Parameter>): Result<seq<Parameter>, ParseError>
    decreases |s|
  {
    match ParameterStep(s, acc)
    case Stop => Success(acc)
    case Fail(e) => Failure(e)
    case Continue(rest, ps) => ParseParameters(rest, ps)
  }

  function WithTypes(t: string, st: string, r: Result<seq<Parameter>, ParseError>): Result<MediaType, ParseError> {
    match r
    case Failure(e) => Failure(e)
    case Success(ps) => Success(MediaType(t, st, ps))
  }

  /** parseMediaType on the whole header value: type "/" subtype, linear whitespace
      allowed around each, then the parameters. */
  function Parse(s: string): Result<MediaType, ParseError> {
    ReadType(SkipLws(s))
  }

  function ReadType(s0: string): Result<MediaType, ParseError> {
    var t := TokenPrefix(s0);
    if t == [] then Failure(MissingType) else ReadSlash(t, SkipLws(s0[|t|..]))
  }

  function ReadSlash(t: string, s1: string): Result<MediaType, ParseError> {
    if s1 == [] || s1[0] != '/' then Failure(MissingSlash) else ReadSubtype(t, SkipLws(s1[1..]))
  }

  function ReadSubtype(t: string, s2: string): Result<MediaType, ParseError> {
    var st := TokenPrefix(s2);
    if st == [] then Failure(MissingSubtype) else WithTypes(t, st, ParseParameters(s2[|st|..], []))
  }

  // ---------------------------------------------------------------------------
  // What a successful parse produces

  /** Parameters stored by a step are well formed. */
  lemma StepWellFormed(s: string, acc: seq<Parameter>)
    requires WellFormedParameters(acc)
    ensures ParameterStep(s, acc).Continue? ==> WellFormedParameters(ParameterStep(s, acc).params)
  {
    var s1 := SkipLws(s);
    if s1 != [] && s1[0] == ';' {
      var s2 := SkipLws(s1[1..]);
      var name := TokenPrefix(s2);
      if s2 != [] && s2[0] != ';' && name != [] {
        TailWellFormed(name, SkipLws(s2[|name|..]), acc);
      }
    }
  }

  lemma TailWellFormed(name: string, s3: string, acc: seq<Parameter>)
    requires WellFormedParameters(acc) && IsToken(name)
    ensures ParameterTail(name, s3, acc).Continue? ==> WellFormedParameters(ParameterTail(name, s3, acc).params)
  {
    ToLowerToken(name);
    ToLowerIdempotent(name);
    var v := if s3 != [] && s3[0] == '=' then
      (var value := ParseValue(SkipLws(s3[1..])); if value.Failure? then "" else value.value.0)
    else "";
    PutUnique(acc, ToLower(name), v);
    PutElements(acc, ToLower(name), v);
  }

  lemma {:induction false} ParametersWellFormed(s: string, acc: seq<Parameter>)
    requires WellFormedParameters(acc)
    ensures ParseParameters(s, acc).Success? ==> WellFormedParameters(ParseParameters(s, acc).value)
    decreases |s|
  {
    StepWellFormed(s, acc);
    match ParameterStep(s, acc)
    case Stop =>
    case Fail(_) =>
    case Continue(rest, ps) => ParametersWellFormed(rest, ps);
  }

  /** A parsed media type has token type and subtype and distinct, lower-case token
      names whose values are empty, a token or a raw quoted-string. */
  lemma ParseWellFormed(s: string)
    ensures Parse(s).Success? ==> WellFormed(Parse(s).value)
  {
    var s0 := SkipLws(s);
    var t := TokenPrefix(s0);
    var s1 := SkipLws(s0[|t|..]);
    if t != [] && s1 != [] && s1[0] == '/' {
      SubtypeWellFormed(t, SkipLws(s1[1..]));
    }
  }

  lemma SubtypeWellFormed(t: string, s2: string)
    requires IsToken(t)
    ensures ReadSubtype(t, s2).Success? ==> WellFormed(ReadSubtype(t, s2).value)
  {
    ParametersWellFormed(s2[|TokenPrefix(s2)|..], []);
  }

  // ---------------------------------------------------------------------------
  // Padding, empty segments and bare names

  /** The parameter loop starts by skipping whitespace, so whitespace in front of
      the parameters changes nothing. */
  lemma LeadingLwsIgnored(w: string, s: string, acc: seq<Parameter>)
    requires AllLws(w)
    ensures ParseParameters(w + s, acc) == ParseParameters(s, acc)
  {
    SkipLwsPrefix(w, s);
  }

  lemma LwsNotToken(s: string)
    requires AllLws(s) && s != []
    ensures IsLws(s[0]) && !IsTokenChar(s[0])
  {
  }

  /** A parameter as a header may write it: a token name and a value text (token or
      quoted-string) with linear whitespace around it. */
  predicate Writable(p: Parameter) {
    IsToken(p.name) && LwsPadded(p.value) && IsValueText(Trim(p.value))
  }

  /** What the parser stores for a written parameter: its name in lower case and its
      value without the surrounding whitespace. */
  function Stored(p: Parameter): Parameter {
    Parameter(ToLower(p.name), Trim(p.value))
  }

  function StoredAll(ps: seq<Parameter>): seq<Parameter>
    decreases |ps|
  {
    if ps == [] then [] else [Stored(ps[0])] + StoredAll(ps[1..])
  }

  /** A step that continues hands the parameter loop on to the text it continues with. */
  lemma StepContinues(s: string, acc: seq<Parameter>, rest: string, ps: seq<Parameter>)
    requires ParameterStep(s, acc) == Continue(rest, ps)
    ensures ParseParameters(s, acc) == ParseParameters(rest, ps)
  {
  }

  /** Whitespace, ';' and whitespace open a segment whose body is what follows. */
  lemma OpenSegment(w1: string, w2: string, x: string, acc: seq<Parameter>)
    requires AllLws(w1) && AllLws(w2)
    requires x == [] || !IsLws(x[0])
    ensures ParameterStep(w1 + (";" + (w2 + x)), acc) == SegmentBody(x, acc)
  {
    var r := ";" + (w2 + x);
    assert r[0] == ';';
    SkipLwsOver(w1, r);
    assert r[1..] == w2 + x;
    SkipLwsOver(w2, x);
  }

  /** A name, whitespace and then y: the name is read whole and the parameter goes
      on with y. */
  lemma NamedSegment(name: string, lws: string, y: string, acc: seq<Parameter>)
    requires IsToken(name) && AllLws(lws)
    requires y == [] || (!IsLws(y[0]) && !IsTokenChar(y[0]))
    ensures SegmentBody(name + (lws + y), acc) == ParameterTail(name, y, acc)
  {
    var s2 := name + (lws + y);
    AllTokenCharsAt(name, 0);
    assert s2[0] == name[0];
    if lws != [] {
      LwsNotToken(lws);
      assert (lws + y)[0] == lws[0];
    } else {
      assert lws + y == y;
    }
    TokenPrefixOver(name, lws + y);
    assert s2[|name|..] == lws + y;
    SkipLwsOver(lws, y);
  }

  /** Whitespace, a padded value, whitespace and then tail: skipping the whitespace
      in front reaches the trimmed value, followed by whitespace w and the tail. */
  lemma PaddedValue(lws: string, value: string, tail: string) returns (w: string)
    requires AllLws(lws) && LwsPadded(value) && IsValueText(Trim(value))
    ensures AllLws(w)
    ensures SkipLws(lws + (value + (lws + tail))) == Trim(value) + (w + tail)
  {
    var lead, trail := LwsPaddedSplit(value);
    var v := Trim(value);
    ValueTextEnds(v);
    w := trail + lws;
    var x := lws + tail;
    ConcatAssoc(lead + v, trail, x);
    ConcatAssoc(lead, v, trail + x);
    ConcatAssoc(lws, lead, v + (trail + x));
    ConcatAssoc(trail, lws, tail);
    assert lws + (value + x) == (lws + lead) + (v + (w + tail));
    AllLwsConcat(lws, lead);
    assert (v + (w + tail))[0] == v[0];
    SkipLwsOver(lws + lead, v + (w + tail));
    AllLwsConcat(trail, lws);
  }

  /** "=", whitespace and a padded value: the trimmed value is stored and the
      parameters go on after the whitespace that follows it. */
  lemma ValueSegment(name: string, lws: string, value: string, tail: string, acc: seq<Parameter>)
    returns (w: string)
    requires AllLws(lws) && LwsPadded(value) && IsValueText(Trim(value))
    requires tail == [] || !IsTokenChar(tail[0])
    ensures AllLws(w)
    ensures ParameterTail(name, "=" + (lws + (value + (lws + tail))), acc)
         == Continue(w + tail, Put(acc, ToLower(name), Trim(value)))
  {
    var r3 := lws + (value + (lws + tail));
    w := PaddedValue(lws, value, tail);
    var r4 := w + tail;
    if w != [] {
      LwsNotToken(w);
      assert r4[0] == w[0];
    } else {
      assert r4 == tail;
    }
    ParseValueOver(Trim(value), r4);
    AssignedValue(name, r3, Trim(value), r4, acc);
  }

  /** "=" then text whose value is read whole: the step goes on after the value. */
  lemma AssignedValue(name: string, r3: string, v: string, rest: string, acc: seq<Parameter>)
    requires ParseValue(SkipLws(r3)) == Success((v, rest))
    ensures ParameterTail(name, "=" + r3, acc) == Continue(rest, Put(acc, ToLower(name), v))
  {
    assert ("=" + r3)[0] == '=' && ("=" + r3)[1..] == r3;
  }

  /** One padded segment "lws ; lws name lws = lws value lws" is one step of the
      parameter loop: it stores the lower-cased name with the trimmed value and
      leaves whitespace w before the tail. */
  lemma SegmentOneStep(lws: string, p: Parameter, tail: string, acc: seq<Parameter>) returns (w: string)
    requires AllLws(lws) && Writable(p)
    requires tail == [] || !IsTokenChar(tail[0])
    ensures AllLws(w)
    ensures ParameterStep(SegmentThen(lws, p, tail), acc)
         == Continue(w + tail, Put(acc, ToLower(p.name), Trim(p.value)))
  {
    var y := "=" + (lws + (p.value + (lws + tail)));
    SegmentHead(lws, p.name, y, acc);
    w := ValueSegment(p.name, lws, p.value, tail, acc);
  }

  /** Whitespace, ';', whitespace, a name and whitespace: the step goes on with
      what follows the name. */
  lemma SegmentHead(lws: string, name: string, y: string, acc: seq<Parameter>)
    requires AllLws(lws) && IsToken(name)
    requires y != [] && y[0] == '='
    ensures ParameterStep(lws + (";" + (lws + (name + (lws + y)))), acc) == ParameterTail(name, y, acc)
  {
    assert !IsLws(y[0]) && !IsTokenChar(y[0]);
    NamedSegment(name, lws, y, acc);
    var x := name + (lws + y);
    AllTokenCharsAt(name, 0);
    TokenCharNotLws(name[0]);
    assert x[0] == name[0];
    OpenSegment(lws, lws, x, acc);
  }

  /** One padded segment "lws ; lws name lws = lws value lws" stores the lower-cased
      name with the trimmed value, then parsing goes on with the text after it. */
  lemma SegmentStep(lws: string, p: Parameter, tail: string, acc: seq<Parameter>)
    requires AllLws(lws) && Writable(p)
    requires tail == [] || !IsTokenChar(tail[0])
    ensures ParseParameters(SegmentThen(lws, p, tail), acc)
         == ParseParameters(tail, Put(acc, ToLower(p.name), Trim(p.value)))
  {
    var w := SegmentOneStep(lws, p, tail, acc);
    LeadingLwsIgnored(w, tail, Put(acc, ToLower(p.name), Trim(p.value)));
  }

  /** The segments text starts with whitespace or ';', never with a token character. */
  lemma SegmentsTextStart(lws: string, ps: seq<Parameter>)
    requires AllLws(lws)
    ensures SegmentsText(lws, ps) == [] || !IsTokenChar(SegmentsText(lws, ps)[0])
  {
    if ps != [] {
      var s := SegmentsText(lws, ps);
      if lws != [] {
        LwsNotToken(lws);
        assert s[0] == lws[0];
      } else {
        assert s[0] == ';';
      }
    }
  }

  /** The parameters written with any linear whitespace around every delimiter are
      stored, in order, with lower-cased names and trimmed values. */
  lemma {:induction false} PaddedParameters(lws: string, ps: seq<Parameter>, acc: seq<Parameter>)
    requires AllLws(lws)
    requires forall p | p in ps :: Writable(p)
    ensures ParseParameters(SegmentsText(lws, ps), acc) == Success(PutAll(acc, StoredAll(ps)))
    decreases |ps|
  {
    if ps == [] {
      assert ParameterStep([], acc) == Stop;
    } else {
      var tail := SegmentsText(lws, ps[1..]);
      SegmentsTextStart(lws, ps[1..]);
      var p := ps[0];
      SegmentStep(lws, p, tail, acc);
      var acc' := Put(acc, ToLower(p.name), Trim(p.value));
      PaddedParameters(lws, ps[1..], acc');
      assert StoredAll(ps)[0] == Stored(p) && StoredAll(ps)[1..] == StoredAll(ps[1..]);
    }
  }

  /** A token followed by whitespace and then text that cannot continue it: the
      token is read whole and what follows the whitespace remains. */
  lemma TokenThenLws(t: string, w: string, x: string)
    requires IsToken(t) && AllLws(w)
    requires x == [] || (!IsLws(x[0]) && !IsTokenChar(x[0]))
    ensures TokenPrefix(t + (w + x)) == t
    ensures SkipLws((t + (w + x))[|t|..]) == x
  {
    if w != [] {
      LwsNotToken(w);
      assert (w + x)[0] == w[0];
    } else {
      assert w + x == x;
    }
    TokenPrefixOver(t, w + x);
    assert (t + (w + x))[|t|..] == w + x;
    SkipLwsOver(w, x);
  }

  /** Whitespace, the type token and whitespace before the '/': the type is read and
      the slash is looked for. */
  lemma TypeThen(w1: string, t: string, w2: string, x: string)
    requires AllLws(w1) && AllLws(w2) && IsToken(t)
    requires x != [] && x[0] == '/'
    ensures Parse(w1 + (t + (w2 + x))) == ReadSlash(t, x)
  {
    AllTokenCharsAt(t, 0);
    assert (t + (w2 + x))[0] == t[0];
    SkipLwsOver(w1, t + (w2 + x));
    TokenThenLws(t, w2, x);
  }

  /** Whitespace, the subtype token, whitespace, then text that cannot continue the
      subtype: the parameters are parsed from that text. */
  lemma SubtypeThen(t: string, w3: string, st: string, w4: string, tail: string)
    requires AllLws(w3) && AllLws(w4) && IsToken(st)
    requires tail == [] || !IsTokenChar(tail[0])
    ensures ReadSubtype(t, SkipLws(w3 + (st + (w4 + tail)))) == WithTypes(t, st, ParseParameters(tail, []))
  {
    AllTokenCharsAt(st, 0);
    assert (st + (w4 + tail))[0] == st[0];
    SkipLwsOver(w3, st + (w4 + tail));
    if w4 != [] {
      LwsNotToken(w4);
      assert (w4 + tail)[0] == w4[0];
    } else {
      assert w4 + tail == tail;
    }
    TokenPrefixOver(st, w4 + tail);
    assert (st + (w4 + tail))[|st|..] == w4 + tail;
    LeadingLwsIgnored(w4, tail, []);
  }

  /** type "/" subtype with whitespace around each, followed by text that cannot
      continue the subtype: the parameters are parsed from that text. */
  lemma TypesThen(w1: string, t: string, w2: string, w3: string, st: string, w4: string, tail: string)
    requires AllLws(w1) && AllLws(w2) && AllLws(w3) && AllLws(w4)
    requires IsToken(t) && IsToken(st)
    requires tail == [] || !IsTokenChar(tail[0])
    ensures Parse(w1 + (t + (w2 + ("/" + (w3 + (st + (w4 + tail)))))))
         == WithTypes(t, st, ParseParameters(tail, []))
  {
    var y := w3 + (st + (w4 + tail));
    TypeThen(w1, t, w2, "/" + y);
    SlashThen(t, y);
    SubtypeThen(t, w3, st, w4, tail);
  }

  lemma SlashThen(t: string, y: string)
    ensures ReadSlash(t, "/" + y) == ReadSubtype(t, SkipLws(y))
  {
    assert ("/" + y)[0] == '/' && ("/" + y)[1..] == y;
  }

  lemma HeaderShape(w1: string, t: string, w2: string, w3: string, st: string, w4: string, tail: string)
    ensures (w1 + t + w2) + "/" + (w3 + st + w4) + tail
         == w1 + (t + (w2 + ("/" + (w3 + (st + (w4 + tail))))))
  {
    var y := w3 + (st + (w4 + tail));
    ConcatAssoc(w3 + st, w4, tail);
    ConcatAssoc(w3, st, w4 + tail);
    assert (w3 + st + w4) + tail == y;
    var typeText := w1 + t + w2;
    ConcatAssoc(typeText, "/", w3 + st + w4);
    ConcatAssoc(typeText, "/" + (w3 + st + w4), tail);
    ConcatAssoc("/", w3 + st + w4, tail);
    assert typeText + "/" + (w3 + st + w4) + tail == typeText + ("/" + y);
    ConcatAssoc(w1 + t, w2, "/" + y);
    ConcatAssoc(w1, t, w2 + ("/" + y));
  }

  /** type "/" subtype, each padded by whitespace, followed by text that cannot
      continue the subtype. */
  lemma PaddedTypes(w1: string, t: string, w2: string, w3: string, st: string, w4: string, tail: string)
    requires AllLws(w1) && AllLws(w2) && AllLws(w3) && AllLws(w4)
    requires IsToken(t) && IsToken(st)
    requires tail == [] || !IsTokenChar(tail[0])
    ensures Parse((w1 + t + w2) + "/" + (w3 + st + w4) + tail) == WithTypes(t, st, ParseParameters(tail, []))
  {
    HeaderShape(w1, t, w2, w3, st, w4, tail);
    TypesThen(w1, t, w2, w3, st, w4, tail);
  }

  /** Whatever linear whitespace pads the type, the subtype and every parameter
      delimiter, the parse yields the unpadded type and subtype and every parameter,
      in order, under its lower-cased name with its trimmed value. */
  lemma PaddingIgnored(w1: string, t: string, w2: string, w3: string, st: string, w4: string,
                       lws: string, ps: seq<Parameter>)
    requires AllLws(w1) && AllLws(w2) && AllLws(w3) && AllLws(w4) && AllLws(lws)
    requires IsToken(t) && IsToken(st)
    requires forall p | p in ps :: Writable(p)
    requires UniqueNames(StoredAll(ps))
    ensures Parse((w1 + t + w2) + "/" + (w3 + st + w4) + SegmentsText(lws, ps))
         == Success(MediaType(t, st, StoredAll(ps)))
  {
    SegmentsTextStart(lws, ps);
    PaddedTypes(w1, t, w2, w3, st, w4, SegmentsText(lws, ps));
    PaddedSegments(lws, ps);
  }

  /** Padded segments with distinct stored names are read back in order. */
  lemma PaddedSegments(lws: string, ps: seq<Parameter>)
    requires AllLws(lws)
    requires forall p | p in ps :: Writable(p)
    requires UniqueNames(StoredAll(ps))
    ensures ParseParameters(SegmentsText(lws, ps), []) == Success(StoredAll(ps))
  {
    PaddedParameters(lws, ps, []);
    assert [] + StoredAll(ps) == StoredAll(ps);
    PutAllFresh([], StoredAll(ps));
  }

  /** An empty segment (';' followed by another ';' or the end, whitespace allowed
      around it) adds no parameter. */
  lemma EmptySegmentIgnored(w1: string, w2: string, rest: string, acc: seq<Parameter>)
    requires AllLws(w1) && AllLws(w2)
    requires rest == [] || rest[0] == ';'
    ensures ParseParameters(w1 + (";" + (w2 + rest)), acc) == ParseParameters(rest, acc)
  {
    OpenSegment(w1, w2, rest, acc);
  }

  /** A name with no "=" after it (a bare token such as the charset name written
      without "charset=") is stored under its lower-cased name with the empty
      value. */
  lemma BareNameStored(w1: string, w2: string, name: string, w3: string, rest: string, acc: seq<Parameter>)
    requires AllLws(w1) && AllLws(w2) && AllLws(w3) && IsToken(name)
    requires rest == [] || rest[0] == ';'
    ensures ParseParameters(w1 + (";" + (w2 + (name + (w3 + rest)))), acc)
         == ParseParameters(rest, Put(acc, ToLower(name), ""))
  {
    BareStep(w1, w2, name, w3, rest, acc);
    StepContinues(w1 + (";" + (w2 + (name + (w3 + rest)))), acc, rest, Put(acc, ToLower(name), ""));
  }

  lemma BareStep(w1: string, w2: string, name: string, w3: string, rest: string, acc: seq<Parameter>)
    requires AllLws(w1) && AllLws(w2) && AllLws(w3) && IsToken(name)
    requires rest == [] || rest[0] == ';'
    ensures ParameterStep(w1 + (";" + (w2 + (name + (w3 + rest)))), acc)
         == Continue(rest, Put(acc, ToLower(name), ""))
  {
    AllTokenCharsAt(name, 0);
    assert (name + (w3 + rest))[0] == name[0];
    OpenSegment(w1, w2, name + (w3 + rest), acc);
    NamedSegment(name, w3, rest, acc);
  }

  // ---------------------------------------------------------------------------
  // Serialising and parsing again

  /** A parameter as the parser stores it and toString writes it. */
  predicate Canonical(p: Parameter) {
    IsToken(p.name) && ToLower(p.name) == p.name && IsValueText(p.value)
  }

  /** A stored parameter is written without padding and read back unchanged. */
  lemma CanonicalWritable(p: Parameter)
    requires Canonical(p)
    ensures Writable(p) && Stored(p) == p
  {
    ValueTextEnds(p.value);
    TrimPadded("", p.value, "");
    assert "" + p.value + "" == p.value;
  }

  lemma {:induction false} CanonicalStored(ps: seq<Parameter>)
    requires forall p | p in ps :: Canonical(p)
    ensures StoredAll(ps) == ps
    decreases |ps|
  {
    if ps != [] {
      var p := ps[0];
      assert p in ps;
      CanonicalWritable(p);
      var rest := ps[1..];
      assert forall q | q in rest :: q in ps;
      CanonicalStored(rest);
      ConsSplit(ps);
    }
  }

  lemma ConsSplit(ps: seq<Parameter>)
    requires ps != []
    ensures ps == [ps[0]] + ps[1..]
  {
  }

  /** The parameters toString writes are canonical and distinct. */
  lemma VisibleCanonical(ps: seq<Parameter>, dropCharset: bool)
    requires WellFormedParameters(ps)
    ensures forall p | p in Visible(ps, dropCharset) :: Canonical(p)
    ensures UniqueNames(Visible(ps, dropCharset))
  {
    VisibleUnique(ps, dropCharset);
  }

  /** A token or quoted-string needs no trimming. */
  lemma ValueTextTrimmed(t: string)
    requires IsValueText(t)
    ensures LwsPadded(t) && Trim(t) == t
  {
    ValueTextEnds(t);
    TrimPadded("", t, "");
    assert "" + t + "" == t;
  }

  /** Parsing what toString or toStringNoCharset wrote gives the media type back
      with the parameters that were written: those with a value, and without the
      charset for toStringNoCharset. */
  lemma SerializedRoundTrip(m: MediaType, dropCharset: bool)
    requires WellFormed(m)
    ensures Parse(m.primaryType + "/" + m.subtype + Serialized(m.parameters, dropCharset))
         == Success(MediaType(m.primaryType, m.subtype, Visible(m.parameters, dropCharset)))
  {
    var v := Visible(m.parameters, dropCharset);
    var t, st := m.primaryType, m.subtype;
    assert t + "/" + st + Serialized(m.parameters, dropCharset)
        == ("" + t + "") + "/" + ("" + st + "") + SegmentsText("", v) by {
      SerializedSegments(m.parameters, dropCharset);
      assert "" + t + "" == t && "" + st + "" == st;
    }
    VisibleWritable(m.parameters, dropCharset);
    PaddingIgnored("", t, "", "", st, "", "", v);
  }

  /** The parameters toString writes are read back as they are. */
  lemma VisibleWritable(ps: seq<Parameter>, dropCharset: bool)
    requires WellFormedParameters(ps)
    ensures forall p | p in Visible(ps, dropCharset) :: Writable(p)
    ensures StoredAll(Visible(ps, dropCharset)) == Visible(ps, dropCharset)
    ensures UniqueNames(StoredAll(Visible(ps, dropCharset)))
  {
    var v := Visible(ps, dropCharset);
    VisibleCanonical(ps, dropCharset);
    CanonicalStored(v);
    forall p | p in v
      ensures Writable(p)
    {
      CanonicalWritable(p);
    }
  }

  /** toString of a parsed media type parses back to the same type, subtype and
      written parameters. */
  lemma ToStringRoundTrip(m: MediaType)
    requires WellFormed(m)
    ensures Parse(ToString(m)) == Success(MediaType(m.primaryType, m.subtype, Visible(m.parameters, false)))
  {
    SerializedRoundTrip(m, false);
  }

  /** toStringNoCharset parses back to the same type, subtype and written parameters,
      with no charset among them. */
  lemma ToStringNoCharsetRoundTrip(m: MediaType)
    requires WellFormed(m)
    ensures Parse(ToStringNoCharset(m)) == Success(MediaType(m.primaryType, m.subtype, Visible(m.parameters, true)))
    ensures Charset(Parse(ToStringNoCharset(m)).value).None?
  {
    SerializedRoundTrip(m, true);
    NoCharsetIsWithoutCharset(m.parameters);
    CharsetPresence(MediaType(m.primaryType, m.subtype, Visible(m.parameters, true)));
  }

  // ---------------------------------------------------------------------------
  // Where a parse fails

  /** A character that neither continues linear whitespace nor a token. */
  predicate Delimits(c: char) {
    !IsLws(c) && !IsTokenChar(c)
  }

  /** A value fails exactly when a quote is never closed, or when no quote and no
      token character starts it. */
  lemma ParseValueFails(s: string)
    ensures ParseValue(s).Failure? <==>
      if s != [] && s[0] == '"' then QuotedPrefix(s).None? else s == [] || !IsTokenChar(s[0])
  {
    if !(s != [] && s[0] == '"') && s != [] && IsTokenChar(s[0]) {
      assert TokenPrefix(s) != [];
    }
  }

  /** Nothing but whitespace before the end or a delimiter: the type is missing. */
  lemma MissingTypeFails(w: string, r: string)
    requires AllLws(w)
    requires r == [] || Delimits(r[0])
    ensures Parse(w + r) == Failure(MissingType)
  {
    SkipLwsOver(w, r);
  }

  /** A type followed by the end or by a delimiter other than '/': the slash is
      missing. */
  lemma MissingSlashFails(w1: string, t: string, w2: string, r: string)
    requires AllLws(w1) && AllLws(w2) && IsToken(t)
    requires r == [] || (Delimits(r[0]) && r[0] != '/')
    ensures Parse(w1 + (t + (w2 + r))) == Failure(MissingSlash)
  {
    AllTokenCharsAt(t, 0);
    assert (t + (w2 + r))[0] == t[0];
    SkipLwsOver(w1, t + (w2 + r));
    TokenThenLws(t, w2, r);
  }

  /** A '/' followed by the end or by a delimiter: the subtype is missing. */
  lemma MissingSubtypeFails(w1: string, t: string, w2: string, w3: string, r: string)
    requires AllLws(w1) && AllLws(w2) && AllLws(w3) && IsToken(t)
    requires r == [] || Delimits(r[0])
    ensures Parse(w1 + (t + (w2 + ("/" + (w3 + r))))) == Failure(MissingSubtype)
  {
    TypeThen(w1, t, w2, "/" + (w3 + r));
    SlashThen(t, w3 + r);
    SkipLwsOver(w3, r);
  }

  /** A segment that starts with a delimiter other than ';' has no name. */
  lemma InvalidNameFails(w1: string, w2: string, r: string, acc: seq<Parameter>)
    requires AllLws(w1) && AllLws(w2)
    requires r != [] && Delimits(r[0]) && r[0] != ';'
    ensures ParseParameters(w1 + (";" + (w2 + r)), acc) == Failure(InvalidParameterName)
  {
    OpenSegment(w1, w2, r, acc);
  }

  /** A '=' followed by the end or by a delimiter other than a quote has no value. */
  lemma MissingValueFails(lws: string, name: string, r: string, acc: seq<Parameter>)
    requires AllLws(lws) && IsToken(name)
    requires r == [] || (Delimits(r[0]) && r[0] != '"')
    ensures ParseParameters(lws + (";" + (lws + (name + (lws + ("=" + (lws + r)))))), acc)
         == Failure(InvalidParameterValue)
  {
    SegmentHead(lws, name, "=" + (lws + r), acc);
    assert ("=" + (lws + r))[1..] == lws + r;
    SkipLwsOver(lws, r);
    ParseValueFails(r);
  }

  /** A quoted value whose closing quote never comes fails, whatever was read
      before. */
  lemma UnterminatedQuoteFails(lws: string, name: string, b: string, acc: seq<Parameter>)
    requires AllLws(lws) && IsToken(name)
    requires ClosingQuote(b).None?
    ensures ParseParameters(lws + (";" + (lws + (name + (lws + ("=" + (lws + ("\"" + b))))))), acc)
         == Failure(UnterminatedQuote)
  {
    var q := "\"" + b;
    SegmentHead(lws, name, "=" + (lws + q), acc);
    assert ("=" + (lws + q))[1..] == lws + q;
    SkipLwsOver(lws, q);
    assert q[0] == '"' && q[1..] == b;
  }

  /** A failure in the parameters is the failure of the whole parse. */
  lemma ParameterFailureFails(w1: string, t: string, w2: string, w3: string, st: string, w4: string,
                              tail: string, e: ParseError)
    requires AllLws(w1) && AllLws(w2) && AllLws(w3) && AllLws(w4)
    requires IsToken(t) && IsToken(st)
    requires tail == [] || !IsTokenChar(tail[0])
    requires ParseParameters(tail, []) == Failure(e)
    ensures Parse(w1 + (t + (w2 + ("/" + (w3 + (st + (w4 + tail))))))) == Failure(e)
  {
    TypesThen(w1, t, w2, w3, st, w4, tail);
  }

  // ---------------------------------------------------------------------------
  // The parser over a StringReader

  /** Reads a parameter value at the reader's position: a quoted-string when the next
      character is a quote, a token otherwise. On failure nothing is consumed. */
  method ReadValue(reader: Reader.StringReader) returns (r: Result<string, ParseError>)
    requires reader.Valid()
    modifies reader`pos
    ensures reader.Valid()
    ensures r.Failure? <==> ParseValue(old(reader.input[reader.pos..])).Failure?
    ensures r.Failure? ==> r.error == ParseValue(old(reader.input[reader.pos..])).error
    ensures r.Failure? ==> reader.pos == old(reader.pos)
    ensures r.Success? ==> (r.value == ParseValue(old(reader.input[reader.pos..])).value.0 &&
                            reader.input[reader.pos..] == ParseValue(old(reader.input[reader.pos..])).value.1)
  {
    var c := reader.Peek();
    if c == Some('"') {
      var q := reader.ReadQuotedString();
      if q.None? {
        return Failure(UnterminatedQuote);
      }
      return Success(q.value);
    }
    var t := reader.ReadToken();
    if t == [] {
      return Failure(InvalidParameterValue);
    }
    return Success(t);
  }

  /** One turn of the parameter loop on the reader; a step that continues leaves the
      reader just before the text it continues with. */
  method ReadParameterStep(reader: Reader.StringReader, acc: seq<Parameter>) returns (step: Step)
    requires reader.Valid()
    modifies reader`pos
    ensures reader.Valid()
    ensures step == ParameterStep(old(reader.input[reader.pos..]), acc)
    ensures step.Continue? ==> reader.input[reader.pos..] == step.rest
  {
    reader.SkipLws();
    ghost var s1 := reader.input[reader.pos..];
    var c := reader.Peek();
    if c != Some(';') {
      return Stop;
    }
    reader.Advance();
    reader.SkipLws();
    assert reader.input[reader.pos..] == SkipLws(s1[1..]);
    step := ReadSegmentBody(reader, acc);
  }

  /** After ';' and whitespace: an empty segment, or a parameter name. */
  method ReadSegmentBody(reader: Reader.StringReader, acc: seq<Parameter>) returns (step: Step)
    requires reader.Valid()
    modifies reader`pos
    ensures reader.Valid()
    ensures step == SegmentBody(old(reader.input[reader.pos..]), acc)
    ensures step.Continue? ==> reader.input[reader.pos..] == step.rest
  {
    ghost var s2 := reader.input[reader.pos..];
    var c := reader.Peek();
    if c.None? || c == Some(';') {
      return Continue(reader.input[reader.pos..], acc);
    }
    var name := reader.ReadToken();
    if name == [] {
      return Fail(InvalidParameterName);
    }
    reader.SkipLws();
    assert reader.input[reader.pos..] == SkipLws(s2[|name|..]);
    step := ReadParameterTail(reader, name, acc);
  }

  /** After the name and whitespace: "=" and a value, or nothing for a bare name. */
  method ReadParameterTail(reader: Reader.StringReader, name: string, acc: seq<Parameter>) returns (step: Step)
    requires reader.Valid()
    modifies reader`pos
    ensures reader.Valid()
    ensures step == ParameterTail(name, old(reader.input[reader.pos..]), acc)
    ensures step.Continue? ==> reader.input[reader.pos..] == step.rest
  {
    var c := reader.Peek();
    if c != Some('=') {
      return Continue(reader.input[reader.pos..], Put(acc, ToLower(name), ""));
    }
    step := ReadAssignment(reader, name, acc);
  }

  /** The "=" and the value after it. */
  method ReadAssignment(reader: Reader.StringReader, name: string, acc: seq<Parameter>) returns (step: Step)
    requires reader.Valid() && reader.pos < |reader.input| && reader.input[reader.pos] == '='
    modifies reader`pos
    ensures reader.Valid()
    ensures step == ParameterTail(name, old(reader.input[reader.pos..]), acc)
    ensures step.Continue? ==> reader.input[reader.pos..] == step.rest
  {
    ghost var s3 := reader.input[reader.pos..];
    reader.Advance();
    reader.SkipLws();
    assert reader.input[reader.pos..] == SkipLws(s3[1..]);
    var value := ReadValue(reader);
    if value.Failure? {
      return Fail(value.error);
    }
    return Continue(reader.input[reader.pos..], Put(acc, ToLower(name), value.value));
  }

  /** The parameter loop on the reader. */
  method ReadParameters(reader: Reader.StringReader) returns (r: Result<seq<Parameter>, ParseError>)
    requires reader.Valid()
    modifies reader`pos
    ensures r == ParseParameters(old(reader.input[reader.pos..]), [])
  {
    ghost var rest := reader.input[reader.pos..];
    var params: seq<Parameter> := [];
    while true
      invariant reader.Valid()
      invariant ParseParameters(reader.input[reader.pos..], params) == ParseParameters(rest, [])
      decreases |reader.input| - reader.pos
    {
      var step := ReadParameterStep(reader, params);
      match step
      case Stop =>
        return Success(params);
      case Fail(e) =>
        return Failure(e);
      case Continue(_, ps) =>
        params := ps;
    }
  }

  /** MediaType.parseMediaType: reads type, '/', subtype and then the parameters from
      a reader over the header value. */
  method ParseMediaType(input: string) returns (r: Result<MediaType, ParseError>)
    ensures r == Parse(input)
  {
    var reader := new Reader.StringReader(input);
    assert reader.input[reader.pos..] == input;
    reader.SkipLws();
    ghost var s0 := reader.input[reader.pos..];
    var t := reader.ReadToken();
    if t == [] {
      return Failure(MissingType);
    }
    reader.SkipLws();
    ghost var s1 := reader.input[reader.pos..];
    assert Parse(input) == ReadSlash(t, s1);
    var c := reader.Peek();
    if c != Some('/') {
      return Failure(MissingSlash);
    }
    reader.Advance();
    reader.SkipLws();
    ghost var s2 := reader.input[reader.pos..];
    assert Parse(input) == ReadSubtype(t, s2);
    var st := reader.ReadToken();
    if st == [] {
      return Failure(MissingSubtype);
    }
    var params := ReadParameters(reader);
    return WithTypes(t, st, params);
  }
}
