/** The expectations of TestMediaType: the padded inputs that doTest builds for every
    linear-whitespace variant, and the concrete header values of the bug reports. */
module TestMediaType {
  import opened Wrappers
  import opened HttpParser
  import opened MediaTypes
  import opened MediaTypeParser

  // Type and subtype with whitespace around them, which the parser must skip.
  const TypeText := " " + "foo" + " "
  const SubtypeText := " " + "bar" + " "
  const Types := TypeText + "/" + SubtypeText

  const ParamToken := Parameter("a", "b")
  // quoted values, written as the quotes around their bodies
  const EscapedBody := "w\\\"w"
  const ParamEscaped := Parameter("v", "\"" + EscapedBody + "\"")
  const ParamQuoted := Parameter("x", "\"" + "y" + "\"")
  const ParamEmptyQuoted := Parameter("z", "\"" + "" + "\"")
  const ComplexBody := "foo'bar" + ",a=b;x=y"
  const ParamComplexQuoted := Parameter("w", "\"" + ComplexBody + "\"")

  const Charset8 := "UTF-8"
  const WsCharset := " \t" + Charset8
  const CharsetWs := Charset8 + " \t"
  // quoted, so the whitespace at its end is part of the charset
  const CharsetQuoted := "\"" + CharsetWs + "\""
  const ParamCharset := Parameter("charset", Charset8)
  const ParamWsCharset := Parameter("charset", WsCharset)
  const ParamCharsetWs := Parameter("charset", CharsetWs)
  const ParamCharsetQuoted := Parameter("charset", CharsetQuoted)

  const LwsValues: seq<string> := [
    "", " ", "\t", "\r", "\n", "\r\n", " \r", " \n", " \r\n",
    "\r ", "\n ", "\r\n ", " \r ", " \n ", " \r\n "]

  lemma LwsValuesAreLws()
    ensures forall lws | lws in LwsValues :: AllLws(lws)
  {
  }

  /** A token with one space on either side is padded by linear whitespace. */
  lemma SpacePadded(t: string)
    requires IsToken(t)
    ensures LwsPadded(" " + t + " ") && Trim(" " + t + " ") == t
  {
    ValueTextEnds(t);
    TrimPadded(" ", t, " ");
  }

  lemma FooBar()
    ensures IsToken("foo") && IsToken("bar")
  {
    AllTokenCharsEach("foo");
    AllTokenCharsEach("bar");
  }

  /** The type and subtype doTest expects are the trimmed TYPE and SUBTYPE texts. */
  lemma TypesTrimmed()
    ensures Trim(TypeText) == "foo" && Trim(SubtypeText) == "bar"
  {
    FooBar();
    SpacePadded("foo");
    SpacePadded("bar");
  }

  // ---------------------------------------------------------------------------
  // Building the input

  /** Parameter.toString(lws): the segment with lws around every delimiter. */
  function ParameterText(lws: string, p: Parameter): string {
    lws + ";" + lws + p.name + lws + "=" + lws + p.value + lws
  }

  /** Appending a parameter's text and then the rest is the segment followed by the
      rest. */
  lemma ParameterTextThen(lws: string, p: Parameter, tail: string)
    ensures ParameterText(lws, p) + tail == SegmentThen(lws, p, tail)
  {
    var a := lws + ";" + lws + p.name + lws + "=" + lws + p.value;
    ConcatAssoc(a, lws, tail);
    var b := lws + ";" + lws + p.name + lws + "=" + lws;
    ConcatAssoc(b, p.value, lws + tail);
    var c := lws + ";" + lws + p.name + lws + "=";
    ConcatAssoc(c, lws, p.value + (lws + tail));
    var d := lws + ";" + lws + p.name + lws;
    ConcatAssoc(d, "=", lws + (p.value + (lws + tail)));
    var e := lws + ";" + lws + p.name;
    ConcatAssoc(e, lws, "=" + (lws + (p.value + (lws + tail))));
    var f := lws + ";" + lws;
    ConcatAssoc(f, p.name, lws + ("=" + (lws + (p.value + (lws + tail)))));
    ConcatAssoc(lws + ";", lws, p.name + (lws + ("=" + (lws + (p.value + (lws + tail))))));
    ConcatAssoc(lws, ";", lws + (p.name + (lws + ("=" + (lws + (p.value + (lws + tail)))))));
  }

  lemma SegmentsFrom(lws: string, ps: seq<Parameter>, i: nat)
    requires i < |ps|
    ensures SegmentsText(lws, ps[i..]) == ParameterText(lws, ps[i]) + SegmentsText(lws, ps[i + 1..])
  {
    assert ps[i..][1..] == ps[i + 1..];
    ParameterTextThen(lws, ps[i], SegmentsText(lws, ps[i + 1..]));
  }

  /** doTest's StringBuilder: the types followed by every parameter's text. */
  method BuildInput(types: string, lws: string, ps: seq<Parameter>) returns (s: string)
    ensures s == types + SegmentsText(lws, ps)
  {
    s := types;
    var i := 0;
    while i < |ps|
      invariant 0 <= i <= |ps|
      invariant s + SegmentsText(lws, ps[i..]) == types + SegmentsText(lws, ps)
    {
      SegmentsFrom(lws, ps, i);
      ConcatAssoc(s, ParameterText(lws, ps[i]), SegmentsText(lws, ps[i + 1..]));
      s := s + ParameterText(lws, ps[i]);
      i := i + 1;
    }
    assert ps[i..] == [];
  }

  // ---------------------------------------------------------------------------
  // doTest

  /** What doTest asserts about the input built with lws: the parse succeeds, with one
      parameter per parameter written, the trimmed type and subtype, and every
      parameter's trimmed value under its trimmed name. */
  predicate DoTestPasses(lws: string, ps: seq<Parameter>) {
    var r := Parse(Types + SegmentsText(lws, ps));
    r.Success? && ParameterCount(r.value) == |ps| &&
    r.value.primaryType == "foo" && r.value.subtype == "bar" &&
    forall p | p in ps :: ParameterValue(r.value, Trim(p.name)) == Some(Trim(p.value))
  }

  lemma StoredAllLength(ps: seq<Parameter>)
    ensures |StoredAll(ps)| == |ps|
  {
  }

  lemma {:induction false} StoredIn(ps: seq<Parameter>, p: Parameter)
    requires p in ps
    ensures Stored(p) in StoredAll(ps)
    decreases |ps|
  {
    if ps[0] != p {
      assert p in ps[1..];
      StoredIn(ps[1..], p);
    }
  }

  /** doTest passes for any whitespace and any written parameters with distinct names. */
  lemma DoTestHolds(lws: string, ps: seq<Parameter>)
    requires AllLws(lws)
    requires forall p | p in ps :: Writable(p)
    requires UniqueNames(StoredAll(ps))
    ensures DoTestPasses(lws, ps)
  {
    TypesParsed(lws, ps);
    StoredAllLength(ps);
    StoredLookups(ps);
  }

  /** The padded TYPE and SUBTYPE followed by the segments. */
  lemma TypesParsed(lws: string, ps: seq<Parameter>)
    requires AllLws(lws)
    requires forall p | p in ps :: Writable(p)
    requires UniqueNames(StoredAll(ps))
    ensures Parse(Types + SegmentsText(lws, ps)) == Success(MediaType("foo", "bar", StoredAll(ps)))
  {
    assert AllLws(" ");
    FooBar();
    PaddingIgnored(" ", "foo", " ", " ", "bar", " ", lws, ps);
  }

  /** Every written parameter is found under its trimmed name with its trimmed value. */
  lemma StoredLookups(ps: seq<Parameter>)
    requires forall p | p in ps :: Writable(p)
    requires UniqueNames(StoredAll(ps))
    ensures forall p | p in ps ::
      ParameterValue(MediaType("foo", "bar", StoredAll(ps)), Trim(p.name)) == Some(Trim(p.value))
  {
    forall p | p in ps
      ensures ParameterValue(MediaType("foo", "bar", StoredAll(ps)), Trim(p.name)) == Some(Trim(p.value))
    {
      ValueTextTrimmed(p.name);
      StoredIn(ps, p);
      LookupUnique(StoredAll(ps), Stored(p));
    }
  }

  /** doTest(lws, parameters): builds the input, parses it and checks the result. */
  method DoTest(lws: string, ps: seq<Parameter>) returns (m: MediaType)
    requires AllLws(lws)
    requires forall p | p in ps :: Writable(p)
    requires UniqueNames(StoredAll(ps))
    ensures Parse(Types + SegmentsText(lws, ps)) == Success(m) && DoTestPasses(lws, ps)
    ensures ParameterCount(m) == |ps| && m.primaryType == "foo" && m.subtype == "bar"
    ensures forall p | p in ps :: ParameterValue(m, Trim(p.name)) == Some(Trim(p.value))
  {
    var input := BuildInput(Types, lws, ps);
    var r := ParseMediaType(input);
    DoTestHolds(lws, ps);
    m := r.value;
  }

  /** doTest(parameters): doTest with every whitespace variant in values (the test
      passes LWS_VALUES, see LwsValuesAreLws). */
  method DoTestAll(values: seq<string>, ps: seq<Parameter>)
    requires forall lws | lws in values :: AllLws(lws)
    requires forall p | p in ps :: Writable(p)
    requires UniqueNames(StoredAll(ps))
    ensures forall lws | lws in values :: DoTestPasses(lws, ps)
  {
    var i := 0;
    while i < |values|
      invariant 0 <= i <= |values|
      invariant forall j | 0 <= j < i :: DoTestPasses(values[j], ps)
    {
      var m := DoTest(values[i], ps);
      assert forall j | 0 <= j < i + 1 :: DoTestPasses(values[j], ps) by {
        forall j | 0 <= j < i + 1 ensures DoTestPasses(values[j], ps) {
          if j == i {
          }
        }
      }
      i := i + 1;
    }
  }

  // ---------------------------------------------------------------------------
  // The parameters the tests write

  /** A token or quoted-string value, with the token name, is written and read back. */
  lemma ValueWritable(p: Parameter)
    requires IsToken(p.name) && IsValueText(p.value)
    ensures Writable(p) && Trim(p.value) == p.value
  {
    ValueTextTrimmed(p.value);
  }

  /** A quoted value, with a token name, is written and read back. */
  lemma QuotedValueWritable(name: string, body: string)
    requires IsToken(name) && QuotedBody(body)
    ensures Writable(Parameter(name, "\"" + body + "\""))
    ensures Trim("\"" + body + "\"") == "\"" + body + "\""
  {
    QuotedOf(body);
    ValueWritable(Parameter(name, "\"" + body + "\""));
  }

  lemma TokenWritable()
    ensures Writable(ParamToken)
  {
    AllTokenCharsEach("a");
    AllTokenCharsEach("b");
    ValueWritable(ParamToken);
  }

  lemma EscapedWritable()
    ensures Writable(ParamEscaped)
  {
    AllTokenCharsEach("v");
    assert QuotedBody(EscapedBody);
    QuotedValueWritable("v", EscapedBody);
  }

  lemma QuotedWritable()
    ensures Writable(ParamQuoted)
  {
    AllTokenCharsEach("x");
    QuotedBodyPlain("y");
    QuotedValueWritable("x", "y");
  }

  lemma EmptyQuotedWritable()
    ensures Writable(ParamEmptyQuoted)
  {
    AllTokenCharsEach("z");
    QuotedValueWritable("z", "");
  }

  lemma ComplexBodyQuoted()
    ensures QuotedBody(ComplexBody)
  {
    QuotedBodyPlain(ComplexBody);
  }

  lemma ComplexWritable()
    ensures Writable(ParamComplexQuoted)
  {
    AllTokenCharsEach("w");
    ComplexBodyQuoted();
    QuotedValueWritable("w", ComplexBody);
  }

  /** The charset parameter's name is a lower-case token. */
  lemma CharsetName()
    ensures IsToken("charset") && ToLower("charset") == "charset"
  {
    AllTokenCharsEach("charset");
    CharsetKeyLower();
  }

  lemma Utf8Token()
    ensures IsToken(Charset8)
  {
    AllTokenCharsEach(Charset8);
  }

  lemma CharsetWritable()
    ensures Writable(ParamCharset)
  {
    CharsetName();
    Utf8Token();
    ValueWritable(ParamCharset);
  }

  /** " \tUTF-8" and "UTF-8 \t" are written and read back as "UTF-8". */
  lemma PaddedCharset(w1: string, w2: string)
    requires AllLws(w1) && AllLws(w2)
    ensures Writable(Parameter("charset", w1 + Charset8 + w2))
    ensures Trim(w1 + Charset8 + w2) == Charset8
  {
    CharsetName();
    Utf8Token();
    ValueTextEnds(Charset8);
    TrimPadded(w1, Charset8, w2);
  }

  lemma WsCharsetWritable()
    ensures Writable(ParamWsCharset) && Trim(WsCharset) == Charset8
  {
    assert AllLws(" \t") && AllLws("");
    assert WsCharset == " \t" + Charset8 + "";
    PaddedCharset(" \t", "");
  }

  lemma CharsetWsWritable()
    ensures Writable(ParamCharsetWs) && Trim(CharsetWs) == Charset8
  {
    assert AllLws(" \t") && AllLws("");
    assert CharsetWs == "" + Charset8 + " \t";
    PaddedCharset("", " \t");
  }

  lemma CharsetQuotedWritable()
    ensures Writable(ParamCharsetQuoted) && Trim(CharsetQuoted) == CharsetQuoted
  {
    CharsetName();
    QuotedBodyPlain(CharsetWs);
    QuotedValueWritable("charset", CharsetWs);
  }

  // ---------------------------------------------------------------------------
  // The doTest cases

  method TestSimple()
    ensures forall lws | lws in LwsValues :: DoTestPasses(lws, [])
  {
    LwsValuesAreLws();
    DoTestAll(LwsValues, []);
  }

  /** doTest(parameter) for a single written parameter. */
  method DoTestOne(p: Parameter)
    requires Writable(p)
    ensures forall lws | lws in LwsValues :: DoTestPasses(lws, [p])
  {
    LwsValuesAreLws();
    DoTestAll(LwsValues, [p]);
  }

  method TestSimpleWithToken()
    ensures forall lws | lws in LwsValues :: DoTestPasses(lws, [ParamToken])
  {
    TokenWritable();
    DoTestOne(ParamToken);
  }

  method TestSimpleWithEscapedString()
    ensures forall lws | lws in LwsValues :: DoTestPasses(lws, [ParamEscaped])
  {
    EscapedWritable();
    DoTestOne(ParamEscaped);
  }

  method TestSimpleWithQuotedString()
    ensures forall lws | lws in LwsValues :: DoTestPasses(lws, [ParamQuoted])
  {
    QuotedWritable();
    DoTestOne(ParamQuoted);
  }

  method TestSimpleWithEmptyQuotedString()
    ensures forall lws | lws in LwsValues :: DoTestPasses(lws, [ParamEmptyQuoted])
  {
    EmptyQuotedWritable();
    DoTestOne(ParamEmptyQuoted);
  }

  method TestSimpleWithComplexQuotedString()
    ensures forall lws | lws in LwsValues :: DoTestPasses(lws, [ParamComplexQuoted])
  {
    ComplexWritable();
    DoTestOne(ParamComplexQuoted);
  }

  method TestSimpleWithCharset()
    ensures forall lws | lws in LwsValues :: DoTestPasses(lws, [ParamCharset])
  {
    CharsetWritable();
    DoTestOne(ParamCharset);
  }

  method TestSimpleWithCharsetWhitespaceBefore()
    ensures forall lws | lws in LwsValues :: DoTestPasses(lws, [ParamWsCharset])
  {
    WsCharsetWritable();
    DoTestOne(ParamWsCharset);
  }

  method TestSimpleWithCharsetWhitespaceAfter()
    ensures forall lws | lws in LwsValues :: DoTestPasses(lws, [ParamCharsetWs])
  {
    CharsetWsWritable();
    DoTestOne(ParamCharsetWs);
  }

  method TestSimpleWithCharsetQuoted()
    ensures forall lws | lws in LwsValues :: DoTestPasses(lws, [ParamCharsetQuoted])
  {
    CharsetQuotedWritable();
    DoTestOne(ParamCharsetQuoted);
  }

  const AllParams := [ParamComplexQuoted, ParamEmptyQuoted, ParamQuoted, ParamToken, ParamCharset]

  lemma {:induction false} StoredAllAt(ps: seq<Parameter>, i: nat)
    requires i < |ps|
    ensures |StoredAll(ps)| == |ps| && StoredAll(ps)[i] == Stored(ps[i])
    decreases |ps|
  {
    StoredAllLength(ps);
    var rest := StoredAll(ps[1..]);
    assert StoredAll(ps) == [Stored(ps[0])] + rest;
    if i > 0 {
      StoredAllAt(ps[1..], i - 1);
      assert ps[1..][i - 1] == ps[i];
      assert ([Stored(ps[0])] + rest)[i] == rest[i - 1];
    }
  }

  /** Names that stay distinct once lower-cased are stored under distinct names. */
  lemma StoredUnique(ps: seq<Parameter>)
    requires forall i, j | 0 <= i < j < |ps| :: ToLower(ps[i].name) != ToLower(ps[j].name)
    ensures UniqueNames(StoredAll(ps))
  {
    StoredAllLength(ps);
    forall i, j | 0 <= i < j < |ps|
      ensures StoredAll(ps)[i].name != StoredAll(ps)[j].name
    {
      StoredAllAt(ps, i);
      StoredAllAt(ps, j);
    }
  }

  /** The five names of testSimpleWithAll are already in lower case. */
  lemma AllParamsLower()
    ensures ToLower("w") == "w" && ToLower("z") == "z" && ToLower("x") == "x"
    ensures ToLower("a") == "a" && ToLower("charset") == "charset"
  {
    ToLowerUnchanged("w");
    ToLowerUnchanged("z");
    ToLowerUnchanged("x");
    ToLowerUnchanged("a");
    CharsetKeyLower();
  }

  /** The five parameters of testSimpleWithAll have distinct names. */
  lemma FiveUnique(a: Parameter, b: Parameter, c: Parameter, d: Parameter, e: Parameter)
    requires ToLower(a.name) == "w" && ToLower(b.name) == "z" && ToLower(c.name) == "x"
    requires ToLower(d.name) == "a" && ToLower(e.name) == "charset"
    ensures UniqueNames(StoredAll([a, b, c, d, e]))
  {
    var names := [a, b, c, d, e];
    var lower := ["w", "z", "x", "a", "charset"];
    assert forall i | 0 <= i < 5 :: ToLower(names[i].name) == lower[i];
    assert forall i, j | 0 <= i < j < 5 :: lower[i] != lower[j];
    StoredUnique(names);
  }

  lemma AllParamsUnique()
    ensures UniqueNames(StoredAll(AllParams))
  {
    AllParamsLower();
    FiveUnique(ParamComplexQuoted, ParamEmptyQuoted, ParamQuoted, ParamToken, ParamCharset);
  }

  lemma FiveWritable(a: Parameter, b: Parameter, c: Parameter, d: Parameter, e: Parameter)
    requires Writable(a) && Writable(b) && Writable(c) && Writable(d) && Writable(e)
    ensures forall p | p in [a, b, c, d, e] :: Writable(p)
  {
  }

  lemma AllParamsWritable()
    ensures forall p | p in AllParams :: Writable(p)
  {
    ComplexWritable();
    EmptyQuotedWritable();
    QuotedWritable();
    TokenWritable();
    CharsetWritable();
    FiveWritable(ParamComplexQuoted, ParamEmptyQuoted, ParamQuoted, ParamToken, ParamCharset);
  }

  method TestSimpleWithAll()
    ensures forall lws | lws in LwsValues :: DoTestPasses(lws, AllParams)
  {
    LwsValuesAreLws();
    AllParamsWritable();
    AllParamsUnique();
    DoTestAll(LwsValues, AllParams);
  }

  // ---------------------------------------------------------------------------
  // Parameters that are stored as written

  /** Parameters whose names are lower case and whose values need no trimming are
      stored as they are. */
  lemma {:induction false} StoredKept(ps: seq<Parameter>)
    requires forall i | 0 <= i < |ps| :: Stored(ps[i]) == ps[i]
    ensures StoredAll(ps) == ps
  {
    StoredAllLength(ps);
    forall i | 0 <= i < |ps|
      ensures StoredAll(ps)[i] == ps[i]
    {
      StoredAllAt(ps, i);
    }
  }

  /** Two written parameters that are stored as they are, after TYPES. */
  lemma PairParsed(p: Parameter, q: Parameter)
    requires Writable(p) && Writable(q)
    requires ToLower(p.name) != ToLower(q.name)
    ensures Parse(Types + SegmentsText("", [p, q])) == Success(MediaType("foo", "bar", StoredAll([p, q])))
  {
    var ps := [p, q];
    forall r | r in ps
      ensures Writable(r)
    {
    }
    StoredUnique(ps);
    TypesParsed("", ps);
  }

  lemma PairKept(p: Parameter, q: Parameter)
    requires Stored(p) == p && Stored(q) == q
    ensures StoredAll([p, q]) == [p, q]
  {
    assert [p, q][1..] == [q];
    assert [q][1..] == [];
    assert StoredAll([q]) == [Stored(q)] + StoredAll([]);
    assert StoredAll([p, q]) == [Stored(p)] + StoredAll([q]);
    assert [p] + ([q] + []) == [p, q];
  }

  /** Serialising two parameters writes each one that is shown, in order. */
  lemma PairSerialized(p: Parameter, q: Parameter, dropCharset: bool)
    ensures Serialized([p, q], dropCharset)
         == (if Shown(p, dropCharset) then ";" + p.name + "=" + p.value else "")
          + (if Shown(q, dropCharset) then ";" + q.name + "=" + q.value else "")
  {
    var sp := if Shown(p, dropCharset) then ";" + p.name + "=" + p.value else "";
    var sq := if Shown(q, dropCharset) then ";" + q.name + "=" + q.value else "";
    assert [p, q][1..] == [q];
    assert [q][1..] == [];
    assert Serialized([q], dropCharset) == sq + "";
    assert sq + "" == sq;
  }

  // ---------------------------------------------------------------------------
  // testCharset

  lemma CharsetKept()
    ensures Writable(ParamCharset) && Stored(ParamCharset) == ParamCharset
  {
    CharsetWritable();
    CharsetName();
    ValueWritable(ParamCharset);
  }

  lemma TokenKept()
    ensures Writable(ParamToken) && Stored(ParamToken) == ParamToken
  {
    TokenWritable();
    ToLowerUnchanged("a");
    ValueWritable(ParamToken);
  }

  /** Two written parameters that are stored as written, after TYPES. */
  lemma KeptPairParsed(p: Parameter, q: Parameter)
    requires Writable(p) && Writable(q)
    requires Stored(p) == p && Stored(q) == q && p.name != q.name
    ensures Parse(Types + SegmentsText("", [p, q])) == Success(MediaType("foo", "bar", [p, q]))
  {
    PairParsed(p, q);
    PairKept(p, q);
  }

  lemma CharsetThenTokenReady(charset: Parameter, token: Parameter)
    requires charset == ParamCharset && token == ParamToken
    ensures Writable(charset) && Writable(token)
    ensures Stored(charset) == charset && Stored(token) == token && charset.name != token.name
  {
    CharsetKept();
    TokenKept();
  }

  /** The charset and the token parameter, in that order, after TYPES. */
  lemma CharsetThenTokenParsed(charset: Parameter, token: Parameter)
    requires charset == ParamCharset && token == ParamToken
    ensures Parse(Types + SegmentsText("", [charset, token])) == Success(MediaType("foo", "bar", [charset, token]))
  {
    CharsetThenTokenReady(charset, token);
    KeptPairParsed(charset, token);
  }

  lemma CharsetThenTokenString(m: MediaType)
    requires m == MediaType("foo", "bar", [ParamCharset, ParamToken])
    ensures ToString(m) == "foo/bar;charset=UTF-8;a=b"
  {
    PairSerialized(ParamCharset, ParamToken, false);
  }

  lemma CharsetThenTokenNoCharset(m: MediaType)
    requires m == MediaType("foo", "bar", [ParamCharset, ParamToken])
    ensures ToStringNoCharset(m) == "foo/bar;a=b"
  {
    PairSerialized(ParamCharset, ParamToken, true);
  }

  lemma CharsetThenTokenCharset(m: MediaType)
    requires m == MediaType("foo", "bar", [ParamCharset, ParamToken])
    ensures Charset(m) == Some(Charset8)
  {
    Utf8Token();
    CharsetValue(m, Charset8);
  }

  /** testCharset: TYPES followed by the charset and the token parameter, each appended
      with its toString(), which is toString("") (see BuildInput). */
  method TestCharset() returns (m: MediaType)
    ensures Parse(Types + SegmentsText("", [ParamCharset, ParamToken])) == Success(m)
    ensures ToString(m) == "foo/bar;charset=UTF-8;a=b"
    ensures Charset(m) == Some(Charset8)
    ensures ToStringNoCharset(m) == "foo/bar;a=b"
  {
    var charset, token := ParamCharset, ParamToken;
    var input := BuildInput(Types, "", [charset, token]);
    var r := ParseMediaType(input);
    CharsetThenTokenParsed(charset, token);
    m := r.value;
    CharsetThenTokenString(m);
    CharsetThenTokenNoCharset(m);
    CharsetThenTokenCharset(m);
  }

  // ---------------------------------------------------------------------------
  // testCharsetQuoted

  /** One written parameter after TYPES. */
  lemma SingleParsed(p: Parameter)
    requires Writable(p)
    ensures Parse(Types + SegmentsText("", [p])) == Success(MediaType("foo", "bar", StoredAll([p])))
  {
    forall r | r in [p]
      ensures Writable(r)
    {
    }
    StoredAllLength([p]);
    TypesParsed("", [p]);
  }

  lemma SingleKept(p: Parameter)
    requires Stored(p) == p
    ensures StoredAll([p]) == [p]
  {
    assert [p][1..] == [];
    assert StoredAll([p]) == [Stored(p)] + StoredAll([]);
  }

  lemma CharsetQuotedKept()
    ensures Writable(ParamCharsetQuoted) && Stored(ParamCharsetQuoted) == ParamCharsetQuoted
  {
    CharsetQuotedWritable();
    CharsetName();
  }

  lemma CharsetQuotedParsed(p: Parameter)
    requires p == ParamCharsetQuoted
    ensures Parse(Types + SegmentsText("", [p])) == Success(MediaType("foo", "bar", [p]))
  {
    CharsetQuotedKept();
    SingleParsed(p);
    SingleKept(p);
  }

  /** The quoted charset keeps the whitespace inside its quotes. */
  lemma CharsetQuotedCharset(m: MediaType)
    requires m == MediaType("foo", "bar", [ParamCharsetQuoted])
    ensures Charset(m) == Some(CharsetWs)
  {
    CharsetName();
    QuotedBodyPlain(CharsetWs);
    assert forall i | 0 <= i < |CharsetWs| :: CharsetWs[i] != '\\';
    UnquotePlain(CharsetWs);
  }

  lemma CharsetQuotedNoCharset(m: MediaType)
    requires m == MediaType("foo", "bar", [ParamCharsetQuoted])
    ensures ToStringNoCharset(m) == "foo/bar"
  {
    var p := ParamCharsetQuoted;
    assert !Shown(p, true);
    assert [p][1..] == [];
    assert Serialized([p], true) == "" + Serialized([], true);
  }

  /** testCharsetQuoted: getCharset keeps the whitespace quoted in the value, and
      toStringNoCharset is TYPES without its spaces. */
  method TestCharsetQuoted() returns (m: MediaType)
    ensures Parse(Types + SegmentsText("", [ParamCharsetQuoted])) == Success(m)
    ensures Charset(m) == Some(CharsetWs)
    ensures ToStringNoCharset(m) == "foo/bar"
  {
    var charset := ParamCharsetQuoted;
    var input := BuildInput(Types, "", [charset]);
    var r := ParseMediaType(input);
    CharsetQuotedParsed(charset);
    m := r.value;
    CharsetQuotedCharset(m);
    CharsetQuotedNoCharset(m);
  }

  // ---------------------------------------------------------------------------
  // The bug reports: a header with no whitespace around the type and subtype.

  /** An unpadded type and subtype, then parameters starting with ';' (or nothing). */
  lemma HeaderParsed(t: string, st: string, tail: string)
    requires IsToken(t) && IsToken(st)
    requires tail == [] || tail[0] == ';'
    ensures Parse(t + "/" + st + tail) == WithTypes(t, st, ParseParameters(tail, []))
  {
    assert t + "/" + st + tail == ("" + t + "") + "/" + ("" + st + "") + tail;
    PaddedTypes("", t, "", "", st, "", tail);
  }

  /** The last written segment: the parameter is put and nothing follows. */
  lemma LastSegment(p: Parameter, acc: seq<Parameter>)
    requires Writable(p)
    ensures ParseParameters(SegmentThen("", p, ""), acc) == Success(Put(acc, ToLower(p.name), Trim(p.value)))
  {
    SegmentStep("", p, "", acc);
  }

  /** A segment with nothing between ';' and the next ';' (or the end) is skipped. */
  lemma SkipEmptySegment(rest: string, acc: seq<Parameter>)
    requires rest == [] || rest[0] == ';'
    ensures ParseParameters(";" + rest, acc) == ParseParameters(rest, acc)
  {
    assert "" + (";" + ("" + rest)) == ";" + rest;
    EmptySegmentIgnored("", "", rest, acc);
  }

  /** ";" then a space and a name without "=": the name is put with the empty value. */
  lemma BareSegment(bare: string, rest: string, acc: seq<Parameter>)
    requires IsToken(bare)
    requires rest == [] || rest[0] == ';'
    ensures ParseParameters(";" + (" " + (bare + rest)), acc) == ParseParameters(rest, Put(acc, ToLower(bare), ""))
  {
    assert "" + (";" + (" " + (bare + ("" + rest)))) == ";" + (" " + (bare + rest));
    BareNameStored("", " ", bare, "", rest, acc);
  }

  lemma SegmentOpens(p: Parameter, tail: string)
    ensures SegmentThen("", p, tail)[0] == ';'
  {
  }

  /** Serialising one parameter writes it when it is shown. */
  lemma OneSerialized(p: Parameter, dropCharset: bool)
    ensures Serialized([p], dropCharset) == (if Shown(p, dropCharset) then ";" + p.name + "=" + p.value else "")
  {
    assert [p][1..] == [];
    var sp := if Shown(p, dropCharset) then ";" + p.name + "=" + p.value else "";
    assert Serialized([p], dropCharset) == sp + "";
  }

  lemma TextHtml()
    ensures IsToken("text") && IsToken("html")
  {
    AllTokenCharsEach("text");
    AllTokenCharsEach("html");
  }

  /** The charset parameter as the Parameter builder writes it with no whitespace. */
  lemma CharsetSegment(p: Parameter)
    requires p == ParamCharset
    ensures SegmentThen("", p, "") == ";charset=UTF-8"
  {
  }

  // testBug55454

  const Bug55454Input := "text/html;;charset=UTF-8"

  lemma Bug55454Text(p: Parameter)
    requires p == ParamCharset
    ensures Bug55454Input == "text" + "/" + "html" + (";" + SegmentThen("", p, ""))
  {
    CharsetSegment(p);
  }

  /** An empty segment before the only parameter is skipped. */
  lemma EmptyThenOne(p: Parameter)
    requires Writable(p)
    ensures ParseParameters(";" + SegmentThen("", p, ""), []) == Success([Stored(p)])
  {
    SegmentOpens(p, "");
    SkipEmptySegment(SegmentThen("", p, ""), []);
    LastSegment(p, []);
  }

  lemma EmptyThenOneParsed(t: string, st: string, p: Parameter)
    requires IsToken(t) && IsToken(st) && Writable(p)
    ensures Parse(t + "/" + st + (";" + SegmentThen("", p, ""))) == Success(MediaType(t, st, [Stored(p)]))
  {
    HeaderParsed(t, st, ";" + SegmentThen("", p, ""));
    EmptyThenOne(p);
  }

  lemma CharsetOnlyValue(m: MediaType)
    requires m.parameters == [ParamCharset]
    ensures ParameterValue(m, "charset") == Some(Charset8)
    ensures Charset(m) == Some(Charset8)
  {
    CharsetName();
    Utf8Token();
    assert Lookup(m.parameters, "charset") == Some(Charset8);
    CharsetValue(m, Charset8);
  }

  lemma CharsetOnlyString(m: MediaType)
    requires m == MediaType("text", "html", [ParamCharset])
    ensures ToString(m) == "text/html;charset=UTF-8"
  {
    OneSerialized(ParamCharset, false);
  }

  /** testBug55454: the empty segment ";;" is ignored. */
  method TestBug55454() returns (m: MediaType)
    ensures Parse(Bug55454Input) == Success(m)
    ensures m.primaryType == "text" && m.subtype == "html"
    ensures |m.parameters| == 1
    ensures ParameterValue(m, "charset") == Some(Charset8)
    ensures Charset(m) == Some(Charset8)
    ensures ToString(m) == "text/html;charset=UTF-8"
  {
    var charset := ParamCharset;
    var input := Bug55454Input;
    var r := ParseMediaType(input);
    Bug55454Text(charset);
    TextHtml();
    CharsetKept();
    EmptyThenOneParsed("text", "html", charset);
    m := r.value;
    CharsetOnlyValue(m);
    CharsetOnlyString(m);
  }

  // testBug53353

  /** "text/html; UTF-8;charset=UTF-8": a bare token, then the charset parameter. */
  const Bug53353Input := "text/html; UTF-8;charset=UTF-8"

  /** The header of testBug53353, regrouped: a bare token, then one segment. */
  lemma Bug53353Regrouped(bare: string, segment: string)
    requires bare == Charset8 && segment == ";charset=UTF-8"
    ensures Bug53353Input == "text" + "/" + "html" + (";" + (" " + (bare + segment)))
  {
  }

  lemma Bug53353Text(p: Parameter)
    requires p == ParamCharset
    ensures Bug53353Input
         == "text" + "/" + "html" + (";" + (" " + (Charset8 + SegmentThen("", p, ""))))
  {
    CharsetSegment(p);
    Bug53353Regrouped(Charset8, SegmentThen("", p, ""));
  }

  /** A bare name is stored with the empty value, then the parameter after it. */
  lemma BareThenOne(bare: string, p: Parameter)
    requires IsToken(bare) && Writable(p)
    requires ToLower(bare) != ToLower(p.name)
    ensures ParseParameters(";" + (" " + (bare + SegmentThen("", p, ""))), [])
         == Success([Parameter(ToLower(bare), ""), Stored(p)])
  {
    SegmentOpens(p, "");
    BareSegment(bare, SegmentThen("", p, ""), []);
    var q := Parameter(ToLower(bare), "");
    assert Put([], ToLower(bare), "") == [q];
    LastSegment(p, [q]);
    PutAfter(q, ToLower(p.name), Trim(p.value));
  }

  lemma PutAfter(q: Parameter, name: string, value: string)
    requires q.name != name
    ensures Put([q], name, value) == [q, Parameter(name, value)]
  {
    assert [q][1..] == [];
  }

  lemma BareThenOneParsed(t: string, st: string, bare: string, p: Parameter)
    requires IsToken(t) && IsToken(st) && IsToken(bare) && Writable(p)
    requires ToLower(bare) != ToLower(p.name)
    ensures Parse(t + "/" + st + (";" + (" " + (bare + SegmentThen("", p, "")))))
         == Success(MediaType(t, st, [Parameter(ToLower(bare), ""), Stored(p)]))
  {
    HeaderParsed(t, st, ";" + (" " + (bare + SegmentThen("", p, ""))));
    BareThenOne(bare, p);
  }

  /** The bare token's name differs from "charset" once lower-cased. */
  lemma Utf8Bare()
    ensures IsToken(Charset8) && ToLower(Charset8) == "utf-8"
  {
    Utf8Token();
    ToLowerEach(Charset8);
    assert ToLower(Charset8) == "utf-8";
  }

  lemma BareThenCharsetValues(m: MediaType)
    requires m.parameters == [Parameter("utf-8", ""), ParamCharset]
    ensures ParameterValue(m, Charset8) == Some("")
    ensures Charset(m) == Some(Charset8)
  {
    Utf8Bare();
    CharsetName();
    assert Lookup(m.parameters, "charset") == Some(Charset8);
    CharsetValue(m, Charset8);
  }

  lemma BareThenCharsetString(m: MediaType)
    requires m == MediaType("text", "html", [Parameter("utf-8", ""), ParamCharset])
    ensures ToString(m) == "text/html;charset=UTF-8"
  {
    PairSerialized(Parameter("utf-8", ""), ParamCharset, false);
  }

  /** testBug53353: the bare token "UTF-8" is a parameter with the empty value, which
      toString leaves out; the charset parameter after it is read as usual. */
  method TestBug53353() returns (m: MediaType)
    ensures Parse(Bug53353Input) == Success(m)
    ensures m.primaryType == "text" && m.subtype == "html"
    ensures |m.parameters| == 2
    ensures ParameterValue(m, Charset8) == Some("")
    ensures Charset(m) == Some(Charset8)
    ensures ToString(m) == "text/html;charset=UTF-8"
  {
    var charset := ParamCharset;
    var input := Bug53353Input;
    var r := ParseMediaType(input);
    Bug53353Text(charset);
    TextHtml();
    CharsetKept();
    Utf8Bare();
    CharsetName();
    BareThenOneParsed("text", "html", Charset8, charset);
    m := r.value;
    BareThenCharsetValues(m);
    BareThenCharsetString(m);
  }

  // testCase and testEmptyParameter

  const ParamA1 := Parameter("a", "1")
  const ParamUpperB2 := Parameter("B", "2")
  const ParamB2 := Parameter("b", "2")

  lemma TypeSubType()
    ensures IsToken("type") && IsToken("sub-type")
  {
    AllTokenCharsEach("type");
    AllTokenCharsEach("sub-type");
  }

  /** A token name already in lower case with a token value is stored as written. */
  lemma PlainKept(p: Parameter)
    requires IsToken(p.name) && IsToken(p.value) && ToLower(p.name) == p.name
    ensures Writable(p) && Stored(p) == p
  {
    ValueWritable(p);
  }

  lemma A1Kept()
    ensures Writable(ParamA1) && Stored(ParamA1) == ParamA1
  {
    AllTokenCharsEach("a");
    AllTokenCharsEach("1");
    ToLowerUnchanged("a");
    PlainKept(ParamA1);
  }

  lemma B2Kept()
    ensures Writable(ParamB2) && Stored(ParamB2) == ParamB2
  {
    AllTokenCharsEach("b");
    AllTokenCharsEach("2");
    ToLowerUnchanged("b");
    PlainKept(ParamB2);
  }

  lemma UpperB2Stored()
    ensures Writable(ParamUpperB2) && Stored(ParamUpperB2) == ParamB2
  {
    AllTokenCharsEach("B");
    AllTokenCharsEach("2");
    ToLowerEach("B");
    assert ToLower("B") == "b";
    ValueWritable(ParamUpperB2);
  }

  /** Two parameters one after the other: each is put in turn. */
  lemma TwoSegments(p: Parameter, q: Parameter)
    requires Writable(p) && Writable(q)
    requires ToLower(p.name) != ToLower(q.name)
    ensures ParseParameters(SegmentThen("", p, SegmentThen("", q, "")), []) == Success([Stored(p), Stored(q)])
  {
    SegmentOpens(q, "");
    SegmentStep("", p, SegmentThen("", q, ""), []);
    assert Put([], ToLower(p.name), Trim(p.value)) == [Stored(p)];
    LastSegment(q, [Stored(p)]);
    PutAfter(Stored(p), ToLower(q.name), Trim(q.value));
  }

  const CaseInput := "type/sub-type;a=1;B=2"

  lemma CaseText(p: Parameter, q: Parameter)
    requires p == ParamA1 && q == ParamUpperB2
    ensures CaseInput == "type" + "/" + "sub-type" + SegmentThen("", p, SegmentThen("", q, ""))
  {
  }

  lemma TwoParsed(t: string, st: string, p: Parameter, q: Parameter)
    requires IsToken(t) && IsToken(st) && Writable(p) && Writable(q)
    requires ToLower(p.name) != ToLower(q.name)
    ensures Parse(t + "/" + st + SegmentThen("", p, SegmentThen("", q, "")))
         == Success(MediaType(t, st, [Stored(p), Stored(q)]))
  {
    SegmentOpens(p, SegmentThen("", q, ""));
    HeaderParsed(t, st, SegmentThen("", p, SegmentThen("", q, "")));
    TwoSegments(p, q);
  }

  lemma CaseParsed(p: Parameter, q: Parameter)
    requires Writable(p) && Writable(q)
    requires Stored(p) == ParamA1 && Stored(q) == ParamB2
    ensures Parse("type" + "/" + "sub-type" + SegmentThen("", p, SegmentThen("", q, "")))
         == Success(MediaType("type", "sub-type", [ParamA1, ParamB2]))
  {
    TypeSubType();
    TwoParsed("type", "sub-type", p, q);
  }

  /** "a" and "b" are found whatever the case of the name looked up. */
  lemma OneTwoLookups(m: MediaType)
    requires m.parameters == [ParamA1, ParamB2]
    ensures ParameterValue(m, "A") == Some("1") && ParameterValue(m, "a") == Some("1")
    ensures ParameterValue(m, "B") == Some("2") && ParameterValue(m, "b") == Some("2")
  {
    ToLowerEach("A");
    assert ToLower("A") == "a";
    ToLowerUnchanged("a");
    ToLowerEach("B");
    assert ToLower("B") == "b";
    ToLowerUnchanged("b");
    assert m.parameters[1..] == [ParamB2];
    assert m.parameters[0].name != "b";
    assert Lookup(m.parameters[1..], "b") == Some("2");
  }

  /** testCase: parameter names are stored in lower case and looked up ignoring case. */
  method TestCase() returns (m: MediaType)
    ensures Parse(CaseInput) == Success(m)
    ensures m.parameters == [Parameter("a", "1"), Parameter("b", "2")]
    ensures ParameterValue(m, "A") == Some("1") && ParameterValue(m, "a") == Some("1")
    ensures ParameterValue(m, "B") == Some("2") && ParameterValue(m, "b") == Some("2")
  {
    var a, b := ParamA1, ParamUpperB2;
    var r := ParseMediaType(CaseInput);
    CaseText(a, b);
    A1Kept();
    UpperB2Stored();
    CaseParsed(a, b);
    m := r.value;
    OneTwoLookups(m);
  }

  const EmptyParameterInput := "type/sub-type;;a=1;;b=2;;"

  lemma EmptyParameterText(p: Parameter, q: Parameter)
    requires p == ParamA1 && q == ParamB2
    ensures EmptyParameterInput
         == "type" + "/" + "sub-type" + (";" + SegmentThen("", p, ";" + SegmentThen("", q, ";;")))
  {
  }

  /** Empty segments before, between and after two parameters are all skipped. */
  lemma EmptyAround(p: Parameter, q: Parameter)
    requires Writable(p) && Writable(q)
    requires ToLower(p.name) != ToLower(q.name)
    ensures ParseParameters(";" + SegmentThen("", p, ";" + SegmentThen("", q, ";;")), [])
         == Success([Stored(p), Stored(q)])
  {
    var tail := ";" + SegmentThen("", q, ";;");
    SegmentOpens(p, tail);
    SkipEmptySegment(SegmentThen("", p, tail), []);
    SegmentStep("", p, tail, []);
    var acc := Put([], ToLower(p.name), Trim(p.value));
    assert acc == [Stored(p)];
    SegmentOpens(q, ";;");
    SkipEmptySegment(SegmentThen("", q, ";;"), acc);
    SegmentStep("", q, ";;", acc);
    PutAfter(Stored(p), ToLower(q.name), Trim(q.value));
    TrailingEmpty([Stored(p), Stored(q)]);
  }

  /** A ';' with nothing after it adds nothing. */
  lemma TrailingSemicolon(acc: seq<Parameter>)
    ensures ParseParameters(";", acc) == Success(acc)
  {
  }

  /** ";;" at the end adds nothing. */
  lemma TrailingEmpty(acc: seq<Parameter>)
    ensures ParseParameters(";;", acc) == Success(acc)
  {
    assert ";;" == ";" + ";";
    SkipEmptySegment(";", acc);
    TrailingSemicolon(acc);
  }

  lemma EmptyAroundParsed(t: string, st: string, p: Parameter, q: Parameter)
    requires IsToken(t) && IsToken(st) && Writable(p) && Writable(q)
    requires ToLower(p.name) != ToLower(q.name)
    ensures Parse(t + "/" + st + (";" + SegmentThen("", p, ";" + SegmentThen("", q, ";;"))))
         == Success(MediaType(t, st, [Stored(p), Stored(q)]))
  {
    HeaderParsed(t, st, ";" + SegmentThen("", p, ";" + SegmentThen("", q, ";;")));
    EmptyAround(p, q);
  }

  lemma EmptyParameterReady(p: Parameter, q: Parameter)
    requires p == ParamA1 && q == ParamB2
    ensures Writable(p) && Writable(q) && ToLower(p.name) != ToLower(q.name)
    ensures Stored(p) == p && Stored(q) == q
  {
    A1Kept();
    B2Kept();
  }

  lemma EmptyParameterParsed(p: Parameter, q: Parameter)
    requires p == ParamA1 && q == ParamB2
    ensures Parse("type" + "/" + "sub-type" + (";" + SegmentThen("", p, ";" + SegmentThen("", q, ";;"))))
         == Success(MediaType("type", "sub-type", [p, q]))
  {
    TypeSubType();
    EmptyParameterReady(p, q);
    EmptyAroundParsed("type", "sub-type", p, q);
  }

  /** testEmptyParameter: empty segments anywhere in the parameter list are ignored. */
  method TestEmptyParameter() returns (m: MediaType)
    ensures Parse(EmptyParameterInput) == Success(m)
    ensures m.parameters == [Parameter("a", "1"), Parameter("b", "2")]
    ensures ParameterValue(m, "a") == Some("1")
    ensures ParameterValue(m, "b") == Some("2")
  {
    var a, b := ParamA1, ParamB2;
    var r := ParseMediaType(EmptyParameterInput);
    EmptyParameterText(a, b);
    EmptyParameterParsed(a, b);
    m := r.value;
    OneTwoLookups(m);
  }

  // testBug52811

  const BoundaryValue := "1_4F50BD36" + "_CDF8C28"
  const StartBody := "<316716" + "03.smil>"
  const TypeBody := "applicat" + "ion/smil" + (";charset" + "=UTF-8")
  const ParamBoundary := Parameter("boundary", BoundaryValue)
  const ParamStart := Parameter("Start", "\"" + StartBody + "\"")
  const ParamType := Parameter("Type", "\"" + TypeBody + "\"")
  const StoredStart := Parameter("start", ParamStart.value)
  const StoredType := Parameter("type", ParamType.value)

  lemma MultipartToken()
    ensures IsToken("multipart")
  {
    AllTokenCharsEach("multipart");
  }

  lemma RelatedToken()
    ensures IsToken("related")
  {
    AllTokenCharsEach("related");
  }

  /** The three names, and what they are stored under. */
  lemma BoundaryName()
    ensures IsToken("boundary") && ToLower("boundary") == "boundary"
  {
    AllTokenCharsEach("boundary");
    ToLowerUnchanged("boundary");
  }

  lemma StartName()
    ensures IsToken("Start") && ToLower("Start") == "start"
  {
    AllTokenCharsEach("Start");
    ToLowerEach("Start");
    assert ToLower("Start") == "start";
  }

  lemma TypeName()
    ensures IsToken("Type") && ToLower("Type") == "type"
  {
    AllTokenCharsEach("Type");
    ToLowerEach("Type");
    assert ToLower("Type") == "type";
  }

  lemma BoundaryToken()
    ensures IsToken(BoundaryValue)
  {
    AllTokenCharsEach(BoundaryValue);
  }

  lemma StartBodyPlain()
    ensures QuotedBody(StartBody)
  {
    QuotedBodyPlain(StartBody);
  }

  lemma TypeBodyPlain()
    ensures QuotedBody(TypeBody)
  {
    QuotedBodyPlain(TypeBody);
  }

  lemma BoundaryKept()
    ensures Writable(ParamBoundary) && Stored(ParamBoundary) == ParamBoundary
  {
    BoundaryName();
    BoundaryToken();
    ValueWritable(ParamBoundary);
  }

  lemma StartKept()
    ensures Writable(ParamStart) && Stored(ParamStart) == StoredStart
  {
    StartName();
    StartBodyPlain();
    QuotedValueWritable("Start", StartBody);
  }

  lemma TypeKept()
    ensures Writable(ParamType) && Stored(ParamType) == StoredType
  {
    TypeName();
    TypeBodyPlain();
    QuotedValueWritable("Type", TypeBody);
  }

  lemma SegmentsCons(p: Parameter, ps: seq<Parameter>)
    ensures SegmentsText("", [p] + ps) == SegmentThen("", p, SegmentsText("", ps))
  {
    assert ([p] + ps)[1..] == ps;
  }

  lemma ThreeText(p: Parameter, q: Parameter, r: Parameter)
    ensures SegmentsText("", [p, q, r]) == SegmentThen("", p, SegmentThen("", q, SegmentThen("", r, "")))
  {
    assert [p, q, r] == [p] + [q, r];
    SegmentsCons(p, [q, r]);
    assert [q, r] == [q] + [r];
    SegmentsCons(q, [r]);
    assert [r] == [r] + [];
    SegmentsCons(r, []);
  }

  lemma PutAfterTwo(q1: Parameter, q2: Parameter, name: string, value: string)
    requires q1.name != name && q2.name != name
    ensures Put([q1, q2], name, value) == [q1, q2, Parameter(name, value)]
  {
    assert [q1, q2][1..] == [q2];
    PutAfter(q2, name, value);
  }

  /** Three parameters with distinct names: each is put in turn, in order. */
  lemma ThreeSegments(p: Parameter, q: Parameter, r: Parameter)
    requires Writable(p) && Writable(q) && Writable(r)
    requires ToLower(p.name) != ToLower(q.name)
    requires ToLower(p.name) != ToLower(r.name) && ToLower(q.name) != ToLower(r.name)
    ensures ParseParameters(SegmentsText("", [p, q, r]), []) == Success([Stored(p), Stored(q), Stored(r)])
  {
    ThreeText(p, q, r);
    var tail := SegmentThen("", q, SegmentThen("", r, ""));
    SegmentOpens(q, SegmentThen("", r, ""));
    SegmentStep("", p, tail, []);
    assert Put([], ToLower(p.name), Trim(p.value)) == [Stored(p)];
    SegmentOpens(r, "");
    SegmentStep("", q, SegmentThen("", r, ""), [Stored(p)]);
    PutAfter(Stored(p), ToLower(q.name), Trim(q.value));
    LastSegment(r, [Stored(p), Stored(q)]);
    PutAfterTwo(Stored(p), Stored(q), ToLower(r.name), Trim(r.value));
  }

  lemma ThreeParsed(t: string, st: string, p: Parameter, q: Parameter, r: Parameter)
    requires IsToken(t) && IsToken(st)
    requires Writable(p) && Writable(q) && Writable(r)
    requires ToLower(p.name) != ToLower(q.name)
    requires ToLower(p.name) != ToLower(r.name) && ToLower(q.name) != ToLower(r.name)
    ensures Parse(t + "/" + st + SegmentsText("", [p, q, r]))
         == Success(MediaType(t, st, [Stored(p), Stored(q), Stored(r)]))
  {
    ThreeText(p, q, r);
    SegmentOpens(p, SegmentThen("", q, SegmentThen("", r, "")));
    HeaderParsed(t, st, SegmentsText("", [p, q, r]));
    ThreeSegments(p, q, r);
  }

  /** Each of three parameters with distinct names is found under its own name. */
  lemma ThreeLookups(p: Parameter, q: Parameter, r: Parameter)
    requires p.name != q.name && p.name != r.name && q.name != r.name
    ensures Lookup([p, q, r], p.name) == Some(p.value)
    ensures Lookup([p, q, r], q.name) == Some(q.value)
    ensures Lookup([p, q, r], r.name) == Some(r.value)
  {
    assert [p, q, r][1..] == [q, r];
    assert [q, r][1..] == [r];
    assert Lookup([r], r.name) == Some(r.value);
    assert Lookup([q, r], r.name) == Lookup([r], r.name);
  }

  /** Serialising three parameters writes each one that is shown, in order. */
  lemma ThreeSerialized(p: Parameter, q: Parameter, r: Parameter, dropCharset: bool)
    requires Shown(p, dropCharset) && Shown(q, dropCharset) && Shown(r, dropCharset)
    ensures Serialized([p, q, r], dropCharset)
         == ";" + p.name + "=" + p.value + (";" + q.name + "=" + q.value + (";" + r.name + "=" + r.value))
  {
    assert [p, q, r][1..] == [q, r];
    PairSerialized(q, r, dropCharset);
  }

  /** The lower-cased names of testBug52811 differ from each other. */
  lemma Bug52811Distinct()
    ensures ToLower("boundary") == "boundary" && ToLower("Start") == "start" && ToLower("Type") == "type"
    ensures "boundary" != "start" && "boundary" != "type" && "start" != "type"
  {
    BoundaryName();
    StartName();
    TypeName();
  }

  /** The expected serialisation of testBug52811, regrouped as toString writes it. */
  lemma Bug52811Grouping(a: string, b: string, c: string)
    ensures "multipart/related" + ";boundary=" + a + ";start=" + b + ";type=" + c
         == "multipart" + "/" + "related" + (";" + "boundary" + "=" + a + (";" + "start" + "=" + b + (";" + "type" + "=" + c)))
  {
  }

  const Bug52811Expected := "multipart/related" + ";boundary=" + BoundaryValue
    + ";start=" + ParamStart.value + ";type=" + ParamType.value

  lemma Bug52811Strings(m: MediaType, p: Parameter, q: Parameter, r: Parameter)
    requires p == ParamBoundary && q == StoredStart && r == StoredType
    requires m == MediaType("multipart", "related", [p, q, r])
    ensures ToString(m) == Bug52811Expected
    ensures ToStringNoCharset(m) == Bug52811Expected
  {
    ThreeSerialized(p, q, r, false);
    ThreeSerialized(p, q, r, true);
    Bug52811Grouping(p.value, q.value, r.value);
  }

  lemma Bug52811NoCharset(m: MediaType)
    requires m.parameters == [ParamBoundary, StoredStart, StoredType]
    ensures Charset(m) == None
  {
    CharsetPresence(m);
    assert Names(m.parameters) == ["boundary", "start", "type"] by {
      NamesCons(ParamBoundary, [StoredStart, StoredType]);
      assert [StoredStart, StoredType] == [StoredStart] + [StoredType];
      NamesCons(StoredStart, [StoredType]);
      assert [StoredType] == [StoredType] + [];
      NamesCons(StoredType, []);
    }
  }

  /** The header value of testBug52811, with the names as written. */
  const Bug52811Input := "multipart/related;boundary=" + BoundaryValue
    + ";Start=" + ParamStart.value + ";Type=" + ParamType.value

  /** A segment written with no whitespace is ";name=value" followed by the rest. */
  lemma UnpaddedSegment(p: Parameter, tail: string)
    ensures SegmentThen("", p, tail) == ";" + (p.name + ("=" + (p.value + tail)))
  {
  }

  /** The header of testBug52811, regrouped segment by segment. */
  lemma Bug52811Regrouped(a: string, b: string, c: string)
    ensures "multipart/related;boundary=" + a + ";Start=" + b + ";Type=" + c
         == "multipart" + "/" + "related" + (";" + ("boundary" + ("=" + (a
              + (";" + ("Start" + ("=" + (b + (";" + ("Type" + ("=" + (c + ""))))))))))))
  {
  }

  lemma Bug52811Text(p: Parameter, q: Parameter, r: Parameter)
    requires p == ParamBoundary && q == ParamStart && r == ParamType
    ensures Bug52811Input == "multipart" + "/" + "related" + SegmentsText("", [p, q, r])
  {
    ThreeText(p, q, r);
    UnpaddedSegment(r, "");
    UnpaddedSegment(q, SegmentThen("", r, ""));
    UnpaddedSegment(p, SegmentThen("", q, SegmentThen("", r, "")));
    Bug52811Regrouped(p.value, q.value, r.value);
  }

  lemma Bug52811Parsed(p: Parameter, q: Parameter, r: Parameter)
    requires p == ParamBoundary && q == ParamStart && r == ParamType
    ensures Parse("multipart" + "/" + "related" + SegmentsText("", [p, q, r]))
         == Success(MediaType("multipart", "related", [ParamBoundary, StoredStart, StoredType]))
  {
    MultipartToken();
    RelatedToken();
    BoundaryKept();
    StartKept();
    TypeKept();
    Bug52811Distinct();
    ThreeParsed("multipart", "related", p, q, r);
  }

  lemma Bug52811Values(m: MediaType, p: Parameter, q: Parameter, r: Parameter)
    requires p == ParamBoundary && q == StoredStart && r == StoredType
    requires m.parameters == [p, q, r]
    ensures ParameterValue(m, "boundary") == Some(BoundaryValue)
    ensures ParameterValue(m, "Start") == Some(ParamStart.value)
    ensures ParameterValue(m, "Type") == Some(ParamType.value)
  {
    Bug52811Distinct();
    ThreeLookups(p, q, r);
  }

  /** testBug52811: a multipart type whose quoted parameter values hold ';', '=' and
      '/' keeps those values verbatim, quotes included; the names come back in lower
      case, and there is no charset. */
  method TestBug52811() returns (m: MediaType)
    ensures Parse(Bug52811Input) == Success(m)
    ensures m.primaryType == "multipart" && m.subtype == "related"
    ensures |m.parameters| == 3
    ensures ParameterValue(m, "boundary") == Some(BoundaryValue)
    ensures ParameterValue(m, "Start") == Some(ParamStart.value)
    ensures ParameterValue(m, "Type") == Some(ParamType.value)
    ensures ToString(m) == Bug52811Expected
    ensures ToStringNoCharset(m) == Bug52811Expected
    ensures Charset(m) == None
  {
    var boundary, start, ty := ParamBoundary, ParamStart, ParamType;
    var r := ParseMediaType(Bug52811Input);
    Bug52811Text(boundary, start, ty);
    Bug52811Parsed(boundary, start, ty);
    m := r.value;
    var sb, ss, st := ParamBoundary, StoredStart, StoredType;
    Bug52811Values(m, sb, ss, st);
    Bug52811NoCharset(m);
    Bug52811Strings(m, sb, ss, st);
  }
}
