/** The parsed media type and its read-only accessors: case-insensitive parameter
    lookup, the unquoted charset, and the two serialised forms. */
module MediaTypes {
  import opened Wrappers
  import opened HttpParser

  datatype Parameter = Parameter(name: string, value: string)

  /** type "/" subtype and the parameters in the order they were first seen. Names are
      stored in lower case; values are stored raw (a quoted value keeps its quotes and
      backslashes). */
  datatype MediaType = MediaType(primaryType: string, subtype: string, parameters: seq<Parameter>)

  // ---------------------------------------------------------------------------
  // Case folding (toLowerCase(Locale.ENGLISH) on the ASCII letters of a name)

  function LowerChar(c: char): char {
    if 'A' <= c <= 'Z' then (c as int + 32) as char else c
  }

  function UpperChar(c: char): char {
    if 'a' <= c <= 'z' then (c as int - 32) as char else c
  }

  function ToLower(s: string): string
    decreases |s|
  {
    if s == [] then [] else [LowerChar(s[0])] + ToLower(s[1..])
  }

  function ToUpper(s: string): string
    decreases |s|
  {
    if s == [] then [] else [UpperChar(s[0])] + ToUpper(s[1..])
  }

  /** Lower-casing works one character at a time. */
  lemma {:induction false} ToLowerEach(s: string)
    ensures |ToLower(s)| == |s|
    ensures forall i | 0 <= i < |s| :: ToLower(s)[i] == LowerChar(s[i])
    decreases |s|
  {
    if s != [] {
      ToLowerEach(s[1..]);
    }
  }

  /** A name without upper-case letters is its own lower-case form. */
  lemma {:induction false} ToLowerUnchanged(s: string)
    requires forall i | 0 <= i < |s| :: !('A' <= s[i] <= 'Z')
    ensures ToLower(s) == s
    decreases |s|
  {
    if s != [] {
      assert forall i | 0 <= i < |s| - 1 :: s[1..][i] == s[i + 1];
      ToLowerUnchanged(s[1..]);
    }
  }

  /** Lower-casing a lower-cased name changes nothing more. */
  lemma {:induction false} ToLowerIdempotent(s: string)
    ensures ToLower(ToLower(s)) == ToLower(s)
  {
    if s != [] {
      var l := ToLower(s);
      assert l[0] == LowerChar(s[0]) && l[1..] == ToLower(s[1..]);
      ToLowerIdempotent(s[1..]);
    }
  }

  /** A name and its upper-case spelling fold to the same key. */
  lemma {:induction false} ToLowerOfUpper(s: string)
    ensures ToLower(ToUpper(s)) == ToLower(s)
  {
    if s != [] {
      var u := ToUpper(s);
      assert u[0] == UpperChar(s[0]) && u[1..] == ToUpper(s[1..]);
      ToLowerOfUpper(s[1..]);
    }
  }

  /** Folding keeps the length and maps token characters to token characters. */
  lemma {:induction false} ToLowerToken(s: string)
    requires AllTokenChars(s)
    ensures |ToLower(s)| == |s| && AllTokenChars(ToLower(s))
  {
    if s != [] {
      var l := ToLower(s);
      assert l[0] == LowerChar(s[0]) && l[1..] == ToLower(s[1..]);
      ToLowerToken(s[1..]);
    }
  }

  // ---------------------------------------------------------------------------
  // The ordered parameter map

  function Names(ps: seq<Parameter>): seq<string> {
    seq(|ps|, k requires 0 <= k < |ps| => ps[k].name)
  }

  predicate UniqueNames(ps: seq<Parameter>) {
    forall i, j | 0 <= i < j < |ps| :: ps[i].name != ps[j].name
  }

  /** The value stored under name, if any. */
  function Lookup(ps: seq<Parameter>, name: string): (r: Option<string>)
    decreases |ps|
    ensures r.None? <==> name !in Names(ps)
    ensures r.Some? ==> Parameter(name, r.value) in ps
  {
    if ps == [] then None
    else
      assert Names(ps) == [ps[0].name] + Names(ps[1..]);
      if ps[0].name == name then Some(ps[0].value) else Lookup(ps[1..], name)
  }

  /** LinkedHashMap.put: a new name is appended at the end; a name already present
      keeps its position and takes the new value. */
  function Put(ps: seq<Parameter>, name: string, value: string): seq<Parameter>
    decreases |ps|
  {
    if ps == [] then [Parameter(name, value)]
    else if ps[0].name == name then [Parameter(name, value)] + ps[1..]
    else [ps[0]] + Put(ps[1..], name, value)
  }

  lemma NamesCons(p: Parameter, ps: seq<Parameter>)
    ensures Names([p] + ps) == [p.name] + Names(ps)
  {
  }

  /** After a put the name finds the new value and every other name what it found
      before. */
  lemma {:induction false} PutLookup(ps: seq<Parameter>, name: string, value: string, n: string)
    ensures Lookup(Put(ps, name, value), n) == if n == name then Some(value) else Lookup(ps, n)
    decreases |ps|
  {
    if ps != [] && ps[0].name != name {
      PutLookup(ps[1..], name, value, n);
      var r := Put(ps, name, value);
      assert r[0] == ps[0] && r[1..] == Put(ps[1..], name, value);
    } else if ps != [] {
      var r := Put(ps, name, value);
      assert r[0] == Parameter(name, value) && r[1..] == ps[1..];
    }
  }

  /** Putting a new name appends it; putting a present name keeps the order of names. */
  lemma {:induction false} PutOrder(ps: seq<Parameter>, name: string, value: string)
    ensures name !in Names(ps) ==> Put(ps, name, value) == ps + [Parameter(name, value)]
    ensures name in Names(ps) ==> Names(Put(ps, name, value)) == Names(ps)
    ensures name !in Names(ps) ==> Names(Put(ps, name, value)) == Names(ps) + [name]
    decreases |ps|
  {
    if ps != [] {
      NamesCons(ps[0], ps[1..]);
      assert [ps[0]] + ps[1..] == ps;
      if ps[0].name == name {
        NamesCons(Parameter(name, value), ps[1..]);
      } else {
        PutOrder(ps[1..], name, value);
        NamesCons(ps[0], Put(ps[1..], name, value));
        assert [ps[0]] + (ps[1..] + [Parameter(name, value)]) == ps + [Parameter(name, value)];
      }
    }
  }

  /** Names of the same key are distinct exactly when each occurs once. */
  lemma UniqueCons(p: Parameter, ps: seq<Parameter>)
    ensures UniqueNames([p] + ps) <==> p.name !in Names(ps) && UniqueNames(ps)
  {
    var r := [p] + ps;
    assert forall k | 0 <= k < |ps| :: r[k + 1] == ps[k] && Names(ps)[k] == ps[k].name;
    if p.name in Names(ps) {
      var k :| 0 <= k < |ps| && Names(ps)[k] == p.name;
      assert r[0].name == r[k + 1].name;
    } else if UniqueNames(ps) {
      forall i, j | 0 <= i < j < |r|
        ensures r[i].name != r[j].name
      {
        if i == 0 {
          assert Names(ps)[j - 1] == r[j].name;
        } else {
          assert r[i] == ps[i - 1] && r[j] == ps[j - 1];
        }
      }
    }
    if UniqueNames(r) {
      forall i, j | 0 <= i < j < |ps|
        ensures ps[i].name != ps[j].name
      {
        assert r[i + 1] == ps[i] && r[j + 1] == ps[j];
      }
    }
  }

  /** A put keeps the names distinct. */
  lemma {:induction false} PutUnique(ps: seq<Parameter>, name: string, value: string)
    requires UniqueNames(ps)
    ensures UniqueNames(Put(ps, name, value))
    decreases |ps|
  {
    if ps != [] {
      assert [ps[0]] + ps[1..] == ps;
      UniqueCons(ps[0], ps[1..]);
      if ps[0].name == name {
        UniqueCons(Parameter(name, value), ps[1..]);
      } else {
        PutUnique(ps[1..], name, value);
        PutOrder(ps[1..], name, value);
        UniqueCons(ps[0], Put(ps[1..], name, value));
      }
    }
  }

  /** A put stores nothing but what was there and the new pair. */
  lemma {:induction false} PutElements(ps: seq<Parameter>, name: string, value: string)
    ensures forall q | q in Put(ps, name, value) :: q in ps || q == Parameter(name, value)
    decreases |ps|
  {
    if ps != [] && ps[0].name != name {
      PutElements(ps[1..], name, value);
    }
  }

  lemma NameIn(p: Parameter, ps: seq<Parameter>)
    requires p in ps
    ensures p.name in Names(ps)
  {
    var k :| 0 <= k < |ps| && ps[k] == p;
    assert Names(ps)[k] == p.name;
  }

  /** With distinct names, every stored pair is found by its name. */
  lemma {:induction false} LookupUnique(ps: seq<Parameter>, p: Parameter)
    requires UniqueNames(ps) && p in ps
    ensures Lookup(ps, p.name) == Some(p.value)
    decreases |ps|
  {
    assert [ps[0]] + ps[1..] == ps;
    UniqueCons(ps[0], ps[1..]);
    if ps[0] != p {
      assert p in ps[1..];
      NameIn(p, ps[1..]);
      LookupUnique(ps[1..], p);
    }
  }

  /** Puts every parameter of qs, in order. */
  function PutAll(ps: seq<Parameter>, qs: seq<Parameter>): seq<Parameter>
    decreases |qs|
  {
    if qs == [] then ps else PutAll(Put(ps, qs[0].name, qs[0].value), qs[1..])
  }

  /** Putting parameters whose names are all new and distinct appends them in order:
      the count of parameters is the number put. */
  lemma {:induction false} PutAllFresh(ps: seq<Parameter>, qs: seq<Parameter>)
    requires UniqueNames(ps + qs)
    ensures PutAll(ps, qs) == ps + qs
    decreases |qs|
  {
    if qs != [] {
      var q := qs[0];
      assert q.name !in Names(ps) by {
        forall k | 0 <= k < |ps|
          ensures Names(ps)[k] != q.name
        {
          assert (ps + qs)[k] == ps[k] && (ps + qs)[|ps|] == q;
        }
      }
      var ps' := Put(ps, q.name, q.value);
      PutOrder(ps, q.name, q.value);
      assert ps' + qs[1..] == ps + qs;
      PutAllFresh(ps', qs[1..]);
    }
  }

  // ---------------------------------------------------------------------------
  // Accessors

  function ParameterCount(m: MediaType): nat {
    |m.parameters|
  }

  /** getParameterValue: the name is lower-cased before the lookup. */
  function ParameterValue(m: MediaType, name: string): Option<string> {
    Lookup(m.parameters, ToLower(name))
  }

  /** Lookup ignores case in both directions: a name, its lower-case and its upper-case
      spelling all find the same value. */
  lemma ParameterValueIgnoresCase(m: MediaType, name: string)
    ensures ParameterValue(m, ToLower(name)) == ParameterValue(m, name)
    ensures ParameterValue(m, ToUpper(name)) == ParameterValue(m, name)
  {
    ToLowerIdempotent(name);
    ToLowerOfUpper(name);
  }

  /** getCharset: the charset parameter with its quotes removed and its quoted-pairs
      resolved; None when there is no charset parameter. */
  function Charset(m: MediaType): Option<string> {
    match ParameterValue(m, "charset")
    case None => None
    case Some(v) => Some(Unquote(v))
  }

  /** "charset" is already in lower case. */
  lemma CharsetKeyLower()
    ensures ToLower("charset") == "charset"
  {
    ToLowerUnchanged("charset");
  }

  /** There is a charset exactly when a parameter named charset was stored. */
  lemma CharsetPresence(m: MediaType)
    ensures Charset(m).None? <==> "charset" !in Names(m.parameters)
  {
    CharsetKeyLower();
  }

  /** A quoted charset comes back without its quotes and escapes, whitespace inside
      the quotes included; a token charset comes back unchanged. */
  lemma CharsetValue(m: MediaType, x: string)
    requires Lookup(m.parameters, "charset") == Some(Quote(x)) || (IsToken(x) && Lookup(m.parameters, "charset") == Some(x))
    ensures Charset(m) == Some(x)
  {
    CharsetKeyLower();
    if Lookup(m.parameters, "charset") == Some(Quote(x)) {
      UnquoteQuote(x);
    } else {
      UnquoteToken(x);
    }
  }

  // ---------------------------------------------------------------------------
  // Serialisation

  /** One parameter segment with lws around every delimiter, followed by the text
      after it: lws ";" lws name lws "=" lws value lws tail. */
  function SegmentThen(lws: string, p: Parameter, tail: string): string {
    lws + (";" + (lws + (p.name + (lws + ("=" + (lws + (p.value + (lws + tail))))))))
  }

  /** The segments of every parameter in order; with lws == "" this is the
      ";name=value" list that the serialised forms write. */
  function SegmentsText(lws: string, ps: seq<Parameter>): string
    decreases |ps|
  {
    if ps == [] then "" else SegmentThen(lws, ps[0], SegmentsText(lws, ps[1..]))
  }

  /** Whether a parameter is written out: never with an empty value, and not charset
      when the charset is to be left out. */
  predicate Shown(p: Parameter, dropCharset: bool) {
    p.value != "" && !(dropCharset && p.name == "charset")
  }

  /** The parameters that are written out, in order. */
  function Visible(ps: seq<Parameter>, dropCharset: bool): (r: seq<Parameter>)
    decreases |ps|
    ensures forall p | p in r :: p in ps && Shown(p, dropCharset)
    ensures forall p | p in ps && Shown(p, dropCharset) :: p in r
  {
    if ps == [] then []
    else if Shown(ps[0], dropCharset) then [ps[0]] + Visible(ps[1..], dropCharset)
    else Visible(ps[1..], dropCharset)
  }

  /** Filtering splits over concatenation, so the written parameters keep the
      order in which they are stored. */
  lemma {:induction false} VisibleConcat(ps: seq<Parameter>, qs: seq<Parameter>, dropCharset: bool)
    ensures Visible(ps + qs, dropCharset) == Visible(ps, dropCharset) + Visible(qs, dropCharset)
    decreases |ps|
  {
    if ps == [] {
      assert ps + qs == qs;
    } else {
      assert (ps + qs)[0] == ps[0];
      assert (ps + qs)[1..] == ps[1..] + qs;
      VisibleConcat(ps[1..], qs, dropCharset);
    }
  }

  /** One parameter is written exactly when it is shown. */
  lemma VisibleOne(p: Parameter, dropCharset: bool)
    ensures Visible([p], dropCharset) == (if Shown(p, dropCharset) then [p] else [])
  {
    assert [p][1..] == [];
  }

  /** Leaving parameters out keeps the names distinct. */
  lemma {:induction false} VisibleUnique(ps: seq<Parameter>, dropCharset: bool)
    requires UniqueNames(ps)
    ensures UniqueNames(Visible(ps, dropCharset))
    decreases |ps|
  {
    if ps != [] {
      assert [ps[0]] + ps[1..] == ps;
      UniqueCons(ps[0], ps[1..]);
      VisibleUnique(ps[1..], dropCharset);
      var v := Visible(ps[1..], dropCharset);
      if Shown(ps[0], dropCharset) {
        if ps[0].name in Names(v) {
          var k :| 0 <= k < |v| && Names(v)[k] == ps[0].name;
          assert v[k] in v;
          NameIn(v[k], ps[1..]);
        }
        UniqueCons(ps[0], v);
      }
    }
  }

  function Serialized(ps: seq<Parameter>, dropCharset: bool): string
    decreases |ps|
  {
    if ps == [] then ""
    else
      var segment := if Shown(ps[0], dropCharset) then ";" + ps[0].name + "=" + ps[0].value else "";
      segment + Serialized(ps[1..], dropCharset)
  }

  /** toString: type/subtype then ";name=value" for every parameter with a value. */
  function ToString(m: MediaType): string {
    m.primaryType + "/" + m.subtype + Serialized(m.parameters, false)
  }

  /** toStringNoCharset: the same, leaving out the charset parameter. */
  function ToStringNoCharset(m: MediaType): string {
    m.primaryType + "/" + m.subtype + Serialized(m.parameters, true)
  }

  /** The serialised parameters are the unpadded segments of the visible ones. */
  lemma {:induction false} SerializedSegments(ps: seq<Parameter>, dropCharset: bool)
    ensures Serialized(ps, dropCharset) == SegmentsText("", Visible(ps, dropCharset))
    decreases |ps|
  {
    if ps != [] {
      SerializedSegments(ps[1..], dropCharset);
      if Shown(ps[0], dropCharset) {
        var p := ps[0];
        var rest := Serialized(ps[1..], dropCharset);
        assert SegmentThen("", p, rest) == ";" + p.name + "=" + p.value + rest;
        assert ([p] + Visible(ps[1..], dropCharset))[1..] == Visible(ps[1..], dropCharset);
      }
    }
  }

  /** The parameters with the given name removed. */
  function Without(ps: seq<Parameter>, name: string): (r: seq<Parameter>)
    decreases |ps|
    ensures name !in Names(r)
    ensures forall n :: n != name ==> Lookup(r, n) == Lookup(ps, n)
  {
    if ps == [] then []
    else if ps[0].name == name then Without(ps[1..], name)
    else
      var tail := Without(ps[1..], name);
      assert Names([ps[0]] + tail) == [ps[0].name] + Names(tail);
      [ps[0]] + tail
  }

  /** toStringNoCharset is toString of the same media type without its charset
      parameter, and what it writes has no charset parameter in it. */
  lemma {:induction false} NoCharsetIsWithoutCharset(ps: seq<Parameter>)
    ensures Serialized(ps, true) == Serialized(Without(ps, "charset"), false)
    ensures "charset" !in Names(Visible(ps, true))
    decreases |ps|
  {
    if ps != [] {
      NoCharsetIsWithoutCharset(ps[1..]);
      var v := Visible(ps, true);
      if Shown(ps[0], true) {
        assert v == [ps[0]] + Visible(ps[1..], true);
        assert Names(v) == [ps[0].name] + Names(Visible(ps[1..], true));
      }
    }
  }

  // ---------------------------------------------------------------------------
  // Well-formed media types: what the parser produces

  predicate WellFormedParameter(p: Parameter) {
    IsToken(p.name) && ToLower(p.name) == p.name && (p.value == "" || IsValueText(p.value))
  }

  predicate WellFormedParameters(ps: seq<Parameter>) {
    UniqueNames(ps) && forall p | p in ps :: WellFormedParameter(p)
  }

  predicate WellFormed(m: MediaType) {
    IsToken(m.primaryType) && IsToken(m.subtype) && WellFormedParameters(m.parameters)
  }
}
