/** The lexical layer of the media-type parser (Tomcat's HttpParser helpers):
    linear whitespace, tokens and quoted-strings. Each scanner is a pure function of
    the characters that remain to be read; the cursor-based reader in reader.dfy is
    proved to agree with them. */
module HttpParser {
  import opened Wrappers

  /** Linear whitespace: space, horizontal tab, carriage return and line feed. */
  predicate IsLws(c: char) {
    c == ' ' || c == '\t' || c == '\r' || c == '\n'
  }

  /** The separators of section 2.2 of RFC 2616 (the delimiters of section 5.6.2 of RFC 9110). */
  predicate IsSeparator(c: char) {
    c == '(' || c == ')' || c == '<' || c == '>' || c == '@' || c == ',' || c == ';' ||
    c == ':' || c == '\\' || c == '"' || c == '/' || c == '[' || c == ']' || c == '?' ||
    c == '=' || c == '{' || c == '}'
  }

  /** A token character: a visible US-ASCII character (no control, no whitespace,
      nothing above '~') that is not a separator. */
  predicate IsTokenChar(c: char) {
    ' ' < c <= '~' && !IsSeparator(c)
  }

  /** Token characters and linear whitespace are disjoint. */
  lemma TokenCharNotLws(c: char)
    requires IsTokenChar(c)
    ensures !IsLws(c)
  {
  }

  predicate AllLws(s: string)
    decreases |s|
  {
    s == [] || (IsLws(s[0]) && AllLws(s[1..]))
  }

  predicate AllTokenChars(s: string)
    decreases |s|
  {
    s == [] || (IsTokenChar(s[0]) && AllTokenChars(s[1..]))
  }

  /** A token is a non-empty run of token characters. */
  predicate IsToken(s: string) {
    s != [] && AllTokenChars(s)
  }

  lemma {:induction false} AllLwsConcat(a: string, b: string)
    ensures AllLws(a + b) <==> AllLws(a) && AllLws(b)
  {
    if a != [] {
      assert (a + b)[0] == a[0];
      assert (a + b)[1..] == a[1..] + b;
      AllLwsConcat(a[1..], b);
    } else {
      assert a + b == b;
    }
  }

  lemma {:induction false} AllTokenCharsAt(s: string, k: nat)
    requires AllTokenChars(s) && k < |s|
    ensures IsTokenChar(s[k])
  {
    if k > 0 {
      AllTokenCharsAt(s[1..], k - 1);
    }
  }

  /** A text made only of token characters, checked one position at a time. */
  lemma {:induction false} AllTokenCharsEach(s: string)
    requires forall i | 0 <= i < |s| :: IsTokenChar(s[i])
    ensures AllTokenChars(s)
    decreases |s|
  {
    if s != [] {
      assert forall i | 0 <= i < |s| - 1 :: s[1..][i] == s[i + 1];
      AllTokenCharsEach(s[1..]);
    }
  }

  // ---------------------------------------------------------------------------
  // Linear whitespace

  /** What remains after skipping linear whitespace: the longest suffix reached by
      dropping space, tab, CR and LF from the front. */
  function SkipLws(s: string): (r: string)
    decreases |s|
    ensures |r| <= |s|
    ensures r != [] ==> !IsLws(r[0])
  {
    if s != [] && IsLws(s[0]) then SkipLws(s[1..]) else s
  }

  /** What SkipLws skips is a run of linear whitespace at the front of s. */
  lemma {:induction false} SkipLwsShape(s: string)
    ensures SkipLws(s) == s[|s| - |SkipLws(s)|..]
    ensures AllLws(s[..|s| - |SkipLws(s)|])
    decreases |s|
  {
    if s != [] && IsLws(s[0]) {
      SkipLwsShape(s[1..]);
      var r := SkipLws(s);
      assert s[..|s| - |r|][1..] == s[1..][..|s| - 1 - |r|];
    } else {
      assert s[..0] == [];
    }
  }

  /** Skipping stops exactly after a run of whitespace followed by anything else. */
  lemma {:induction false} SkipLwsOver(w: string, r: string)
    requires AllLws(w)
    requires r == [] || !IsLws(r[0])
    ensures SkipLws(w + r) == r
  {
    var s := w + r;
    if w == [] {
      assert s == r;
    } else {
      assert s[0] == w[0];
      assert s[1..] == w[1..] + r;
      assert SkipLws(s) == SkipLws(s[1..]);
      SkipLwsOver(w[1..], r);
    }
  }

  /** Whitespace in front of the text is skipped along with whatever the text starts
      with. */
  lemma {:induction false} SkipLwsPrefix(w: string, r: string)
    requires AllLws(w)
    ensures SkipLws(w + r) == SkipLws(r)
  {
    var s := w + r;
    if w == [] {
      assert s == r;
    } else {
      assert s[0] == w[0];
      assert s[1..] == w[1..] + r;
      assert SkipLws(s) == SkipLws(s[1..]);
      SkipLwsPrefix(w[1..], r);
    }
  }

  // ---------------------------------------------------------------------------
  // Tokens

  /** The longest run of token characters at the front of s (empty when s does not
      start with one). */
  function TokenPrefix(s: string): (t: string)
    decreases |s|
    ensures |t| <= |s|
    ensures AllTokenChars(t)
    ensures |t| < |s| ==> !IsTokenChar(s[|t|])
  {
    if s != [] && IsTokenChar(s[0]) then
      var t := TokenPrefix(s[1..]);
      assert ([s[0]] + t)[1..] == t;
      [s[0]] + t
    else
      []
  }

  /** The token read is the front of s. */
  lemma {:induction false} TokenPrefixShape(s: string)
    ensures TokenPrefix(s) == s[..|TokenPrefix(s)|]
    decreases |s|
  {
    if s != [] && IsTokenChar(s[0]) {
      TokenPrefixShape(s[1..]);
    }
  }

  /** A token followed by a non-token character (or the end) is read whole. */
  lemma {:induction false} TokenPrefixOver(t: string, r: string)
    requires AllTokenChars(t)
    requires r == [] || !IsTokenChar(r[0])
    ensures TokenPrefix(t + r) == t
  {
    if t == [] {
      assert t + r == r;
    } else {
      assert (t + r)[0] == t[0];
      assert (t + r)[1..] == t[1..] + r;
      TokenPrefixOver(t[1..], r);
      assert [t[0]] + t[1..] == t;
    }
  }

  // ---------------------------------------------------------------------------
  // Quoted strings

  /** The text between the quotes of a quoted-string: characters other than '"' and
      '\', or a backslash followed by any character (a quoted-pair). */
  predicate QuotedBody(b: string)
    decreases |b|
  {
    if b == [] then true
    else if b[0] == '\\' then |b| >= 2 && QuotedBody(b[2..])
    else b[0] != '"' && QuotedBody(b[1..])
  }

  predicate IsQuotedString(q: string) {
    |q| >= 2 && q[0] == '"' && q[|q| - 1] == '"' && QuotedBody(q[1..|q| - 1])
  }

  /** A parameter value as the parser reads it: a token or a quoted-string. */
  predicate IsValueText(v: string) {
    IsToken(v) || IsQuotedString(v)
  }

  /** A body with neither a quote nor a backslash in it. */
  lemma {:induction false} QuotedBodyPlain(b: string)
    requires forall i | 0 <= i < |b| :: b[i] != '"' && b[i] != '\\'
    ensures QuotedBody(b)
    decreases |b|
  {
    if b != [] {
      assert forall i | 0 <= i < |b| - 1 :: b[1..][i] == b[i + 1];
      QuotedBodyPlain(b[1..]);
    }
  }

  /** A body between two quotes is a quoted-string. */
  lemma QuotedOf(b: string)
    requires QuotedBody(b)
    ensures IsQuotedString("\"" + b + "\"")
  {
    var q := "\"" + b + "\"";
    assert q[1..|q| - 1] == b;
  }

  /** The index of the quote that closes a quoted-string whose opening quote has been
      read, skipping every escaped character; None when the input ends first. */
  function ClosingQuote(s: string): (r: Option<nat>)
    decreases |s|
    ensures r.Some? ==> r.value < |s| && s[r.value] == '"' && QuotedBody(s[..r.value])
  {
    if s == [] then None
    else if s[0] == '"' then
      assert s[..0] == [];
      Some(0)
    else if s[0] == '\\' then
      if |s| < 2 then None
      else
        match ClosingQuote(s[2..])
        case None => None
        case Some(n) =>
          assert s[..n + 2][2..] == s[2..][..n];
          Some(n + 2)
    else
      match ClosingQuote(s[1..])
      case None => None
      case Some(n) =>
        assert s[..n + 1][1..] == s[1..][..n];
        Some(n + 1)
  }

  /** The closing quote found is the first quote not inside a quoted-pair. */
  lemma {:induction false} ClosingQuoteOver(b: string, r: string)
    requires QuotedBody(b)
    ensures ClosingQuote(b + ['"'] + r) == Some(|b|)
  {
    var s := b + ['"'] + r;
    if b == [] {
      assert s[0] == '"';
    } else if b[0] == '\\' {
      assert s[0] == '\\' && |s| >= 2;
      assert s[2..] == b[2..] + ['"'] + r;
      ClosingQuoteOver(b[2..], r);
    } else {
      assert s[0] == b[0];
      assert s[1..] == b[1..] + ['"'] + r;
      ClosingQuoteOver(b[1..], r);
    }
  }

  /** The raw quoted-string at the front of s (s starts with '"'), quotes and
      backslashes kept; None when it is not terminated. */
  function QuotedPrefix(s: string): (r: Option<string>)
    requires s != [] && s[0] == '"'
    ensures r.Some? ==> |r.value| <= |s| && r.value == s[..|r.value|] && IsQuotedString(r.value)
  {
    match ClosingQuote(s[1..])
    case None => None
    case Some(n) =>
      assert s[..n + 2][1..n + 1] == s[1..][..n];
      Some(s[..n + 2])
  }

  /** A well-formed quoted-string is read whole, whatever follows it. */
  lemma QuotedPrefixOver(q: string, r: string)
    requires IsQuotedString(q)
    ensures QuotedPrefix(q + r) == Some(q)
  {
    var b := q[1..|q| - 1];
    assert q == q[..1] + b + q[|q| - 1..];
    assert (q + r)[1..] == b + ['"'] + r;
    ClosingQuoteOver(b, r);
    assert (q + r)[..|b| + 2] == q;
  }

  /** Resolves the quoted-pairs of a quoted-string body: "\x" becomes "x". */
  function Unescape(b: string): string
    decreases |b|
  {
    if b == [] then []
    else if b[0] == '\\' && |b| >= 2 then [b[1]] + Unescape(b[2..])
    else [b[0]] + Unescape(b[1..])
  }

  /** The reverse direction: a backslash before every '"' and '\', giving a body whose
      unescaping is the original text. */
  function Escape(x: string): (b: string)
    decreases |x|
    ensures QuotedBody(b)
    ensures Unescape(b) == x
  {
    if x == [] then []
    else
      var rest := Escape(x[1..]);
      if x[0] == '"' || x[0] == '\\' then
        assert (['\\', x[0]] + rest)[2..] == rest;
        ['\\', x[0]] + rest
      else
        assert ([x[0]] + rest)[1..] == rest;
        [x[0]] + rest
  }

  /** The quoted-string whose content is x. */
  function Quote(x: string): (q: string)
    ensures IsQuotedString(q)
  {
    var q := ['"'] + Escape(x) + ['"'];
    assert q[1..|q| - 1] == Escape(x);
    q
  }

  /** The value behind a raw parameter value: a quoted-string loses its quotes and its
      quoted-pairs are resolved; anything else is returned as it is. */
  function Unquote(v: string): string {
    if IsQuotedString(v) then Unescape(v[1..|v| - 1]) else v
  }

  /** Unquoting a quoted-string gives back the text that was quoted, including any
      whitespace, quotes or backslashes inside it. */
  lemma UnquoteQuote(x: string)
    ensures Unquote(Quote(x)) == x
  {
    var q := Quote(x);
    assert q[1..|q| - 1] == Escape(x);
  }

  /** Text without backslashes has nothing to unescape. */
  lemma {:induction false} UnescapePlain(b: string)
    requires forall i | 0 <= i < |b| :: b[i] != '\\'
    ensures Unescape(b) == b
    decreases |b|
  {
    if b != [] {
      UnescapePlain(b[1..]);
      assert [b[0]] + b[1..] == b;
    }
  }

  /** A quoted-string whose body has no backslash unquotes to its body. */
  lemma UnquotePlain(b: string)
    requires QuotedBody(b)
    requires forall i | 0 <= i < |b| :: b[i] != '\\'
    ensures Unquote("\"" + b + "\"") == b
  {
    QuotedOf(b);
    var q := "\"" + b + "\"";
    assert q[1..|q| - 1] == b;
    UnescapePlain(b);
  }

  /** A token is never a quoted-string, so unquoting leaves it alone. */
  lemma UnquoteToken(t: string)
    requires IsToken(t)
    ensures Unquote(t) == t
  {
    AllTokenCharsAt(t, 0);
  }

  // ---------------------------------------------------------------------------
  // String.trim(), as the tests use it to state expected values

  /** Drops the leading characters at or below U+0020. */
  function TrimLeading(s: string): (r: string)
    decreases |s|
    ensures |r| <= |s| && r == s[|s| - |r|..]
    ensures r != [] ==> r[0] > ' '
  {
    if s != [] && s[0] <= ' ' then TrimLeading(s[1..]) else s
  }

  /** Drops the trailing characters at or below U+0020. */
  function TrimTrailing(s: string): (r: string)
    decreases |s|
    ensures |r| <= |s| && r == s[..|r|]
    ensures r != [] ==> r[|r| - 1] > ' '
  {
    if s != [] && s[|s| - 1] <= ' ' then TrimTrailing(s[..|s| - 1]) else s
  }

  /** Java's String.trim(). */
  function Trim(s: string): string {
    TrimTrailing(TrimLeading(s))
  }

  /** TrimLeading drops only characters at or below U+0020. */
  lemma {:induction false} TrimLeadingDrops(s: string)
    ensures forall i | 0 <= i < |s| - |TrimLeading(s)| :: s[i] <= ' '
    decreases |s|
  {
    if s != [] && s[0] <= ' ' {
      TrimLeadingDrops(s[1..]);
      forall i | 0 <= i < |s| - |TrimLeading(s)|
        ensures s[i] <= ' '
      {
        if i > 0 {
          assert s[i] == s[1..][i - 1];
        }
      }
    }
  }

  /** TrimTrailing drops only characters at or below U+0020. */
  lemma {:induction false} TrimTrailingDrops(s: string)
    ensures forall i | |TrimTrailing(s)| <= i < |s| :: s[i] <= ' '
    decreases |s|
  {
    if s != [] && s[|s| - 1] <= ' ' {
      TrimTrailingDrops(s[..|s| - 1]);
      forall i | |TrimTrailing(s)| <= i < |s|
        ensures s[i] <= ' '
      {
        if i < |s| - 1 {
          assert s[i] == s[..|s| - 1][i];
        }
      }
    }
  }

  /** A prefix r of a suffix lead of s sits in s just where lead starts. */
  lemma PrefixOfSuffix(s: string, lead: string, r: string)
    requires |lead| <= |s| && lead == s[|s| - |lead|..]
    requires |r| <= |lead| && r == lead[..|r|]
    ensures r == s[|s| - |lead|..|s| - |lead| + |r|]
    ensures forall i | |s| - |lead| + |r| <= i < |s| :: s[i] == lead[i - (|s| - |lead|)]
  {
  }

  /** trim() returns the middle of s: what it drops on either side are characters at
      or below U+0020. */
  lemma TrimDrops(s: string)
    ensures |s| - |TrimLeading(s)| + |Trim(s)| <= |s|
    ensures Trim(s) == s[|s| - |TrimLeading(s)|..|s| - |TrimLeading(s)| + |Trim(s)|]
    ensures forall i | 0 <= i < |s| - |TrimLeading(s)| :: s[i] <= ' '
    ensures forall i | |s| - |TrimLeading(s)| + |Trim(s)| <= i < |s| :: s[i] <= ' '
  {
    var lead := TrimLeading(s);
    var r := TrimTrailing(lead);
    TrimLeadingDrops(s);
    TrimTrailingDrops(lead);
    PrefixOfSuffix(s, lead, r);
  }

  /** Neither end of what trim() keeps is a character at or below U+0020. */
  lemma TrimEnds(s: string)
    ensures Trim(s) != [] ==> Trim(s)[0] > ' ' && Trim(s)[|Trim(s)| - 1] > ' '
  {
    var lead := TrimLeading(s);
    var r := TrimTrailing(lead);
    if r != [] {
      assert r == lead[..|r|];
      assert r[0] == lead[0];
    }
  }

  /** The characters trim() removes around s are all linear whitespace. */
  predicate LwsPadded(s: string) {
    var lead := TrimLeading(s);
    AllLws(s[..|s| - |lead|]) && AllLws(lead[|Trim(s)|..])
  }

  /** A padded string is its leading whitespace, its trimmed core and its trailing
      whitespace. */
  lemma LwsPaddedSplit(s: string) returns (lead: string, trail: string)
    requires LwsPadded(s)
    ensures s == lead + Trim(s) + trail
    ensures AllLws(lead) && AllLws(trail)
  {
    var l := TrimLeading(s);
    var t := TrimTrailing(l);
    lead := s[..|s| - |l|];
    trail := l[|t|..];
    assert l == t + trail by {
      SplitAt(l, |t|);
    }
    assert s == lead + l by {
      SplitAt(s, |s| - |l|);
    }
    ConcatAssoc(lead, t, trail);
  }

  lemma SplitAt(s: string, k: nat)
    requires k <= |s|
    ensures s == s[..k] + s[k..]
  {
  }

  lemma ConcatAssoc(a: string, b: string, c: string)
    ensures a + (b + c) == a + b + c
  {
  }

  lemma {:induction false} TrimLeadingOver(w: string, c: string)
    requires AllLws(w)
    requires c == [] || c[0] > ' '
    ensures TrimLeading(w + c) == c
  {
    var s := w + c;
    if w == [] {
      assert s == c;
    } else {
      assert s[0] == w[0];
      assert s[1..] == w[1..] + c;
      assert TrimLeading(s) == TrimLeading(s[1..]);
      TrimLeadingOver(w[1..], c);
    }
  }

  lemma {:induction false} TrimTrailingOver(c: string, w: string)
    requires AllLws(w)
    requires c == [] || c[|c| - 1] > ' '
    ensures TrimTrailing(c + w) == c
    decreases |w|
  {
    if w == [] {
      assert c + w == c;
    } else {
      var last := |w| - 1;
      assert AllLws(w[..last]) && IsLws(w[last]) by {
        assert w == w[..last] + [w[last]];
        AllLwsConcat(w[..last], [w[last]]);
      }
      assert (c + w)[..|c + w| - 1] == c + w[..last];
      TrimTrailingOver(c, w[..last]);
    }
  }

  /** trim() of a value padded with linear whitespace is the value itself, provided
      the value neither starts nor ends with a character at or below U+0020. */
  lemma TrimPadded(w1: string, c: string, w2: string)
    requires AllLws(w1) && AllLws(w2)
    requires c != [] && c[0] > ' ' && c[|c| - 1] > ' '
    ensures Trim(w1 + c + w2) == c
    ensures LwsPadded(w1 + c + w2)
  {
    var s := w1 + c + w2;
    ConcatAssoc(w1, c, w2);
    TrimLeadingOver(w1, c + w2);
    TrimTrailingOver(c, w2);
    assert s[..|s| - |c + w2|] == w1;
    assert (c + w2)[|c|..] == w2;
  }

  /** Tokens and quoted-strings neither start nor end with whitespace or a control. */
  lemma ValueTextEnds(v: string)
    requires IsValueText(v)
    ensures v != [] && v[0] > ' ' && v[|v| - 1] > ' '
  {
    if IsToken(v) {
      AllTokenCharsAt(v, 0);
      AllTokenCharsAt(v, |v| - 1);
    }
  }
}
