/** The character stream the parser consumes (a StringReader over the header text)
    together with the HttpParser operations that advance it: skipping linear
    whitespace, reading a token and reading a raw quoted-string. Each scanning loop
    works on the text and an index and is proved to stop exactly where the
    corresponding pure scanner of HttpParser says; the reader's methods move its
    cursor by what those loops return. */
module Reader {
  import opened Wrappers
  import opened HttpParser

  /** o shifted by d positions. */
  function Offset(o: Option<nat>, d: nat): Option<nat> {
    match o
    case None => None
    case Some(n) => Some(n + d)
  }

  /** The index just after the run of linear whitespace that starts at index start. */
  method ScanLws(s: string, start: nat) returns (i: nat)
    requires start <= |s|
    ensures start <= i <= |s|
    ensures s[i..] == HttpParser.SkipLws(s[start..])
  {
    i := start;
    while i < |s| && IsLws(s[i])
      invariant start <= i <= |s|
      invariant HttpParser.SkipLws(s[i..]) == HttpParser.SkipLws(s[start..])
      decreases |s| - i
    {
      LwsAdvance(s, i);
      i := i + 1;
    }
    LwsStop(s, i);
  }

  lemma LwsStop(s: string, i: nat)
    requires i <= |s| && (i == |s| || !IsLws(s[i]))
    ensures HttpParser.SkipLws(s[i..]) == s[i..]
  {
    if i < |s| {
      assert s[i..][0] == s[i];
    }
  }

  /** The index just after the run of token characters that starts at index start. */
  method ScanToken(s: string, start: nat) returns (i: nat)
    requires start <= |s|
    ensures start <= i <= |s|
    ensures s[start..i] == TokenPrefix(s[start..])
  {
    i := start;
    TokenStart(s, i);
    while i < |s| && IsTokenChar(s[i])
      invariant start <= i <= |s|
      invariant TokenPrefix(s[start..]) == s[start..i] + TokenPrefix(s[i..])
      decreases |s| - i
    {
      TokenAdvance(s, start, i);
      i := i + 1;
    }
    TokenDone(s, start, i);
  }

  /** The index just after the quote that closes the quoted-string opened at index
      start; None when the text ends first. */
  method ScanQuoted(s: string, start: nat) returns (r: Option<nat>)
    requires start < |s| && s[start] == '"'
    ensures r.None? <==> QuotedPrefix(s[start..]).None?
    ensures r.Some? ==> start < r.value <= |s| && QuotedPrefix(s[start..]) == Some(s[start..r.value])
  {
    var i := start + 1;
    OffsetZero(ClosingQuote(s[i..]));
    while i < |s| && s[i] != '"'
      invariant start < i <= |s|
      invariant QuoteScanned(s, start, i)
      decreases |s| - i
    {
      // a backslash skips the character it escapes, when there is one
      var step := if s[i] == '\\' && i + 1 < |s| then 2 else 1;
      QuotedAdvance(s, start, i, step);
      i := i + step;
    }
    QuotedFinish(s, start, i);
    r := if i == |s| then None else Some(i + 1);
  }

  /** The scan from index start + 1 has reached index i without finding the
      closing quote: the closing quote of the whole body is the one of the rest. */
  ghost predicate QuoteScanned(s: string, start: nat, i: nat)
    requires start < i <= |s|
  {
    ClosingQuote(s[start + 1..]) == Offset(ClosingQuote(s[i..]), i - start - 1)
  }

  /** Where the quoted-string scan stops decides its result. */
  lemma QuotedFinish(s: string, start: nat, i: nat)
    requires start < i <= |s| && s[start] == '"'
    requires i == |s| || s[i] == '"'
    requires QuoteScanned(s, start, i)
    ensures i == |s| ==> QuotedPrefix(s[start..]).None?
    ensures i < |s| ==> QuotedPrefix(s[start..]) == Some(s[start..i + 1])
  {
    if i == |s| {
      QuotedNone(s, start);
    } else {
      QuotedDone(s, start, i);
    }
  }

  lemma LwsAdvance(s: string, i: nat)
    requires i < |s| && IsLws(s[i])
    ensures HttpParser.SkipLws(s[i..]) == HttpParser.SkipLws(s[i + 1..])
  {
    var t := s[i..];
    assert t[0] == s[i] && t[1..] == s[i + 1..];
  }

  /** Reading one more token character keeps "what was read plus what the scanner
      would still read" equal to the whole token. */
  lemma TokenAdvance(s: string, start: nat, i: nat)
    requires start <= i < |s| && IsTokenChar(s[i])
    requires TokenPrefix(s[start..]) == s[start..i] + TokenPrefix(s[i..])
    ensures TokenPrefix(s[start..]) == s[start..i + 1] + TokenPrefix(s[i + 1..])
  {
    var rest := TokenPrefix(s[i + 1..]);
    assert TokenPrefix(s[i..]) == [s[i]] + rest by {
      var t := s[i..];
      assert t[0] == s[i] && t[1..] == s[i + 1..];
    }
    assert s[start..i + 1] == s[start..i] + [s[i]];
    ConcatAssoc(s[start..i], [s[i]], rest);
  }

  lemma TokenStart(s: string, i: nat)
    requires i <= |s|
    ensures TokenPrefix(s[i..]) == s[i..i] + TokenPrefix(s[i..])
  {
    assert s[i..i] == [];
  }

  /** Reading stops at the first non-token character: what was read is the token. */
  lemma TokenDone(s: string, start: nat, i: nat)
    requires start <= i <= |s|
    requires i == |s| || !IsTokenChar(s[i])
    requires TokenPrefix(s[start..]) == s[start..i] + TokenPrefix(s[i..])
    ensures TokenPrefix(s[start..]) == s[start..i]
    ensures s[start..][|s[start..i]|..] == s[i..]
  {
    assert TokenPrefix(s[i..]) == [];
    assert s[start..i] + [] == s[start..i];
  }

  /** An unterminated scan leaves nothing to return. */
  lemma QuotedNone(s: string, start: nat)
    requires start < |s| && s[start] == '"'
    requires ClosingQuote(s[start + 1..]) == None
    ensures QuotedPrefix(s[start..]) == None
  {
    assert s[start..][1..] == s[start + 1..];
  }

  /** The scan stopped on the closing quote at index i. */
  lemma QuotedDone(s: string, start: nat, i: nat)
    requires start < i < |s| && s[start] == '"' && s[i] == '"'
    requires ClosingQuote(s[start + 1..]) == Offset(ClosingQuote(s[i..]), i - start - 1)
    ensures QuotedPrefix(s[start..]) == Some(s[start..i + 1])
    ensures s[start..][i + 1 - start..] == s[i + 1..]
  {
    assert s[start..][1..] == s[start + 1..];
    assert ClosingQuote(s[i..]) == Some(0);
    assert s[start..][..i + 1 - start] == s[start..i + 1];
  }

  /** One step of the quoted-string scan: skipping an ordinary character, or a
      backslash with the character it escapes, shifts the closing quote's index. */
  lemma QuotedAdvance(s: string, start: nat, i: nat, step: nat)
    requires start < i < |s| && s[i] != '"'
    requires step == (if s[i] == '\\' && i + 1 < |s| then 2 else 1)
    requires QuoteScanned(s, start, i)
    ensures i + step <= |s| && QuoteScanned(s, start, i + step)
  {
    var t := s[i..];
    assert t[0] == s[i] && t[step..] == s[i + step..];
    var x := ClosingQuote(s[i + step..]);
    assert ClosingQuote(t) == Offset(x, step);
    var whole := ClosingQuote(s[start + 1..]);
    assert whole == Offset(Offset(x, step), i - start - 1);
    OffsetAdd(x, step, i - start - 1);
  }

  lemma OffsetZero(o: Option<nat>)
    ensures Offset(o, 0) == o
  {
  }

  lemma OffsetAdd(o: Option<nat>, a: nat, b: nat)
    ensures Offset(Offset(o, a), b) == Offset(o, a + b)
  {
  }

  class StringReader {
    const input: string
    var pos: nat

    ghost predicate Valid()
      reads this
    {
      pos <= |input|
    }

    constructor (s: string)
      ensures Valid() && input == s && pos == 0
    {
      input := s;
      pos := 0;
    }

    /** The next character without consuming it; None at the end of the stream. */
    method Peek() returns (c: Option<char>)
      requires Valid()
      ensures c.None? <==> pos == |input|
      ensures c.Some? ==> c.value == input[pos]
    {
      if pos < |input| {
        c := Some(input[pos]);
      } else {
        c := None;
      }
    }

    /** Consumes one character. */
    method Advance()
      requires Valid() && pos < |input|
      modifies this`pos
      ensures Valid() && input[pos..] == input[old(pos)..][1..]
    {
      pos := pos + 1;
    }

    /** Consumes any run of space, tab, CR and LF. */
    method SkipLws()
      requires Valid()
      modifies this`pos
      ensures Valid() && input[pos..] == HttpParser.SkipLws(input[old(pos)..])
    {
      pos := ScanLws(input, pos);
    }

    /** Reads the longest run of token characters (possibly empty). */
    method ReadToken() returns (t: string)
      requires Valid()
      modifies this`pos
      ensures Valid()
      ensures t == TokenPrefix(input[old(pos)..])
      ensures input[pos..] == input[old(pos)..][|t|..]
    {
      var start := pos;
      pos := ScanToken(input, start);
      t := input[start..pos];
      assert input[start..][|t|..] == input[pos..];
    }

    /** Reads a quoted-string whose opening quote is the next character, keeping the
        quotes and every backslash; None when the stream ends before the closing quote
        (the position is then left where it was, as the parse is abandoned). */
    method ReadQuotedString() returns (q: Option<string>)
      requires Valid() && pos < |input| && input[pos] == '"'
      modifies this`pos
      ensures Valid()
      ensures q == QuotedPrefix(input[old(pos)..])
      ensures q.Some? ==> input[pos..] == input[old(pos)..][|q.value|..]
      ensures q.None? ==> pos == old(pos)
    {
      var start := pos;
      var r := ScanQuoted(input, start);
      match r
      case None =>
        q := None;
      case Some(end) =>
        q := Some(input[start..end]);
        pos := end;
        assert input[start..][end - start..] == input[end..];
    }
  }
}
