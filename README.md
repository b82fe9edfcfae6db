# Tomcat media-type parsing and serialisation, in Dafny

This project models the media-type parser of Tomcat's
`org.apache.tomcat.util.http.parser` package as its unit test
`TestMediaType.java` pins it down. `MediaType.parseMediaType` reads a header
value of the form `type "/" subtype *( ";" [ name [ "=" value ] ] )` from a
`StringReader`, in the grammar of section 3.7 of RFC 2616. It relies on the
`HttpParser` helpers that:

- skip linear whitespace (space, tab, CR and LF);
- read a token;
- read a quoted-string raw, keeping its quotes and backslashes.

The result is a `MediaType`, which holds:

- the type;
- the subtype;
- the parameters, in insertion order, with names in lower case.

Its accessors are `getType`, `getSubtype`, `getParameterCount`,
`getParameterValue` (which ignores case), `getCharset` (which unquotes),
`toString` and `toStringNoCharset`.

The modules follow that structure:

- `HttpParser` (`http_parser.dfy`): the lexical layer as pure functions of the
  text that remains to be read (`SkipLws`, `TokenPrefix`, `QuotedPrefix`). It
  also holds quoting and unquoting (`Quote`, `Unquote`) and Java's
  `String.trim()`, which the test uses to state its expectations.
- `Reader` (`reader.dfy`): the `StringReader` as a class with the input text
  and a cursor. Its scanning loops (`ScanLws`, `ScanToken`, `ScanQuoted`) are
  proved to stop exactly where the pure scanners say.
- `MediaTypes` (`media_type.dfy`): the `MediaType` value. It covers the
  insertion-ordered parameter map (`Put` has `LinkedHashMap.put` semantics),
  the accessors, and the two serialised forms.
- `MediaTypeParser` (`media_type_parser.dfy`): the grammar as a function
  `Parse`, and `ParseMediaType`, the cursor-driven parser over a
  `StringReader`, proved equal to it. It also holds the general properties:
  - padding is ignored (any whitespace around the type and the subtype, and one
    whitespace string at every position of every segment, as doTest writes it);
  - empty segments are skipped;
  - a bare name is stored with the empty value;
  - the result is well formed;
  - `toString` and `toStringNoCharset` parse back.
- `TestMediaType` (`test_media_type.dfy`): the test itself. It covers:
  - the input builder `Parameter.toString(lws)`;
  - the `doTest` loops over the whitespace variants and over the parameters;
  - every `@Test` method, as a method whose postconditions are the test's
    assertions.

Two things are decisions rather than facts shown in the test:

- A parse that fails returns a `ParseError` that says why. The errors are:
  - no type;
  - no `/`;
  - no subtype;
  - a segment that starts with neither a token nor `;`;
  - a `=` followed by neither a token nor a quoted-string;
  - a quoted-string that is not closed.
- Text after the parameters that does not start with `;` ends the parse, and
  the parse still succeeds.

## Model

| member | source | states |
|---|---|---|
| HttpParser.SkipLws | test/org/apache/tomcat/util/http/parser/TestMediaType.java:31-35 | what remains after skipping is no longer than the text and does not start with linear whitespace |
| HttpParser.SkipLwsShape | test/org/apache/tomcat/util/http/parser/TestMediaType.java:31-35 | what is skipped is a run of space, tab, CR and LF at the front of the text, and what remains is the rest of the text |
| HttpParser.SkipLwsOver | test/org/apache/tomcat/util/http/parser/TestMediaType.java:63-65 | any run of linear whitespace followed by another character or by the end is skipped exactly up to that point |
| HttpParser.SkipLwsPrefix | test/org/apache/tomcat/util/http/parser/TestMediaType.java:31-35 | whitespace put in front of a text changes nothing about what remains after skipping |
| HttpParser.TokenPrefix | test/org/apache/tomcat/util/http/parser/TestMediaType.java:26-27 | the token read consists of token characters, and the character after it, if any, is not a token character (it is the longest such run) |
| HttpParser.TokenPrefixShape | test/org/apache/tomcat/util/http/parser/TestMediaType.java:26-27 | the token read is the front of the text |
| HttpParser.TokenPrefixOver | test/org/apache/tomcat/util/http/parser/TestMediaType.java:26-27 | a token followed by a non-token character or by the end is read whole |
| HttpParser.ClosingQuote | test/org/apache/tomcat/util/http/parser/TestMediaType.java:39-46 | the closing quote found is a quote, and everything before it is a valid body (plain characters and backslash pairs) |
| HttpParser.ClosingQuoteOver | test/org/apache/tomcat/util/http/parser/TestMediaType.java:45-46 | after a valid body, the next quote closes the string, so `;`, `=` and `,` inside the quotes are not delimiters |
| HttpParser.QuotedPrefix | test/org/apache/tomcat/util/http/parser/TestMediaType.java:39-46 | the quoted-string read is the front of the text and is a well-formed quoted-string, quotes and backslashes kept |
| HttpParser.QuotedPrefixOver | test/org/apache/tomcat/util/http/parser/TestMediaType.java:183-185 | a well-formed quoted-string is read whole and verbatim, whatever follows it |
| HttpParser.QuotedOf | test/org/apache/tomcat/util/http/parser/TestMediaType.java:39-46 | a valid body between two quotes is a quoted-string |
| HttpParser.Escape | test/org/apache/tomcat/util/http/parser/TestMediaType.java:39-40 | escaping yields a valid body whose unescaping is the original text |
| HttpParser.Quote | test/org/apache/tomcat/util/http/parser/TestMediaType.java:51-52 | quoting any text yields a well-formed quoted-string |
| HttpParser.UnquoteQuote | test/org/apache/tomcat/util/http/parser/TestMediaType.java:51-52 | unquoting a quoted text gives back exactly that text, including whitespace, quotes and backslashes inside it |
| HttpParser.UnescapePlain | test/org/apache/tomcat/util/http/parser/TestMediaType.java:160 | text without backslashes has nothing to unescape |
| HttpParser.UnquotePlain | test/org/apache/tomcat/util/http/parser/TestMediaType.java:160 | a quoted-string whose body has no backslash unquotes to its body |
| HttpParser.UnquoteToken | test/org/apache/tomcat/util/http/parser/TestMediaType.java:146 | a token is not a quoted-string, so unquoting leaves it unchanged |
| HttpParser.Unescape | test/org/apache/tomcat/util/http/parser/TestMediaType.java:146-160 | removes one backslash from each backslash pair; its contract is carried by Escape (unescaping an escaped text gives the text back) and UnescapePlain |
| HttpParser.Unquote | test/org/apache/tomcat/util/http/parser/TestMediaType.java:146-160 | getCharset's unquoting: a quoted-string loses its quotes and escapes, anything else is left alone; its contract is carried by UnquoteQuote, UnquotePlain and UnquoteToken |
| HttpParser.TrimLeading | test/org/apache/tomcat/util/http/parser/TestMediaType.java:259-264 | the result is a suffix of the text and does not start with a character at or below U+0020; TrimLeadingDrops says that everything dropped is such a character |
| HttpParser.TrimTrailing | test/org/apache/tomcat/util/http/parser/TestMediaType.java:259-264 | the result is a prefix of the text and does not end with a character at or below U+0020; TrimTrailingDrops says that everything dropped is such a character |
| HttpParser.Trim | test/org/apache/tomcat/util/http/parser/TestMediaType.java:259-265 | String.trim(), TrimTrailing after TrimLeading: its contract is carried by TrimDrops (the result is a contiguous middle of the text and only characters at or below U+0020 are dropped on either side), TrimEnds, TrimPadded and ValueTextEnds |
| HttpParser.TrimLeadingDrops | test/org/apache/tomcat/util/http/parser/TestMediaType.java:259-265 | every character TrimLeading drops is at or below U+0020 |
| HttpParser.TrimTrailingDrops | test/org/apache/tomcat/util/http/parser/TestMediaType.java:259-265 | every character TrimTrailing drops is at or below U+0020 |
| HttpParser.TrimDrops | test/org/apache/tomcat/util/http/parser/TestMediaType.java:259-265 | trim() keeps a contiguous middle of the text and drops only characters at or below U+0020 on either side of it |
| HttpParser.TrimEnds | test/org/apache/tomcat/util/http/parser/TestMediaType.java:259-265 | neither end of what trim() keeps is a character at or below U+0020 |
| HttpParser.LwsPaddedSplit | test/org/apache/tomcat/util/http/parser/TestMediaType.java:49-50 | a value that trim() pads with linear whitespace is leading whitespace, its trimmed core and trailing whitespace |
| HttpParser.TrimPadded | test/org/apache/tomcat/util/http/parser/TestMediaType.java:259-264 | trim() of a value padded with linear whitespace on both sides is the value |
| HttpParser.ValueTextEnds | test/org/apache/tomcat/util/http/parser/TestMediaType.java:264 | tokens and quoted-strings neither start nor end with whitespace, so trim() leaves them alone |
| Reader.ScanLws | test/org/apache/tomcat/util/http/parser/TestMediaType.java:31-35 | the whitespace loop stops exactly where SkipLws leaves the text |
| Reader.ScanToken | test/org/apache/tomcat/util/http/parser/TestMediaType.java:26-27 | the token loop reads exactly the token TokenPrefix reads |
| Reader.ScanQuoted | test/org/apache/tomcat/util/http/parser/TestMediaType.java:39-46 | the quoted-string loop, which skips the character after each backslash, fails exactly when QuotedPrefix does and otherwise ends just after the quoted-string it reads |
| Reader.StringReader.constructor | test/org/apache/tomcat/util/http/parser/TestMediaType.java:142 | a reader over the header text starts at its first character |
| Reader.StringReader.Peek | test/org/apache/tomcat/util/http/parser/TestMediaType.java:142-143 | the next character, or none exactly at the end, without moving |
| Reader.StringReader.Advance | test/org/apache/tomcat/util/http/parser/TestMediaType.java:142-143 | consumes exactly one character |
| Reader.StringReader.SkipLws | test/org/apache/tomcat/util/http/parser/TestMediaType.java:31-35 | leaves the reader before what SkipLws leaves of the unread text |
| Reader.StringReader.ReadToken | test/org/apache/tomcat/util/http/parser/TestMediaType.java:26-27 | returns TokenPrefix of the unread text and consumes exactly it |
| Reader.StringReader.ReadQuotedString | test/org/apache/tomcat/util/http/parser/TestMediaType.java:39-46 | returns QuotedPrefix of the unread text, quotes and backslashes kept, and consumes exactly it |
| MediaTypes.ToLowerEach | test/org/apache/tomcat/util/http/parser/TestMediaType.java:187-189 | lower-casing keeps the length and maps each character on its own |
| MediaTypes.ToLower | test/org/apache/tomcat/util/http/parser/TestMediaType.java:312-315 | the lower-casing of parameter names; its contract is carried by ToLowerEach, ToLowerUnchanged, ToLowerIdempotent, ToLowerOfUpper and ToLowerToken |
| MediaTypes.ToLowerUnchanged | test/org/apache/tomcat/util/http/parser/TestMediaType.java:182 | a name without upper-case letters is its own lower-case form |
| MediaTypes.ToLowerIdempotent | test/org/apache/tomcat/util/http/parser/TestMediaType.java:312-315 | lower-casing twice is lower-casing once |
| MediaTypes.ToLowerOfUpper | test/org/apache/tomcat/util/http/parser/TestMediaType.java:312-315 | a name and its upper-case spelling fold to the same key |
| MediaTypes.ToLowerToken | test/org/apache/tomcat/util/http/parser/TestMediaType.java:187-189 | lower-casing keeps a name a token of the same length |
| MediaTypes.Lookup | test/org/apache/tomcat/util/http/parser/TestMediaType.java:182-185 | no value exactly when no parameter has that name; a value found is stored under that name |
| MediaTypes.Put | test/org/apache/tomcat/util/http/parser/TestMediaType.java:180-185 | LinkedHashMap.put: its contract is carried by PutLookup (the name finds the new value, others are unchanged), PutOrder (a new name goes last, an old one keeps its place), PutUnique and PutElements |
| MediaTypes.ParameterCount | test/org/apache/tomcat/util/http/parser/TestMediaType.java:180 | getParameterCount: the number of stored parameters; PutAllFresh and DoTestHolds show it equals the number of distinct names written |
| MediaTypes.ParameterValue | test/org/apache/tomcat/util/http/parser/TestMediaType.java:182-185 | getParameterValue: Lookup of the lower-cased name; its contract is carried by ParameterValueIgnoresCase and, through Lookup, LookupUnique |
| MediaTypes.Charset | test/org/apache/tomcat/util/http/parser/TestMediaType.java:146 | getCharset: its contract is carried by CharsetPresence (null exactly when no charset is stored) and CharsetValue (the unquoted value) |
| MediaTypes.PutLookup | test/org/apache/tomcat/util/http/parser/TestMediaType.java:263-265 | after a put the name finds the new value, and every other name finds what it found before |
| MediaTypes.PutOrder | test/org/apache/tomcat/util/http/parser/TestMediaType.java:187-189 | a new name is appended at the end; an existing name keeps its position |
| MediaTypes.UniqueCons | test/org/apache/tomcat/util/http/parser/TestMediaType.java:180 | names are distinct after adding one in front exactly when it is new and the rest are distinct |
| MediaTypes.PutUnique | test/org/apache/tomcat/util/http/parser/TestMediaType.java:180 | a put keeps the names distinct |
| MediaTypes.PutElements | test/org/apache/tomcat/util/http/parser/TestMediaType.java:180 | a put stores nothing but what was there and the new pair |
| MediaTypes.LookupUnique | test/org/apache/tomcat/util/http/parser/TestMediaType.java:263-265 | with distinct names, every stored pair is found by its name |
| MediaTypes.PutAllFresh | test/org/apache/tomcat/util/http/parser/TestMediaType.java:256 | putting distinct new names appends them in order, so the count is the number put |
| MediaTypes.ParameterValueIgnoresCase | test/org/apache/tomcat/util/http/parser/TestMediaType.java:312-315 | getParameterValue finds the same value under a name, its lower-case and its upper-case spelling |
| MediaTypes.CharsetPresence | test/org/apache/tomcat/util/http/parser/TestMediaType.java:192 | getCharset is null exactly when no charset parameter is stored |
| MediaTypes.CharsetValue | test/org/apache/tomcat/util/http/parser/TestMediaType.java:146-160 | a quoted charset comes back without quotes or escapes, with the whitespace inside the quotes kept; a token charset comes back unchanged |
| MediaTypes.Visible | test/org/apache/tomcat/util/http/parser/TestMediaType.java:213-214 | the parameters written out are exactly those with a non-empty value, and not charset when the charset is dropped; VisibleConcat and VisibleOne fix their order and count |
| MediaTypes.VisibleConcat | test/org/apache/tomcat/util/http/parser/TestMediaType.java:187-191 | filtering a concatenation is the concatenation of the filtered parts, so the written parameters keep their stored order and each is written once |
| MediaTypes.VisibleOne | test/org/apache/tomcat/util/http/parser/TestMediaType.java:213-214 | a single parameter is written, once, exactly when it has a value and is not a dropped charset |
| MediaTypes.VisibleUnique | test/org/apache/tomcat/util/http/parser/TestMediaType.java:187-190 | leaving parameters out keeps the names distinct |
| MediaTypes.SerializedSegments | test/org/apache/tomcat/util/http/parser/TestMediaType.java:187-190 | the serialised parameters are `;name=value` for each written parameter, in stored order (the order of Visible, which VisibleConcat and VisibleOne state) |
| MediaTypes.Serialized | test/org/apache/tomcat/util/http/parser/TestMediaType.java:190-191 | the parameters as the serialised forms write them; its contract is carried by SerializedSegments, Visible, VisibleConcat (stored order) and SerializedRoundTrip |
| MediaTypes.ToString | test/org/apache/tomcat/util/http/parser/TestMediaType.java:145 | toString: its contract is carried by SerializedSegments with VisibleConcat (parameters written in stored order) and ToStringRoundTrip (parsing it gives back the type, subtype and every parameter with a value) |
| MediaTypes.ToStringNoCharset | test/org/apache/tomcat/util/http/parser/TestMediaType.java:147 | toStringNoCharset: its contract is carried by NoCharsetIsWithoutCharset, SerializedSegments with VisibleConcat (parameters written in stored order) and ToStringNoCharsetRoundTrip |
| MediaTypes.Without | test/org/apache/tomcat/util/http/parser/TestMediaType.java:147 | removing a name leaves no parameter of that name and every other lookup unchanged |
| MediaTypes.NoCharsetIsWithoutCharset | test/org/apache/tomcat/util/http/parser/TestMediaType.java:161-162 | toStringNoCharset writes what toString writes for the parameters without charset, and writes no charset |
| MediaTypeParser.ParseValue | test/org/apache/tomcat/util/http/parser/TestMediaType.java:183-185 | a value read is a token or a raw quoted-string at the front of the text; an unclosed quote and a missing value are the two errors |
| MediaTypeParser.ParameterStep | test/org/apache/tomcat/util/http/parser/TestMediaType.java:143 | one turn of the parameter loop: its own contract says only that a step that continues consumes text; what it computes is stated by ReadParameterStep, ParametersWellFormed, PaddedSegments, EmptySegmentIgnored and BareNameStored |
| MediaTypeParser.ParseParameters | test/org/apache/tomcat/util/http/parser/TestMediaType.java:143 | the parameter loop: its contract is carried by ParametersWellFormed and PaddedSegments, and ReadParameters is proved equal to it |
| MediaTypeParser.Parse | test/org/apache/tomcat/util/http/parser/TestMediaType.java:143 | parseMediaType as a function of the header value: its contract is carried by ParseWellFormed, PaddingIgnored, LeadingLwsIgnored, the round trips, the failure lemmas below, and ParseMediaType, which is proved equal to it |
| MediaTypeParser.ParseValueFails | test/org/apache/tomcat/util/http/parser/TestMediaType.java:183-185 | a value fails exactly when its opening quote is never closed, or when it starts with neither a quote nor a token character |
| MediaTypeParser.MissingTypeFails | test/org/apache/tomcat/util/http/parser/TestMediaType.java:143 | a header that is empty or holds only whitespace before a delimiter fails with MissingType |
| MediaTypeParser.MissingSlashFails | test/org/apache/tomcat/util/http/parser/TestMediaType.java:143 | a type followed, after whitespace, by the end or by a delimiter other than `/` fails with MissingSlash |
| MediaTypeParser.MissingSubtypeFails | test/org/apache/tomcat/util/http/parser/TestMediaType.java:143 | a `/` followed, after whitespace, by the end or by a delimiter fails with MissingSubtype |
| MediaTypeParser.InvalidNameFails | test/org/apache/tomcat/util/http/parser/TestMediaType.java:143 | a segment whose first character after `;` and whitespace is a delimiter other than `;` fails with InvalidParameterName |
| MediaTypeParser.MissingValueFails | test/org/apache/tomcat/util/http/parser/TestMediaType.java:183-185 | `name =` followed by the end or by a delimiter other than a quote fails with InvalidParameterValue |
| MediaTypeParser.UnterminatedQuoteFails | test/org/apache/tomcat/util/http/parser/TestMediaType.java:183-185 | `name =` followed by a quote that is never closed fails with UnterminatedQuote, whatever parameters were read before |
| MediaTypeParser.ParameterFailureFails | test/org/apache/tomcat/util/http/parser/TestMediaType.java:143 | a failure in the parameters after a well-formed type and subtype is the failure of the whole parse |
| MediaTypeParser.ParseValueOver | test/org/apache/tomcat/util/http/parser/TestMediaType.java:183-185 | a token or quoted-string followed by text that cannot continue it is read whole |
| MediaTypeParser.ParametersWellFormed | test/org/apache/tomcat/util/http/parser/TestMediaType.java:180-185 | the parameter loop stores only distinct, lower-case token names whose values are empty, a token or a quoted-string |
| MediaTypeParser.ParseWellFormed | test/org/apache/tomcat/util/http/parser/TestMediaType.java:176-185 | a parsed media type has token type and subtype and well-formed, distinct parameters |
| MediaTypeParser.LeadingLwsIgnored | test/org/apache/tomcat/util/http/parser/TestMediaType.java:31-35 | whitespace in front of the parameters changes nothing |
| MediaTypeParser.PaddingIgnored | test/org/apache/tomcat/util/http/parser/TestMediaType.java:244-266 | for any whitespace around the type and the subtype, and one whitespace string at every position of every segment (as doTest writes it), and provided the names differ once lower-cased, the parse yields the bare type and subtype and every parameter in order, under its lower-cased name, with its trimmed value |
| MediaTypeParser.PaddedSegments | test/org/apache/tomcat/util/http/parser/TestMediaType.java:248-256 | segments padded with one whitespace string at every position, with distinct names, are read back in order, one parameter per segment |
| MediaTypeParser.EmptySegmentIgnored | test/org/apache/tomcat/util/http/parser/TestMediaType.java:221-229 | a `;` followed by another `;` or the end adds no parameter |
| MediaTypeParser.BareNameStored | test/org/apache/tomcat/util/http/parser/TestMediaType.java:198-210 | a name with no `=` after it is stored under its lower-cased name with the empty value |
| MediaTypeParser.SerializedRoundTrip | test/org/apache/tomcat/util/http/parser/TestMediaType.java:187-191 | parsing either serialised form gives back the type, the subtype and the written parameters |
| MediaTypeParser.ToStringRoundTrip | test/org/apache/tomcat/util/http/parser/TestMediaType.java:187-190 | parsing toString gives back the type, the subtype and every parameter with a value |
| MediaTypeParser.ToStringNoCharsetRoundTrip | test/org/apache/tomcat/util/http/parser/TestMediaType.java:161-162 | parsing toStringNoCharset gives the same without the charset, and its getCharset is null |
| MediaTypeParser.ReadValue | test/org/apache/tomcat/util/http/parser/TestMediaType.java:183-185 | reading a value from the reader fails and succeeds as ParseValue does and consumes what it reads |
| MediaTypeParser.ReadParameterStep | test/org/apache/tomcat/util/http/parser/TestMediaType.java:143 | one turn of the reader's parameter loop computes ParameterStep of the unread text |
| MediaTypeParser.ReadSegmentBody | test/org/apache/tomcat/util/http/parser/TestMediaType.java:321-325 | after `;`, an empty segment or a name, as SegmentBody |
| MediaTypeParser.ReadParameterTail | test/org/apache/tomcat/util/http/parser/TestMediaType.java:198-210 | after the name, `=` and a value, or a bare name, as ParameterTail |
| MediaTypeParser.ReadAssignment | test/org/apache/tomcat/util/http/parser/TestMediaType.java:183-185 | `=` and the value after it, as ParameterTail |
| MediaTypeParser.ReadParameters | test/org/apache/tomcat/util/http/parser/TestMediaType.java:143 | the reader's parameter loop returns ParseParameters of the unread text |
| MediaTypeParser.ParseMediaType | test/org/apache/tomcat/util/http/parser/TestMediaType.java:142-143 | parseMediaType over a reader returns Parse of the whole header value |
| TestMediaType.TypesTrimmed | test/org/apache/tomcat/util/http/parser/TestMediaType.java:33-35 | the trimmed TYPE and SUBTYPE are `foo` and `bar` |
| TestMediaType.LwsValuesAreLws | test/org/apache/tomcat/util/http/parser/TestMediaType.java:63-65 | every LWS_VALUES entry is linear whitespace |
| TestMediaType.ParameterTextThen | test/org/apache/tomcat/util/http/parser/TestMediaType.java:288-304 | Parameter.toString(lws) followed by more text is the padded segment of that parameter |
| TestMediaType.ParameterText | test/org/apache/tomcat/util/http/parser/TestMediaType.java:288-304 | Parameter.toString(lws), and toString() as toString(""); ParameterTextThen and BuildInput state what appending it produces |
| TestMediaType.BuildInput | test/org/apache/tomcat/util/http/parser/TestMediaType.java:246-250 | the StringBuilder loop yields TYPES followed by every parameter's padded segment, in order |
| TestMediaType.DoTestHolds | test/org/apache/tomcat/util/http/parser/TestMediaType.java:244-266 | for any whitespace and any written parameters with distinct names, every assertion of doTest(lws, ...) holds |
| TestMediaType.DoTestPasses | test/org/apache/tomcat/util/http/parser/TestMediaType.java:252-266 | the assertions of doTest(lws, ...) on the parse of the built input; DoTestHolds proves it for every whitespace and every written parameter list with distinct names |
| TestMediaType.DoTest | test/org/apache/tomcat/util/http/parser/TestMediaType.java:244-266 | the parse succeeds with one parameter per parameter written, type `foo`, subtype `bar`, and each trimmed value under its trimmed name |
| TestMediaType.DoTestAll | test/org/apache/tomcat/util/http/parser/TestMediaType.java:238-242 | the loop over the whitespace values runs doTest for each, and every one passes |
| TestMediaType.TestSimple | test/org/apache/tomcat/util/http/parser/TestMediaType.java:68-71 | doTest passes with no parameters for every whitespace value |
| TestMediaType.DoTestOne | test/org/apache/tomcat/util/http/parser/TestMediaType.java:238-242 | doTest passes with one written parameter for every whitespace value |
| TestMediaType.TestSimpleWithToken | test/org/apache/tomcat/util/http/parser/TestMediaType.java:74-77 | doTest passes with `a=b` |
| TestMediaType.TestSimpleWithEscapedString | test/org/apache/tomcat/util/http/parser/TestMediaType.java:80-83 | doTest passes with a quoted value holding an escaped quote |
| TestMediaType.TestSimpleWithQuotedString | test/org/apache/tomcat/util/http/parser/TestMediaType.java:86-89 | doTest passes with a quoted value |
| TestMediaType.TestSimpleWithEmptyQuotedString | test/org/apache/tomcat/util/http/parser/TestMediaType.java:92-95 | doTest passes with the empty quoted-string |
| TestMediaType.TestSimpleWithComplexQuotedString | test/org/apache/tomcat/util/http/parser/TestMediaType.java:98-101 | doTest passes with a quoted value holding `'`, `,`, `=` and `;` |
| TestMediaType.TestSimpleWithCharset | test/org/apache/tomcat/util/http/parser/TestMediaType.java:104-107 | doTest passes with `charset=UTF-8` |
| TestMediaType.TestSimpleWithCharsetWhitespaceBefore | test/org/apache/tomcat/util/http/parser/TestMediaType.java:110-113 | doTest passes with whitespace before the charset value |
| TestMediaType.TestSimpleWithCharsetWhitespaceAfter | test/org/apache/tomcat/util/http/parser/TestMediaType.java:116-119 | doTest passes with whitespace after the charset value |
| TestMediaType.TestSimpleWithCharsetQuoted | test/org/apache/tomcat/util/http/parser/TestMediaType.java:122-125 | doTest passes with a quoted charset that holds whitespace |
| TestMediaType.StoredUnique | test/org/apache/tomcat/util/http/parser/TestMediaType.java:128-132 | names that differ once lower-cased are stored under distinct names |
| TestMediaType.TestSimpleWithAll | test/org/apache/tomcat/util/http/parser/TestMediaType.java:128-132 | doTest passes with all five parameters together |
| TestMediaType.TestCharset | test/org/apache/tomcat/util/http/parser/TestMediaType.java:135-148 | m is the parse of TYPES followed by the charset and the token parameter's toString(); its toString is `foo/bar;charset=UTF-8;a=b`, getCharset is `UTF-8`, toStringNoCharset is `foo/bar;a=b` |
| TestMediaType.TestCharsetQuoted | test/org/apache/tomcat/util/http/parser/TestMediaType.java:151-163 | m is the parse of TYPES followed by the quoted charset parameter's toString(); getCharset keeps the whitespace quoted in the value, and toStringNoCharset is `foo/bar` |
| TestMediaType.TestBug52811 | test/org/apache/tomcat/util/http/parser/TestMediaType.java:166-193 | m is the parse of the test's multipart/related header: type `multipart`, subtype `related`, three parameters, the quoted values verbatim with quotes, both serialised forms as expected, and no charset |
| TestMediaType.TestBug53353 | test/org/apache/tomcat/util/http/parser/TestMediaType.java:196-216 | m is the parse of `text/html; UTF-8;charset=UTF-8`: type `text`, subtype `html`, two parameters; the bare `UTF-8` has the empty value, getCharset is `UTF-8`, and toString leaves the bare name out |
| TestMediaType.TestBug55454 | test/org/apache/tomcat/util/http/parser/TestMediaType.java:219-235 | m is the parse of `text/html;;charset=UTF-8`, where `;;` adds nothing: type `text`, subtype `html`, one parameter, charset `UTF-8`, toString `text/html;charset=UTF-8` |
| TestMediaType.OneTwoLookups | test/org/apache/tomcat/util/http/parser/TestMediaType.java:312-315 | `A` and `a` find `1`, and `B` and `b` find `2` |
| TestMediaType.TestCase | test/org/apache/tomcat/util/http/parser/TestMediaType.java:307-316 | m is the parse of `type/sub-type;a=1;B=2`; its parameters are exactly `a=1` and `b=2`, so the names are stored in lower case, and `A`/`a` find `1` and `B`/`b` find `2` |
| TestMediaType.TrailingEmpty | test/org/apache/tomcat/util/http/parser/TestMediaType.java:321 | a trailing `;;` adds nothing |
| TestMediaType.TestEmptyParameter | test/org/apache/tomcat/util/http/parser/TestMediaType.java:318-326 | m is the parse of `type/sub-type;;a=1;;b=2;;`, in which the empty segments before, between and after the parameters are ignored: its parameters are exactly `a=1` and `b=2`, so `a` finds `1` and `b` finds `2` |

## Left out

- `MediaType.java` and `HttpParser.java` are not part of this model. The model is written against what `TestMediaType.java` asserts and against the grammar it cites.
- `IOException` and the stream behind `StringReader` are left out: the reader is the header text plus a cursor. JUnit is left out too: each assertion is a postcondition.
- Duplicate parameter names: `Put` replaces the value in place, as `LinkedHashMap.put` does. No test exercises duplicates and no property is claimed about them.
- Case folding of the type and subtype: they are stored as read, because no test exercises it.
- Whether the charset names a real encoding: the tests compare strings only.
- Comma-separated lists of media types (`Accept` headers): the tests parse single media types only.
- Non-ASCII case folding: `ToLower` folds only `A`-`Z`. `toLowerCase(Locale.ENGLISH)` also folds letters outside ASCII, and no test uses them.
- The failure path of the source: its return value on malformed input cannot be seen in the test. It is modelled as a `ParseError` result.
- Text after the parameters that does not start with `;` ends the parse successfully (so `a/b x` parses as `a/b`). This is a decision of this model: the grammar of section 5.6.6 of RFC 9110 does not allow such text, and no test fixes the behaviour.
- A trailing `;` adds no parameter. The grammar of section 5.6.6 of RFC 9110 allows an empty parameter after `;`, and testEmptyParameter (line 320) relies on it.
- Whitespace that differs from one position or segment to the next is not covered by PaddingIgnored: it fixes one whitespace string for all segments, as doTest does.
- TestMediaType.DoTest: the loop over the parameters at lines 263-266 only asserts. Its assertions are stated as one quantified postcondition, not as a loop.
- MediaTypeParser.ParameterStep: its contract, and those of SegmentStart, SegmentBody and ParameterTail, only says that the unread text shrinks. What each step computes is stated by the reader methods that are proved equal to it, and by the lemmas above.
