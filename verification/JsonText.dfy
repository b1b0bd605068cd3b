/**
 The JSON that the daemon itself writes into its `error` and `done` events: an object whose
 members are strings, as Go's `encoding/json` marshals a `map[string]string`. The reader is
 the part of section 7 of RFC 8259 that such an object needs.
 */
module JsonText {
  import opened Text

  // ----- writing -----

  function HexDigit(n: nat): char
    requires n < 16
  {
    if n < 10 then ('0' as nat + n) as char else ('a' as nat + n - 10) as char
  }

  /** The digits of the `\u00XX` and `\u20XX` forms; every escaped code point is below U+3000. */
  function Hex4(code: nat): string
    requires code < 0x3000
  {
    [HexDigit(code / 0x1000), HexDigit(code / 0x100 % 16), HexDigit(code / 16 % 16), HexDigit(code % 16)]
  }

  predicate NeedsUnicodeEscape(c: char) {
    c < ' ' || c == '<' || c == '>' || c == '&' || c == '\U{2028}' || c == '\U{2029}'
  }

  function EscapeChar(c: char): string {
    if c == '\"' then "\\\""
    else if c == '\\' then "\\\\"
    else if c == '\U{0008}' then "\\b"
    else if c == '\U{000C}' then "\\f"
    else if c == '\n' then "\\n"
    else if c == '\r' then "\\r"
    else if c == '\t' then "\\t"
    else if NeedsUnicodeEscape(c) then "\\u" + Hex4(c as nat)
    else [c]
  }

  function Escape(s: string): string {
    if s == "" then "" else EscapeChar(s[0]) + Escape(s[1..])
  }

  function Quote(s: string): string {
    "\"" + Escape(s) + "\""
  }

  datatype Member = Member(name: string, value: string)

  /** The members from the first name to the closing brace. */
  function Members(ms: seq<Member>): string
    requires ms != []
  {
    Quote(ms[0].name) + (":" + (Quote(ms[0].value) + (if |ms| == 1 then "}" else "," + Members(ms[1..]))))
  }

  /** `json.Marshal` of a non-empty string map whose keys are listed in sorted order. */
  function Marshal(ms: seq<Member>): string
    requires ms != []
  {
    "{" + Members(ms)
  }

  // ----- reading -----

  function HexValue(c: char): Option<nat> {
    if '0' <= c <= '9' then Some(c as nat - '0' as nat)
    else if 'a' <= c <= 'f' then Some(c as nat - 'a' as nat + 10)
    else if 'A' <= c <= 'F' then Some(c as nat - 'A' as nat + 10)
    else None
  }

  datatype ReadChar = ReadChar(c: char, rest: string)

  function ReadHex4(s: string): Option<ReadChar> {
    if |s| < 4 then None
    else match (HexValue(s[0]), HexValue(s[1]), HexValue(s[2]), HexValue(s[3]))
      case (Some(a), Some(b), Some(c), Some(d)) =>
        var code := a * 0x1000 + b * 0x100 + c * 16 + d;
        if code < 0xD800 then Some(ReadChar(code as char, s[4..])) else None
      case _ => None
  }

  /** One character of a string body, escapes resolved. A bare control character is an error. */
  function ReadBodyChar(s: string): Option<ReadChar>
    requires s != ""
  {
    if s[0] < ' ' then None
    else if s[0] != '\\' then Some(ReadChar(s[0], s[1..]))
    else if |s| < 2 then None
    else match s[1]
      case '\"' => Some(ReadChar('\"', s[2..]))
      case '\\' => Some(ReadChar('\\', s[2..]))
      case '/' => Some(ReadChar('/', s[2..]))
      case 'b' => Some(ReadChar('\U{0008}', s[2..]))
      case 'f' => Some(ReadChar('\U{000C}', s[2..]))
      case 'n' => Some(ReadChar('\n', s[2..]))
      case 'r' => Some(ReadChar('\r', s[2..]))
      case 't' => Some(ReadChar('\t', s[2..]))
      case 'u' => ReadHex4(s[2..])
      case _ => None
  }

  lemma ReadBodyCharShrinks(s: string)
    requires s != ""
    ensures ReadBodyChar(s).Some? ==> |ReadBodyChar(s).value.rest| < |s|
  {
  }

  datatype ReadText = ReadText(text: string, rest: string)

  /** The characters up to the closing quote, and what follows that quote. */
  function ReadBody(s: string): Option<ReadText>
    decreases |s|
  {
    if s == "" then None
    else if s[0] == '\"' then Some(ReadText("", s[1..]))
    else
      ReadBodyCharShrinks(s);
      match ReadBodyChar(s)
      case None => None
      case Some(ReadChar(c, rest)) =>
        match ReadBody(rest)
        case None => None
        case Some(ReadText(text, after)) => Some(ReadText([c] + text, after))
  }

  lemma {:induction false} ReadBodyShrinks(s: string)
    ensures ReadBody(s).Some? ==> |ReadBody(s).value.rest| < |s|
    decreases |s|
  {
    if s != "" && s[0] != '\"' && ReadBodyChar(s).Some? {
      ReadBodyCharShrinks(s);
      ReadBodyShrinks(ReadBodyChar(s).value.rest);
    }
  }

  function ReadQuoted(s: string): Option<ReadText> {
    if s == "" || s[0] != '\"' then None else ReadBody(s[1..])
  }

  datatype ReadMember = ReadMember(member: Member, rest: string)

  function ReadPair(s: string): Option<ReadMember> {
    match ReadQuoted(s)
    case None => None
    case Some(ReadText(name, s1)) =>
      if s1 == "" || s1[0] != ':' then None
      else
        match ReadQuoted(s1[1..])
        case None => None
        case Some(ReadText(value, s2)) => Some(ReadMember(Member(name, value), s2))
  }

  lemma ReadPairShrinks(s: string)
    ensures ReadPair(s).Some? ==> |ReadPair(s).value.rest| < |s|
  {
    if ReadPair(s).Some? {
      var s1 := ReadQuoted(s).value.rest;
      ReadBodyShrinks(s[1..]);
      ReadBodyShrinks(s1[1..][1..]);
    }
  }

  function ReadMembers(s: string): Option<seq<Member>>
    decreases |s|
  {
    ReadPairShrinks(s);
    match ReadPair(s)
    case None => None
    case Some(ReadMember(m, rest)) =>
      if rest == "}" then Some([m])
      else if rest == "" || rest[0] != ',' then None
      else
        match ReadMembers(rest[1..])
        case None => None
        case Some(more) => Some([m] + more)
  }

  /** What `JSON.parse` makes of a non-empty, flat object of strings. */
  function ReadObject(s: string): Option<seq<Member>> {
    if s == "" || s[0] != '{' then None else ReadMembers(s[1..])
  }

  /** The last member of that name, as `obj.name` reads it; "" when there is none. */
  function Lookup(ms: seq<Member>, name: string): string {
    if ms == [] then ""
    else if ms[|ms| - 1].name == name then ms[|ms| - 1].value
    else Lookup(ms[..|ms| - 1], name)
  }

  // ----- the two agree -----

  lemma HexRoundTrip(n: nat)
    requires n < 16
    ensures HexValue(HexDigit(n)) == Some(n)
  {
  }

  lemma HexDigits(code: nat)
    requires code < 0x3000
    ensures code == code / 0x1000 * 0x1000 + code / 0x100 % 16 * 0x100 + code / 16 % 16 * 16 + code % 16
  {
  }

  lemma Hex4RoundTrip(code: nat, tail: string)
    requires code < 0x3000
    ensures ReadHex4(Hex4(code) + tail) == Some(ReadChar(code as char, tail))
  {
    HexDigits(code);
    HexRoundTrip(code / 0x1000);
    HexRoundTrip(code / 0x100 % 16);
    HexRoundTrip(code / 16 % 16);
    HexRoundTrip(code % 16);
    assert (Hex4(code) + tail)[4..] == tail;
  }

  lemma ShortEscapeRoundTrip(c: char, tail: string)
    requires |EscapeChar(c)| == 2
    ensures EscapeChar(c)[0] == '\\'
    ensures ReadBodyChar(EscapeChar(c) + tail) == Some(ReadChar(c, tail))
  {
    assert (EscapeChar(c) + tail)[2..] == tail;
  }

  lemma EscapeCharRoundTrip(c: char, tail: string)
    ensures EscapeChar(c)[0] != '\"'
    ensures ReadBodyChar(EscapeChar(c) + tail) == Some(ReadChar(c, tail))
  {
    if |EscapeChar(c)| == 2 {
      ShortEscapeRoundTrip(c, tail);
    } else if |EscapeChar(c)| == 6 {
      Hex4RoundTrip(c as nat, tail);
      assert EscapeChar(c) + tail == "\\u" + (Hex4(c as nat) + tail);
    } else {
      assert ([c] + tail)[1..] == tail;
    }
  }

  lemma ReadBodyStep(c: char, rest: string)
    requires ReadBody(rest).Some?
    ensures ReadBody(EscapeChar(c) + rest) ==
            Some(ReadText([c] + ReadBody(rest).value.text, ReadBody(rest).value.rest))
  {
    EscapeCharRoundTrip(c, rest);
  }

  lemma {:induction false} EscapeRoundTrip(v: string, tail: string)
    ensures ReadBody(Escape(v) + ("\"" + tail)) == Some(ReadText(v, tail))
    decreases |v|
  {
    var close := "\"" + tail;
    if v == "" {
      assert Escape(v) + close == close && close[1..] == tail;
    } else {
      EscapeRoundTrip(v[1..], tail);
      EscapeStep(v, close);
      assert [v[0]] + v[1..] == v;
    }
  }

  lemma EscapeStep(v: string, close: string)
    requires v != "" && ReadBody(Escape(v[1..]) + close).Some?
    ensures var more := ReadBody(Escape(v[1..]) + close).value;
            ReadBody(Escape(v) + close) == Some(ReadText([v[0]] + more.text, more.rest))
  {
    ReadBodyStep(v[0], Escape(v[1..]) + close);
    Assoc(EscapeChar(v[0]), Escape(v[1..]), close);
  }

  lemma QuoteRoundTrip(v: string, tail: string)
    ensures ReadQuoted(Quote(v) + tail) == Some(ReadText(v, tail))
  {
    assert (Quote(v) + tail)[1..] == Escape(v) + ("\"" + tail);
    EscapeRoundTrip(v, tail);
  }

  lemma ReadNameAndColon(name: string, s: string)
    ensures ReadQuoted(Quote(name) + (":" + s)) == Some(ReadText(name, ":" + s))
    ensures (":" + s)[1..] == s
  {
    QuoteRoundTrip(name, ":" + s);
  }

  lemma PairRoundTrip(m: Member, more: string)
    ensures ReadPair(Quote(m.name) + (":" + (Quote(m.value) + more))) == Some(ReadMember(m, more))
  {
    ReadNameAndColon(m.name, Quote(m.value) + more);
    QuoteRoundTrip(m.value, more);
  }

  lemma LastMember(m: Member)
    ensures ReadMembers(Members([m])) == Some([m])
  {
    PairRoundTrip(m, "}");
  }

  /** A member followed by others: the comma is skipped and the rest read on its own. */
  lemma MemberBefore(m: Member, rest: seq<Member>)
    requires rest != [] && ReadMembers(Members(rest)) == Some(rest)
    ensures ReadMembers(Members([m] + rest)) == Some([m] + rest)
  {
    var more := "," + Members(rest);
    PairRoundTrip(m, more);
    LongerThanBrace(rest);
    assert more[1..] == Members(rest);
    assert ([m] + rest)[1..] == rest;
  }

  lemma {:induction false} MembersRoundTrip(ms: seq<Member>)
    requires ms != []
    ensures ReadMembers(Members(ms)) == Some(ms)
  {
    if |ms| == 1 {
      LastMember(ms[0]);
      assert ms == [ms[0]];
    } else {
      MembersRoundTrip(ms[1..]);
      MemberBefore(ms[0], ms[1..]);
      assert ms == [ms[0]] + ms[1..];
    }
  }

  lemma LongerThanBrace(ms: seq<Member>)
    requires ms != []
    ensures |Members(ms)| > 1
  {
  }

  /** Whatever text is marshalled, stderr included, the reader gets the same text back. */
  lemma MarshalRoundTrip(ms: seq<Member>)
    requires ms != []
    ensures ReadObject(Marshal(ms)) == Some(ms)
  {
    assert Marshal(ms)[1..] == Members(ms);
    MembersRoundTrip(ms);
  }

  // ----- one line, whatever the text -----

  /** Free of control characters, and of those that end a line or mean something in a web page. */
  ghost predicate SafeText(s: string) {
    forall i :: 0 <= i < |s| ==> SafeChar(s[i])
  }

  predicate SafeChar(c: char) {
    ' ' <= c && c != '<' && c != '>' && c != '&' && c != '\U{2028}' && c != '\U{2029}'
  }

  lemma EscapeCharSafeText(c: char)
    ensures SafeText(EscapeChar(c))
  {
  }

  lemma {:induction false} EscapeSafeText(s: string)
    ensures SafeText(Escape(s))
  {
    if s == "" {
    } else {
      EscapeCharSafeText(s[0]);
      EscapeSafeText(s[1..]);
    }
  }

  lemma QuoteSafeText(s: string, tail: string)
    requires SafeText(tail)
    ensures SafeText(Quote(s) + tail)
  {
    EscapeSafeText(s);
  }

  lemma MemberSafeText(m: Member, more: string)
    requires SafeText(more) && more != ""
    ensures var text := Quote(m.name) + (":" + (Quote(m.value) + more));
            SafeText(text) && text[|text| - 1] == more[|more| - 1]
  {
    QuoteSafeText(m.value, more);
    QuoteSafeText(m.name, ":" + (Quote(m.value) + more));
  }

  lemma {:induction false} MembersSafeText(ms: seq<Member>)
    requires ms != []
    ensures SafeText(Members(ms)) && Members(ms)[|Members(ms)| - 1] == '}'
  {
    if |ms| == 1 {
      MemberSafeText(ms[0], "}");
    } else {
      MembersSafeText(ms[1..]);
      MemberSafeText(ms[0], "," + Members(ms[1..]));
    }
  }

  /** A marshalled object is a single trimmed line. */
  lemma MarshalOneLine(ms: seq<Member>)
    requires ms != []
    ensures SafeText(Marshal(ms))
    ensures IsTrimmed(JsBlanks, Marshal(ms)) && Marshal(ms) != ""
  {
    MembersSafeText(ms);
  }
}
