/**
 * Opening an Ultralibrarian part page: the UUID check, the percent-encoding of the
 * manufacturer and part number, and the URL handed to the browser.
 */
module Browser {
  import opened Wrappers
  import opened Text
  import opened Models

  const BaseUrl := "https://app.ultralibrarian.com"
  const ExportQuery := "?open=exports&exports=21&exports=42"

  // ---------------------------------------------------------------------------
  // The UUID pattern `^[a-f0-9]{8}-[a-f0-9]{4}-[a-f0-9]{4}-[a-f0-9]{4}-[a-f0-9]{12}$`, case-insensitive

  /** `[a-f0-9]` under IGNORECASE. */
  predicate IsHexDigit(c: char) {
    ('0' <= c <= '9') || ('a' <= c <= 'f') || ('A' <= c <= 'F')
  }

  datatype Token = Hex | Dash

  function Repeat(t: Token, n: nat): (r: seq<Token>)
    ensures |r| == n && forall i :: 0 <= i < n ==> r[i] == t
  {
    if n == 0 then [] else [t] + Repeat(t, n - 1)
  }

  /** The pattern, one token per character it consumes. */
  const UuidPattern: seq<Token> :=
    Repeat(Hex, 8) + [Dash] + Repeat(Hex, 4) + [Dash] + Repeat(Hex, 4) + [Dash] + Repeat(Hex, 4) + [Dash] + Repeat(Hex, 12)

  predicate Accepts(t: Token, c: char) {
    match t
    case Hex => IsHexDigit(c)
    case Dash => c == '-'
  }

  /** `re.match` of the tokens against `s`; `$` also matches before a single final newline. */
  predicate MatchTokens(s: string, pattern: seq<Token>) {
    if pattern == [] then s == "" || s == "\n"
    else s != [] && Accepts(pattern[0], s[0]) && MatchTokens(s[1..], pattern[1..])
  }

  /** `_validate_uuid`. */
  predicate ValidUuid(s: string) {
    MatchTokens(s, UuidPattern)
  }

  predicate IsDashPosition(i: int) {
    i == 8 || i == 13 || i == 18 || i == 23
  }

  /** Reference definition: 36 characters, dashes at 8, 13, 18 and 23, hexadecimal digits elsewhere. */
  predicate UuidShape(s: string) {
    |s| == 36 && forall i :: 0 <= i < 36 ==> if IsDashPosition(i) then s[i] == '-' else IsHexDigit(s[i])
  }

  lemma {:induction false} MatchTokensIndexwise(s: string, pattern: seq<Token>)
    ensures MatchTokens(s, pattern) <==>
      |s| >= |pattern| && (forall i :: 0 <= i < |pattern| ==> Accepts(pattern[i], s[i]))
      && (s[|pattern|..] == "" || s[|pattern|..] == "\n")
  {
    if pattern != [] && s != [] {
      MatchTokensIndexwise(s[1..], pattern[1..]);
      if |s| >= |pattern| {
        assert s[1..][|pattern| - 1..] == s[|pattern|..];
      }
      assert forall i :: 1 <= i < |pattern| && i < |s| ==> pattern[1..][i - 1] == pattern[i] && s[1..][i - 1] == s[i];
    }
  }

  lemma PatternTokens()
    ensures |UuidPattern| == 36
    ensures forall i :: 0 <= i < 36 ==> UuidPattern[i] == if IsDashPosition(i) then Dash else Hex
  {
    var p := UuidPattern;
    assert forall i :: 0 <= i < 8 ==> p[i] == Repeat(Hex, 8)[i];
    assert forall i :: 9 <= i < 13 ==> p[i] == Repeat(Hex, 4)[i - 9];
    assert forall i :: 14 <= i < 18 ==> p[i] == Repeat(Hex, 4)[i - 14];
    assert forall i :: 19 <= i < 23 ==> p[i] == Repeat(Hex, 4)[i - 19];
    assert forall i :: 24 <= i < 36 ==> p[i] == Repeat(Hex, 12)[i - 24];
  }

  /** The UUID check accepts exactly the UUID shape, optionally followed by one newline. */
  lemma ValidUuidShape(s: string)
    ensures ValidUuid(s) <==> UuidShape(s) || (|s| == 37 && UuidShape(s[..36]) && s[36] == '\n')
  {
    PatternTokens();
    MatchTokensIndexwise(s, UuidPattern);
    if |s| >= 36 {
      assert forall i :: 0 <= i < 36 ==> s[..36][i] == s[i];
    }
    if |s| == 37 {
      assert s[36..] == [s[36]];
    }
  }

  // ---------------------------------------------------------------------------
  // `urllib.parse.quote(s, safe="")`

  type Byte = b: int | 0 <= b < 256

  /** The UTF-8 encoding of one scalar value. */
  function Utf8Char(c: char): (bs: seq<Byte>)
    ensures 1 <= |bs| <= 4
    ensures (|bs| == 1) <==> c as int < 0x80
    ensures |bs| == 1 ==> bs[0] == c as int
    ensures forall i :: 0 <= i < |bs| && |bs| > 1 ==> bs[i] >= 0x80
  {
    var n := c as int;
    if n < 0x80 then [n]
    else if n < 0x800 then [0xC0 + n / 64, 0x80 + n % 64]
    else if n < 0x10000 then [0xE0 + n / 4096, 0x80 + (n / 64) % 64, 0x80 + n % 64]
    else [0xF0 + n / 0x40000, 0x80 + (n / 4096) % 64, 0x80 + (n / 64) % 64, 0x80 + n % 64]
  }

  function Utf8(s: string): seq<Byte> {
    if s == [] then [] else Utf8Char(s[0]) + Utf8(s[1..])
  }

  /** The bytes `quote` never escapes: ASCII letters, digits and `_.-~`. */
  predicate AlwaysSafe(b: int) {
    ('A' as int <= b <= 'Z' as int) || ('a' as int <= b <= 'z' as int) || ('0' as int <= b <= '9' as int)
    || b == '_' as int || b == '.' as int || b == '-' as int || b == '~' as int
  }

  /** The characters an encoded segment is made of. */
  predicate EncodedChar(c: char) {
    AlwaysSafe(c as int) || c == '%'
  }

  function HexChar(d: nat): (c: char)
    requires d < 16
    ensures AlwaysSafe(c as int) && c != '%'
  {
    "0123456789ABCDEF"[d]
  }

  /** `%XX` with upper-case hexadecimal digits for every byte that is not always safe. */
  function QuoteByte(b: Byte): (r: string)
    ensures forall c :: c in r ==> EncodedChar(c)
  {
    if AlwaysSafe(b) then [b as char] else ['%', HexChar(b / 16), HexChar(b % 16)]
  }

  function QuoteBytes(bs: seq<Byte>): (r: string)
    ensures forall c :: c in r ==> EncodedChar(c)
  {
    if bs == [] then "" else QuoteByte(bs[0]) + QuoteBytes(bs[1..])
  }

  function Quote(s: string): string {
    QuoteBytes(Utf8(s))
  }

  /** An encoded segment never holds a path separator, a query mark or a space. */
  lemma QuoteIsOneSegment(s: string)
    ensures '/' !in Quote(s) && '?' !in Quote(s) && '&' !in Quote(s) && ' ' !in Quote(s)
  {
  }

  /** A string made only of always-safe characters is its own encoding. */
  lemma {:induction false} QuoteSafeIdentity(s: string)
    requires forall i :: 0 <= i < |s| ==> AlwaysSafe(s[i] as int)
    ensures Quote(s) == s
  {
    if s != [] {
      QuoteSafeIdentity(s[1..]);
    }
  }

  function HexValue(c: char): Option<nat> {
    if '0' <= c <= '9' then Some(c as int - '0' as int)
    else if 'A' <= c <= 'F' then Some(c as int - 'A' as int + 10)
    else if 'a' <= c <= 'f' then Some(c as int - 'a' as int + 10)
    else None
  }

  /** `unquote_to_bytes` on well-formed input: `%XX` is one byte, an ASCII character is itself. */
  function Unquote(s: string): Option<seq<Byte>> {
    if s == [] then Some([])
    else if s[0] == '%' then
      if |s| < 3 then None
      else
        var hi :- HexValue(s[1]);
        var lo :- HexValue(s[2]);
        if hi < 16 && lo < 16 then
          var rest :- Unquote(s[3..]);
          Some([hi * 16 + lo] + rest)
        else None
    else if s[0] as int < 0x80 then
      var rest :- Unquote(s[1..]);
      Some([s[0] as int] + rest)
    else None
  }

  lemma HexValueOf(d: nat)
    requires d < 16
    ensures HexValue(HexChar(d)) == Some(d)
  {
    var digits := "0123456789ABCDEF";
    assert digits[d] == ('0' as int + d) as char || digits[d] == ('A' as int + d - 10) as char;
  }

  lemma UnquoteByte(b: Byte, rest: string)
    ensures Unquote(QuoteByte(b) + rest) == match Unquote(rest) case None => None case Some(r) => Some([b] + r)
  {
    if AlwaysSafe(b) {
      UnquotePlain(b as char, rest);
    } else {
      HexValueOf(b / 16);
      HexValueOf(b % 16);
      UnquoteEscape(HexChar(b / 16), HexChar(b % 16), b / 16, b % 16, rest);
    }
  }

  /** An ASCII character other than `%` decodes to its own code. */
  lemma UnquotePlain(c: char, rest: string)
    requires c != '%' && c as int < 0x80
    ensures Unquote([c] + rest) == match Unquote(rest) case None => None case Some(r) => Some([c as int] + r)
  {
    assert ([c] + rest)[1..] == rest;
  }

  /** `%` and two hexadecimal digits decode to the byte they spell. */
  lemma UnquoteEscape(h: char, l: char, hi: nat, lo: nat, rest: string)
    requires hi < 16 && lo < 16 && HexValue(h) == Some(hi) && HexValue(l) == Some(lo)
    ensures Unquote(['%', h, l] + rest) == match Unquote(rest) case None => None case Some(r) => Some([hi * 16 + lo] + r)
  {
    var s := ['%', h, l] + rest;
    assert s[0] == '%' && s[1] == h && s[2] == l;
    assert s[3..] == rest;
  }

  /** Decoding an encoded byte string gives the bytes back. */
  lemma {:induction false} UnquoteQuoteBytes(bs: seq<Byte>)
    ensures Unquote(QuoteBytes(bs)) == Some(bs)
  {
    if bs != [] {
      UnquoteQuoteBytes(bs[1..]);
      UnquoteByte(bs[0], QuoteBytes(bs[1..]));
      assert [bs[0]] + bs[1..] == bs;
    }
  }

  /** Decoding `quote(s)` gives the UTF-8 bytes of `s`. */
  lemma UnquoteQuote(s: string)
    ensures Unquote(Quote(s)) == Some(Utf8(s))
  {
    UnquoteQuoteBytes(Utf8(s));
  }

  // ---------------------------------------------------------------------------
  // The part page

  function DetailsUrl(uuid: string): string {
    BaseUrl + "/details/" + uuid
  }

  /** `manufacturer and mpn`: both given and non-empty. */
  predicate HasNames(mpn: string, manufacturer: Option<string>) {
    manufacturer.Some? && manufacturer.value != "" && mpn != ""
  }

  /** The URL `open_ultralibrarian_part` builds. */
  function PartUrl(uuid: string, mpn: string, manufacturer: Option<string>, openExports: bool): string {
    if HasNames(mpn, manufacturer) then
      DetailsUrl(uuid) + "/" + Quote(ReplaceChar(manufacturer.value, ' ', "-")) + "/" + Quote(mpn)
      + (if openExports then ExportQuery else "")
    else DetailsUrl(uuid)
  }

  /**
   * With a manufacturer and part number the URL is the details page followed by exactly two
   * path segments and the optional query: each segment decodes to its name (the manufacturer
   * with spaces turned into dashes) and can hold neither `/` nor `?`.
   */
  lemma PartUrlSegments(uuid: string, mpn: string, manufacturer: Option<string>, openExports: bool)
    requires HasNames(mpn, manufacturer)
    ensures var mfr := Quote(ReplaceChar(manufacturer.value, ' ', "-"));
      var part := Quote(mpn);
      && PartUrl(uuid, mpn, manufacturer, openExports)
         == DetailsUrl(uuid) + "/" + mfr + "/" + part + (if openExports then ExportQuery else "")
      && '/' !in mfr && '?' !in mfr && '/' !in part && '?' !in part
      && Unquote(mfr) == Some(Utf8(ReplaceChar(manufacturer.value, ' ', "-")))
      && Unquote(part) == Some(Utf8(mpn))
  {
    QuoteIsOneSegment(ReplaceChar(manufacturer.value, ' ', "-"));
    QuoteIsOneSegment(mpn);
    UnquoteQuote(ReplaceChar(manufacturer.value, ' ', "-"));
    UnquoteQuote(mpn);
  }

  /** What `webbrowser.open(url)` did: returned a flag, or raised. */
  datatype BrowserOutcome = Returned(result: bool) | Raised

  /** `open_ultralibrarian_part`; `browser` stands for `webbrowser.open`. The printed guide is not modelled. */
  function OpenPart(uuid: string, mpn: string, manufacturer: Option<string>, openExports: bool,
                    browser: string -> BrowserOutcome): (r: Result<bool, PyError>)
    ensures r.Err? <==> !ValidUuid(uuid)
    ensures r.Err? ==> r.error == ValueError
    ensures r == Ok(true) <==> ValidUuid(uuid) && browser(PartUrl(uuid, mpn, manufacturer, openExports)) == Returned(true)
  {
    if !ValidUuid(uuid) then Err(ValueError)
    else
      match browser(PartUrl(uuid, mpn, manufacturer, openExports))
      case Returned(b) => Ok(b)
      case Raised => Ok(false)
  }

  /** `construct_ultralibrarian_url`. */
  function ConstructUrl(uuid: string): (r: Result<string, PyError>)
    ensures r.Err? <==> !ValidUuid(uuid)
    ensures r.Ok? ==> StartsWith(r.value, BaseUrl + "/details/")
  {
    if !ValidUuid(uuid) then Err(ValueError) else Ok(DetailsUrl(uuid))
  }

  /** The constructed URL is the page `open_ultralibrarian_part` opens when no names are given. */
  lemma ConstructUrlIsFallback(uuid: string, mpn: string, manufacturer: Option<string>, openExports: bool)
    requires ValidUuid(uuid) && !HasNames(mpn, manufacturer)
    ensures ConstructUrl(uuid) == Ok(PartUrl(uuid, mpn, manufacturer, openExports))
  {
  }
}
