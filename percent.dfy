/**
 * `urllib.parse.quote` with its default `safe='/'`: the text is encoded as
 * UTF-8 and every byte that is not an unreserved character of RFC 3986
 * (section 2.3) or `/` becomes `%XX` with upper-case hex digits (RFC 3986
 * section 2.1). `Unquote` is the decoding partner used to show that the
 * encoding loses nothing on ASCII text.
 *
 * It is called at line 95 of `mediaflow_proxy/routes/playlist_builder.py`.
 */
module Percent {
  import opened PyStr

  type byte = b: int | 0 <= b < 256

  /** The UTF-8 encoding of one Unicode scalar value (RFC 3629 section 3). */
  function Utf8(c: char): (bs: seq<byte>)
    ensures 1 <= |bs| <= 4
    ensures c as int < 128 ==> bs == [c as int]
    ensures c as int >= 128 ==> forall i :: 0 <= i < |bs| ==> bs[i] >= 128
  {
    var n := c as int;
    if n < 0x80 then [n]
    else if n < 0x800 then [0xC0 + n / 64, 0x80 + n % 64]
    else if n < 0x1_0000 then [0xE0 + n / 4096, 0x80 + (n / 64) % 64, 0x80 + n % 64]
    else [0xF0 + n / 262144, 0x80 + (n / 4096) % 64, 0x80 + (n / 64) % 64, 0x80 + n % 64]
  }

  /** Bytes `quote` leaves as they are: `A-Z a-z 0-9 _ . - ~` and `/`. */
  predicate IsSafeByte(b: int) {
    (65 <= b <= 90) || (97 <= b <= 122) || (48 <= b <= 57)
    || b == 95 || b == 46 || b == 45 || b == 126 || b == 47
  }

  /** Characters that can appear in the output of `quote`. */
  predicate IsQuotedChar(c: char) {
    IsSafeByte(c as int) || c == '%'
  }

  predicate IsAscii(s: string) {
    forall i :: 0 <= i < |s| ==> s[i] as int < 128
  }

  const HexDigits: string := "0123456789ABCDEF"

  function QuoteByte(b: byte): (r: string)
    ensures forall i :: 0 <= i < |r| ==> IsQuotedChar(r[i])
  {
    if IsSafeByte(b) then [b as char] else ['%', HexDigits[b / 16], HexDigits[b % 16]]
  }

  function QuoteBytes(bs: seq<byte>): (r: string)
    ensures forall i :: 0 <= i < |r| ==> IsQuotedChar(r[i])
  {
    if bs == [] then [] else QuoteByte(bs[0]) + QuoteBytes(bs[1..])
  }

  /** `urllib.parse.quote(s)`. Python encodes the whole text and then quotes
      byte by byte; doing it one character at a time gives the same bytes. */
  function Quote(s: string): (r: string)
    ensures forall i :: 0 <= i < |r| ==> IsQuotedChar(r[i])
  {
    if s == [] then [] else QuoteBytes(Utf8(s[0])) + Quote(s[1..])
  }

  predicate IsHex(c: char) {
    ('0' <= c <= '9') || ('A' <= c <= 'F') || ('a' <= c <= 'f')
  }

  function HexValue(c: char): (v: int)
    requires IsHex(c)
    ensures 0 <= v < 16
  {
    if '0' <= c <= '9' then c as int - '0' as int
    else if 'A' <= c <= 'F' then c as int - 'A' as int + 10
    else c as int - 'a' as int + 10
  }

  /** Decodes every `%XX` escape into the character with that code; any other
      character is copied. It does not decode UTF-8, so it agrees with
      `urllib.parse.unquote` only on text whose escapes are all below `%80`,
      which is all `quote` produces from ASCII text. */
  function Unquote(s: string): string
    decreases |s|
  {
    if |s| >= 3 && s[0] == '%' && IsHex(s[1]) && IsHex(s[2]) then
      [(HexValue(s[1]) * 16 + HexValue(s[2])) as char] + Unquote(s[3..])
    else if s == [] then []
    else [s[0]] + Unquote(s[1..])
  }

  /** Replaces every `%` by `%25`, and nothing else. */
  function EscapePercent(s: string): string
  {
    if s == [] then [] else (if s[0] == '%' then "%25" else [s[0]]) + EscapePercent(s[1..])
  }

  /** An ASCII character is quoted as its single byte. */
  lemma QuoteAsciiChar(c: char)
    requires c as int < 128
    ensures QuoteBytes(Utf8(c)) == QuoteByte(c as int)
  {
    assert Utf8(c) == [c as int];
    assert QuoteBytes([c as int]) == QuoteByte(c as int) + QuoteBytes([]);
  }

  lemma HexRoundTrip(k: int)
    requires 0 <= k < 16
    ensures IsHex(HexDigits[k]) && HexValue(HexDigits[k]) == k
  {
  }

  /** One quoted byte, followed by anything, decodes back to that byte. */
  lemma UnquoteQuoteByte(b: byte, rest: string)
    requires b < 128
    ensures Unquote(QuoteByte(b) + rest) == [b as char] + Unquote(rest)
  {
    var q := QuoteByte(b);
    if IsSafeByte(b) {
      assert (q + rest)[1..] == rest;
    } else {
      HexRoundTrip(b / 16);
      HexRoundTrip(b % 16);
      assert (q + rest)[3..] == rest;
    }
  }

  /** `unquote(quote(s)) == s` for ASCII text: percent-encoding loses nothing. */
  lemma {:induction false} UnquoteQuote(s: string)
    requires IsAscii(s)
    ensures Unquote(Quote(s)) == s
  {
    if s != [] {
      var b := s[0] as int;
      QuoteAsciiChar(s[0]);
      assert Quote(s) == QuoteByte(b) + Quote(s[1..]);
      UnquoteQuoteByte(b, Quote(s[1..]));
      assert IsAscii(s[1..]);
      UnquoteQuote(s[1..]);
      assert [b as char] + s[1..] == s;
    }
  }

  /** Quoting text that is already quoted only turns each `%` into `%25`. */
  lemma {:induction false} QuoteOfQuoted(w: string)
    requires forall i :: 0 <= i < |w| ==> IsQuotedChar(w[i])
    ensures Quote(w) == EscapePercent(w)
  {
    if w != [] {
      var b := w[0] as int;
      QuoteAsciiChar(w[0]);
      if w[0] == '%' {
        assert QuoteByte(b) == "%25";
      } else {
        assert QuoteByte(b) == [w[0]];
      }
      QuoteOfQuoted(w[1..]);
    }
  }

  /** The double encoding of header values: `quote(quote(v))` is `quote(v)`
      with every `%` escaped once more, and two decodings give `v` back. */
  lemma DoubleQuote(v: string)
    ensures Quote(Quote(v)) == EscapePercent(Quote(v))
    ensures IsAscii(v) ==> Unquote(Unquote(Quote(Quote(v)))) == v
  {
    var q := Quote(v);
    QuoteOfQuoted(q);
    if IsAscii(v) {
      assert IsAscii(q);
      UnquoteQuote(q);
      UnquoteQuote(v);
    }
  }

  /** Text made only of characters `quote` keeps is left unchanged. */
  lemma {:induction false} QuoteSafeText(s: string)
    requires forall i :: 0 <= i < |s| ==> IsSafeByte(s[i] as int)
    ensures Quote(s) == s
  {
    if s != [] {
      QuoteAsciiChar(s[0]);
      QuoteSafeText(s[1..]);
    }
  }
}
