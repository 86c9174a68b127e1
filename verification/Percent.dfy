/** UTF-8 and percent-encoding: `urllib.parse.quote(text, safe="")` and the `unquote` the server applies. */
module Percent {
  import opened Wrappers

  type Byte = b: int | 0 <= b < 256

  // ------------------------------------------------------------------ UTF-8

  function Utf8(c: char): (r: seq<Byte>)
    ensures 1 <= |r| <= 4
  {
    var n := c as int;
    if n < 0x80 then [n]
    else if n < 0x800 then [0xC0 + n / 64, 0x80 + n % 64]
    else if n < 0x1_0000 then [0xE0 + n / 64 / 64, 0x80 + n / 64 % 64, 0x80 + n % 64]
    else [0xF0 + n / 64 / 64 / 64, 0x80 + n / 64 / 64 % 64, 0x80 + n / 64 % 64, 0x80 + n % 64]
  }

  function Encode(s: string): seq<Byte> {
    if s == "" then [] else Utf8(s[0]) + Encode(s[1..])
  }

  predicate Continues(b: seq<Byte>, from: nat, to: nat) {
    to <= |b| && forall i :: from <= i < to ==> 0x80 <= b[i] < 0xC0
  }

  /** Six more bits from a continuation byte. */
  function More(n: int, b: Byte): int {
    n * 64 + (b as int - 0x80)
  }

  /** The code point a byte sequence starts with, in its shortest form and not a surrogate, and its length. */
  function First(b: seq<Byte>): (r: Option<(char, nat)>)
    requires b != []
    ensures r.Some? ==> 1 <= r.value.1 <= |b|
  {
    if b[0] < 0x80 then Some((b[0] as char, 1))
    else if 0xC0 <= b[0] < 0xE0 && Continues(b, 1, 2) then Scalar(More(b[0] as int - 0xC0, b[1]), 0x80, 2)
    else if 0xE0 <= b[0] < 0xF0 && Continues(b, 1, 3) then
      Scalar(More(More(b[0] as int - 0xE0, b[1]), b[2]), 0x800, 3)
    else if 0xF0 <= b[0] < 0xF8 && Continues(b, 1, 4) then
      Scalar(More(More(More(b[0] as int - 0xF0, b[1]), b[2]), b[3]), 0x1_0000, 4)
    else None
  }

  function Scalar(n: int, least: int, size: nat): (r: Option<(char, nat)>)
    requires least >= 0
    ensures r.Some? ==> r.value.0 as int == n && r.value.1 == size
  {
    if least <= n < 0xD800 || (least <= n && 0xE000 <= n < 0x11_0000) then Some((n as char, size)) else None
  }

  function Decode(b: seq<Byte>): Option<string>
    decreases |b|
  {
    if b == [] then Some("")
    else
      var first :- First(b);
      var rest :- Decode(b[first.1..]);
      Some([first.0] + rest)
  }

  lemma FirstOfUtf8(c: char, rest: seq<Byte>)
    ensures First(Utf8(c) + rest) == Some((c, |Utf8(c)|))
  {
    var b, n := Utf8(c) + rest, c as int;
    assert forall i :: 0 <= i < |Utf8(c)| ==> b[i] == Utf8(c)[i];
    if n >= 0x80 {
      assert More(n / 64, 0x80 + n % 64) == n;
      if n >= 0x800 {
        assert More(n / 64 / 64, 0x80 + n / 64 % 64) == n / 64;
        if n >= 0x1_0000 {
          assert More(n / 64 / 64 / 64, 0x80 + n / 64 / 64 % 64) == n / 64 / 64;
        }
      }
    }
  }

  lemma {:induction false} DecodeOfEncode(s: string)
    ensures Decode(Encode(s)) == Some(s)
    decreases |s|
  {
    hide First, Utf8;
    if s != "" {
      FirstOfUtf8(s[0], Encode(s[1..]));
      assert Encode(s)[|Utf8(s[0])|..] == Encode(s[1..]);
      DecodeOfEncode(s[1..]);
      assert s == [s[0]] + s[1..];
    }
  }

  lemma MoreSplits(n: int, b: Byte)
    requires 0x80 <= b < 0xC0
    ensures More(n, b) / 64 == n && More(n, b) % 64 == b as int - 0x80
  {
  }

  lemma Utf8OfFirst(b: seq<Byte>)
    requires b != [] && First(b).Some?
    ensures Utf8(First(b).value.0) == b[..First(b).value.1]
  {
    hide More;
    if b[0] >= 0x80 {
      var h := b[0] as int - (if b[0] < 0xE0 then 0xC0 else if b[0] < 0xF0 then 0xE0 else 0xF0);
      MoreSplits(h, b[1]);
      if b[0] >= 0xE0 {
        MoreSplits(More(h, b[1]), b[2]);
        if b[0] >= 0xF0 {
          MoreSplits(More(More(h, b[1]), b[2]), b[3]);
        }
      }
    }
  }

  /** The decoder accepts encoded text only: overlong forms and surrogates are refused. */
  lemma {:induction false} EncodeOfDecode(b: seq<Byte>)
    requires Decode(b).Some?
    ensures Encode(Decode(b).value) == b
    decreases |b|
  {
    hide First, Utf8;
    if b != [] {
      var k := First(b).value.1;
      Utf8OfFirst(b);
      EncodeOfDecode(b[k..]);
      assert Decode(b).value[1..] == Decode(b[k..]).value;
      assert b == b[..k] + b[k..];
    }
  }

  // ------------------------------------------------------------------ percent triplets

  /** Section 2.3 of RFC 3986. */
  predicate Unreserved(c: char) {
    'a' <= c <= 'z' || 'A' <= c <= 'Z' || '0' <= c <= '9' || c in {'-', '.', '_', '~'}
  }

  function HexDigit(n: nat): char
    requires n < 16
  {
    if n < 10 then '0' + n as char else 'A' + (n - 10) as char
  }

  function HexValue(c: char): Option<nat> {
    if '0' <= c <= '9' then Some((c - '0') as nat)
    else if 'A' <= c <= 'F' then Some((c - 'A') as nat + 10)
    else if 'a' <= c <= 'f' then Some((c - 'a') as nat + 10)
    else None
  }

  function QuoteByte(b: Byte): string {
    if b < 128 && Unreserved(b as char) then [b as char] else ['%', HexDigit(b / 16), HexDigit(b % 16)]
  }

  function QuoteBytes(b: seq<Byte>): string {
    if b == [] then "" else QuoteByte(b[0]) + QuoteBytes(b[1..])
  }

  function Quote(s: string): string {
    QuoteBytes(Encode(s))
  }

  /** Section 2.1 of RFC 3986: unreserved characters and percent triplets, nothing else. */
  predicate WellQuoted(s: string)
    decreases |s|
  {
    || s == ""
    || (Unreserved(s[0]) && WellQuoted(s[1..]))
    || (|s| >= 3 && s[0] == '%' && HexValue(s[1]).Some? && HexValue(s[2]).Some? && WellQuoted(s[3..]))
  }

  /** The bytes a path names; a percent sign without two hex digits stands for itself. */
  function PathBytes(s: string): seq<Byte>
    decreases |s|
  {
    if s == "" then []
    else if s[0] == '%' && |s| >= 3 && HexValue(s[1]).Some? && HexValue(s[2]).Some? then
      [HexValue(s[1]).value * 16 + HexValue(s[2]).value] + PathBytes(s[3..])
    else Utf8(s[0]) + PathBytes(s[1..])
  }

  /** The decoded path, None where the bytes are not UTF-8 (there `unquote` puts replacement characters). */
  function Unquote(s: string): Option<string> {
    Decode(PathBytes(s))
  }

  lemma {:induction false} QuotedIsWellFormed(b: seq<Byte>)
    ensures WellQuoted(QuoteBytes(b))
  {
    if b != [] {
      QuotedIsWellFormed(b[1..]);
      var s := QuoteBytes(b);
      assert s[|QuoteByte(b[0])|..] == QuoteBytes(b[1..]);
    }
  }

  lemma PathBytesOfQuotedByte(b: Byte, rest: string)
    ensures PathBytes(QuoteByte(b) + rest) == [b] + PathBytes(rest)
  {
    var s := QuoteByte(b) + rest;
    assert s[|QuoteByte(b)|..] == rest;
  }

  lemma {:induction false} PathBytesOfQuote(b: seq<Byte>, rest: string)
    ensures PathBytes(QuoteBytes(b) + rest) == b + PathBytes(rest)
    decreases |b|
  {
    hide PathBytes, QuoteByte;
    if b == [] {
      assert QuoteBytes(b) + rest == rest;
    } else {
      assert QuoteBytes(b) + rest == QuoteByte(b[0]) + (QuoteBytes(b[1..]) + rest);
      PathBytesOfQuotedByte(b[0], QuoteBytes(b[1..]) + rest);
      PathBytesOfQuote(b[1..], rest);
    }
  }

  lemma {:induction false} EncodeOfConcat(s: string, t: string)
    ensures Encode(s + t) == Encode(s) + Encode(t)
    decreases |s|
  {
    hide Utf8;
    if s == "" {
      assert s + t == t;
    } else {
      assert (s + t)[1..] == s[1..] + t;
      EncodeOfConcat(s[1..], t);
    }
  }

  /** Text without a percent sign reads as itself. */
  lemma {:induction false} PathBytesOfPlain(s: string, rest: string)
    requires '%' !in s
    ensures PathBytes(s + rest) == Encode(s) + PathBytes(rest)
    decreases |s|
  {
    hide Utf8;
    if s == "" {
      assert s + rest == rest;
    } else {
      assert (s + rest)[1..] == s[1..] + rest;
      PathBytesOfPlain(s[1..], rest);
    }
  }

  /** A quoted id inside a plain path decodes to itself, in place. */
  lemma UnquoteInPlace(prefix: string, id: string, suffix: string)
    requires '%' !in prefix && '%' !in suffix
    ensures Unquote(prefix + Quote(id) + suffix) == Some(prefix + id + suffix)
  {
    hide Encode, PathBytes, Decode;
    assert prefix + Quote(id) + suffix == prefix + (QuoteBytes(Encode(id)) + suffix);
    PathBytesOfPlain(prefix, QuoteBytes(Encode(id)) + suffix);
    PathBytesOfQuote(Encode(id), suffix);
    assert suffix == suffix + "";
    PathBytesOfPlain(suffix, "");
    PathBytesOfNothing();
    EncodeOfConcat(prefix, id);
    EncodeOfConcat(prefix + id, suffix);
    DecodeOfEncode(prefix + id + suffix);
    assert PathBytes(prefix + Quote(id) + suffix) == Encode(prefix + id + suffix);
  }

  lemma PathBytesOfNothing()
    ensures PathBytes("") == []
  {
  }

  lemma UnquoteOfQuote(id: string)
    ensures Unquote(Quote(id)) == Some(id)
  {
    hide Quote, Unquote;
    UnquoteInPlace("", id, "");
    assert "" + Quote(id) + "" == Quote(id) && "" + id + "" == id;
  }

  lemma QuoteIsInjective(x: string, y: string)
    requires Quote(x) == Quote(y)
    ensures x == y
  {
    hide Quote, Unquote;
    UnquoteOfQuote(x);
    UnquoteOfQuote(y);
  }

  predicate AllUnreserved(s: string) {
    forall i :: 0 <= i < |s| ==> Unreserved(s[i])
  }

  lemma {:induction false} UnreservedQuotesToItself(s: string)
    requires AllUnreserved(s)
    ensures Quote(s) == s
    decreases |s|
  {
    if s != "" {
      UnreservedQuotesToItself(s[1..]);
      assert Unreserved(s[0]);
      assert Encode(s)[1..] == Encode(s[1..]);
    }
  }

  lemma {:induction false} NoPercentNoTriplet(s: string)
    requires WellQuoted(s) && '%' !in s
    ensures AllUnreserved(s)
    decreases |s|
  {
    if s != "" { NoPercentNoTriplet(s[1..]); }
  }

  lemma {:induction false} WellQuotedHoldsPercentOrUnreserved(s: string, i: nat)
    requires WellQuoted(s) && i < |s|
    ensures s[i] == '%' || Unreserved(s[i])
    decreases |s|
  {
    if i > 0 && s[0] != '%' { WellQuotedHoldsPercentOrUnreserved(s[1..], i - 1); }
    else if i >= 3 { WellQuotedHoldsPercentOrUnreserved(s[3..], i - 3); }
  }

  /** An id is sent as it is exactly when every character of it is unreserved. */
  lemma QuoteUnchangedIff(s: string)
    ensures Quote(s) == s <==> AllUnreserved(s)
  {
    if AllUnreserved(s) {
      UnreservedQuotesToItself(s);
    } else if Quote(s) == s {
      QuotedIsWellFormed(Encode(s));
      if '%' in s {
        PercentIsQuoted(s);
      } else {
        NoPercentNoTriplet(s);
      }
    }
  }

  lemma {:induction false} QuoteIsNoShorter(s: string)
    ensures |Quote(s)| >= |Encode(s)| >= |s|
    decreases |s|
  {
    hide Utf8, QuoteByte;
    QuoteBytesIsNoShorter(Encode(s));
    if s != "" { QuoteIsNoShorter(s[1..]); }
  }

  lemma {:induction false} QuoteBytesIsNoShorter(b: seq<Byte>)
    ensures |QuoteBytes(b)| >= |b|
  {
    if b != [] { QuoteBytesIsNoShorter(b[1..]); }
  }

  lemma {:induction false} QuoteBytesOfConcat(b: seq<Byte>, c: seq<Byte>)
    ensures QuoteBytes(b + c) == QuoteBytes(b) + QuoteBytes(c)
    decreases |b|
  {
    hide QuoteByte;
    if b == [] {
      assert b + c == c;
    } else {
      assert (b + c)[1..] == b[1..] + c;
      QuoteBytesOfConcat(b[1..], c);
    }
  }

  lemma QuoteOfPercent()
    ensures Quote("%") == "%25"
  {
    assert Encode("%") == [37] + Encode("");
  }

  lemma QuoteOfConcat(s: string, t: string)
    ensures Quote(s + t) == Quote(s) + Quote(t)
  {
    EncodeOfConcat(s, t);
    QuoteBytesOfConcat(Encode(s), Encode(t));
  }

  lemma PercentIsQuoted(s: string)
    requires '%' in s
    ensures |Quote(s)| > |s|
  {
    hide Quote;
    var i :| 0 <= i < |s| && s[i] == '%';
    assert s == s[..i] + "%" + s[i + 1..];
    QuoteOfConcat(s[..i] + "%", s[i + 1..]);
    QuoteOfConcat(s[..i], "%");
    QuoteOfPercent();
    QuoteIsNoShorter(s[..i]);
    QuoteIsNoShorter(s[i + 1..]);
  }

  /** The characters sent as they are: the letters, the digits and four marks. */
  lemma KeptIff(c: char)
    ensures Quote([c]) == [c] <==>
            || 'A' <= c <= 'Z' || 'a' <= c <= 'z' || '0' <= c <= '9'
            || c == '-' || c == '.' || c == '_' || c == '~'
  {
    QuoteUnchangedIff([c]);
    assert AllUnreserved([c]) <==> Unreserved([c][0]);
  }

  /** A slash, and text beyond ASCII, as they are sent. */
  lemma QuotedExamples()
    ensures Quote("/") == "%2F" && Quote("\U{00E9}") == "%C3%A9"
  {
    hide Quote;
    QuoteOne('/');
    QuoteOne('\U{00E9}');
    QuoteTwoBytes(0xC3, 0xA9);
    QuoteTwoBytes(0x2F, 0x2F);
    assert QuoteByte(0x2F) == "%2F" && QuoteByte(0xC3) == "%C3" && QuoteByte(0xA9) == "%A9";
  }

  lemma QuoteOne(c: char)
    ensures Quote([c]) == QuoteBytes(Utf8(c))
  {
    assert [c][1..] == "";
    assert Encode([c]) == Utf8(c) + Encode("") == Utf8(c);
  }

  lemma QuoteTwoBytes(x: Byte, y: Byte)
    ensures QuoteBytes([x]) == QuoteByte(x)
    ensures QuoteBytes([x, y]) == QuoteByte(x) + QuoteByte(y)
  {
    hide QuoteByte;
    assert [x][1..] == [] && [x, y][1..] == [y];
    assert QuoteBytes([x]) == QuoteByte(x) + QuoteBytes([]);
    assert QuoteBytes([x, y][1..]) == QuoteByte(y) + QuoteBytes([]) && QuoteBytes([]) == [];
  }
}
