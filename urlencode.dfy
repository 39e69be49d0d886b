/**
 * `urllib.parse.urlencode` as the genie URL builder calls it: each key and
 * value goes through `quote_plus` (letters, digits and `_.-~` kept, a space
 * written `+`, every other character written as `%XX` per byte of its UTF-8
 * encoding), pairs are written `key=value` and joined with `&`.
 */
module UrlEncode {
  import opened Text

  /** The characters `quote` never escapes. */
  predicate IsAlwaysSafe(c: char)
  {
    || 'A' <= c <= 'Z' || 'a' <= c <= 'z' || '0' <= c <= '9'
    || c == '_' || c == '.' || c == '-' || c == '~'
  }

  /** The UTF-8 encoding of one Unicode scalar value. */
  function Utf8(c: char): (bytes: seq<nat>)
    ensures 1 <= |bytes| <= 4
    ensures forall i :: 0 <= i < |bytes| ==> bytes[i] < 256
    ensures c as int < 0x80 <==> |bytes| == 1
    ensures c as int < 0x80 ==> bytes == [c as int]
  {
    var v := c as int;
    if v < 0x80 then [v]
    else if v < 0x800 then [0xC0 + v / 64, 0x80 + v % 64]
    else if v < 0x10000 then [0xE0 + v / 4096, 0x80 + (v / 64) % 64, 0x80 + v % 64]
    else [0xF0 + v / 262144, 0x80 + (v / 4096) % 64, 0x80 + (v / 64) % 64, 0x80 + v % 64]
  }

  /** An upper-case hexadecimal digit, as `%{:02X}` writes it. */
  function HexDigit(d: nat): (c: char)
    requires d < 16
    ensures IsAlwaysSafe(c)
  {
    if d < 10 then ('0' as int + d) as char else ('A' as int + d - 10) as char
  }

  predicate IsHexDigit(c: char)
  {
    '0' <= c <= '9' || 'A' <= c <= 'F'
  }

  function HexValue(c: char): nat
    requires IsHexDigit(c)
  {
    if '0' <= c <= '9' then c as int - '0' as int else c as int - 'A' as int + 10
  }

  lemma HexRoundTrip(d: nat)
    requires d < 16
    ensures IsHexDigit(HexDigit(d)) && HexValue(HexDigit(d)) == d
  {
  }

  /** `%XX` for each byte. */
  function Percent(bytes: seq<nat>): (r: string)
    requires forall i :: 0 <= i < |bytes| ==> bytes[i] < 256
    ensures |r| == 3 * |bytes|
    ensures forall i :: 0 <= i < |r| ==> r[i] == '%' || IsAlwaysSafe(r[i])
  {
    if bytes == [] then []
    else ['%', HexDigit(bytes[0] / 16), HexDigit(bytes[0] % 16)] + Percent(bytes[1..])
  }

  /** `quote_plus` on one character. */
  function QuoteChar(c: char): string
  {
    if IsAlwaysSafe(c) then [c]
    else if c == ' ' then "+"
    else Percent(Utf8(c))
  }

  /**
   * `quote_plus(s)`: the output is made of safe characters, `+` and `%`
   * only, so it never holds `&`, `=`, `?`, `#` or a space.
   */
  function QuotePlus(s: string): (r: string)
    ensures forall i :: 0 <= i < |r| ==> IsAlwaysSafe(r[i]) || r[i] == '+' || r[i] == '%'
    ensures |s| <= |r|
  {
    if s == [] then [] else QuoteChar(s[0]) + QuotePlus(s[1..])
  }

  /** A string of safe characters (a date of digits, `str(n)`) passes through unchanged. */
  lemma {:induction false} QuotePlusSafe(s: string)
    requires forall i :: 0 <= i < |s| ==> IsAlwaysSafe(s[i])
    ensures QuotePlus(s) == s
  {
    if s != [] {
      QuotePlusSafe(s[1..]);
    }
  }

  /**
   * `unquote_plus` for input that decodes to ASCII: `+` is a space and
   * `%XX` the character with that code.
   */
  function UnquotePlus(s: string): string
  {
    if s == [] then []
    else if s[0] == '+' then " " + UnquotePlus(s[1..])
    else if s[0] == '%' && |s| >= 3 && IsHexDigit(s[1]) && IsHexDigit(s[2]) then
      [(16 * HexValue(s[1]) + HexValue(s[2])) as char] + UnquotePlus(s[3..])
    else [s[0]] + UnquotePlus(s[1..])
  }

  predicate IsAscii(s: string)
  {
    forall i :: 0 <= i < |s| ==> s[i] as int < 0x80
  }

  lemma UnquoteChar(c: char, rest: string)
    requires c as int < 0x80
    ensures UnquotePlus(QuoteChar(c) + rest) == [c] + UnquotePlus(rest)
  {
    var q := QuoteChar(c);
    if IsAlwaysSafe(c) {
      assert (q + rest)[0] == c && (q + rest)[1..] == rest;
    } else if c == ' ' {
      assert (q + rest)[0] == '+' && (q + rest)[1..] == rest;
    } else {
      var b := c as int;
      HexRoundTrip(b / 16);
      HexRoundTrip(b % 16);
      assert q == ['%', HexDigit(b / 16), HexDigit(b % 16)];
      assert (q + rest)[3..] == rest;
    }
  }

  /** `unquote_plus` undoes `quote_plus` on ASCII text. */
  lemma {:induction false} QuotePlusRoundTrip(s: string)
    requires IsAscii(s)
    ensures UnquotePlus(QuotePlus(s)) == s
  {
    if s != [] {
      QuotePlusRoundTrip(s[1..]);
      UnquoteChar(s[0], QuotePlus(s[1..]));
    }
  }

  /** `key=value` with both sides quoted. */
  function Field(key: string, value: string): string
  {
    QuotePlus(key) + "=" + QuotePlus(value)
  }

  /** The quoted `key=value` fields, in the pairs' order. */
  function Fields(pairs: seq<(string, string)>): (r: seq<string>)
    ensures |r| == |pairs|
    ensures forall i :: 0 <= i < |pairs| ==> r[i] == Field(pairs[i].0, pairs[i].1)
  {
    seq(|pairs|, i requires 0 <= i < |pairs| => Field(pairs[i].0, pairs[i].1))
  }

  /** `urlencode(pairs)` for string keys and values. */
  function Urlencode(pairs: seq<(string, string)>): string
  {
    Join(Fields(pairs), '&')
  }

  /** `s.split(sep)`: the pieces between separators; there is always one more piece than separators. */
  function Split(s: string, sep: char): (r: seq<string>)
    ensures |r| >= 1
  {
    if s == [] then [[]]
    else
      var rest := Split(s[1..], sep);
      if s[0] == sep then [[]] + rest else [[s[0]] + rest[0]] + rest[1..]
  }

  predicate Lacks(s: string, c: char)
  {
    forall i :: 0 <= i < |s| ==> s[i] != c
  }

  lemma {:induction false} SplitPiece(a: string, b: string, sep: char)
    requires Lacks(a, sep)
    ensures Split(a + b, sep) == [a + Split(b, sep)[0]] + Split(b, sep)[1..]
  {
    if a != [] {
      assert (a + b)[1..] == a[1..] + b;
      SplitPiece(a[1..], b, sep);
      assert [a[0]] + (a[1..] + Split(b, sep)[0]) == a + Split(b, sep)[0];
    } else {
      var r := Split(b, sep);
      assert a + b == b && a + r[0] == r[0];
      assert r == [r[0]] + r[1..];
    }
  }

  /** Splitting a join gives the parts back when no part holds the separator. */
  lemma {:induction false} SplitJoin(parts: seq<string>, sep: char)
    requires parts != []
    requires forall i :: 0 <= i < |parts| ==> Lacks(parts[i], sep)
    ensures Split(Join(parts, sep), sep) == parts
  {
    if |parts| == 1 {
      SplitPiece(parts[0], [], sep);
      assert parts[0] + [] == parts[0];
      assert Split([], sep) == [[]];
      assert parts == [parts[0]];
    } else {
      var tail := Join(parts[1..], sep);
      SplitJoin(parts[1..], sep);
      assert Join(parts, sep) == parts[0] + ([sep] + tail);
      SplitPiece(parts[0], [sep] + tail, sep);
      assert ([sep] + tail)[1..] == tail;
      assert Split([sep] + tail, sep) == [[]] + parts[1..];
      assert parts[0] + [] == parts[0];
      assert parts == [parts[0]] + parts[1..];
    }
  }

  /** `urlencode` output splits on `&` into exactly the quoted fields, one per pair. */
  lemma UrlencodeSplit(pairs: seq<(string, string)>)
    requires pairs != []
    ensures Split(Urlencode(pairs), '&') == Fields(pairs)
  {
    var fields := Fields(pairs);
    forall i | 0 <= i < |fields| ensures Lacks(fields[i], '&') {
      FieldShape(pairs[i].0, pairs[i].1);
    }
    SplitJoin(fields, '&');
  }

  /** A field of safe characters is written as it is. */
  lemma FieldOfSafe(key: string, value: string)
    requires forall i :: 0 <= i < |key| ==> IsAlwaysSafe(key[i])
    requires forall i :: 0 <= i < |value| ==> IsAlwaysSafe(value[i])
    ensures Field(key, value) == key + "=" + value
  {
    QuotePlusSafe(key);
    QuotePlusSafe(value);
  }

  /** A quoted field holds exactly one `=`, after the quoted key, and no `&`. */
  lemma FieldShape(key: string, value: string)
    ensures Lacks(Field(key, value), '&')
    ensures Split(Field(key, value), '=') == [QuotePlus(key), QuotePlus(value)]
  {
    var k := QuotePlus(key);
    var v := QuotePlus(value);
    assert Lacks(k, '=') && Lacks(v, '=');
    assert Field(key, value) == k + "=" + v;
    SplitJoin([k, v], '=');
    assert Join([k, v], '=') == k + "=" + v by {
      assert [k, v][1..] == [v];
    }
  }
}
