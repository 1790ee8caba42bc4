/**
 * Python's `urllib.parse.urlencode` (with `quote_plus`) as the template tags
 * use it to build query strings, and the `parse_qsl` reading Django applies
 * to them on the way back in.
 */
module UrlEncoding {
  import opened Text

  /** The characters `quote_plus` never escapes: ASCII letters and digits and `_.-~`. */
  predicate AlwaysSafe(c: char) {
    ('a' <= c <= 'z') || ('A' <= c <= 'Z') || ('0' <= c <= '9') || c == '_' || c == '.' || c == '-' || c == '~'
  }

  predicate IsAscii(s: string) {
    forall i :: 0 <= i < |s| ==> s[i] as int < 128
  }

  /** An upper-case hexadecimal digit. */
  function HexDigit(d: nat): (c: char)
    requires d < 16
    ensures AlwaysSafe(c)
  {
    if d < 10 then ('0' as int + d) as char else ('A' as int + d - 10) as char
  }

  /** The value of a hexadecimal digit in either case. */
  function HexValue(c: char): (r: Wrappers.Option<nat>)
    ensures r.Some? ==> r.value < 16
  {
    if '0' <= c <= '9' then Wrappers.Some(c as int - '0' as int)
    else if 'A' <= c <= 'F' then Wrappers.Some(c as int - 'A' as int + 10)
    else if 'a' <= c <= 'f' then Wrappers.Some(c as int - 'a' as int + 10)
    else Wrappers.None
  }

  lemma HexRoundTrip(d: nat)
    requires d < 16
    ensures HexValue(HexDigit(d)) == Wrappers.Some(d)
  {
  }

  /** The UTF-8 encoding of one character. */
  function Utf8(c: char): (bytes: seq<nat>)
    ensures 1 <= |bytes| <= 4
    ensures forall i :: 0 <= i < |bytes| ==> bytes[i] < 256
    ensures c as int < 128 ==> bytes == [c as int]
  {
    var cp := c as int;
    if cp < 0x80 then [cp]
    else if cp < 0x800 then [0xC0 + cp / 64, 0x80 + cp % 64]
    else if cp < 0x10000 then [0xE0 + cp / 4096, 0x80 + (cp / 64) % 64, 0x80 + cp % 64]
    else [0xF0 + cp / 262144, 0x80 + (cp / 4096) % 64, 0x80 + (cp / 64) % 64, 0x80 + cp % 64]
  }

  /** `%XX` for each byte. */
  function PercentBytes(bytes: seq<nat>): (e: string)
    requires forall i :: 0 <= i < |bytes| ==> bytes[i] < 256
    ensures forall i :: 0 <= i < |e| ==> AlwaysSafe(e[i]) || e[i] == '%'
  {
    if bytes == [] then ""
    else ['%', HexDigit(bytes[0] / 16), HexDigit(bytes[0] % 16)] + PercentBytes(bytes[1..])
  }

  /** How `quote_plus` writes one character. */
  function QuoteChar(c: char): (e: string)
    ensures forall i :: 0 <= i < |e| ==> AlwaysSafe(e[i]) || e[i] == '+' || e[i] == '%'
  {
    if AlwaysSafe(c) then [c]
    else if c == ' ' then "+"
    else PercentBytes(Utf8(c))
  }

  /** `urllib.parse.quote_plus(s)` with the default empty `safe` set. */
  function QuotePlus(s: string): (e: string)
    ensures forall i :: 0 <= i < |e| ==> AlwaysSafe(e[i]) || e[i] == '+' || e[i] == '%'
  {
    if s == [] then "" else QuoteChar(s[0]) + QuotePlus(s[1..])
  }

  /**
   * `urllib.parse.unquote_plus(e)` on ASCII escapes: `+` is a space and `%XX`
   * the character with that code; anything else stands for itself.
   */
  function UnquotePlus(e: string): string
    decreases |e|
  {
    if e == [] then ""
    else if e[0] == '+' then " " + UnquotePlus(e[1..])
    else if e[0] == '%' && |e| >= 3 && HexValue(e[1]).Some? && HexValue(e[2]).Some? then
      [(HexValue(e[1]).value * 16 + HexValue(e[2]).value) as char] + UnquotePlus(e[3..])
    else [e[0]] + UnquotePlus(e[1..])
  }

  lemma UnquoteAppend(q: string, e: string, c: char)
    requires q == QuoteChar(c) && c as int < 128
    ensures UnquotePlus(q + e) == [c] + UnquotePlus(e)
  {
    if AlwaysSafe(c) {
      assert (q + e)[0] == c && (q + e)[1..] == e;
    } else if c == ' ' {
      assert (q + e)[1..] == e;
    } else {
      var b := c as int;
      assert Utf8(c) == [b] && [b][1..] == [];
      assert q == ['%', HexDigit(b / 16), HexDigit(b % 16)] + PercentBytes([]);
      HexRoundTrip(b / 16);
      HexRoundTrip(b % 16);
      assert (q + e)[3..] == e;
      assert ((b / 16) * 16 + b % 16) as char == c;
    }
  }

  /** Unquoting gives back what `quote_plus` escaped. */
  lemma {:induction false} UnquoteQuote(s: string)
    requires IsAscii(s)
    ensures UnquotePlus(QuotePlus(s)) == s
    decreases |s|
  {
    if s != [] {
      UnquoteQuote(s[1..]);
      UnquoteAppend(QuoteChar(s[0]), QuotePlus(s[1..]), s[0]);
    }
  }

  /** `urlencode(pairs)`: each key and value quoted, joined as `k=v` with `&`. */
  function UrlEncode(pairs: seq<(string, string)>): string {
    JoinWith("&", EncodedFields(pairs))
  }

  function EncodedFields(pairs: seq<(string, string)>): (fields: seq<string>)
    ensures |fields| == |pairs|
    ensures forall i :: 0 <= i < |pairs| ==> fields[i] == QuotePlus(pairs[i].0) + "=" + QuotePlus(pairs[i].1)
  {
    if pairs == [] then [] else [QuotePlus(pairs[0].0) + "=" + QuotePlus(pairs[0].1)] + EncodedFields(pairs[1..])
  }

  /** `s.split(c)`. */
  function Split(s: string, c: char): (parts: seq<string>)
    ensures |parts| >= 1
  {
    if s == [] then [""]
    else
      var rest := Split(s[1..], c);
      if s[0] == c then [""] + rest else [[s[0]] + rest[0]] + rest[1..]
  }

  lemma {:induction false} SplitNoSeparator(a: string, t: string, c: char)
    requires c !in a
    ensures Split(a + t, c) == [a + Split(t, c)[0]] + Split(t, c)[1..]
    decreases |a|
  {
    if a != [] {
      assert (a + t)[1..] == a[1..] + t;
      SplitNoSeparator(a[1..], t, c);
      assert [a[0]] + (a[1..] + Split(t, c)[0]) == a + Split(t, c)[0];
    } else {
      assert a + t == t;
      assert a + Split(t, c)[0] == Split(t, c)[0];
      assert Split(t, c) == [Split(t, c)[0]] + Split(t, c)[1..];
    }
  }

  /** Splitting what `JoinWith` glued back together gives the parts again. */
  lemma {:induction false} SplitJoin(parts: seq<string>, c: char)
    requires parts != []
    requires forall i :: 0 <= i < |parts| ==> c !in parts[i]
    ensures Split(JoinWith([c], parts), c) == parts
    decreases |parts|
  {
    if |parts| == 1 {
      SplitNoSeparator(parts[0], "", c);
      assert parts[0] + "" == parts[0];
    } else {
      var rest := JoinWith([c], parts[1..]);
      assert JoinWith([c], parts) == parts[0] + [c] + rest;
      SplitJoin(parts[1..], c);
      SplitAfterPart(parts[0], rest, c);
      assert parts == [parts[0]] + parts[1..];
    }
  }

  /** A part without `c`, then `c`: the part comes out first and splitting goes on after it. */
  lemma SplitAfterPart(p: string, rest: string, c: char)
    requires c !in p
    ensures Split(p + [c] + rest, c) == [p] + Split(rest, c)
  {
    var t := [c] + rest;
    assert t[0] == c && t[1..] == rest;
    assert Split(t, c) == [""] + Split(rest, c);
    assert p + [c] + rest == p + t;
    SplitNoSeparator(p, t, c);
    assert p + "" == p;
  }

  /** The index of the first `c` in `s`, if any. */
  function IndexOf(s: string, c: char): (r: Wrappers.Option<nat>)
    ensures r.Some? ==> r.value < |s| && s[r.value] == c && c !in s[..r.value]
    ensures r.None? ==> c !in s
  {
    if s == [] then Wrappers.None
    else if s[0] == c then Wrappers.Some(0)
    else
      var r := IndexOf(s[1..], c);
      if r.None? then Wrappers.None
      else
        assert s[..r.value + 1] == [s[0]] + s[1..][..r.value];
        Wrappers.Some(r.value + 1)
  }

  /** One `name=value` field as `parse_qsl` keeps it: a field without `=` has an empty value. */
  function ParseField(field: string): (string, string) {
    match IndexOf(field, '=')
    case None => (UnquotePlus(field), "")
    case Some(i) => (UnquotePlus(field[..i]), UnquotePlus(field[i + 1..]))
  }

  /** `parse_qsl(q, keep_blank_values=True)`: the `&`-separated fields, empty ones skipped. */
  function ParseQs(q: string): seq<(string, string)> {
    ParseFields(Split(q, '&'))
  }

  function ParseFields(fields: seq<string>): seq<(string, string)> {
    if fields == [] then []
    else if fields[0] == "" then ParseFields(fields[1..])
    else [ParseField(fields[0])] + ParseFields(fields[1..])
  }

  /** Characters `quote_plus` always escapes never appear in its output. */
  lemma QuotedLacks(s: string, c: char)
    requires !AlwaysSafe(c) && c != '+' && c != '%'
    ensures c !in QuotePlus(s)
  {
  }

  lemma {:induction false} IndexOfFirst(a: string, b: string, c: char)
    requires c !in a
    ensures IndexOf(a + [c] + b, c) == Wrappers.Some(|a|)
    decreases |a|
  {
    if a == [] {
      assert (a + [c] + b)[0] == c;
    } else {
      assert (a + [c] + b)[1..] == a[1..] + [c] + b;
      IndexOfFirst(a[1..], b, c);
    }
  }

  lemma {:induction false} ParseEncodedFields(pairs: seq<(string, string)>)
    requires forall i :: 0 <= i < |pairs| ==> IsAscii(pairs[i].0) && IsAscii(pairs[i].1)
    ensures ParseFields(EncodedFields(pairs)) == pairs
    decreases |pairs|
  {
    if pairs != [] {
      var (k, v) := pairs[0];
      var f := QuotePlus(k) + "=" + QuotePlus(v);
      QuotedLacks(k, '=');
      IndexOfFirst(QuotePlus(k), QuotePlus(v), '=');
      assert f[..|QuotePlus(k)|] == QuotePlus(k);
      assert f[|QuotePlus(k)| + 1..] == QuotePlus(v);
      UnquoteQuote(k);
      UnquoteQuote(v);
      ParseEncodedFields(pairs[1..]);
      assert EncodedFields(pairs)[1..] == EncodedFields(pairs[1..]);
    }
  }

  /** Django reads back exactly the pairs `urlencode` wrote, in order. */
  lemma ParseUrlEncode(pairs: seq<(string, string)>)
    requires pairs != []
    requires forall i :: 0 <= i < |pairs| ==> IsAscii(pairs[i].0) && IsAscii(pairs[i].1)
    ensures ParseQs(UrlEncode(pairs)) == pairs
  {
    var fields := EncodedFields(pairs);
    forall i | 0 <= i < |fields|
      ensures '&' !in fields[i]
    {
      QuotedLacks(pairs[i].0, '&');
      QuotedLacks(pairs[i].1, '&');
    }
    SplitJoin(fields, '&');
    ParseEncodedFields(pairs);
  }
}
