/** The string operations the report code borrows from Python and its
    library: `xml.sax.saxutils.escape` and `quoteattr`, the `'%d'`
    conversion, `str.strip()`, and the order in which Python 2 compares two
    strings. Strings are sequences of characters; no encoding is modelled.

    The functions here are plain definitions; what they guarantee is stated
    by the lemmas beside them, which callers invoke where they need it. */
module Text {

  // ---------------------------------------------------------------------
  // xml.sax.saxutils.escape
  // ---------------------------------------------------------------------

  /** What `escape` puts in place of one character. The library replaces
      `&` first and then `>` and `<`, so no entity it inserts is escaped a
      second time: the three replacements act character by character. */
  function EscapeChar(c: char): string
  {
    if c == '&' then "&amp;"
    else if c == '<' then "&lt;"
    else if c == '>' then "&gt;"
    else [c]
  }

  /** `xml.sax.saxutils.escape(s)`. */
  function Escape(s: string): string
  {
    if s == [] then [] else EscapeChar(s[0]) + Escape(s[1..])
  }

  /** Escaped text holds no raw `<` or `>`, so it cannot open or close a tag. */
  lemma {:induction false} EscapeNoTags(s: string)
    ensures '<' !in Escape(s) && '>' !in Escape(s)
  {
    if s != [] {
      EscapeNoTags(s[1..]);
      assert Escape(s) == EscapeChar(s[0]) + Escape(s[1..]);
    }
  }

  /** The decoding an XML reader applies to the three entities `escape` emits. */
  function Unescape(s: string): string
    decreases |s|
  {
    if s == [] then []
    else if |s| >= 5 && s[..5] == "&amp;" then "&" + Unescape(s[5..])
    else if |s| >= 4 && s[..4] == "&lt;" then "<" + Unescape(s[4..])
    else if |s| >= 4 && s[..4] == "&gt;" then ">" + Unescape(s[4..])
    else [s[0]] + Unescape(s[1..])
  }

  lemma UnescapeAmp(rest: string)
    ensures Unescape("&amp;" + rest) == "&" + Unescape(rest)
  {
    var e := "&amp;" + rest;
    assert e[..5] == "&amp;" && e[5..] == rest;
  }

  lemma UnescapeLt(rest: string)
    ensures Unescape("&lt;" + rest) == "<" + Unescape(rest)
  {
    var e := "&lt;" + rest;
    assert e[1] == 'l';
    assert e[..4] == "&lt;" && e[4..] == rest;
  }

  lemma UnescapeGt(rest: string)
    ensures Unescape("&gt;" + rest) == ">" + Unescape(rest)
  {
    var e := "&gt;" + rest;
    assert e[1] == 'g';
    assert e[..4] == "&gt;" && e[4..] == rest;
  }

  lemma UnescapePlain(c: char, rest: string)
    requires c != '&'
    ensures Unescape([c] + rest) == [c] + Unescape(rest)
  {
    var e := [c] + rest;
    assert e[0] == c && e[1..] == rest;
  }

  lemma UnescapeAfterEscapeChar(c: char, rest: string)
    ensures Unescape(EscapeChar(c) + rest) == [c] + Unescape(rest)
  {
    if c == '&' {
      UnescapeAmp(rest);
    } else if c == '<' {
      UnescapeLt(rest);
    } else if c == '>' {
      UnescapeGt(rest);
    } else {
      UnescapePlain(c, rest);
    }
  }

  /** Escaping loses nothing: a reader of the markup gets the original text back. */
  lemma {:induction false} EscapeRoundTrip(s: string)
    ensures Unescape(Escape(s)) == s
  {
    if s != [] {
      EscapeRoundTrip(s[1..]);
      UnescapeAfterEscapeChar(s[0], Escape(s[1..]));
      assert s == [s[0]] + s[1..];
    }
  }

  // ---------------------------------------------------------------------
  // xml.sax.saxutils.quoteattr(s, {'\n': '&#10;'})
  // ---------------------------------------------------------------------

  /** `escape` with the extra entity `'\n' -> '&#10;'` the report code passes. */
  function AttrChar(c: char): string
  {
    if c == '\n' then "&#10;" else EscapeChar(c)
  }

  function AttrEscape(s: string): string
  {
    if s == [] then [] else AttrChar(s[0]) + AttrEscape(s[1..])
  }

  /** The attribute escaping leaves no raw `<`, `>` or line break. */
  lemma {:induction false} AttrEscapeSafe(s: string)
    ensures '<' !in AttrEscape(s) && '>' !in AttrEscape(s) && '\n' !in AttrEscape(s)
  {
    if s != [] {
      AttrEscapeSafe(s[1..]);
      assert AttrEscape(s) == AttrChar(s[0]) + AttrEscape(s[1..]);
    }
  }

  /** Every `"` replaced by `&quot;`. */
  function ReplaceQuot(s: string): string
  {
    if s == [] then []
    else (if s[0] == '"' then "&quot;" else [s[0]]) + ReplaceQuot(s[1..])
  }

  /** After the replacement no `"` is left, and every other character was
      in the input or belongs to the entity. */
  lemma {:induction false} ReplaceQuotSafe(s: string)
    ensures '"' !in ReplaceQuot(s)
    ensures forall c :: c in ReplaceQuot(s) ==> c in s || c in "&quot;"
  {
    if s != [] {
      ReplaceQuotSafe(s[1..]);
      var e: string := if s[0] == '"' then "&quot;" else [s[0]];
      assert ReplaceQuot(s) == e + ReplaceQuot(s[1..]);
      assert forall c :: c in s[1..] ==> c in s;
    }
  }

  /** `quoteattr`: the escaped text between double quotes, or between single
      quotes when it holds a double quote and no single quote, or between
      double quotes with each double quote turned into `&quot;`. */
  function QuoteAttr(s: string): string
  {
    var d := AttrEscape(s);
    if '"' in d then
      if '\'' in d then "\"" + ReplaceQuot(d) + "\"" else "'" + d + "'"
    else "\"" + d + "\""
  }

  /** A value between two copies of a quote character it does not hold. */
  lemma Quoted(q: char, body: string)
    requires q !in body && '<' !in body && '>' !in body && '\n' !in body
    requires q == '"' || q == '\''
    ensures var r := [q] + body + [q];
            && |r| >= 2 && r[0] == r[|r| - 1] == q
            && r[0] !in r[1..|r| - 1]
            && '<' !in r && '>' !in r && '\n' !in r
  {
    var r := [q] + body + [q];
    assert r[1..|r| - 1] == body;
  }

  /** Whatever the input, `quoteattr` gives one well-formed attribute value:
      the quote character that opens it closes it and occurs nowhere inside,
      and the value holds no raw `<`, `>` or line break. */
  lemma QuoteAttrWellFormed(s: string)
    ensures var r := QuoteAttr(s);
            && |r| >= 2 && r[0] == r[|r| - 1] && (r[0] == '"' || r[0] == '\'')
            && r[0] !in r[1..|r| - 1]
            && '<' !in r && '>' !in r && '\n' !in r
  {
    var d := AttrEscape(s);
    AttrEscapeSafe(s);
    if '"' in d && '\'' in d {
      ReplaceQuotSafe(d);
      Quoted('"', ReplaceQuot(d));
    } else if '"' in d {
      Quoted('\'', d);
    } else {
      Quoted('"', d);
    }
  }

  // ---------------------------------------------------------------------
  // '%d' % i
  // ---------------------------------------------------------------------

  predicate IsDigit(c: char) { '0' <= c <= '9' }

  function DigitChar(d: int): char
    requires 0 <= d < 10
  {
    (('0' as int) + d) as char
  }

  function DigitValue(c: char): int { (c as int) - ('0' as int) }

  /** The decimal digits of `n`, most significant first, without leading zeros. */
  function NatDecimal(n: nat): (r: string)
    ensures |r| >= 1
  {
    if n < 10 then [DigitChar(n)] else NatDecimal(n / 10) + [DigitChar(n % 10)]
  }

  /** `'%d' % i`: an optional minus sign followed by decimal digits. */
  function Decimal(i: int): (r: string)
    ensures |r| >= 1
  {
    if i < 0 then "-" + NatDecimal(-i) else NatDecimal(i)
  }

  /** Python's `int(s)` on the strings `'%d'` produces. */
  function ParseNat(s: string): int
  {
    if s == [] then 0 else ParseNat(s[..|s| - 1]) * 10 + DigitValue(s[|s| - 1])
  }

  function ParseInt(s: string): int
  {
    if |s| > 0 && s[0] == '-' then -ParseNat(s[1..]) else ParseNat(s)
  }

  lemma {:induction false} NatDecimalDigits(n: nat)
    ensures var r := NatDecimal(n);
            (forall k :: 0 <= k < |r| ==> IsDigit(r[k])) && (n >= 10 ==> r[0] != '0')
  {
    if n >= 10 {
      NatDecimalDigits(n / 10);
      var r, h := NatDecimal(n), NatDecimal(n / 10);
      assert r == h + [DigitChar(n % 10)];
      forall k | 0 <= k < |r| ensures IsDigit(r[k]) {
        if k < |h| { assert r[k] == h[k]; }
      }
      assert r[0] == h[0];
    }
  }

  /** `'%d'` writes only digits, after a minus sign for a negative number. */
  lemma DecimalDigits(i: int)
    ensures var r := Decimal(i);
            forall k :: 0 <= k < |r| ==> IsDigit(r[k]) || (k == 0 && r[k] == '-' && i < 0)
  {
    if i < 0 {
      NatDecimalDigits(-i);
      var r, d := Decimal(i), NatDecimal(-i);
      assert r == "-" + d;
      forall k | 0 <= k < |r| ensures IsDigit(r[k]) || (k == 0 && r[k] == '-' && i < 0) {
        if k > 0 { assert r[k] == d[k - 1]; }
      }
    } else {
      NatDecimalDigits(i);
    }
  }

  lemma {:induction false} NatDecimalRoundTrip(n: nat)
    ensures ParseNat(NatDecimal(n)) == n
  {
    if n >= 10 {
      NatDecimalRoundTrip(n / 10);
      var r := NatDecimal(n);
      assert r[..|r| - 1] == NatDecimal(n / 10);
    }
  }

  /** `'%d'` loses nothing: reading the digits back gives the number. */
  lemma DecimalRoundTrip(i: int)
    ensures ParseInt(Decimal(i)) == i
  {
    if i < 0 {
      NatDecimalRoundTrip(-i);
      assert Decimal(i)[1..] == NatDecimal(-i);
    } else {
      NatDecimalRoundTrip(i);
      NatDecimalDigits(i);
    }
  }

  // ---------------------------------------------------------------------
  // str.strip()
  // ---------------------------------------------------------------------

  /** The characters Python's `str.isspace()` accepts in a byte string. */
  predicate IsSpace(c: char)
  {
    c == ' ' || c == '\t' || c == '\n' || c == '\r' || c as int == 11 || c as int == 12
  }

  /** Where `s[..n].rstrip()` ends: the white space at the end of the
      first `n` characters dropped one character at a time. */
  function TrailingEnd(s: string, n: nat): (e: nat)
    requires n <= |s|
    ensures e <= n
  {
    if n > 0 && IsSpace(s[n - 1]) then TrailingEnd(s, n - 1) else n
  }

  /** Where `s[i..end].lstrip()` starts. */
  function LeadingStart(s: string, i: nat, end: nat): (b: nat)
    requires i <= end <= |s|
    ensures i <= b <= end
    decreases end - i
  {
    if i < end && IsSpace(s[i]) then LeadingStart(s, i + 1, end) else i
  }

  /** `s.strip()`: the text between the white space at the end and the
      white space at the start, the end found first. */
  function Strip(s: string): string
  {
    var e := TrailingEnd(s, |s|);
    s[LeadingStart(s, 0, e)..e]
  }

  lemma {:induction false} TrailingEndSpec(s: string, n: nat)
    requires n <= |s|
    ensures var e := TrailingEnd(s, n);
            && e <= n && (e == 0 || !IsSpace(s[e - 1]))
            && forall i :: e <= i < n ==> IsSpace(s[i])
  {
    if n > 0 && IsSpace(s[n - 1]) {
      TrailingEndSpec(s, n - 1);
    }
  }

  lemma {:induction false} LeadingStartSpec(s: string, i: nat, end: nat)
    requires i <= end <= |s|
    ensures var b := LeadingStart(s, i, end);
            && i <= b <= end && (b == end || !IsSpace(s[b]))
            && forall j :: i <= j < b ==> IsSpace(s[j])
    decreases end - i
  {
    if i < end && IsSpace(s[i]) {
      LeadingStartSpec(s, i + 1, end);
    }
  }

  /** `strip` removes exactly the surrounding white space: the result is a
      slice of the input with only white space outside it, and it neither
      starts nor ends with white space. */
  lemma StripSpec(s: string)
    ensures exists b, e :: 0 <= b <= e <= |s| && Strip(s) == s[b..e]
              && (forall j :: 0 <= j < b ==> IsSpace(s[j]))
              && (forall j :: e <= j < |s| ==> IsSpace(s[j]))
    ensures Strip(s) != [] ==> !IsSpace(Strip(s)[0]) && !IsSpace(Strip(s)[|Strip(s)| - 1])
  {
    var e := TrailingEnd(s, |s|);
    TrailingEndSpec(s, |s|);
    LeadingStartSpec(s, 0, e);
    var b := LeadingStart(s, 0, e);
    assert Strip(s) == s[b..e];
  }

  /** Stripping keeps the first `n` characters of a text whose first
      character is visible, as long as a visible character follows them. */
  lemma StripKeepsPrefix(s: string, n: nat, k: nat)
    requires 0 < n <= k < |s| && !IsSpace(s[0]) && !IsSpace(s[k])
    ensures |Strip(s)| > k && Strip(s)[..n] == s[..n]
  {
    var e := TrailingEnd(s, |s|);
    TrailingEndSpec(s, |s|);
    assert e > k;
    assert LeadingStart(s, 0, e) == 0;
  }

  /** A text that starts with a visible character loses only its
      trailing white space to `strip`: what is left is a non-empty prefix
      ending in a visible character, and everything after it is white
      space. */
  lemma StripTrailingOnly(s: string)
    requires s != [] && !IsSpace(s[0])
    ensures var r := Strip(s);
            && 0 < |r| <= |s| && r == s[..|r|] && !IsSpace(r[|r| - 1])
            && forall i :: |r| <= i < |s| ==> IsSpace(s[i])
  {
    var e := TrailingEnd(s, |s|);
    TrailingEndSpec(s, |s|);
    assert e > 0;
    assert LeadingStart(s, 0, e) == 0;
  }

  // ---------------------------------------------------------------------
  // Python 2 string comparison
  // ---------------------------------------------------------------------

  /** `a <= b` for Python strings: lexicographic by character code, with a
      proper prefix before the longer string. */
  predicate LexLe(a: string, b: string)
  {
    a == [] || (b != [] && (a[0] < b[0] || (a[0] == b[0] && LexLe(a[1..], b[1..]))))
  }

  lemma {:induction false} LexLeTotal(a: string, b: string)
    ensures LexLe(a, b) || LexLe(b, a)
  {
    if a != [] && b != [] && a[0] == b[0] {
      LexLeTotal(a[1..], b[1..]);
    }
  }

  lemma {:induction false} LexLeTransitive(a: string, b: string, c: string)
    requires LexLe(a, b) && LexLe(b, c)
    ensures LexLe(a, c)
  {
    if a != [] && a[0] == b[0] && b[0] == c[0] {
      LexLeTransitive(a[1..], b[1..], c[1..]);
    }
  }
}
