/** String primitives of PHP and JavaScript that the validators rely on:
    trimming, byte and code-unit lengths, ASCII case mapping, substring search,
    `implode`, character classes of the regular expressions, and decimal
    rendering of integers (PHP string interpolation). */
module Text {

  // ---------------------------------------------------------------------------
  // Trimming
  // ---------------------------------------------------------------------------

  /** The characters PHP's `trim()` strips by default: space, \t, \n, \r, \0 and \x0B. */
  predicate IsPhpSpace(c: char) {
    c == ' ' || c == '\t' || c == '\n' || c == '\r' || c == '\0' || c == '\U{000B}'
  }

  /** ECMAScript WhiteSpace and LineTerminator code points: what `String.prototype.trim`
      strips and what the regular-expression class `\s` matches. */
  predicate IsJsSpace(c: char) {
    c == '\t' || c == '\n' || c == '\U{000B}' || c == '\U{000C}' || c == '\r' || c == ' '
    || c == '\U{00A0}' || c == '\U{1680}' || ('\U{2000}' <= c <= '\U{200A}')
    || c == '\U{2028}' || c == '\U{2029}' || c == '\U{202F}' || c == '\U{205F}'
    || c == '\U{3000}' || c == '\U{FEFF}'
  }

  /** Drops the leading characters satisfying `sp`. */
  function TrimStart(s: string, sp: char -> bool): (r: string)
    ensures |r| <= |s| && r == s[|s| - |r|..]
    ensures forall i :: 0 <= i < |s| - |r| ==> sp(s[i])
    ensures r == [] || !sp(r[0])
  {
    if |s| > 0 && sp(s[0]) then TrimStart(s[1..], sp) else s
  }

  /** Drops the trailing characters satisfying `sp`. */
  function TrimEnd(s: string, sp: char -> bool): (r: string)
    ensures |r| <= |s| && r == s[..|r|]
    ensures forall i :: |r| <= i < |s| ==> sp(s[i])
    ensures r == [] || !sp(r[|r| - 1])
  {
    if |s| > 0 && sp(s[|s| - 1]) then TrimEnd(s[..|s| - 1], sp) else s
  }

  /** Both ends trimmed. */
  function TrimBy(s: string, sp: char -> bool): string {
    TrimEnd(TrimStart(s, sp), sp)
  }

  /** PHP `trim($s)`. */
  function Trim(s: string): string {
    TrimBy(s, IsPhpSpace)
  }

  /** JavaScript `s.trim()`. */
  function JsTrim(s: string): string {
    TrimBy(s, IsJsSpace)
  }

  /** `r` sits at position `i` of `s`, and everything around it satisfies `sp`. */
  predicate IsTrimmedSlice(s: string, r: string, i: int, sp: char -> bool) {
    0 <= i <= |s| - |r| && r == s[i..i + |r|]
    && (forall k :: 0 <= k < i ==> sp(s[k]))
    && (forall k :: i + |r| <= k < |s| ==> sp(s[k]))
  }

  /** A trimmed string is a contiguous piece of the original with only `sp` characters
      cut away, and it neither starts nor ends with such a character. */
  lemma {:induction false} TrimByIsSlice(s: string, sp: char -> bool)
    ensures IsTrimmedSlice(s, TrimBy(s, sp), |s| - |TrimStart(s, sp)|, sp)
    ensures var r := TrimBy(s, sp); r == [] || (!sp(r[0]) && !sp(r[|r| - 1]))
  {
    var t := TrimStart(s, sp);
    var r := TrimEnd(t, sp);
    TrimmedSliceAt(s, t, r, |s| - |t|, sp);
    PrefixKeepsFirst(t, r, sp);
  }

  lemma PrefixKeepsFirst(t: string, r: string, sp: char -> bool)
    requires |r| <= |t| && r == t[..|r|] && (t == [] || !sp(t[0]))
    ensures r == [] || !sp(r[0])
  {
    if r != [] {
      assert r[0] == t[0];
    }
  }

  /** A prefix `r` of a suffix `t` of `s`, with `sp` characters cut on both sides, is
      a trimmed slice of `s`. */
  lemma TrimmedSliceAt(s: string, t: string, r: string, i: int, sp: char -> bool)
    requires 0 <= i <= |s| && t == s[i..] && |r| <= |t| && r == t[..|r|]
    requires forall k :: 0 <= k < i ==> sp(s[k])
    requires forall k :: |r| <= k < |t| ==> sp(t[k])
    ensures IsTrimmedSlice(s, r, i, sp)
  {
    forall k | i + |r| <= k < |s| ensures sp(s[k]) {
      assert s[k] == t[k - i];
    }
  }

  /** Trimming twice is the same as trimming once. */
  lemma {:induction false} TrimByIdempotent(s: string, sp: char -> bool)
    ensures TrimBy(TrimBy(s, sp), sp) == TrimBy(s, sp)
  {
    var r := TrimBy(s, sp);
    assert TrimStart(r, sp) == r;
    assert TrimEnd(r, sp) == r;
  }

  /** A string that neither starts nor ends with an `sp` character is left as it is. */
  lemma TrimByUntouched(s: string, sp: char -> bool)
    requires s == [] || (!sp(s[0]) && !sp(s[|s| - 1]))
    ensures TrimBy(s, sp) == s
  {
    assert TrimStart(s, sp) == s;
  }

  /** A string trims to "" exactly when every character of it is one `sp` strips. */
  lemma {:induction false} TrimByEmpty(s: string, sp: char -> bool)
    ensures TrimBy(s, sp) == [] <==> forall k :: 0 <= k < |s| ==> sp(s[k])
  {
  }

  // ---------------------------------------------------------------------------
  // Lengths
  // ---------------------------------------------------------------------------

  /** Number of bytes of one code point in UTF-8. */
  function Utf8Width(c: char): nat {
    if c as int < 0x80 then 1
    else if c as int < 0x800 then 2
    else if c as int < 0x10000 then 3
    else 4
  }

  /** PHP `strlen` of the UTF-8 encoding of `s`: the byte length the validators limit. */
  function ByteLength(s: string): (n: nat)
    ensures |s| <= n <= 4 * |s|
  {
    if s == [] then 0 else Utf8Width(s[0]) + ByteLength(s[1..])
  }

  /** Number of UTF-16 code units of one code point. */
  function Utf16Width(c: char): nat {
    if c as int < 0x10000 then 1 else 2
  }

  /** JavaScript `s.length`: the number of UTF-16 code units. */
  function Utf16Length(s: string): (n: nat)
    ensures |s| <= n <= 2 * |s|
  {
    if s == [] then 0 else Utf16Width(s[0]) + Utf16Length(s[1..])
  }

  predicate IsAscii(s: string) {
    forall i :: 0 <= i < |s| ==> s[i] as int < 0x80
  }

  /** For ASCII text `strlen` is the number of characters. */
  lemma {:induction false} AsciiByteLength(s: string)
    requires IsAscii(s)
    ensures ByteLength(s) == |s|
  {
    if s != [] {
      assert IsAscii(s[1..]) by {
        forall i | 0 <= i < |s[1..]| ensures s[1..][i] as int < 0x80 {
          assert s[1..][i] == s[i + 1];
        }
      }
      AsciiByteLength(s[1..]);
    }
  }

  /** `strlen` of a concatenation. */
  lemma {:induction false} ByteLengthAppend(a: string, b: string)
    ensures ByteLength(a + b) == ByteLength(a) + ByteLength(b)
  {
    if a != [] {
      assert (a + b)[0] == a[0];
      assert (a + b)[1..] == a[1..] + b;
      assert ByteLength(a + b) == Utf8Width(a[0]) + ByteLength(a[1..] + b);
      ByteLengthAppend(a[1..], b);
    } else {
      assert a + b == b;
    }
  }

  // ---------------------------------------------------------------------------
  // Case mapping and searching
  // ---------------------------------------------------------------------------

  function AsciiLowerChar(c: char): (d: char)
    ensures 'A' <= c <= 'Z' ==> d as int == c as int + 32
    ensures !('A' <= c <= 'Z') ==> d == c
  {
    if 'A' <= c <= 'Z' then (c as int + 32) as char else c
  }

  /** PHP 8 `strtolower`: only A-Z are mapped, every other character is kept. */
  function AsciiLower(s: string): (r: string)
    ensures |r| == |s|
    ensures forall i :: 0 <= i < |s| ==> r[i] == AsciiLowerChar(s[i])
  {
    if s == [] then [] else [AsciiLowerChar(s[0])] + AsciiLower(s[1..])
  }

  /** `p` is a prefix of `s`. */
  predicate IsPrefix(p: string, s: string) {
    |p| <= |s| && s[..|p|] == p
  }

  /** PHP `str_contains($hay, $needle)` and JavaScript `hay.includes(needle)`. */
  predicate Contains(hay: string, needle: string)
    decreases |hay|
  {
    IsPrefix(needle, hay) || (|hay| > 0 && Contains(hay[1..], needle))
  }

  /** `Contains` holds exactly when the needle occurs at some position of the haystack. */
  lemma {:induction false} ContainsAt(hay: string, needle: string)
    ensures Contains(hay, needle) <==> exists i :: 0 <= i <= |hay| && IsPrefix(needle, hay[i..])
    decreases |hay|
  {
    assert hay[0..] == hay;
    if |hay| > 0 {
      ContainsAt(hay[1..], needle);
      if exists i :: 0 <= i <= |hay| && IsPrefix(needle, hay[i..]) {
        var i :| 0 <= i <= |hay| && IsPrefix(needle, hay[i..]);
        if i > 0 {
          assert hay[1..][i - 1..] == hay[i..];
        }
      }
      if Contains(hay[1..], needle) && !IsPrefix(needle, hay) {
        var j :| 0 <= j <= |hay[1..]| && IsPrefix(needle, hay[1..][j..]);
        assert hay[1..][j..] == hay[j + 1..];
        assert IsPrefix(needle, hay[j + 1..]);
      }
    }
  }

  /** `p` starts `s` when ASCII case is ignored. */
  predicate IsPrefixIgnoreCase(p: string, s: string) {
    p == [] || (s != [] && AsciiLowerChar(p[0]) == AsciiLowerChar(s[0]) && IsPrefixIgnoreCase(p[1..], s[1..]))
  }

  /** PHP 8 `stripos($hay, $needle) !== false`: ASCII case-insensitive search. */
  predicate ContainsIgnoreCase(hay: string, needle: string)
    decreases |hay|
  {
    IsPrefixIgnoreCase(needle, hay) || (|hay| > 0 && ContainsIgnoreCase(hay[1..], needle))
  }

  /** Lowering a string with a first character lowers that character and the rest. */
  lemma AsciiLowerCons(s: string)
    requires s != []
    ensures AsciiLower(s)[0] == AsciiLowerChar(s[0]) && AsciiLower(s)[1..] == AsciiLower(s[1..])
  {
  }

  lemma {:induction false} PrefixIgnoreCaseIsLowerPrefix(p: string, s: string)
    ensures IsPrefixIgnoreCase(p, s) <==> IsPrefix(AsciiLower(p), AsciiLower(s))
  {
    if p != [] && s != [] {
      PrefixIgnoreCaseIsLowerPrefix(p[1..], s[1..]);
      AsciiLowerCons(p);
      AsciiLowerCons(s);
      var lp, ls := AsciiLower(p), AsciiLower(s);
      if IsPrefix(lp, ls) {
        assert lp[1..] == ls[..|lp|][1..];
      }
      if IsPrefixIgnoreCase(p, s) {
        assert ls[..|lp|] == [ls[0]] + ls[1..][..|lp| - 1];
      }
    }
  }

  /** The search ignoring case is the search of the lowered needle in the lowered
      haystack. */
  lemma {:induction false} ContainsIgnoreCaseIsLowerContains(hay: string, needle: string)
    ensures ContainsIgnoreCase(hay, needle) <==> Contains(AsciiLower(hay), AsciiLower(needle))
    decreases |hay|
  {
    PrefixIgnoreCaseIsLowerPrefix(needle, hay);
    if |hay| > 0 {
      ContainsIgnoreCaseIsLowerContains(hay[1..], needle);
      AsciiLowerCons(hay);
    }
  }

  /** PHP `implode($sep, $parts)`. */
  function Join(sep: string, parts: seq<string>): string {
    if parts == [] then ""
    else if |parts| == 1 then parts[0]
    else parts[0] + sep + Join(sep, parts[1..])
  }

  // ---------------------------------------------------------------------------
  // Character classes of the regular expressions
  // ---------------------------------------------------------------------------

  predicate IsDigit(c: char) { '0' <= c <= '9' }
  predicate IsAsciiLetter(c: char) { ('a' <= c <= 'z') || ('A' <= c <= 'Z') }

  /** `[a-zA-Z0-9_]` */
  predicate IsWordChar(c: char) { IsAsciiLetter(c) || IsDigit(c) || c == '_' }

  /** `^[a-zA-Z0-9_]+$` on a string that has no trailing newline. */
  predicate IsWord(s: string) {
    |s| > 0 && forall i :: 0 <= i < |s| ==> IsWordChar(s[i])
  }

  // ---------------------------------------------------------------------------
  // Decimal rendering of integers
  // ---------------------------------------------------------------------------

  function DigitChar(d: nat): (c: char)
    requires d < 10
    ensures IsDigit(c) && c as int - '0' as int == d
  {
    ('0' as int + d) as char
  }

  /** Decimal digits of `n` without leading zeros, as PHP's string interpolation prints a non-negative int. */
  function NatToString(n: nat): (s: string)
    ensures |s| > 0 && forall i :: 0 <= i < |s| ==> IsDigit(s[i])
    ensures n > 0 ==> s[0] != '0'
  {
    if n < 10 then [DigitChar(n)] else NatToString(n / 10) + [DigitChar(n % 10)]
  }

  function DigitValue(c: char): nat
    requires IsDigit(c)
  {
    c as int - '0' as int
  }

  /** Value of a string of decimal digits. */
  function DigitsValue(s: string): nat
    requires forall i :: 0 <= i < |s| ==> IsDigit(s[i])
  {
    if s == [] then 0 else 10 * DigitsValue(s[..|s| - 1]) + DigitValue(s[|s| - 1])
  }

  /** Reading the printed digits back gives the number: the rendering loses nothing. */
  lemma {:induction false} NatToStringValue(n: nat)
    ensures DigitsValue(NatToString(n)) == n
  {
    if n >= 10 {
      var s := NatToString(n);
      assert s[..|s| - 1] == NatToString(n / 10);
      NatToStringValue(n / 10);
    }
  }

  /** Printing is injective, so two different counts never print alike. */
  lemma NatToStringInjective(m: nat, n: nat)
    requires NatToString(m) == NatToString(n)
    ensures m == n
  {
    NatToStringValue(m);
    NatToStringValue(n);
  }

  // ---------------------------------------------------------------------------
  // PHP's (int) cast of a string
  // ---------------------------------------------------------------------------

  /** The whitespace PHP skips before a numeric prefix: space, \t, \n, \r, \v and \f. */
  predicate IsNumericSpace(c: char) {
    c == ' ' || c == '\t' || c == '\n' || c == '\r' || c == '\U{000B}' || c == '\U{000C}'
  }

  /** The longest prefix of decimal digits. */
  function LeadingDigits(s: string): (r: string)
    ensures IsPrefix(r, s)
    ensures forall i :: 0 <= i < |r| ==> IsDigit(r[i])
    ensures |r| < |s| ==> !IsDigit(s[|r|])
  {
    if s != [] && IsDigit(s[0]) then [s[0]] + LeadingDigits(s[1..]) else []
  }

  /** `(int) $s`: leading whitespace, an optional sign, then the leading digits;
      0 when there are none. */
  function IntCast(s: string): (n: int)
    ensures var t := TrimStart(s, IsNumericSpace);
            (t == [] || (t[0] != '-' && t[0] != '+' && !IsDigit(t[0]))) ==> n == 0
  {
    var t := TrimStart(s, IsNumericSpace);
    if t != [] && t[0] == '-' then 0 - DigitsValue(LeadingDigits(t[1..])) as int
    else if t != [] && t[0] == '+' then DigitsValue(LeadingDigits(t[1..]))
    else DigitsValue(LeadingDigits(t))
  }

  lemma {:induction false} AllDigitsLead(s: string)
    requires forall i :: 0 <= i < |s| ==> IsDigit(s[i])
    ensures LeadingDigits(s) == s
  {
    if s != [] {
      AllDigitsLead(s[1..]);
    }
  }

  /** Casting a printed number back gives the number, with or without a minus
      sign: the cast inverts the rendering. */
  lemma IntCastOfNatString(n: nat)
    ensures IntCast(NatToString(n)) == n
    ensures IntCast("-" + NatToString(n)) == 0 - n as int
  {
    var s := NatToString(n);
    var m := "-" + s;
    assert !IsNumericSpace(s[0]);
    assert TrimStart(s, IsNumericSpace) == s;
    assert m[0] == '-' && m[1..] == s;
    assert TrimStart(m, IsNumericSpace) == m;
    AllDigitsLead(s);
    NatToStringValue(n);
  }
}
