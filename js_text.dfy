/**
 * The few JavaScript string and number built-ins the handlers lean on, written out:
 * `parseInt(s, 10)` and `parseInt(s)`, `String.prototype.trim`, `split` on one character, `startsWith`,
 * `includes` on strings (Prisma's `contains`), number-to-text for template literals,
 * and the falsy fallbacks `n || d` and `s || d`.
 */
module JsText {
  import opened Wrappers

  predicate IsDigit(c: char) { '0' <= c <= '9' }

  /**
   * The white space `trim` removes and `parseInt` skips: ECMAScript's WhiteSpace (tab, vertical
   * tab, form feed, the byte order mark and every Unicode space separator, category Zs) and its
   * LineTerminator characters.
   */
  predicate IsSpace(c: char) {
    || c == '\t' || c == '\n' || c == '\U{000B}' || c == '\U{000C}' || c == '\r'
    || c == ' ' || c == '\U{00A0}' || c == '\U{1680}' || '\U{2000}' <= c <= '\U{200A}'
    || c == '\U{2028}' || c == '\U{2029}' || c == '\U{202F}' || c == '\U{205F}' || c == '\U{3000}'
    || c == '\U{FEFF}'
  }

  function DigitChar(d: nat): (c: char)
    requires d < 10
    ensures IsDigit(c)
  {
    ('0' as int + d) as char
  }

  function DigitValue(c: char): (d: nat)
    requires IsDigit(c)
    ensures d < 10 && DigitChar(d) == c
  {
    (c as int) - ('0' as int)
  }

  predicate AllDigits(s: string) { forall i :: 0 <= i < |s| ==> IsDigit(s[i]) }

  /** Decimal value of a digit string, most significant digit first. */
  function DigitsValue(s: string): nat
    requires AllDigits(s)
  {
    if s == [] then 0 else DigitsValue(s[..|s| - 1]) * 10 + DigitValue(s[|s| - 1])
  }

  /** The longest prefix made of decimal digits. */
  function LeadingDigits(s: string): (r: string)
    ensures AllDigits(r) && r <= s
    ensures |r| < |s| ==> !IsDigit(s[|r|])
  {
    if s != [] && IsDigit(s[0]) then [s[0]] + LeadingDigits(s[1..]) else []
  }

  function TrimStart(s: string): (r: string)
    ensures |r| <= |s| && r == s[|s| - |r|..]
    ensures r != [] ==> !IsSpace(r[0])
    ensures forall i :: 0 <= i < |s| - |r| ==> IsSpace(s[i])
  {
    if s != [] && IsSpace(s[0]) then TrimStart(s[1..]) else s
  }

  function TrimEnd(s: string): (r: string)
    ensures r <= s
    ensures r != [] ==> !IsSpace(r[|r| - 1])
    ensures forall i :: |r| <= i < |s| ==> IsSpace(s[i])
  {
    if s != [] && IsSpace(s[|s| - 1]) then TrimEnd(s[..|s| - 1]) else s
  }

  /** `s.trim()`. */
  function Trim(s: string): string { TrimEnd(TrimStart(s)) }

  /**
   * `parseInt(s, 10)`: skip leading white space, read an optional sign, then the longest run of
   * decimal digits; `NaN` (here `None`) when there is no digit. Numbers beyond 2^53 are not rounded.
   */
  function ParseInt(s: string): Option<int> {
    ParseSigned(TrimStart(s))
  }

  /**
   * `parseInt(s)` with no radix: as `parseInt(s, 10)`, except that a `0x` or `0X` after the sign
   * switches to hexadecimal; `NaN` when no hexadecimal digit follows the prefix.
   */
  function ParseIntAuto(s: string): (r: Option<int>)
    ensures !HexPrefixed(Unsigned(TrimStart(s))) ==> r == ParseInt(s)
    ensures HexPrefixed(Unsigned(TrimStart(s))) ==>
      (r.None? <==> LeadingHexDigits(Unsigned(TrimStart(s))[2..]) == [])
  {
    ParseSignedAuto(TrimStart(s))
  }

  /** The text after an optional leading sign. */
  function Unsigned(t: string): (u: string)
    ensures u == t || (t != [] && (t[0] == '-' || t[0] == '+') && u == t[1..])
  {
    if t != [] && (t[0] == '-' || t[0] == '+') then t[1..] else t
  }

  predicate HexPrefixed(t: string) {
    |t| >= 2 && t[0] == '0' && (t[1] == 'x' || t[1] == 'X')
  }

  function ParseSignedAuto(t: string): Option<int> {
    if t != [] && t[0] == '-' then Negate(ParseBody(t[1..]))
    else if t != [] && t[0] == '+' then ParseBody(t[1..])
    else ParseBody(t)
  }

  /** The digits after the sign: hexadecimal after `0x`, decimal otherwise. */
  function ParseBody(t: string): Option<int> {
    if HexPrefixed(t) then ParseHex(t[2..]) else ParseDigits(t)
  }

  predicate IsHexDigit(c: char) { IsDigit(c) || 'a' <= c <= 'f' || 'A' <= c <= 'F' }

  function HexDigitValue(c: char): (d: nat)
    requires IsHexDigit(c)
    ensures d < 16
  {
    if IsDigit(c) then DigitValue(c)
    else if 'a' <= c <= 'f' then (c as int) - ('a' as int) + 10
    else (c as int) - ('A' as int) + 10
  }

  predicate AllHexDigits(s: string) { forall i :: 0 <= i < |s| ==> IsHexDigit(s[i]) }

  /** Hexadecimal value of a digit string, most significant digit first. */
  function HexValue(s: string): nat
    requires AllHexDigits(s)
  {
    if s == [] then 0 else HexValue(s[..|s| - 1]) * 16 + HexDigitValue(s[|s| - 1])
  }

  /** The longest prefix made of hexadecimal digits. */
  function LeadingHexDigits(s: string): (r: string)
    ensures AllHexDigits(r) && r <= s
    ensures |r| < |s| ==> !IsHexDigit(s[|r|])
  {
    if s != [] && IsHexDigit(s[0]) then [s[0]] + LeadingHexDigits(s[1..]) else []
  }

  function ParseHex(t: string): Option<int> {
    var digits := LeadingHexDigits(t);
    if digits == [] then None else Some(HexValue(digits) as int)
  }

  /** `parseInt` once leading white space is gone. */
  function ParseSigned(t: string): Option<int> {
    if t != [] && t[0] == '-' then Negate(ParseDigits(t[1..]))
    else if t != [] && t[0] == '+' then ParseDigits(t[1..])
    else ParseDigits(t)
  }

  function ParseDigits(t: string): Option<int> {
    var digits := LeadingDigits(t);
    if digits == [] then None else Some(DigitsValue(digits) as int)
  }

  function Negate(n: Option<int>): Option<int> {
    if n.None? then None else Some(-n.value)
  }

  /** Decimal text of a natural number, as a template literal prints it. */
  function NatText(n: nat): (s: string)
    ensures s != [] && AllDigits(s)
  {
    if n < 10 then [DigitChar(n)] else NatText(n / 10) + [DigitChar(n % 10)]
  }

  /** `${n}` for an integer number. */
  function NumberText(n: int): string {
    if n < 0 then "-" + NatText(-n) else NatText(n)
  }

  lemma {:induction false} NatTextValue(n: nat)
    ensures DigitsValue(NatText(n)) == n
  {
    if n >= 10 {
      var s := NatText(n);
      assert s[..|s| - 1] == NatText(n / 10);
      NatTextValue(n / 10);
    }
  }

  lemma {:induction false} LeadingDigitsOfDigits(s: string, rest: string)
    requires AllDigits(s)
    requires rest == [] || !IsDigit(rest[0])
    ensures LeadingDigits(s + rest) == s
  {
    if s != [] {
      assert (s + rest)[1..] == s[1..] + rest;
      LeadingDigitsOfDigits(s[1..], rest);
    }
  }

  lemma NatTextParses(m: nat)
    ensures ParseDigits(NatText(m)) == Some(m)
  {
    var d := NatText(m);
    LeadingDigitsOfDigits(d, []);
    assert d + [] == d;
    NatTextValue(m);
  }

  /** The default texts `'1'` and `'10'` read back as the default page and limit. */
  lemma ParseIntDefaults()
    ensures ParseInt("1") == Some(1) && ParseInt("10") == Some(10)
  {
    assert NumberText(1) == "1";
    assert NumberText(10) == "10";
    ParseIntNumberText(1);
    ParseIntNumberText(10);
  }

  /** `parseInt` answers `NaN` exactly when no decimal digit follows the white space and the sign. */
  lemma ParseIntNaN(s: string)
    ensures ParseInt(s).None? <==> LeadingDigits(Unsigned(TrimStart(s))) == []
  {
  }

  /** Round trip: the page number written into a page link reads back as the same number. */
  lemma ParseIntNumberText(n: int)
    ensures ParseInt(NumberText(n)) == Some(n)
  {
    var t := NumberText(n);
    if n < 0 {
      NatTextParses(-n);
      assert t[0] == '-' && t[1..] == NatText(-n);
    } else {
      NatTextParses(n);
    }
    assert !IsSpace(t[0]);
    assert TrimStart(t) == t;
  }

  lemma {:induction false} TrimStartIdempotent(s: string)
    ensures TrimStart(TrimStart(s)) == TrimStart(s)
  {
  }

  lemma {:induction false} TrimEndKeepsFirst(s: string)
    requires s != [] && !IsSpace(s[0])
    ensures TrimEnd(s) != [] && TrimEnd(s)[0] == s[0]
  {
    if IsSpace(s[|s| - 1]) {
      TrimEndKeepsFirst(s[..|s| - 1]);
    }
  }

  /** `trim` leaves neither end on white space. */
  lemma TrimEdges(s: string)
    ensures |Trim(s)| <= |s|
    ensures Trim(s) != [] ==> !IsSpace(Trim(s)[0]) && !IsSpace(Trim(s)[|Trim(s)| - 1])
  {
    var t := TrimStart(s);
    if t != [] {
      TrimEndKeepsFirst(t);
    }
  }

  /**
   * `trim` takes off white space and nothing else: what is left is the piece of the string
   * that starts after the leading white space, and everything around it is white space.
   */
  lemma TrimRemovesOnlySpace(s: string)
    ensures var k := |s| - |TrimStart(s)|;
      && Trim(s) == s[k..k + |Trim(s)|]
      && (forall i :: 0 <= i < k ==> IsSpace(s[i]))
      && (forall i :: k + |Trim(s)| <= i < |s| ==> IsSpace(s[i]))
  {
    var t := TrimStart(s);
    var r := TrimEnd(t);
    assert Trim(s) == r;
    TrimEndSpaces(s, t);
    TrimPiece(s, t, r);
  }

  lemma TrimPiece(s: string, t: string, r: string)
    requires |t| <= |s| && t == s[|s| - |t|..] && r <= t
    ensures r == s[|s| - |t|..|s| - |t| + |r|]
  {
  }

  lemma TrimEndSpaces(s: string, t: string)
    requires |t| <= |s| && t == s[|s| - |t|..]
    ensures forall i :: |s| - |t| + |TrimEnd(t)| <= i < |s| ==> IsSpace(s[i])
  {
    var k := |s| - |t|;
    forall i | k + |TrimEnd(t)| <= i < |s|
      ensures IsSpace(s[i])
    {
      assert s[i] == t[i - k];
    }
  }

  /** The digits `parseInt` reads stop before trailing white space, so they survive `TrimEnd`. */
  lemma {:induction false} LeadingDigitsTrimEnd(s: string)
    ensures LeadingDigits(TrimEnd(s)) == LeadingDigits(s)
  {
    if s != [] && IsSpace(s[|s| - 1]) {
      LeadingDigitsTrimEnd(s[..|s| - 1]);
      LeadingDigitsPrefix(s[..|s| - 1], s);
    }
  }

  lemma {:induction false} LeadingDigitsPrefix(s: string, t: string)
    requires s <= t
    requires |s| < |t| ==> !IsDigit(t[|s|])
    ensures LeadingDigits(s) == LeadingDigits(t)
  {
    if s != [] && IsDigit(s[0]) {
      LeadingDigitsPrefix(s[1..], t[1..]);
    }
  }

  /** `parseInt(s.trim())` is `parseInt(s)`: the `trim` in the stock search filter changes nothing. */
  lemma ParseIntIgnoresTrim(s: string)
    ensures ParseInt(Trim(s)) == ParseInt(s)
  {
    var t := TrimStart(s);
    TrimStartIdempotent(s);
    if t == [] {
      assert TrimEnd(t) == [];
    } else {
      ParseSignedTrimEnd(t);
      var u := TrimEnd(t);
      TrimEndKeepsFirst(t);
      assert !IsSpace(u[0]);
      assert TrimStart(u) == u;
    }
  }

  lemma ParseSignedTrimEnd(t: string)
    requires t != [] && !IsSpace(t[0])
    ensures ParseSigned(TrimEnd(t)) == ParseSigned(t)
  {
    var u := TrimEnd(t);
    TrimEndKeepsFirst(t);
    if t[0] == '-' || t[0] == '+' {
      TrimEndTail(t);
      LeadingDigitsTrimEnd(t[1..]);
    } else {
      LeadingDigitsTrimEnd(t);
    }
  }

  lemma {:induction false} TrimEndTail(t: string)
    requires t != [] && !IsSpace(t[0])
    ensures TrimEnd(t) != [] && TrimEnd(t)[1..] == TrimEnd(t[1..])
  {
    TrimEndKeepsFirst(t);
    if IsSpace(t[|t| - 1]) {
      var p := t[..|t| - 1];
      TrimEndTail(p);
      assert t[1..][..|t[1..]| - 1] == p[1..];
    }
  }

  /** Without a radix, `0x` switches to hexadecimal: `parseInt("0x1F")` is 31. */
  lemma HexPrefixRead()
    ensures ParseIntAuto("0x1F") == Some(31)
  {
    HexBody('1', 'F', 31);
    PrefixedHex("0x1F", "1F");
  }

  /** The sign comes before the prefix: `parseInt("-0x10")` is -16. */
  lemma SignedHexPrefixRead()
    ensures ParseIntAuto("-0x10") == Some(-16)
  {
    HexBody('1', '0', 16);
    var m := "-0x10";
    assert TrimStart(m) == m by { assert !IsSpace(m[0]); }
    assert m[1..] == "0x10" && "0x10"[2..] == "10";
  }

  /** A prefix with no hexadecimal digit after it is `NaN`, not 0. */
  lemma BareHexPrefixIsNaN()
    ensures ParseIntAuto("0x") == None
  {
    var z := "0x";
    assert TrimStart(z) == z by { assert !IsSpace(z[0]); }
    assert z[2..] == [];
  }

  /** With radix 10 the same text stops at the `x`: `parseInt("0x1F", 10)` is 0. */
  lemma DecimalStopsAtHexPrefix()
    ensures ParseInt("0x1F") == Some(0)
  {
    var h := "0x1F";
    assert TrimStart(h) == h by { assert !IsSpace(h[0]); }
    assert LeadingDigits(h) == "0" by { assert h[1..] == "x1F"; }
    assert DigitsValue("0") == 0 by { assert "0"[..0] == []; }
  }

  /** A two-digit hexadecimal body. */
  lemma HexBody(a: char, b: char, v: nat)
    requires IsHexDigit(a) && IsHexDigit(b) && HexDigitValue(a) * 16 + HexDigitValue(b) == v
    ensures ParseHex([a, b]) == Some(v as int)
  {
    var body := [a, b];
    assert body[1..] == [b] && body[1..][1..] == [];
    assert LeadingHexDigits(body) == body;
    assert body[..1] == [a] && [a][..0] == [];
    assert HexValue([a]) == HexDigitValue(a);
    assert HexValue(body) == HexValue([a]) * 16 + HexDigitValue(b);
  }

  /** `0x` followed by the body, with nothing in front. */
  lemma PrefixedHex(s: string, body: string)
    requires s == "0x" + body
    ensures ParseIntAuto(s) == ParseHex(body)
  {
    assert TrimStart(s) == s by { assert !IsSpace(s[0]); }
    assert s[2..] == body;
  }

  /** The text of an integer carries no `0x`, so radix or not, it reads back as the integer. */
  lemma ParseIntAutoNumberText(n: int)
    ensures ParseIntAuto(NumberText(n)) == Some(n)
  {
    var t := NumberText(n);
    ParseIntNumberText(n);
    assert TrimStart(t) == t by { assert !IsSpace(t[0]); }
    var u := Unsigned(t);
    assert u == NatText(if n < 0 then -n else n) by {
      if n < 0 { assert t[0] == '-' && t[1..] == NatText(-n); }
    }
    assert AllDigits(u);
  }

  /** Trailing white space does not reach the digits, hexadecimal or decimal. */
  lemma {:induction false} LeadingHexDigitsTrimEnd(s: string)
    ensures LeadingHexDigits(TrimEnd(s)) == LeadingHexDigits(s)
  {
    if s != [] && IsSpace(s[|s| - 1]) {
      LeadingHexDigitsTrimEnd(s[..|s| - 1]);
      LeadingHexDigitsPrefix(s[..|s| - 1], s);
    }
  }

  lemma {:induction false} LeadingHexDigitsPrefix(s: string, t: string)
    requires s <= t
    requires |s| < |t| ==> !IsHexDigit(t[|s|])
    ensures LeadingHexDigits(s) == LeadingHexDigits(t)
  {
    if s != [] && IsHexDigit(s[0]) {
      LeadingHexDigitsPrefix(s[1..], t[1..]);
    }
  }

  lemma ParseBodyTrimEnd(b: string)
    ensures ParseBody(TrimEnd(b)) == ParseBody(b)
  {
    var u := TrimEnd(b);
    if HexPrefixed(b) {
      TrimEndTail(b);
      TrimEndTail(b[1..]);
      TrimEndKeepsFirst(b);
      TrimEndKeepsFirst(b[1..]);
      assert b[1..][1..] == b[2..];
      assert u[1..][1..] == u[2..];
      LeadingHexDigitsTrimEnd(b[2..]);
    } else {
      assert !HexPrefixed(u) by { assert u <= b; }
      LeadingDigitsTrimEnd(b);
    }
  }

  /** `parseInt(s.trim())` is `parseInt(s)` without a radix too. */
  lemma ParseIntAutoIgnoresTrim(s: string)
    ensures ParseIntAuto(Trim(s)) == ParseIntAuto(s)
  {
    var t := TrimStart(s);
    TrimStartIdempotent(s);
    if t == [] {
      assert TrimEnd(t) == [];
    } else {
      var u := TrimEnd(t);
      TrimEndKeepsFirst(t);
      assert TrimStart(u) == u by { assert !IsSpace(u[0]); }
      if t[0] == '-' || t[0] == '+' {
        TrimEndTail(t);
        ParseBodyTrimEnd(t[1..]);
      } else {
        ParseBodyTrimEnd(t);
      }
    }
  }

  /**
   * `s.length`: JavaScript counts UTF-16 code units, so a character beyond U+FFFF (an emoji, say)
   * counts twice.
   */
  function Utf16Length(s: string): (n: nat)
    ensures |s| <= n <= 2 * |s|
    ensures (forall i :: 0 <= i < |s| ==> s[i] as int < 0x1_0000) ==> n == |s|
    ensures (forall i :: 0 <= i < |s| ==> s[i] as int >= 0x1_0000) ==> n == 2 * |s|
  {
    if s == [] then 0 else Utf16Length(s[..|s| - 1]) + (if s[|s| - 1] as int < 0x1_0000 then 1 else 2)
  }

  /** Lengths add up over concatenation. */
  lemma {:induction false} Utf16LengthAppend(a: string, b: string)
    ensures Utf16Length(a + b) == Utf16Length(a) + Utf16Length(b)
  {
    if b != [] {
      assert (a + b)[..|a + b| - 1] == a + b[..|b| - 1];
      Utf16LengthAppend(a, b[..|b| - 1]);
    } else {
      assert a + b == a;
    }
  }

  /** `s.startsWith(p)`. */
  predicate StartsWith(s: string, p: string) { p <= s }

  /** `t.includes(s)`, which Prisma's `contains` filter tests. */
  predicate Contains(t: string, s: string) {
    exists i :: 0 <= i <= |t| - |s| && OccursAt(t, s, i)
  }

  predicate OccursAt(t: string, s: string, i: int) {
    0 <= i <= |t| - |s| && t[i..i + |s|] == s
  }

  /** `s.split(sep)` for a one-character separator: always at least one piece. */
  function Split(s: string, sep: char): (r: seq<string>)
    ensures |r| >= 1
    ensures forall i :: 0 <= i < |r| ==> sep !in r[i]
  {
    if s == [] then [""]
    else
      var rest := Split(s[1..], sep);
      if s[0] == sep then [""] + rest else [[s[0]] + rest[0]] + rest[1..]
  }

  /** `parts.join(sep)`. */
  function Join(parts: seq<string>, sep: char): string
    requires |parts| >= 1
  {
    if |parts| == 1 then parts[0] else parts[0] + [sep] + Join(parts[1..], sep)
  }

  /** Splitting and joining again gives back the string. */
  lemma {:induction false} JoinSplit(s: string, sep: char)
    ensures Join(Split(s, sep), sep) == s
  {
    if s != [] {
      var rest := Split(s[1..], sep);
      JoinSplit(s[1..], sep);
      if s[0] != sep {
        var r := Split(s, sep);
        assert r[0] == [s[0]] + rest[0] && r[1..] == rest[1..];
        if |rest| > 1 {
          assert Join(rest, sep) == rest[0] + [sep] + Join(rest[1..], sep);
        }
      }
    }
  }

  /** Joining pieces that contain no separator and splitting again gives back the pieces. */
  lemma {:induction false} SplitJoin(parts: seq<string>, sep: char)
    requires |parts| >= 1
    requires forall i :: 0 <= i < |parts| ==> sep !in parts[i]
    ensures Split(Join(parts, sep), sep) == parts
  {
    if |parts| == 1 {
      SplitNoSep(parts[0], sep);
    } else {
      SplitJoin(parts[1..], sep);
      SplitPrefix(parts[0], Join(parts[1..], sep), sep);
      assert Join(parts, sep) == parts[0] + ([sep] + Join(parts[1..], sep));
    }
  }

  lemma {:induction false} SplitNoSep(s: string, sep: char)
    requires sep !in s
    ensures Split(s, sep) == [s]
  {
    if s != [] {
      SplitNoSep(s[1..], sep);
      assert [s[0]] + s[1..] == s;
    }
  }

  lemma {:induction false} SplitPrefix(a: string, b: string, sep: char)
    requires sep !in a
    ensures Split(a + ([sep] + b), sep) == [a] + Split(b, sep)
  {
    if a == [] {
      assert a + ([sep] + b) == [sep] + b;
      assert ([sep] + b)[1..] == b;
    } else {
      var t := a + ([sep] + b);
      assert t[0] == a[0] && t[1..] == a[1..] + ([sep] + b);
      SplitPrefix(a[1..], b, sep);
      assert [a[0]] + a[1..] == a;
    }
  }

  /** `n || d` for a number that may be `NaN` (`None`): both `NaN` and 0 are falsy. */
  function NumberOr(n: Option<int>, d: int): (r: int)
    ensures r == d || (n == Some(r) && r != 0)
    ensures n.Some? && n.value != 0 ==> r == n.value
  {
    if n.None? || n.value == 0 then d else n.value
  }

  /** A string that JavaScript treats as truthy: present and not empty. */
  predicate Truthy(s: Option<string>) { s.Some? && s.value != "" }

  /** `s || d` for a string that may be absent. */
  function TextOr(s: Option<string>, d: string): (r: string)
    ensures Truthy(s) ==> r == s.value
    ensures !Truthy(s) ==> r == d
  {
    if Truthy(s) then s.value else d
  }

  /** `s || undefined`: the empty string is dropped. */
  function NonEmpty(s: Option<string>): (r: Option<string>)
    ensures r.Some? <==> Truthy(s)
    ensures r.Some? ==> r == s
  {
    if Truthy(s) then s else None
  }
}
