/** Strings, characters and number parsing shared by the backend (Java) and
    frontend (JavaScript) models. Strings are sequences of characters; only
    ASCII case mapping is modelled. */
module Text {

  datatype Option<+T> = None | Some(value: T)

  /** What a backend operation returns, or the message of the exception it throws. */
  datatype Result<+T> = Success(value: T) | Failure(error: string)

  /** The two runtimes whose whitespace rules differ. */
  datatype Lang = Java | Js

  predicate IsDigit(c: char) { '0' <= c <= '9' }

  predicate IsUpper(c: char) { 'A' <= c <= 'Z' }

  predicate IsLower(c: char) { 'a' <= c <= 'z' }

  predicate IsAsciiLetter(c: char) { IsUpper(c) || IsLower(c) }

  /** JavaScript's `\s` class, which is also the set `String.prototype.trim` removes. */
  predicate IsJsSpace(c: char)
  {
    c == '\t' || c == '\n' || c == '\U{B}' || c == '\U{C}' || c == '\r' || c == ' ' ||
    c == '\U{A0}' || c == '\U{1680}' || ('\U{2000}' <= c <= '\U{200A}') ||
    c == '\U{2028}' || c == '\U{2029}' || c == '\U{202F}' || c == '\U{205F}' ||
    c == '\U{3000}' || c == '\U{FEFF}'
  }

  /** Java's `\s` class in a regular expression: [ \t\n\x0B\f\r]. */
  predicate IsJavaRegexSpace(c: char)
  {
    c == ' ' || c == '\t' || c == '\n' || c == '\U{B}' || c == '\U{C}' || c == '\r'
  }

  /** What `trim()` removes: code points up to U+0020 in Java, `\s` in JavaScript. */
  predicate IsSpace(lang: Lang, c: char)
  {
    match lang
    case Java => c <= ' '
    case Js => IsJsSpace(c)
  }

  predicate IsBlank(lang: Lang, s: string)
  {
    forall i :: 0 <= i < |s| ==> IsSpace(lang, s[i])
  }

  function TrimStart(lang: Lang, s: string): (r: string)
    ensures |r| <= |s| && r == s[|s| - |r|..]
    ensures r == [] <==> IsBlank(lang, s)
    ensures r != [] ==> !IsSpace(lang, r[0])
    ensures IsBlank(lang, s[..|s| - |r|])
  {
    if s == [] then s
    else if IsSpace(lang, s[0]) then
      var r := TrimStart(lang, s[1..]);
      assert s[1..][..|s[1..]| - |r|] == s[1..|s| - |r|];
      r
    else s
  }

  function TrimEnd(lang: Lang, s: string): (r: string)
    ensures |r| <= |s| && r == s[..|r|]
    ensures r == [] <==> IsBlank(lang, s)
    ensures r != [] ==> !IsSpace(lang, r[|r| - 1])
    ensures IsBlank(lang, s[|r|..])
  {
    if s == [] then s
    else if IsSpace(lang, s[|s| - 1]) then
      var r := TrimEnd(lang, s[..|s| - 1]);
      assert s[..|s| - 1][|r|..] == s[|r|..|s| - 1];
      assert s[|r|..] == s[|r|..|s| - 1] + [s[|s| - 1]];
      assert s == s[..|s| - 1] + [s[|s| - 1]];
      r
    else s
  }

  /** `trim()`: the longest infix with no removable space at either end, that
      is, the leading spaces and then the trailing ones cut off. */
  function Trim(lang: Lang, s: string): (r: string)
    ensures |r| <= |s|
    ensures r == [] <==> IsBlank(lang, s)
    ensures r != [] ==> !IsSpace(lang, r[0]) && !IsSpace(lang, r[|r| - 1])
    decreases |s|
  {
    if s == [] then s
    else if IsSpace(lang, s[0]) then
      assert IsBlank(lang, s) <==> IsBlank(lang, s[1..]) by {
        if IsBlank(lang, s[1..]) {
          forall i | 1 <= i < |s| ensures IsSpace(lang, s[i]) {
            assert s[i] == s[1..][i - 1];
          }
        }
      }
      Trim(lang, s[1..])
    else if IsSpace(lang, s[|s| - 1]) then
      Trim(lang, s[..|s| - 1])
    else s
  }

  /** `trim()` cuts the leading spaces off and then the trailing ones; with
      the contracts of `TrimStart` and `TrimEnd`, the result is an infix of
      `s` with only blanks cut off before and after it. */
  lemma {:induction false} TrimCutsBothEnds(lang: Lang, s: string)
    ensures Trim(lang, s) == TrimEnd(lang, TrimStart(lang, s))
    decreases |s|
  {
    if s == [] {
    } else if IsSpace(lang, s[0]) {
      TrimCutsBothEnds(lang, s[1..]);
    } else if IsSpace(lang, s[|s| - 1]) {
      var t := s[..|s| - 1];
      TrimCutsBothEnds(lang, t);
      assert TrimStart(lang, t) == t;
    }
  }

  function LowerChar(c: char): (r: char)
    ensures IsUpper(c) ==> IsLower(r)
    ensures !IsUpper(c) ==> r == c
  {
    if IsUpper(c) then (c as int + 32) as char else c
  }

  /** ASCII `toLowerCase()`. */
  function Lower(s: string): (r: string)
    ensures |r| == |s|
    ensures forall i :: 0 <= i < |s| ==> r[i] == LowerChar(s[i])
  {
    seq(|s|, i requires 0 <= i < |s| => LowerChar(s[i]))
  }

  /** Lower-casing leaves no upper-case letter, changes nothing in text that
      has none, and so a second pass changes nothing. */
  lemma LowerIdempotent(s: string)
    ensures forall i :: 0 <= i < |s| ==> !IsUpper(Lower(s)[i])
    ensures (forall i :: 0 <= i < |s| ==> !IsUpper(s[i])) ==> Lower(s) == s
    ensures Lower(Lower(s)) == Lower(s)
  {
    forall i | 0 <= i < |s|
      ensures Lower(Lower(s))[i] == Lower(s)[i]
    {
      assert Lower(s)[i] == LowerChar(s[i]);
    }
  }

  predicate StartsWith(s: string, prefix: string)
  {
    |prefix| <= |s| && s[..|prefix|] == prefix
  }

  predicate EndsWith(s: string, suffix: string)
  {
    |suffix| <= |s| && s[|s| - |suffix|..] == suffix
  }

  /** `hay.includes(needle)` / `hay.contains(needle)`. */
  predicate Contains(hay: string, needle: string)
    decreases |hay|
  {
    StartsWith(hay, needle) || (hay != [] && Contains(hay[1..], needle))
  }

  lemma {:induction false} ContainsAt(hay: string, needle: string, k: nat)
    requires k + |needle| <= |hay| && hay[k..k + |needle|] == needle
    ensures Contains(hay, needle)
    decreases k
  {
    if k > 0 {
      assert hay[1..][k - 1..k - 1 + |needle|] == needle;
      ContainsAt(hay[1..], needle, k - 1);
    }
  }

  /** `s.replace(/\D/g, "")`: the digits of `s`, in order. */
  function Digits(s: string): (r: string)
    ensures |r| <= |s|
    ensures forall i :: 0 <= i < |r| ==> IsDigit(r[i])
  {
    if s == [] then []
    else if IsDigit(s[0]) then [s[0]] + Digits(s[1..])
    else Digits(s[1..])
  }

  predicate AllDigits(s: string)
  {
    forall i :: 0 <= i < |s| ==> IsDigit(s[i])
  }

  lemma {:induction false} DigitsOfDigits(s: string)
    requires AllDigits(s)
    ensures Digits(s) == s
  {
    if s != [] {
      DigitsOfDigits(s[1..]);
    }
  }

  lemma {:induction false} DigitsOfConcat(a: string, b: string)
    ensures Digits(a + b) == Digits(a) + Digits(b)
  {
    if a != [] {
      assert (a + b)[0] == a[0] && (a + b)[1..] == a[1..] + b;
      DigitsOfConcat(a[1..], b);
      if IsDigit(a[0]) {
        assert Digits(a + b) == [a[0]] + Digits(a[1..] + b);
        assert Digits(a) == [a[0]] + Digits(a[1..]);
      } else {
        assert Digits(a + b) == Digits(a[1..] + b);
      }
    } else {
      assert a + b == b;
    }
  }

  function DigitValue(c: char): (r: nat)
    requires IsDigit(c)
    ensures r < 10
  {
    c as int - '0' as int
  }

  function DigitChar(d: nat): (c: char)
    requires d < 10
    ensures IsDigit(c) && DigitValue(c) == d
  {
    ('0' as int + d) as char
  }

  /** The value of a string of decimal digits. */
  function DigitsValue(d: string): (n: nat)
    requires AllDigits(d)
  {
    if d == [] then 0 else DigitsValue(d[..|d| - 1]) * 10 + DigitValue(d[|d| - 1])
  }

  function Pow10(k: nat): (p: nat)
    ensures p >= 1
  {
    if k == 0 then 1 else 10 * Pow10(k - 1)
  }

  lemma {:induction false} DigitsValueBound(d: string)
    requires AllDigits(d)
    ensures DigitsValue(d) < Pow10(|d|)
  {
    if d != [] {
      DigitsValueBound(d[..|d| - 1]);
    }
  }

  /** Decimal text of a natural number, with no leading zeros. */
  function NatToString(n: nat): (s: string)
    ensures s != [] && AllDigits(s)
    ensures DigitsValue(s) == n
    ensures |s| > 1 ==> s[0] != '0'
  {
    if n < 10 then [DigitChar(n)]
    else
      var s := NatToString(n / 10) + [DigitChar(n % 10)];
      assert s[..|s| - 1] == NatToString(n / 10);
      s
  }

  lemma {:induction false} NatToStringLength(n: nat, k: nat)
    requires n < Pow10(k) && k >= 1
    ensures |NatToString(n)| <= k
  {
    if n >= 10 {
      NatToStringLength(n / 10, k - 1);
    }
  }

  lemma {:induction false} LeadingZerosValue(z: nat, d: string)
    requires AllDigits(d)
    ensures AllDigits(seq(z, _ => '0') + d)
    ensures DigitsValue(seq(z, _ => '0') + d) == DigitsValue(d)
    decreases |d|
  {
    var s := seq(z, _ => '0') + d;
    if d == [] {
      assert s == seq(z, _ => '0');
      ZerosValue(z);
    } else {
      assert s[..|s| - 1] == seq(z, _ => '0') + d[..|d| - 1];
      LeadingZerosValue(z, d[..|d| - 1]);
    }
  }

  lemma {:induction false} ZerosValue(z: nat)
    ensures AllDigits(seq(z, _ => '0'))
    ensures DigitsValue(seq(z, _ => '0')) == 0
  {
    if z > 0 {
      assert seq(z, _ => '0')[..z - 1] == seq(z - 1, _ => '0');
      ZerosValue(z - 1);
    }
  }

  /** The longest prefix of `s` made of decimal digits. */
  function DigitPrefix(s: string): (r: string)
    ensures |r| <= |s| && r == s[..|r|] && AllDigits(r)
    ensures |r| < |s| ==> !IsDigit(s[|r|])
  {
    if s != [] && IsDigit(s[0]) then [s[0]] + DigitPrefix(s[1..]) else []
  }

  /** A concatenation starts with the first text's first character and
      continues with the rest of both. */
  lemma ConcatTail(a: string, b: string)
    requires a != []
    ensures (a + b)[0] == a[0] && (a + b)[1..] == a[1..] + b
    ensures a + b == [a[0]] + (a[1..] + b)
  {
  }

  /** A digit is neither a JavaScript nor a Java space. */
  lemma DigitNotSpace(c: char)
    requires IsDigit(c)
    ensures !IsSpace(Js, c) && !IsSpace(Java, c)
  {
  }

  /** Digit text is its own digit run. */
  lemma {:induction false} DigitPrefixOfAllDigits(s: string)
    requires AllDigits(s)
    ensures DigitPrefix(s) == s
  {
    if s != [] {
      DigitPrefixOfAllDigits(s[1..]);
      assert s == [s[0]] + s[1..];
    }
  }

  /** JavaScript `parseInt(s)` read in base 10: leading space, an optional
      sign, then the longest run of digits; None stands for NaN. Called
      without a radix, `parseInt` reads a "0x" prefix as hexadecimal; the
      texts it is given here come from number inputs or digit-filtered
      fields, which never hold an "x", so base 10 is what it reads. */
  function ParseInt(s: string): (r: Option<int>)
    ensures AllDigits(s) ==> r == (if s == [] then None else Some(DigitsValue(s)))
  {
    var t := TrimStart(Js, s);
    var neg := t != [] && t[0] == '-';
    var rest := if t != [] && (t[0] == '-' || t[0] == '+') then t[1..] else t;
    var d := DigitPrefix(rest);
    if AllDigits(s) && s != [] then
      DigitNotSpace(s[0]);
      assert t == s;
      DigitPrefixOfAllDigits(s);
      if d == [] then None else Some(DigitsValue(d))
    else if d == [] then None
    else if neg then Some(0 - DigitsValue(d) as int)
    else Some(DigitsValue(d))
  }

  /** The value of digits `f` read after a decimal point. */
  function FractionValue(f: string): real
    requires AllDigits(f)
  {
    DigitsValue(f) as real / Pow10(|f|) as real
  }

  /** JavaScript `parseFloat(s)` for decimal text without an exponent:
      leading space, an optional sign, digits, then `.` and more digits. */
  function ParseFloat(s: string): Option<real>
  {
    var t := TrimStart(Js, s);
    var neg := t != [] && t[0] == '-';
    var rest := if t != [] && (t[0] == '-' || t[0] == '+') then t[1..] else t;
    var ip := DigitPrefix(rest);
    var after := rest[|ip|..];
    var fp := if after != [] && after[0] == '.' then DigitPrefix(after[1..]) else [];
    if ip == [] && fp == [] then None
    else
      var mag := DigitsValue(ip) as real + FractionValue(fp);
      Some(if neg then -mag else mag)
  }

  /** `n` written with exactly `width` digits, zero-padded on the left. */
  function PadNat(n: nat, width: nat): (s: string)
    requires width >= 1 && n < Pow10(width)
    ensures |s| == width && AllDigits(s)
    ensures DigitsValue(s) == n
  {
    var d := NatToString(n);
    NatToStringLength(n, width);
    LeadingZerosValue(width - |d|, d);
    seq(width - |d|, _ => '0') + d
  }

  /** Digit strings of the same length with the same value are equal, so
      fixed-width decimal text is canonical. */
  lemma {:induction false} DigitsValueInjective(a: string, b: string)
    requires AllDigits(a) && AllDigits(b) && |a| == |b|
    requires DigitsValue(a) == DigitsValue(b)
    ensures a == b
    decreases |a|
  {
    if a != [] {
      var i := |a| - 1;
      assert DigitsValue(a) % 10 == DigitValue(a[i]);
      assert DigitsValue(b) % 10 == DigitValue(b[i]);
      assert DigitValue(a[i]) == DigitValue(b[i]);
      DigitsValueInjective(a[..i], b[..i]);
      assert a == a[..i] + [a[i]] && b == b[..i] + [b[i]];
    }
  }

  /** Plain decimal text without a sign, in cents: digits, and an optional
      point followed by at most two digits, with at least one digit in all. */
  function UnsignedCents(body: string): (r: Option<nat>)
    ensures r.Some? ==> body != [] && !IsSpace(Java, body[0]) && !IsSpace(Java, body[|body| - 1])
  {
    var ip := DigitPrefix(body);
    var after := body[|ip|..];
    if after == [] then
      if ip == [] then None
      else
        assert body[|body| - 1] == ip[|ip| - 1];
        Some(DigitsValue(ip) * 100)
    else if after[0] != '.' then None
    else
      var fp := after[1..];
      if !AllDigits(fp) || |fp| > 2 || (ip == [] && fp == []) then None
      else
        assert body[|body| - 1] == if fp != [] then fp[|fp| - 1] else '.';
        Some(DigitsValue(ip) * 100 + DigitsValue(fp) * (if |fp| == 1 then 10 else 1))
  }

  /** Java's `new BigDecimal(s)` in cents, for plain decimal text: an optional sign
      followed by the unsigned form; anything else (spaces included) is
      refused. */
  function BigDecimalCents(s: string): (r: Option<int>)
    ensures r.Some? ==> s != [] && !IsSpace(Java, s[0]) && !IsSpace(Java, s[|s| - 1])
  {
    var body := if s != [] && (s[0] == '-' || s[0] == '+') then s[1..] else s;
    match UnsignedCents(body)
    case None => None
    case Some(m) => Some(if s[0] == '-' then 0 - m else m)
  }

  /** Cents written as a price: an optional minus, the whole units, a point
      and two digits. */
  function CentsText(c: int): (s: string)
  {
    var m: nat := if c < 0 then -c else c;
    (if c < 0 then "-" else "") + UnsignedText(m)
  }

  function UnsignedText(m: nat): string
  {
    NatToString(m / 100) + ("." + [DigitChar(m % 100 / 10), DigitChar(m % 10)])
  }

  lemma {:induction false} DigitPrefixOfDigits(a: string, b: string)
    requires AllDigits(a)
    requires b != [] && !IsDigit(b[0])
    ensures DigitPrefix(a + b) == a
    decreases |a|
  {
    if a != [] {
      assert (a + b)[1..] == a[1..] + b;
      DigitPrefixOfDigits(a[1..], b);
    } else {
      assert a + b == b;
    }
  }

  /** Two digit characters read as a two-digit number. */
  lemma TwoDigitsValue(x: nat, y: nat)
    requires x < 10 && y < 10
    ensures AllDigits([DigitChar(x), DigitChar(y)])
    ensures DigitsValue([DigitChar(x), DigitChar(y)]) == 10 * x + y
  {
    var two := [DigitChar(x), DigitChar(y)];
    assert two[..1][..0] == [];
    assert DigitsValue(two[..1]) == x;
    assert DigitsValue(two) == DigitsValue(two[..1]) * 10 + y;
  }

  /** The digit run of units followed by a point ends at the point. */
  lemma UnitsThenPoint(units: string, rest: string)
    requires AllDigits(units) && rest != [] && rest[0] == '.'
    ensures DigitPrefix(units + rest) == units
    ensures (units + rest)[|units|..] == rest
  {
    DigitPrefixOfDigits(units, rest);
  }

  /** Text whose digit run `ip` is followed by a point and two digits reads
      as `ip` times 100 plus those digits. */
  lemma PointAndTwoDigits(body: string, ip: string, two: string)
    requires ip != [] && AllDigits(ip) && |two| == 2 && AllDigits(two)
    requires DigitPrefix(body) == ip && body[|ip|..] == "." + two
    ensures UnsignedCents(body) == Some(DigitsValue(ip) * 100 + DigitsValue(two))
  {
    assert ("." + two)[0] == '.' && ("." + two)[1..] == two;
  }

  /** `u` units and the digits `x`, `y` written as a price read back as
      `100 * u + 10 * x + y` cents. */
  lemma UnitsAndTwoDigits(u: nat, x: nat, y: nat)
    requires x < 10 && y < 10
    ensures UnsignedCents(NatToString(u) + ("." + [DigitChar(x), DigitChar(y)])) == Some(u * 100 + 10 * x + y)
  {
    var two := [DigitChar(x), DigitChar(y)];
    TwoDigitsValue(x, y);
    UnitsThenPoint(NatToString(u), "." + two);
    PointAndTwoDigits(NatToString(u) + ("." + two), NatToString(u), two);
  }

  /** Cents split into whole units and two decimal digits. */
  lemma CentsDigits(m: nat)
    ensures m == m / 100 * 100 + 10 * (m % 100 / 10) + m % 10
  {
  }

  lemma UnsignedRoundTrip(m: nat)
    ensures UnsignedCents(UnsignedText(m)) == Some(m)
  {
    UnitsAndTwoDigits(m / 100, m % 100 / 10, m % 10);
    CentsDigits(m);
  }

  /** A sign in front of unsigned text that reads as `m` gives `m` or
      `-m`; without a sign the text reads as it is. */
  lemma SignedCents(body: string, m: nat)
    requires UnsignedCents(body) == Some(m) && IsDigit(body[0])
    ensures BigDecimalCents(body) == Some(m)
    ensures BigDecimalCents("-" + body) == Some(0 - m as int)
  {
    assert ("-" + body)[0] == '-' && ("-" + body)[1..] == body;
  }

  /** Every amount written with two decimals reads back as the same amount. */
  lemma PriceRoundTrip(c: int)
    ensures BigDecimalCents(CentsText(c)) == Some(c)
  {
    var m: nat := if c < 0 then -c else c;
    var body := UnsignedText(m);
    UnsignedRoundTrip(m);
    assert body[0] == NatToString(m / 100)[0];
    SignedCents(body, m);
    if c >= 0 {
      assert CentsText(c) == body;
    }
  }

  /** A price sent with a space before or after it cannot be read. */
  lemma PaddedPriceUnreadable(price: string)
    ensures BigDecimalCents(" " + price) == None
    ensures BigDecimalCents(price + " ") == None
  {
    assert (" " + price)[0] == ' ';
    assert (price + " ")[|price + " "| - 1] == ' ';
  }
}
