/** The JavaScript string operations the portal relies on, over Dafny's
    `string` (a sequence of Unicode scalar values): `length` in UTF-16
    code units, `trim`, the character
    classes `\s` and `\d` of its regular expressions, `includes`,
    `toLowerCase` (ASCII letters only), `join`, `split`, `String(n)`,
    `padStart`, `parseInt` and `replace(/\s+/g, ...)`. */
module Strings {
  import opened Wrappers

  // ---------------------------------------------------------------------
  // Character classes
  // ---------------------------------------------------------------------

  /** The characters JavaScript's `\s` and `String.prototype.trim` treat as
      white space: the ASCII white space, NBSP, the Unicode space
      separators, the line and paragraph separators and the BOM. */
  predicate IsWhitespace(c: char)
  {
    c == ' ' || c == '\t' || c == '\n' || c == '\U{000B}' || c == '\U{000C}' || c == '\r'
    || c == '\U{00A0}' || c == '\U{1680}' || ('\U{2000}' <= c <= '\U{200A}')
    || c == '\U{2028}' || c == '\U{2029}' || c == '\U{202F}' || c == '\U{205F}'
    || c == '\U{3000}' || c == '\U{FEFF}'
  }

  predicate AllWhitespace(s: string)
  {
    forall i :: 0 <= i < |s| ==> IsWhitespace(s[i])
  }

  predicate NoWhitespace(s: string)
  {
    forall i :: 0 <= i < |s| ==> !IsWhitespace(s[i])
  }

  /** `\d` without the `u` flag: the ASCII digits. */
  predicate IsDigit(c: char)
  {
    '0' <= c <= '9'
  }

  predicate AllDigits(s: string)
  {
    forall i :: 0 <= i < |s| ==> IsDigit(s[i])
  }

  // ---------------------------------------------------------------------
  // length
  // ---------------------------------------------------------------------

  /** A character outside the Basic Multilingual Plane, which UTF-16
      stores as a surrogate pair. */
  predicate IsAstral(c: char)
  {
    c as int >= 0x10000
  }

  /** `s.length`: the number of UTF-16 code units, two for each astral
      character and one for every other. */
  function Utf16Length(s: string): (n: nat)
    ensures |s| <= n <= 2 * |s|
    ensures n == |s| <==> forall i :: 0 <= i < |s| ==> !IsAstral(s[i])
  {
    if |s| == 0 then 0
    else
      var n := Utf16Length(s[1..]) + (if IsAstral(s[0]) then 2 else 1);
      assert forall i :: 1 <= i < |s| ==> s[1..][i - 1] == s[i];
      n
  }

  /** Every character counts twice exactly when all are astral. */
  lemma {:induction false} Utf16LengthAllAstral(s: string)
    requires forall i :: 0 <= i < |s| ==> IsAstral(s[i])
    ensures Utf16Length(s) == 2 * |s|
  {
    if |s| > 0 {
      assert forall i :: 0 <= i < |s[1..]| ==> s[1..][i] == s[i + 1];
      Utf16LengthAllAstral(s[1..]);
    }
  }

  // ---------------------------------------------------------------------
  // trim
  // ---------------------------------------------------------------------

  /** Drops the leading white space: the result is a suffix of `s` that is
      empty or starts with another character (what it drops is white space
      only, by `TrimStartDropsWhitespace`). */
  function TrimStart(s: string): (r: string)
    ensures |r| <= |s| && r == s[|s| - |r|..]
    ensures r == [] || !IsWhitespace(r[0])
  {
    if |s| > 0 && IsWhitespace(s[0]) then TrimStart(s[1..]) else s
  }

  /** Drops the trailing white space: the result is a prefix of `s` that is
      empty or ends with another character. */
  function TrimEnd(s: string): (r: string)
    ensures |r| <= |s| && r == s[..|r|]
    ensures r == [] || !IsWhitespace(r[|r| - 1])
  {
    if |s| > 0 && IsWhitespace(s[|s| - 1]) then TrimEnd(s[..|s| - 1]) else s
  }

  /** What `TrimStart` drops is white space. */
  lemma {:induction false} TrimStartDropsWhitespace(s: string)
    ensures AllWhitespace(s[..|s| - |TrimStart(s)|])
  {
    if |s| > 0 && IsWhitespace(s[0]) {
      var t := TrimStart(s[1..]);
      TrimStartDropsWhitespace(s[1..]);
      assert s[1..][..|s[1..]| - |t|] == s[1..|s| - |t|];
    }
  }

  /** What `TrimEnd` drops is white space. */
  lemma {:induction false} TrimEndDropsWhitespace(s: string)
    ensures AllWhitespace(s[|TrimEnd(s)|..])
  {
    if |s| > 0 && IsWhitespace(s[|s| - 1]) {
      var t := TrimEnd(s[..|s| - 1]);
      TrimEndDropsWhitespace(s[..|s| - 1]);
      assert s[..|s| - 1][|t|..] + [s[|s| - 1]] == s[|t|..];
    }
  }

  /** `String.prototype.trim`. */
  function Trim(s: string): string
  {
    TrimEnd(TrimStart(s))
  }

  /** `!s.trim()`: the value is empty or white space only. */
  predicate IsBlank(s: string)
  {
    Trim(s) == []
  }

  /** A value is blank after trimming exactly when every character is
      white space. */
  lemma BlankIffAllWhitespace(s: string)
    ensures IsBlank(s) <==> AllWhitespace(s)
  {
    if IsBlank(s) {
      WhitespaceOfBlank(s);
    }
    if AllWhitespace(s) {
      BlankOfWhitespace(s);
    }
  }

  lemma WhitespaceOfBlank(s: string)
    requires IsBlank(s)
    ensures AllWhitespace(s)
  {
    var t := TrimStart(s);
    TrimStartDropsWhitespace(s);
    TrimEndDropsWhitespace(t);
    assert t[0..] == t;
    assert s == s[..|s| - |t|] + t;
    WhitespaceAppend(s[..|s| - |t|], t);
  }

  lemma WhitespaceAppend(a: string, b: string)
    requires AllWhitespace(a) && AllWhitespace(b)
    ensures AllWhitespace(a + b)
  {
  }

  lemma BlankOfWhitespace(s: string)
    requires AllWhitespace(s)
    ensures IsBlank(s)
  {
    TrimStartOfWhitespace(s);
  }

  lemma {:induction false} TrimStartOfWhitespace(s: string)
    requires AllWhitespace(s)
    ensures TrimStart(s) == []
  {
    if |s| > 0 {
      assert AllWhitespace(s[1..]) by {
        forall i | 0 <= i < |s[1..]| ensures IsWhitespace(s[1..][i]) {
          assert s[1..][i] == s[i + 1];
        }
      }
      TrimStartOfWhitespace(s[1..]);
    }
  }

  // ---------------------------------------------------------------------
  // The two regular expressions of the form validators
  // ---------------------------------------------------------------------

  /** `/^\d{10}$/`: exactly ten ASCII digits and nothing else. */
  predicate IsTenDigits(s: string)
  {
    |s| == 10 && AllDigits(s)
  }

  /** A character the class `[^\s@]` excludes. */
  predicate IsWsOrAt(c: char)
  {
    IsWhitespace(c) || c == '@'
  }

  predicate NoWsOrAt(s: string)
  {
    forall i :: 0 <= i < |s| ==> !IsWsOrAt(s[i])
  }

  /** The language of `/^[^\s@]+@[^\s@]+\.[^\s@]+$/`: a non-empty run,
      one '@' at index i, a non-empty run, a '.' at index j, a non-empty
      run, where the runs hold neither white space nor '@'. */
  ghost predicate EmailPattern(s: string)
  {
    exists i, j ::
      0 < i && i + 1 < j && j + 1 < |s| && s[i] == '@' && s[j] == '.' &&
      forall k :: 0 <= k < |s| && k != i ==> !IsWsOrAt(s[k])
  }

  /** First index of `c` in `s`. */
  function IndexOf(s: string, c: char): (r: Option<nat>)
    ensures r.None? ==> c !in s
    ensures r.Some? ==> r.value < |s| && s[r.value] == c && c !in s[..r.value]
  {
    if |s| == 0 then None
    else if s[0] == c then Some(0)
    else
      match IndexOf(s[1..], c)
      case None => None
      case Some(k) =>
        assert s[..k + 1] == [s[0]] + s[1..][..k];
        Some(k + 1)
  }

  /** A domain part `[^\s@]+\.[^\s@]+`: no white space or '@', and a '.'
      that is neither first nor last. */
  predicate DomainMatches(d: string)
  {
    NoWsOrAt(d) && |d| >= 3 && '.' in d[1..|d| - 1]
  }

  /** The test `emailRegex.test(s)`, computed by locating the one '@'. */
  predicate EmailMatches(s: string)
  {
    match IndexOf(s, '@')
    case None => false
    case Some(k) => k > 0 && NoWsOrAt(s[..k]) && DomainMatches(s[k + 1..])
  }

  /** The computed test accepts exactly the language of the regular
      expression. */
  lemma EmailMatchesPattern(s: string)
    ensures EmailMatches(s) <==> EmailPattern(s)
  {
    if EmailMatches(s) {
      EmailMatchesSound(s);
    }
    if EmailPattern(s) {
      EmailMatchesComplete(s);
    }
  }

  lemma EmailMatchesSound(s: string)
    requires EmailMatches(s)
    ensures EmailPattern(s)
  {
    var k := IndexOf(s, '@').value;
    var d := s[k + 1..];
    var m :| 1 <= m < |d| - 1 && d[m] == '.';
    var i, j := k, k + 1 + m;
    forall x | 0 <= x < |s| && x != i
      ensures !IsWsOrAt(s[x])
    {
      if x < k { assert s[x] == s[..k][x]; } else { assert s[x] == d[x - k - 1]; }
    }
    assert 0 < i && i + 1 < j && j + 1 < |s| && s[i] == '@' && s[j] == '.';
  }

  lemma EmailMatchesComplete(s: string)
    requires EmailPattern(s)
    ensures EmailMatches(s)
  {
    var i, j :| 0 < i && i + 1 < j && j + 1 < |s| && s[i] == '@' && s[j] == '.' &&
      forall k :: 0 <= k < |s| && k != i ==> !IsWsOrAt(s[k]);
    OnlyAt(s, i);
    LocalPart(s, i);
    DomainPart(s, i, j);
  }

  /** The one '@' of the pattern is the first. */
  lemma OnlyAt(s: string, i: nat)
    requires i < |s| && s[i] == '@'
    requires forall k :: 0 <= k < |s| && k != i ==> !IsWsOrAt(s[k])
    ensures IndexOf(s, '@') == Some(i)
  {
    assert '@' in s by { assert s[i] == '@'; }
    var k := IndexOf(s, '@').value;
    assert s[k] == '@';
  }

  lemma LocalPart(s: string, i: nat)
    requires i < |s|
    requires forall k :: 0 <= k < |s| && k != i ==> !IsWsOrAt(s[k])
    ensures NoWsOrAt(s[..i])
  {
    forall x | 0 <= x < i ensures !IsWsOrAt(s[..i][x]) { assert s[..i][x] == s[x]; }
  }

  lemma DomainPart(s: string, i: nat, j: nat)
    requires i + 1 < j && j + 1 < |s| && s[j] == '.'
    requires forall k :: 0 <= k < |s| && k != i ==> !IsWsOrAt(s[k])
    ensures DomainMatches(s[i + 1..])
  {
    var d := s[i + 1..];
    assert d[1..|d| - 1][j - i - 2] == '.';
    forall x | 0 <= x < |d| ensures !IsWsOrAt(d[x]) { assert d[x] == s[i + 1 + x]; }
  }

  // ---------------------------------------------------------------------
  // includes, toLowerCase, join, split
  // ---------------------------------------------------------------------

  /** `s.includes(sub)`, computed by trying each start position. */
  predicate Contains(s: string, sub: string)
    decreases |s|
  {
    sub <= s || (|s| > 0 && Contains(s[1..], sub))
  }

  /** `sub` occurs in `s` starting at index `i`. */
  predicate OccursAt(s: string, sub: string, i: int)
  {
    0 <= i <= |s| - |sub| && s[i..i + |sub|] == sub
  }

  /** `Contains` holds exactly when `sub` occurs at some index of `s`. */
  lemma {:induction false} ContainsAt(s: string, sub: string)
    ensures Contains(s, sub) <==> exists i :: OccursAt(s, sub, i)
    decreases |s|
  {
    if sub <= s {
      assert OccursAt(s, sub, 0);
    } else if |s| > 0 {
      ContainsAt(s[1..], sub);
      if Contains(s[1..], sub) {
        var i :| OccursAt(s[1..], sub, i);
        OccursShift(s, sub, i);
      }
      if i :| OccursAt(s, sub, i) {
        assert i != 0;
        OccursUnshift(s, sub, i);
      }
    }
  }

  lemma OccursShift(s: string, sub: string, i: int)
    requires |s| > 0 && OccursAt(s[1..], sub, i)
    ensures OccursAt(s, sub, i + 1)
  {
    assert s[i + 1..i + 1 + |sub|] == s[1..][i..i + |sub|];
  }

  lemma OccursUnshift(s: string, sub: string, i: int)
    requires |s| > 0 && i > 0 && OccursAt(s, sub, i)
    ensures OccursAt(s[1..], sub, i - 1)
  {
    assert s[1..][i - 1..i - 1 + |sub|] == s[i..i + |sub|];
  }

  /** `toLowerCase` restricted to the ASCII letters. */
  function LowerChar(c: char): char
  {
    if 'A' <= c <= 'Z' then (c as int + 32) as char else c
  }

  function Lower(s: string): (r: string)
    ensures |r| == |s|
    ensures forall i :: 0 <= i < |s| ==> r[i] == LowerChar(s[i])
  {
    seq(|s|, i requires 0 <= i < |s| => LowerChar(s[i]))
  }

  /** `xs.join(sep)`. */
  function Join(xs: seq<string>, sep: string): string
  {
    if |xs| == 0 then ""
    else if |xs| == 1 then xs[0]
    else xs[0] + sep + Join(xs[1..], sep)
  }

  /** `s.split(sep)` for a one-character separator. */
  function Split(s: string, sep: char): (r: seq<string>)
    ensures |r| >= 1
    ensures forall k :: 0 <= k < |r| ==> sep !in r[k]
    decreases |s|
  {
    match IndexOf(s, sep)
    case None => [s]
    case Some(k) => [s[..k]] + Split(s[k + 1..], sep)
  }

  /** A part without the separator is split off at the first separator. */
  lemma SplitFirst(a: string, b: string, sep: char)
    requires sep !in a
    ensures Split(a + [sep] + b, sep) == [a] + Split(b, sep)
  {
    var s := a + [sep] + b;
    assert s[|a|] == sep;
    assert s[..|a|] == a;
    assert IndexOf(s, sep) == Some(|a|);
    assert s[..|a|] == a && s[|a| + 1..] == b;
  }

  lemma SplitNone(a: string, sep: char)
    requires sep !in a
    ensures Split(a, sep) == [a]
  {
  }

  // ---------------------------------------------------------------------
  // Numbers as text
  // ---------------------------------------------------------------------

  function DigitChar(d: nat): char
    requires d < 10
  {
    ('0' as int + d) as char
  }

  function DigitValue(c: char): nat
    requires IsDigit(c)
  {
    c as int - '0' as int
  }

  /** `String(n)` for a non-negative integer. */
  function NatToString(n: nat): (r: string)
    ensures |r| >= 1 && AllDigits(r)
    ensures n > 0 ==> r[0] != '0'
  {
    if n < 10 then [DigitChar(n)] else NatToString(n / 10) + [DigitChar(n % 10)]
  }

  /** The value of a string of decimal digits. */
  function DigitsValue(s: string): nat
    requires AllDigits(s)
  {
    if |s| == 0 then 0 else DigitsValue(s[..|s| - 1]) * 10 + DigitValue(s[|s| - 1])
  }

  /** `String(n)` round-trips through the decimal value. */
  lemma {:induction false} NatToStringValue(n: nat)
    ensures DigitsValue(NatToString(n)) == n
  {
    if n >= 10 {
      var s := NatToString(n);
      assert s[..|s| - 1] == NatToString(n / 10);
      NatToStringValue(n / 10);
    }
  }

  /** Leading zeros do not change the value. */
  lemma {:induction false} LeadingZerosValue(z: nat, s: string)
    requires AllDigits(s)
    ensures AllDigits(Repeat('0', z) + s)
    ensures DigitsValue(Repeat('0', z) + s) == DigitsValue(s)
    decreases |s|
  {
    var t := Repeat('0', z) + s;
    assert AllDigits(t) by {
      forall i | 0 <= i < |t| ensures IsDigit(t[i]) {
        if i < z { assert t[i] == '0'; } else { assert t[i] == s[i - z]; }
      }
    }
    if |s| == 0 {
      assert t == Repeat('0', z);
      AllZerosValue(z);
    } else {
      assert t[..|t| - 1] == Repeat('0', z) + s[..|s| - 1];
      LeadingZerosValue(z, s[..|s| - 1]);
    }
  }

  lemma {:induction false} AllZerosValue(z: nat)
    ensures AllDigits(Repeat('0', z)) && DigitsValue(Repeat('0', z)) == 0
  {
    if z > 0 {
      assert Repeat('0', z)[..z - 1] == Repeat('0', z - 1);
      AllZerosValue(z - 1);
    }
  }

  function Repeat(c: char, n: nat): (r: string)
    ensures |r| == n && forall i :: 0 <= i < n ==> r[i] == c
  {
    seq(n, _ => c)
  }

  /** `s.padStart(width, c)`. */
  function PadStart(s: string, width: nat, c: char): (r: string)
    ensures |r| == if |s| >= width then |s| else width
    ensures r[|r| - |s|..] == s
    ensures forall i :: 0 <= i < |r| - |s| ==> r[i] == c
  {
    if |s| >= width then s else Repeat(c, width - |s|) + s
  }

  /** The longest run of leading digits, as `parseInt` reads it. */
  function DigitPrefix(s: string): string
  {
    if |s| > 0 && IsDigit(s[0]) then [s[0]] + DigitPrefix(s[1..]) else []
  }

  /** The digit prefix is a prefix of digits that stops at a non-digit. */
  lemma {:induction false} DigitPrefixShape(s: string)
    ensures DigitPrefix(s) <= s && AllDigits(DigitPrefix(s))
    ensures |DigitPrefix(s)| < |s| ==> !IsDigit(s[|DigitPrefix(s)|])
  {
    if |s| > 0 && IsDigit(s[0]) {
      DigitPrefixShape(s[1..]);
    }
  }

  /** A character `parseInt` reads in base 16. */
  predicate IsHexDigit(c: char)
  {
    IsDigit(c) || 'a' <= c <= 'f' || 'A' <= c <= 'F'
  }

  predicate AllHexDigits(s: string)
  {
    forall i :: 0 <= i < |s| ==> IsHexDigit(s[i])
  }

  function HexDigitValue(c: char): nat
    requires IsHexDigit(c)
  {
    if IsDigit(c) then DigitValue(c)
    else if 'a' <= c <= 'f' then c as int - 'a' as int + 10
    else c as int - 'A' as int + 10
  }

  /** The base-16 value of a hex digit string, most significant first. */
  function HexValue(s: string): nat
    requires AllHexDigits(s)
  {
    if |s| == 0 then 0 else HexValue(s[..|s| - 1]) * 16 + HexDigitValue(s[|s| - 1])
  }

  /** The longest prefix of hex digits. */
  function HexPrefix(s: string): string
  {
    if |s| > 0 && IsHexDigit(s[0]) then [s[0]] + HexPrefix(s[1..]) else []
  }

  lemma {:induction false} HexPrefixShape(s: string)
    ensures HexPrefix(s) <= s && AllHexDigits(HexPrefix(s))
    ensures |HexPrefix(s)| < |s| ==> !IsHexDigit(s[|HexPrefix(s)|])
  {
    if |s| > 0 && IsHexDigit(s[0]) {
      HexPrefixShape(s[1..]);
    }
  }

  lemma {:induction false} HexPrefixAllHexDigits(s: string)
    requires AllHexDigits(s)
    ensures HexPrefix(s) == s
  {
    if |s| > 0 { HexPrefixAllHexDigits(s[1..]); }
  }

  /** Without a radix, `parseInt` reads "0x" or "0X" followed by digits
      in base 16. */
  predicate HasHexPrefix(body: string)
  {
    |body| >= 2 && body[0] == '0' && (body[1] == 'x' || body[1] == 'X')
  }

  /** The unsigned part `parseInt` reads after the sign: the leading hex
      digits after a "0x" prefix, the leading decimal digits otherwise;
      `None` when there is no digit. */
  function Magnitude(body: string): Option<nat>
  {
    if HasHexPrefix(body) then
      var h := HexPrefix(body[2..]);
      HexPrefixShape(body[2..]);
      if |h| == 0 then None else Some(HexValue(h))
    else
      var d := DigitPrefix(body);
      DigitPrefixShape(body);
      if |d| == 0 then None else Some(DigitsValue(d))
  }

  /** `parseInt(s)` with no radix: leading white space, an optional sign,
      then the magnitude; `None` stands for NaN (no digit at all). */
  function ParseInt(s: string): (r: Option<int>)
    ensures r.Some? && r.value < 0 ==> '-' in s
  {
    var t := TrimStart(s);
    assert |t| > 0 ==> t[0] == s[|s| - |t|];
    ParseTrimmed(t)
  }

  /** `parseInt` on the text after the leading white space. */
  function ParseTrimmed(t: string): (r: Option<int>)
    ensures r.Some? && r.value < 0 ==> |t| > 0 && t[0] == '-'
  {
    var body := if |t| > 0 && (t[0] == '-' || t[0] == '+') then t[1..] else t;
    match Magnitude(body)
    case None => None
    case Some(m) => if |t| > 0 && t[0] == '-' then Some(-(m as int)) else Some(m)
  }

  /** A text `parseInt` reads with no white space or sign in front. */
  predicate Unsigned(s: string)
  {
    TrimStart(s) == s && (|s| == 0 || (s[0] != '-' && s[0] != '+'))
  }

  function Negated(r: Option<int>): Option<int>
  {
    match r
    case None => None
    case Some(v) => Some(-v)
  }

  /** A '-' in front negates the value and a '+' keeps it; NaN stays NaN. */
  lemma ParseIntSigned(s: string)
    requires Unsigned(s)
    ensures ParseInt("-" + s) == Negated(ParseInt(s))
    ensures ParseInt("+" + s) == ParseInt(s)
  {
    SignedTrim(s, '-');
    SignedTrim(s, '+');
  }

  lemma SignedTrim(s: string, sign: char)
    requires sign == '-' || sign == '+'
    ensures TrimStart([sign] + s) == [sign] + s && ([sign] + s)[1..] == s
  {
    assert !IsWhitespace(sign);
  }

  /** Leading white space is skipped. */
  lemma ParseIntSkipsWhitespace(c: char, s: string)
    requires IsWhitespace(c)
    ensures ParseInt([c] + s) == ParseInt(s)
  {
    assert ([c] + s)[1..] == s;
    assert TrimStart([c] + s) == TrimStart(s);
  }

  /** On an unsigned text without the "0x" prefix, `parseInt` reads the
      leading decimal digits, and is NaN without any. */
  lemma ParseIntDecimal(s: string)
    requires Unsigned(s) && !HasHexPrefix(s)
    ensures AllDigits(DigitPrefix(s)) &&
      ParseInt(s) == if |DigitPrefix(s)| == 0 then None else Some(DigitsValue(DigitPrefix(s)))
  {
    DigitPrefixShape(s);
  }

  /** "0x" or "0X" followed by hex digits reads in base 16; the prefix
      alone is NaN. */
  lemma ParseIntHex(h: string)
    requires AllHexDigits(h)
    ensures ParseInt("0x" + h) == (if |h| == 0 then None else Some(HexValue(h)))
    ensures ParseInt("0X" + h) == (if |h| == 0 then None else Some(HexValue(h)))
  {
    HexPrefixAllHexDigits(h);
    HexMagnitude(h, 'x');
    HexMagnitude(h, 'X');
  }

  /** `parseInt("0x1A")` is 26. */
  lemma ParseIntHexExample()
    ensures ParseInt("0x1A") == Some(26)
  {
    var h := "1A";
    assert AllHexDigits(h);
    assert h[..1] == "1" && "1"[..0] == [];
    assert HexValue(h) == 26;
    ParseIntHex(h);
    assert "0x" + h == "0x1A";
  }

  lemma HexMagnitude(h: string, x: char)
    requires x == 'x' || x == 'X'
    requires AllHexDigits(h) && HexPrefix(h) == h
    ensures ParseInt(['0', x] + h) == (if |h| == 0 then None else Some(HexValue(h)))
  {
    var b := ['0', x] + h;
    HexTrim(h, x);
    assert ParseInt(b) == ParseTrimmed(b);
    assert Magnitude(b) == (if |h| == 0 then None else Some(HexValue(h)));
  }

  lemma HexTrim(h: string, x: char)
    requires x == 'x' || x == 'X'
    ensures TrimStart(['0', x] + h) == ['0', x] + h
    ensures HasHexPrefix(['0', x] + h) && (['0', x] + h)[2..] == h
  {
    assert !IsWhitespace('0');
  }

  /** `parseInt(String(n))` returns `n`. */
  lemma ParseIntOfNat(n: nat)
    ensures ParseInt(NatToString(n)) == Some(n)
  {
    ParseIntOfDigits(NatToString(n));
    NatToStringValue(n);
  }

  /** `parseInt` of a non-empty digit string is its decimal value. */
  lemma ParseIntOfDigits(s: string)
    requires |s| > 0 && AllDigits(s)
    ensures ParseInt(s) == Some(DigitsValue(s))
  {
    var c := s[0];
    assert IsDigit(c);
    assert !IsWhitespace(c);
    assert TrimStart(s) == s;
    assert c != '-' && c != '+';
    assert |s| >= 2 ==> IsDigit(s[1]);
    DigitPrefixAllDigits(s);
    ParseIntDecimal(s);
  }

  /** Padding a digit string with leading zeros keeps its value. */
  lemma PadStartValue(s: string, width: nat)
    requires AllDigits(s)
    ensures AllDigits(PadStart(s, width, '0'))
    ensures DigitsValue(PadStart(s, width, '0')) == DigitsValue(s)
  {
    if |s| < width {
      LeadingZerosValue(width - |s|, s);
    }
  }

  lemma {:induction false} DigitPrefixAllDigits(s: string)
    requires AllDigits(s)
    ensures DigitPrefix(s) == s
  {
    if |s| > 0 { DigitPrefixAllDigits(s[1..]); }
  }

  // ---------------------------------------------------------------------
  // replace(/\s+/g, rep)
  // ---------------------------------------------------------------------

  /** Replaces each maximal run of white space by `rep`. */
  function ReplaceWhitespaceRuns(s: string, rep: string): (r: string)
    decreases |s|
  {
    if |s| == 0 then ""
    else if IsWhitespace(s[0]) then rep + ReplaceWhitespaceRuns(TrimStart(s), rep)
    else [s[0]] + ReplaceWhitespaceRuns(s[1..], rep)
  }

  /** With a white-space-free replacement the result has no white space,
      a value without white space is left alone, and only the empty
      value becomes empty. */
  lemma {:induction false} ReplaceWhitespaceRunsLaws(s: string, rep: string)
    requires NoWhitespace(rep) && rep != ""
    ensures NoWhitespace(ReplaceWhitespaceRuns(s, rep))
    ensures NoWhitespace(s) ==> ReplaceWhitespaceRuns(s, rep) == s
    ensures ReplaceWhitespaceRuns(s, rep) == "" <==> s == ""
    decreases |s|
  {
    if |s| > 0 {
      var r := ReplaceWhitespaceRuns(s, rep);
      if IsWhitespace(s[0]) {
        var rest := ReplaceWhitespaceRuns(TrimStart(s), rep);
        ReplaceWhitespaceRunsLaws(TrimStart(s), rep);
        assert r == rep + rest;
        assert forall i :: 0 <= i < |r| ==> r[i] == if i < |rep| then rep[i] else rest[i - |rep|];
      } else {
        var rest := ReplaceWhitespaceRuns(s[1..], rep);
        ReplaceWhitespaceRunsLaws(s[1..], rep);
        assert r == [s[0]] + rest;
        assert forall i :: 0 < i < |r| ==> r[i] == rest[i - 1];
        if NoWhitespace(s) {
          assert NoWhitespace(s[1..]) by {
            assert forall i :: 0 <= i < |s[1..]| ==> s[1..][i] == s[i + 1];
          }
          assert s == [s[0]] + s[1..];
        }
      }
    }
  }

  /** White-space freedom is kept by concatenation. */
  lemma NoWhitespaceAppend(a: string, b: string)
    requires NoWhitespace(a) && NoWhitespace(b)
    ensures NoWhitespace(a + b)
  {
    assert forall i :: 0 <= i < |a + b| ==> (a + b)[i] == if i < |a| then a[i] else b[i - |a|];
  }

  /** A non-empty value made of white space alone becomes one `rep`. */
  lemma WhitespaceOnlyBecomesRep(s: string, rep: string)
    requires NoWhitespace(rep) && |s| > 0 && AllWhitespace(s)
    ensures ReplaceWhitespaceRuns(s, rep) == rep
  {
  }
}
