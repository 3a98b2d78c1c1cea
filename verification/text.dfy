/** Character and string rules the source relies on: ASCII case mapping
    (`toUpperCase`, `lower()`), Python's `strip()`, substring tests
    (`includes`, `in`), decimal printing (`str(n)`, `toString()`) and the two
    integer parsers (JavaScript `parseInt`, Python `int`). */
module Text {
  import opened Wrappers

  // ---------------------------------------------------------------------
  // Case mapping (ASCII letters; other characters are left unchanged)
  // ---------------------------------------------------------------------

  function UpperChar(c: char): char {
    if 'a' <= c <= 'z' then (c as int - 32) as char else c
  }

  function LowerChar(c: char): char {
    if 'A' <= c <= 'Z' then (c as int + 32) as char else c
  }

  /** Lower-casing neither makes nor removes whitespace. */
  lemma LowerCharKeepsSpace(c: char)
    ensures IsSpace(LowerChar(c)) <==> IsSpace(c)
  {
    if 'A' <= c <= 'Z' {
      assert 'a' <= LowerChar(c) <= 'z';
    } else {
      assert LowerChar(c) == c;
    }
  }

  /** `s.toUpperCase()` / `s.upper()` restricted to ASCII letters. */
  function Upper(s: string): (r: string)
    ensures |r| == |s|
    ensures forall i :: 0 <= i < |s| ==> r[i] == UpperChar(s[i])
  {
    seq(|s|, i requires 0 <= i < |s| => UpperChar(s[i]))
  }

  /** `s.toLowerCase()` / `s.lower()` restricted to ASCII letters. */
  function Lower(s: string): (r: string)
    ensures |r| == |s|
    ensures forall i :: 0 <= i < |s| ==> r[i] == LowerChar(s[i])
  {
    seq(|s|, i requires 0 <= i < |s| => LowerChar(s[i]))
  }

  /** Upper-casing twice is upper-casing once, so a case-insensitive
      comparison can be made on already upper-cased text. */
  lemma UpperIdempotent(s: string)
    ensures Upper(Upper(s)) == Upper(s)
  {
    assert forall i :: 0 <= i < |s| ==> UpperChar(UpperChar(s[i])) == UpperChar(s[i]);
  }

  lemma LowerIdempotent(s: string)
    ensures Lower(Lower(s)) == Lower(s)
  {
    assert forall i :: 0 <= i < |s| ==> LowerChar(LowerChar(s[i])) == LowerChar(s[i]);
  }

  /** Lower-casing forgets any earlier upper-casing. */
  lemma LowerUpper(s: string)
    ensures Lower(Upper(s)) == Lower(s)
  {
  }

  // ---------------------------------------------------------------------
  // Whitespace and substrings
  // ---------------------------------------------------------------------

  /** Whitespace as Python's `str.isspace()` defines it, the set `strip()`
      removes: the controls tab to carriage return (9-13), the separators
      0x1C-0x1F, space, NEL (0x85), no-break space (0xA0), and the Unicode
      space and line/paragraph separators. */
  predicate IsSpace(c: char) {
    var n := c as int;
    (9 <= n <= 13) || (0x1C <= n <= 0x20) || n == 0x85 || n == 0xA0 || n == 0x1680 ||
    (0x2000 <= n <= 0x200A) || n == 0x2028 || n == 0x2029 || n == 0x202F || n == 0x205F || n == 0x3000
  }

  /** Whitespace as Python's `int()` skips it around the number: the
      `str.isspace()` set without the separators 0x1C-0x1F. `int()` turns
      every non-ASCII whitespace character into a space, but of the ASCII
      characters it skips only space and 9-13. */
  predicate IsIntSpace(c: char) {
    IsSpace(c) && !(0x1C <= c as int <= 0x1F)
  }

  /** Whitespace as JavaScript's `parseInt` skips it (ECMAScript WhiteSpace
      and LineTerminator): unlike Python's set it holds the byte-order mark
      U+FEFF and lacks 0x1C-0x1F and NEL. */
  predicate IsJsSpace(c: char) {
    var n := c as int;
    (9 <= n <= 13) || n == 0x20 || n == 0xA0 || n == 0x1680 || (0x2000 <= n <= 0x200A) ||
    n == 0x2028 || n == 0x2029 || n == 0x202F || n == 0x205F || n == 0x3000 || n == 0xFEFF
  }

  /** The two whitespace sets differ in both directions. */
  lemma SpaceSetsDiffer()
    ensures IsJsSpace(0xFEFF as char) && !IsSpace(0xFEFF as char)
    ensures IsSpace(0x85 as char) && !IsJsSpace(0x85 as char)
  {
  }

  function StripLeft(s: string): (r: string)
    ensures |r| <= |s| && r == s[|s| - |r|..]
    ensures |r| > 0 ==> !IsSpace(r[0])
    ensures forall i :: 0 <= i < |s| - |r| ==> IsSpace(s[i])
    decreases |s|
  {
    if |s| > 0 && IsSpace(s[0]) then StripLeft(s[1..]) else s
  }

  function StripRight(s: string): (r: string)
    ensures |r| <= |s| && r == s[..|r|]
    ensures |r| > 0 ==> !IsSpace(r[|r| - 1])
    ensures forall i :: |r| <= i < |s| ==> IsSpace(s[i])
    decreases |s|
  {
    if |s| > 0 && IsSpace(s[|s| - 1]) then StripRight(s[..|s| - 1]) else s
  }

  /** Python `s.strip()`. */
  function Strip(s: string): (r: string)
    ensures |r| <= |s|
    ensures |r| > 0 ==> !IsSpace(r[0]) && !IsSpace(r[|r| - 1])
  {
    StripRight(StripLeft(s))
  }

  function IntStripLeft(s: string): (r: string)
    ensures |r| <= |s| && r == s[|s| - |r|..]
    ensures |r| > 0 ==> !IsIntSpace(r[0])
    ensures forall i :: 0 <= i < |s| - |r| ==> IsIntSpace(s[i])
    decreases |s|
  {
    if |s| > 0 && IsIntSpace(s[0]) then IntStripLeft(s[1..]) else s
  }

  function IntStripRight(s: string): (r: string)
    ensures |r| <= |s| && r == s[..|r|]
    ensures |r| > 0 ==> !IsIntSpace(r[|r| - 1])
    ensures forall i :: |r| <= i < |s| ==> IsIntSpace(s[i])
    decreases |s|
  {
    if |s| > 0 && IsIntSpace(s[|s| - 1]) then IntStripRight(s[..|s| - 1]) else s
  }

  /** The whitespace `int()` ignores on either side of the number. */
  function IntStrip(s: string): (r: string)
    ensures |r| <= |s|
    ensures |r| > 0 ==> !IsIntSpace(r[0]) && !IsIntSpace(r[|r| - 1])
  {
    IntStripRight(IntStripLeft(s))
  }

  /** A string is blank (`not s.strip()`) exactly when every character is
      whitespace. */
  lemma StripEmptyIffBlank(s: string)
    ensures Strip(s) == "" <==> forall i :: 0 <= i < |s| ==> IsSpace(s[i])
  {
    var l := StripLeft(s);
    assert Strip(s) == "" ==> |l| == 0;
  }

  /** Stripping removes whitespace from the two ends and nothing else: the
      result is the middle of the input, and what lies around it is
      whitespace. */
  lemma StripRemovesOnlySpace(s: string)
    ensures var k := |s| - |StripLeft(s)|;
            k + |Strip(s)| <= |s| && (forall i :: 0 <= i < |Strip(s)| ==> Strip(s)[i] == s[k + i]) &&
            (forall i :: 0 <= i < k ==> IsSpace(s[i])) &&
            (forall i :: k + |Strip(s)| <= i < |s| ==> IsSpace(s[i]))
  {
    StripKeepsMiddle(s);
    StripDropsEnds(s);
  }

  lemma StripKeepsMiddle(s: string)
    ensures var k := |s| - |StripLeft(s)|;
            k + |Strip(s)| <= |s| && (forall i :: 0 <= i < |Strip(s)| ==> Strip(s)[i] == s[k + i])
  {
    var l := StripLeft(s);
    var r := StripRight(l);
    assert Strip(s) == r;
    forall i | 0 <= i < |r| ensures r[i] == s[|s| - |l| + i] {
      assert r[i] == l[i];
    }
  }

  lemma StripDropsEnds(s: string)
    ensures var k := |s| - |StripLeft(s)|;
            k + |Strip(s)| <= |s| &&
            (forall i :: 0 <= i < k ==> IsSpace(s[i])) &&
            (forall i :: k + |Strip(s)| <= i < |s| ==> IsSpace(s[i]))
  {
    var l := StripLeft(s);
    var r := StripRight(l);
    assert Strip(s) == r;
    var k := |s| - |l|;
    forall i | k + |r| <= i < |s| ensures IsSpace(s[i]) {
      assert s[i] == l[i - k];
    }
  }

  /** A text of no-break spaces is blank to Python, as to `str.strip()`. */
  lemma NoBreakSpaceIsBlank(n: nat)
    ensures Strip(seq(n, i => 0xA0 as char)) == ""
  {
    StripEmptyIffBlank(seq(n, i => 0xA0 as char));
  }

  /** Case mapping keeps whitespace where it is, so stripping and
      upper-casing commute. */
  lemma StripUpper(s: string)
    ensures Strip(Upper(s)) == Upper(Strip(s))
  {
    StripLeftUpper(s);
    StripRightUpper(StripLeft(s));
  }

  lemma {:induction false} StripLeftUpper(s: string)
    ensures StripLeft(Upper(s)) == Upper(StripLeft(s))
    decreases |s|
  {
    if |s| > 0 && IsSpace(s[0]) {
      assert IsSpace(Upper(s)[0]);
      assert Upper(s)[1..] == Upper(s[1..]);
      StripLeftUpper(s[1..]);
    } else if |s| > 0 {
      assert !IsSpace(Upper(s)[0]);
    }
  }

  lemma {:induction false} StripRightUpper(s: string)
    ensures StripRight(Upper(s)) == Upper(StripRight(s))
    decreases |s|
  {
    if |s| > 0 && IsSpace(s[|s| - 1]) {
      assert IsSpace(Upper(s)[|s| - 1]);
      assert Upper(s)[..|s| - 1] == Upper(s[..|s| - 1]);
      StripRightUpper(s[..|s| - 1]);
    } else if |s| > 0 {
      assert !IsSpace(Upper(s)[|s| - 1]);
    }
  }

  /** `sub` occurs in `s` (`s.includes(sub)`, Python `sub in s`). */
  predicate Contains(s: string, sub: string) {
    exists i :: 0 <= i <= |s| && sub <= s[i..]
  }

  // ---------------------------------------------------------------------
  // Decimal numbers
  // ---------------------------------------------------------------------

  predicate IsDigit(c: char) {
    '0' <= c <= '9'
  }

  predicate AllDigits(s: string) {
    forall i :: 0 <= i < |s| ==> IsDigit(s[i])
  }

  function DigitChar(d: nat): char
    requires d < 10
  {
    ('0' as int + d) as char
  }

  function DigitValue(c: char): nat
    requires IsDigit(c)
  {
    c as int - '0' as int
  }

  /** The decimal numeral of `n`, without leading zeros. */
  function NatToString(n: nat): (s: string)
    ensures |s| > 0 && AllDigits(s)
    ensures s[0] == '0' ==> n == 0
    decreases n
  {
    if n < 10 then [DigitChar(n)] else NatToString(n / 10) + [DigitChar(n % 10)]
  }

  /** `str(n)` in Python, `String(n)` in JavaScript, for an integer. */
  function IntToString(i: int): string {
    if i < 0 then "-" + NatToString(-i) else NatToString(i)
  }

  /** The value of a digit string read left to right. */
  function DigitsValue(s: string): nat
    requires AllDigits(s)
    decreases |s|
  {
    if |s| == 0 then 0 else DigitsValue(s[..|s| - 1]) * 10 + DigitValue(s[|s| - 1])
  }

  lemma {:induction false} NatToStringValue(n: nat)
    ensures DigitsValue(NatToString(n)) == n
    decreases n
  {
    if n >= 10 {
      var s := NatToString(n);
      NatToStringValue(n / 10);
      assert s[..|s| - 1] == NatToString(n / 10);
    }
  }

  /** Distinct numbers print differently. */
  lemma NatToStringInjective(a: nat, b: nat)
    requires NatToString(a) == NatToString(b)
    ensures a == b
  {
    NatToStringValue(a);
    NatToStringValue(b);
  }

  /** Length of the longest run of digits at the start of `s`. */
  function DigitRun(s: string): (k: nat)
    ensures k <= |s|
    ensures AllDigits(s[..k])
    ensures k < |s| ==> !IsDigit(s[k])
    decreases |s|
  {
    if |s| > 0 && IsDigit(s[0]) then
      var k := 1 + DigitRun(s[1..]);
      assert s[..k] == [s[0]] + s[1..][..k - 1];
      k
    else 0
  }

  lemma {:induction false} DigitRunAll(s: string)
    requires AllDigits(s)
    ensures DigitRun(s) == |s|
    decreases |s|
  {
    if |s| > 0 {
      DigitRunAll(s[1..]);
    }
  }

  /** The unsigned part of `parseInt`: `None` stands for `NaN`. */
  function ParseUnsigned(u: string): (r: Option<nat>)
    ensures r.None? <==> |u| == 0 || !IsDigit(u[0])
  {
    var k := DigitRun(u);
    if k == 0 then None else Some(DigitsValue(u[..k]))
  }

  /** What follows an optional leading sign. */
  function AfterSign(t: string): string {
    if |t| > 0 && (t[0] == '-' || t[0] == '+') then t[1..] else t
  }

  /** The magnitude `n` with the sign `t` starts with. */
  function Signed(t: string, n: nat): int {
    var v: int := n;
    if |t| > 0 && t[0] == '-' then -v else v
  }

  /** The leading whitespace `parseInt` skips. */
  function JsTrimStart(s: string): (r: string)
    ensures |r| <= |s| && r == s[|s| - |r|..]
    ensures |r| > 0 ==> !IsJsSpace(r[0])
    ensures forall i :: 0 <= i < |s| - |r| ==> IsJsSpace(s[i])
    decreases |s|
  {
    if |s| > 0 && IsJsSpace(s[0]) then JsTrimStart(s[1..]) else s
  }

  /** JavaScript `parseInt(s, 10)`: leading whitespace is skipped, one sign is
      accepted, and the longest digit prefix is read; `None` is `NaN`. */
  function ParseInt(s: string): (r: Option<int>)
    ensures var u := AfterSign(JsTrimStart(s)); r.None? <==> |u| == 0 || !IsDigit(u[0])
  {
    var t := JsTrimStart(s);
    match ParseUnsigned(AfterSign(t))
    case None => None
    case Some(n) => Some(Signed(t, n))
  }

  /** Printing an integer and parsing it back with `parseInt` gives the
      integer. */
  lemma ParseIntRoundTrip(i: int)
    ensures ParseInt(IntToString(i)) == Some(i)
  {
    var n: nat := if i < 0 then -i else i;
    var d := NatToString(n);
    ParseUnsignedNatToString(n);
    var t := IntToString(i);
    assert JsTrimStart(t) == t by { NoLeadingJsSpace(t); }
    if i < 0 {
      assert t == "-" + d;
      assert AfterSign(t) == d;
    } else {
      assert AfterSign(t) == d;
    }
  }

  /** A printed number has no leading whitespace. */
  lemma NoLeadingSpace(s: string)
    requires |s| > 0 && !IsSpace(s[0])
    ensures StripLeft(s) == s
  {
  }

  lemma NoLeadingJsSpace(s: string)
    requires |s| > 0 && (IsDigit(s[0]) || s[0] == '-')
    ensures JsTrimStart(s) == s
  {
  }

  lemma ParseUnsignedNatToString(n: nat)
    ensures ParseUnsigned(NatToString(n)) == Some(n)
  {
    var d := NatToString(n);
    DigitRunAll(d);
    NatToStringValue(n);
    assert d[..|d|] == d;
  }

  /** `parseInt` reads only the digit prefix: trailing garbage is ignored. */
  lemma ParseIntIgnoresSuffix(n: nat, rest: string)
    requires |rest| == 0 || !IsDigit(rest[0])
    ensures ParseInt(NatToString(n) + rest) == Some(n)
  {
    var d := NatToString(n);
    var t := d + rest;
    assert t[0] == d[0];
    NoLeadingJsSpace(t);
    assert AfterSign(t) == t;
    DigitRunPrefix(d, rest);
    assert t[..|d|] == d;
    NatToStringValue(n);
  }

  lemma {:induction false} DigitRunPrefix(d: string, rest: string)
    requires AllDigits(d)
    requires |rest| == 0 || !IsDigit(rest[0])
    ensures DigitRun(d + rest) == |d|
    decreases |d|
  {
    if |d| > 0 {
      assert (d + rest)[1..] == d[1..] + rest;
      DigitRunPrefix(d[1..], rest);
    }
  }

  // ---------------------------------------------------------------------
  // parseInt without a radix
  // ---------------------------------------------------------------------

  predicate IsHexDigit(c: char) {
    IsDigit(c) || 'a' <= c <= 'f' || 'A' <= c <= 'F'
  }

  predicate AllHex(s: string) {
    forall i :: 0 <= i < |s| ==> IsHexDigit(s[i])
  }

  function HexDigitValue(c: char): (v: nat)
    requires IsHexDigit(c)
    ensures v < 16
    ensures IsDigit(c) ==> v == DigitValue(c)
  {
    if IsDigit(c) then DigitValue(c)
    else if 'a' <= c <= 'f' then c as int - 'a' as int + 10
    else c as int - 'A' as int + 10
  }

  /** The value of a hexadecimal digit string read left to right. */
  function HexValue(s: string): nat
    requires AllHex(s)
    decreases |s|
  {
    if |s| == 0 then 0 else HexValue(s[..|s| - 1]) * 16 + HexDigitValue(s[|s| - 1])
  }

  /** Length of the longest run of hexadecimal digits at the start of `s`. */
  function HexRun(s: string): (k: nat)
    ensures k <= |s|
    ensures AllHex(s[..k])
    ensures k < |s| ==> !IsHexDigit(s[k])
    decreases |s|
  {
    if |s| > 0 && IsHexDigit(s[0]) then
      var k := 1 + HexRun(s[1..]);
      assert s[..k] == [s[0]] + s[1..][..k - 1];
      k
    else 0
  }

  /** Text that `parseInt` without a radix reads as hexadecimal. */
  predicate HasHexPrefix(u: string) {
    |u| >= 2 && u[0] == '0' && (u[1] == 'x' || u[1] == 'X')
  }

  /** JavaScript `parseInt(s)` with no radix: as `ParseInt`, except that a
      `0x` or `0X` after the sign switches to the longest run of hexadecimal
      digits that follows; `None` is `NaN`. */
  function ParseIntAuto(s: string): (r: Option<int>)
    ensures !HasHexPrefix(AfterSign(JsTrimStart(s))) ==> r == ParseInt(s)
    ensures var u := AfterSign(JsTrimStart(s));
            HasHexPrefix(u) ==> (r.None? <==> |u| == 2 || !IsHexDigit(u[2]))
  {
    var t := JsTrimStart(s);
    var u := AfterSign(t);
    if HasHexPrefix(u) then
      var h := u[2..];
      var k := HexRun(h);
      if k == 0 then None else Some(Signed(t, HexValue(h[..k])))
    else ParseInt(s)
  }

  /** A printed integer never carries the hexadecimal prefix, so the two
      parsers agree on it and it round-trips. */
  lemma ParseIntAutoRoundTrip(i: int)
    ensures ParseIntAuto(IntToString(i)) == Some(i)
  {
    var n: nat := if i < 0 then -i else i;
    var t := IntToString(i);
    NoLeadingJsSpace(t);
    assert AfterSign(t) == NatToString(n);
    assert !HasHexPrefix(NatToString(n)) by {
      if n == 0 { assert NatToString(n) == "0"; }
    }
    ParseIntRoundTrip(i);
  }

  /** After `0x`, hexadecimal digits are read up to the first character that
      is not one: `parseInt("0x1f")` is 31, where `parseInt("0x1f", 10)` is
      0. */
  lemma ParseIntAutoHex(h: string, rest: string)
    requires |h| > 0 && AllHex(h)
    requires |rest| == 0 || !IsHexDigit(rest[0])
    ensures ParseIntAuto("0x" + (h + rest)) == Some(HexValue(h))
  {
    var hh := h + rest;
    var s := "0x" + hh;
    NoLeadingJsSpace(s);
    assert AfterSign(s) == s && HasHexPrefix(s);
    assert s[2..] == hh;
    HexRunPrefix(h, rest);
    assert HexRun(hh) == |h| && hh[..|h|] == h;
    assert Signed(s, HexValue(h)) == HexValue(h);
  }

  /** With radix 10 the same text reads as 0: the `x` ends the digits. */
  lemma ParseIntStopsAtHexPrefix(rest: string)
    ensures ParseInt("0x" + rest) == Some(0)
  {
    var s := "0x" + rest;
    assert JsTrimStart(s) == s && AfterSign(s) == s;
    assert DigitRun(s[1..]) == 0;
    assert DigitRun(s) == 1 && s[..1] == "0";
    assert DigitsValue("0") == 0 by { assert "0"[..0] == ""; }
  }

  lemma {:induction false} HexRunPrefix(h: string, rest: string)
    requires AllHex(h)
    requires |rest| == 0 || !IsHexDigit(rest[0])
    ensures HexRun(h + rest) == |h|
    decreases |h|
  {
    if |h| > 0 {
      assert (h + rest)[1..] == h[1..] + rest;
      HexRunPrefix(h[1..], rest);
    }
  }

  // ---------------------------------------------------------------------
  // Python int()
  // ---------------------------------------------------------------------

  /** Digits with single underscores between them, the form `int()` accepts
      (`"1_000"`): a digit first, and every underscore followed by a
      digit. */
  predicate GroupedDigits(u: string) {
    |u| > 0 && IsDigit(u[0]) &&
    forall i :: 0 <= i < |u| ==> GroupChar(u, i)
  }

  /** Position `i` holds a digit, or an underscore with a digit after it. */
  predicate GroupChar(u: string, i: int)
    requires 0 <= i < |u|
  {
    IsDigit(u[i]) || (u[i] == '_' && i + 1 < |u| && IsDigit(u[i + 1]))
  }

  /** Grouped digits end in a digit. */
  lemma GroupedEndsInDigit(u: string)
    requires |u| > 0
    ensures GroupedDigits(u) ==> IsDigit(u[|u| - 1])
  {
    var k := |u| - 1;
    if GroupedDigits(u) {
      assert GroupChar(u, k);
    }
  }

  /** `u` with its underscores dropped. */
  function Ungrouped(u: string): (d: string)
    ensures |d| <= |u|
    ensures (forall i :: 0 <= i < |u| ==> IsDigit(u[i]) || u[i] == '_') ==> AllDigits(d)
    decreases |u|
  {
    if |u| == 0 then ""
    else
      assert forall i :: 0 <= i < |u| - 1 ==> u[..|u| - 1][i] == u[i];
      Ungrouped(u[..|u| - 1]) + (if u[|u| - 1] == '_' then "" else [u[|u| - 1]])
  }

  /** Reads a grouped digit string from its end: a last digit, possibly
      after one underscore, after a shorter grouped string. */
  function GroupedValue(u: string): (r: Option<nat>)
    ensures r.Some? <==> GroupedDigits(u)
    decreases |u|
  {
    if |u| == 0 then None
    else if !IsDigit(u[|u| - 1]) then GroupedEndsInDigit(u); None
    else if |u| == 1 then Some(DigitValue(u[|u| - 1]))
    else
      var init := u[..|u| - 1];
      var prefix := if init[|init| - 1] == '_' then init[..|init| - 1] else init;
      GroupedStep(u, prefix);
      match GroupedValue(prefix)
      case None => None
      case Some(v) => Some(v * 10 + DigitValue(u[|u| - 1]))
  }

  /** One step of `GroupedValue`: `u` is grouped exactly when the part before
      its last digit (and that digit's underscore, if any) is. */
  lemma GroupedStep(u: string, prefix: string)
    requires |u| >= 2 && IsDigit(u[|u| - 1])
    requires prefix == if u[|u| - 2] == '_' then u[..|u| - 2] else u[..|u| - 1]
    ensures GroupedDigits(u) <==> GroupedDigits(prefix)
  {
    if GroupedDigits(prefix) {
      GroupedEndsInDigit(prefix);
      forall i | 0 <= i < |u|
        ensures GroupChar(u, i)
      {
        if i < |prefix| {
          assert prefix[i] == u[i];
          if i + 1 < |prefix| { assert prefix[i + 1] == u[i + 1]; }
        }
      }
    }
    if GroupedDigits(u) {
      if u[|u| - 2] == '_' {
        assert |u| >= 3;
      }
      forall i | 0 <= i < |prefix|
        ensures GroupChar(prefix, i)
      {
        assert GroupChar(u, i) && GroupChar(u, i + 1);
        assert prefix[i] == u[i];
        if i + 1 < |prefix| { assert prefix[i + 1] == u[i + 1]; }
      }
    }
  }

  /** The value `GroupedValue` reads is the value of the digits once the
      underscores are dropped. */
  lemma {:induction false} GroupedValueDigits(u: string)
    requires GroupedDigits(u)
    ensures AllDigits(Ungrouped(u))
    ensures GroupedValue(u) == Some(DigitsValue(Ungrouped(u)))
    decreases |u|
  {
    var d := Ungrouped(u);
    var last := u[|u| - 1];
    GroupedEndsInDigit(u);
    if |u| == 1 {
      assert Ungrouped(u[..0]) == "";
      assert d == [last];
      DigitsValueAppend("", last);
      assert GroupedValue(u) == Some(DigitValue(last));
    } else {
      var init := u[..|u| - 1];
      var prefix := if init[|init| - 1] == '_' then init[..|init| - 1] else init;
      GroupedStep(u, prefix);
      GroupedValueDigits(prefix);
      UngroupedStep(u, prefix);
      var v := DigitsValue(Ungrouped(prefix));
      DigitsValueAppend(Ungrouped(prefix), last);
      GroupedValueStep(u, prefix, v);
    }
  }

  /** `GroupedValue` of a string ending in a digit, read off its prefix's
      value. */
  lemma GroupedValueStep(u: string, prefix: string, v: nat)
    requires |u| >= 2 && IsDigit(u[|u| - 1])
    requires prefix == if u[|u| - 2] == '_' then u[..|u| - 2] else u[..|u| - 1]
    requires GroupedValue(prefix) == Some(v)
    ensures GroupedValue(u) == Some(v * 10 + DigitValue(u[|u| - 1]))
  {
    var init := u[..|u| - 1];
    assert init[|init| - 1] == u[|u| - 2];
    assert init[..|init| - 1] == u[..|u| - 2];
  }

  /** Appending a digit multiplies the value by ten and adds the digit. */
  lemma DigitsValueAppend(p: string, c: char)
    requires AllDigits(p) && IsDigit(c)
    ensures AllDigits(p + [c]) && DigitsValue(p + [c]) == DigitsValue(p) * 10 + DigitValue(c)
  {
    var d := p + [c];
    assert d[..|d| - 1] == p;
  }

  /** Dropping the underscores of `u` drops those of the part before its
      last digit and keeps that digit. */
  lemma UngroupedStep(u: string, prefix: string)
    requires |u| >= 2 && IsDigit(u[|u| - 1])
    requires prefix == if u[|u| - 2] == '_' then u[..|u| - 2] else u[..|u| - 1]
    ensures Ungrouped(u) == Ungrouped(prefix) + [u[|u| - 1]]
  {
    var init := u[..|u| - 1];
    assert Ungrouped(init) == Ungrouped(prefix) by {
      if init[|init| - 1] == '_' {
        assert init[..|init| - 1] == prefix;
      }
    }
  }

  /** Python `int(s)` for a string: surrounding whitespace (`IsIntSpace`)
      is allowed, then one optional sign and grouped digits and nothing
      else; `None` stands for the `ValueError` it raises otherwise. */
  function PyInt(s: string): (r: Option<int>)
    ensures r.Some? <==> GroupedDigits(AfterSign(IntStrip(s)))
    ensures r.Some? ==> var u := AfterSign(IntStrip(s));
            AllDigits(Ungrouped(u)) && r.value == Signed(IntStrip(s), DigitsValue(Ungrouped(u)))
  {
    var t := IntStrip(s);
    match GroupedValue(AfterSign(t))
    case None => None
    case Some(n) =>
      GroupedValueDigits(AfterSign(t));
      Some(Signed(t, n))
  }

  /** A digit string is grouped, and dropping its (absent) underscores
      leaves it as it is. */
  lemma {:induction false} UngroupedDigits(d: string)
    requires AllDigits(d)
    ensures Ungrouped(d) == d
    decreases |d|
  {
    if |d| > 0 {
      UngroupedDigits(d[..|d| - 1]);
    }
  }

  lemma PyIntRoundTrip(i: int)
    ensures PyInt(IntToString(i)) == Some(i)
  {
    var n: nat := if i < 0 then -i else i;
    NatToStringValue(n);
    if i < 0 {
      PyIntNegative(NatToString(n));
    } else {
      PyIntDigits(NatToString(n));
    }
  }

  /** `int()` of a bare digit string is its value. */
  lemma PyIntDigits(d: string)
    requires |d| > 0 && AllDigits(d)
    ensures PyInt(d) == Some(DigitsValue(d))
  {
    assert IsDigit(d[0]) && IsDigit(d[|d| - 1]);
    NoLeadingIntSpace(d);
    NoTrailingIntSpace(d);
    assert IntStrip(d) == d && AfterSign(d) == d;
    assert GroupedDigits(d);
    UngroupedDigits(d);
  }

  /** `int()` of a minus sign followed by digits is the negated value. */
  lemma PyIntNegative(d: string)
    requires |d| > 0 && AllDigits(d)
    ensures PyInt("-" + d) == Some(-(DigitsValue(d) as int))
  {
    var t := "-" + d;
    assert t[0] == '-' && t[1..] == d;
    assert t[|t| - 1] == d[|d| - 1] && IsDigit(d[|d| - 1]);
    NoLeadingIntSpace(t);
    NoTrailingIntSpace(t);
    assert IntStrip(t) == t;
    assert AfterSign(t) == d;
    assert GroupedDigits(d);
    UngroupedDigits(d);
    assert Signed(t, DigitsValue(d)) == -(DigitsValue(d) as int);
  }

  /** Underscores group digits but change nothing: `int("1_000")` is 1000;
      a doubled, leading or trailing underscore is refused. */
  lemma PyIntGrouping()
    ensures PyInt("1_000") == Some(1000)
  {
    var s := "1_000";
    NoLeadingIntSpace(s);
    NoTrailingIntSpace(s);
    assert IntStrip(s) == s && AfterSign(s) == s;
    assert s[..4] == "1_00" && "1_00"[..3] == "1_0" && "1_0"[..2] == "1_" && "1_"[..1] == "1";
    assert GroupedValue("1") == Some(1);
    assert GroupedValue("1_0") == Some(10);
    assert GroupedValue("1_00") == Some(100);
    assert GroupedValue(s) == Some(1000);
  }

  lemma PyIntRefusesDoubledUnderscore()
    ensures PyInt("1__000").None?
  {
    var a := "1__000";
    PlainPyInt(a);
    assert !GroupChar(a, 1);
  }

  lemma PyIntRefusesLeadingUnderscore()
    ensures PyInt("_1").None?
  {
    PlainPyInt("_1");
  }

  lemma PyIntRefusesTrailingUnderscore()
    ensures PyInt("1_").None?
  {
    PlainPyInt("1_");
    GroupedEndsInDigit("1_");
  }

  /** Without surrounding whitespace or a sign, `int()` accepts exactly the
      grouped digit strings. */
  lemma PlainPyInt(s: string)
    requires |s| > 0 && !IsIntSpace(s[0]) && !IsIntSpace(s[|s| - 1]) && s[0] != '-' && s[0] != '+'
    ensures PyInt(s).Some? <==> GroupedDigits(s)
  {
    NoLeadingIntSpace(s);
    NoTrailingIntSpace(s);
    assert IntStrip(s) == s;
    assert AfterSign(s) == s;
  }

  /** A printed number has no trailing whitespace. */
  lemma NoTrailingSpace(s: string)
    requires |s| > 0 && !IsSpace(s[|s| - 1])
    ensures StripRight(s) == s
  {
  }

  lemma NoLeadingIntSpace(s: string)
    requires |s| > 0 && !IsIntSpace(s[0])
    ensures IntStripLeft(s) == s
  {
  }

  lemma NoTrailingIntSpace(s: string)
    requires |s| > 0 && !IsIntSpace(s[|s| - 1])
    ensures IntStripRight(s) == s
  {
  }

  /** `int()` does not skip the separator U+001C although `strip()`
      removes it: `int("\x1c5")` raises, while `int("\x1c5".strip())` is 5. */
  lemma PyIntKeepsSeparators(s: string)
    requires s == "\U{1C}5"
    ensures Strip(s) == "5"
    ensures PyInt(s).None?
    ensures PyInt(Strip(s)) == Some(5)
  {
    SeparatorStripped(s);
    SeparatorRefused(s);
    FiveRead(Strip(s));
  }

  lemma FiveRead(t: string)
    requires t == "5"
    ensures PyInt(t) == Some(5)
  {
    PyIntDigits(t);
    assert t[..0] == "";
  }

  lemma SeparatorStripped(s: string)
    requires s == "\U{1C}5"
    ensures Strip(s) == "5"
  {
    assert IsSpace(s[0]) && s[1..] == "5";
    NoLeadingSpace("5");
    NoTrailingSpace("5");
  }

  lemma SeparatorRefused(s: string)
    requires s == "\U{1C}5"
    ensures PyInt(s).None?
  {
    assert !IsIntSpace(s[0]) && !IsIntSpace(s[1]) && !IsDigit(s[0]);
    PlainPyInt(s);
  }
}
