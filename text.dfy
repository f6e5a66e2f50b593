/**
 * Character-level string operations of the Java and JavaScript runtimes that the
 * battlemap code relies on: decimal and hexadecimal formatting and parsing, case
 * mapping, trimming, searching, splitting and replacing.
 */
module Text {
  import opened Common

  // ---------------------------------------------------------------- decimal

  function DigitChar(d: nat): char
    requires d < 10
  {
    (d + '0' as int) as char
  }

  predicate IsDigit(c: char) { '0' <= c <= '9' }

  function DigitValue(c: char): nat
    requires IsDigit(c)
  {
    (c as int) - ('0' as int)
  }

  predicate AllDigits(s: string) { forall i :: 0 <= i < |s| ==> IsDigit(s[i]) }

  /** Decimal rendering of a natural number, without leading zeros. */
  function NatToString(n: nat): (r: string)
    ensures |r| >= 1 && AllDigits(r)
    ensures |r| > 1 ==> r[0] != '0'
    decreases n
  {
    if n < 10 then [DigitChar(n)] else NatToString(n / 10) + [DigitChar(n % 10)]
  }

  /** Decimal rendering as Java's `String.valueOf(int)`, `%d` and JavaScript's `String(n)` produce it. */
  function IntToString(i: int): (r: string)
    ensures |r| >= 1
  {
    if i < 0 then "-" + NatToString(-i) else NatToString(i)
  }

  /** The value of a non-empty digit string. */
  function DigitsValue(s: string): nat
    requires AllDigits(s)
    decreases |s|
  {
    if s == [] then 0 else DigitsValue(s[..|s| - 1]) * 10 + DigitValue(s[|s| - 1])
  }

  lemma {:induction false} DigitsValueOfNatToString(n: nat)
    ensures DigitsValue(NatToString(n)) == n
    decreases n
  {
    var s := NatToString(n);
    if n < 10 {
      assert s[..|s| - 1] == [];
    } else {
      DigitsValueOfNatToString(n / 10);
      assert s[..|s| - 1] == NatToString(n / 10);
    }
  }

  /** An optionally negative decimal integer: the strings JavaScript's `Number` maps to an integer in this model. */
  function ParseDecimal(s: string): (r: Option<int>)
    ensures r.Some? ==> |s| >= 1
  {
    if |s| >= 2 && s[0] == '-' && AllDigits(s[1..]) then Some(-(DigitsValue(s[1..]) as int))
    else if |s| >= 1 && AllDigits(s) then Some(DigitsValue(s))
    else None
  }

  lemma ParseDecimalOfIntToString(i: int)
    ensures ParseDecimal(IntToString(i)) == Some(i)
  {
    if i < 0 {
      DigitsValueOfNatToString(-i);
      ParseNegative(IntToString(i), NatToString(-i), -i);
    } else {
      DigitsValueOfNatToString(i);
      ParseUnsigned(NatToString(i), i);
    }
  }

  lemma ParseNegative(s: string, digits: string, n: nat)
    requires s == "-" + digits && |digits| >= 1 && AllDigits(digits) && DigitsValue(digits) == n
    ensures ParseDecimal(s) == Some(-(n as int))
  {
    assert s[1..] == digits;
  }

  lemma ParseUnsigned(digits: string, n: nat)
    requires |digits| >= 1 && AllDigits(digits) && DigitsValue(digits) == n
    ensures ParseDecimal(digits) == Some(n)
  {
    assert IsDigit(digits[0]);
  }

  const IntMin: int := -0x8000_0000
  const IntMax: int := 0x7FFF_FFFF

  /**
   * Java's `Integer.parseInt(s)`: an optional `+` or `-`, then one or more ASCII
   * digits, within the 32-bit range; `None` stands for the NumberFormatException.
   */
  function JavaParseInt(s: string): (r: Option<int>)
    ensures r.Some? ==> IntMin <= r.value <= IntMax
  {
    var neg := |s| >= 1 && s[0] == '-';
    var body := if |s| >= 1 && (s[0] == '-' || s[0] == '+') then s[1..] else s;
    if |body| == 0 || !AllDigits(body) then None
    else
      var v: int := if neg then -(DigitsValue(body) as int) else DigitsValue(body);
      if IntMin <= v <= IntMax then Some(v) else None
  }

  // ---------------------------------------------------------------- hexadecimal

  function HexDigitLower(d: nat): char
    requires d < 16
  {
    if d < 10 then (d + '0' as int) as char else (d - 10 + 'a' as int) as char
  }

  /** Two lower-case hex digits, as `%02x` renders a byte. */
  function Hex2(b: byte): (r: string)
    ensures |r| == 2
  {
    [HexDigitLower(b / 16), HexDigitLower(b % 16)]
  }

  predicate IsHexDigit(c: char)
  {
    ('0' <= c <= '9') || ('a' <= c <= 'f') || ('A' <= c <= 'F')
  }

  function HexValue(c: char): (r: nat)
    requires IsHexDigit(c)
    ensures r < 16
  {
    if '0' <= c <= '9' then (c as int) - ('0' as int)
    else if 'a' <= c <= 'f' then (c as int) - ('a' as int) + 10
    else (c as int) - ('A' as int) + 10
  }

  lemma HexValueOfHexDigitLower(d: nat)
    requires d < 16
    ensures IsHexDigit(HexDigitLower(d)) && HexValue(HexDigitLower(d)) == d
  {
  }

  /** The longest prefix of `s` made of hex digits. */
  function HexPrefix(s: string): (r: string)
    ensures |r| <= |s| && r == s[..|r|]
    ensures forall i :: 0 <= i < |r| ==> IsHexDigit(r[i])
    ensures |r| < |s| ==> !IsHexDigit(s[|r|])
  {
    if s != [] && IsHexDigit(s[0]) then [s[0]] + HexPrefix(s[1..]) else ""
  }

  function HexDigitsValue(s: string): nat
    requires forall i :: 0 <= i < |s| ==> IsHexDigit(s[i])
  {
    if s == [] then 0 else 16 * HexDigitsValue(s[..|s| - 1]) + HexValue(s[|s| - 1])
  }

  /**
   * JavaScript's `parseInt(s, 16)`: leading white space, an optional sign and an
   * optional `0x` are skipped, then the longest run of hex digits is read;
   * `None` stands for NaN when there is none.
   */
  function JsParseInt16(s: string): Option<int>
  {
    var t := TrimLeft(s, JsWhitespace);
    var negative := |t| > 0 && t[0] == '-';
    var digits := HexPrefix(JsHexBody(s));
    if digits == "" then None
    else
      var value: int := HexDigitsValue(digits);
      Some(if negative then -value else value)
  }

  /** What `parseInt(s, 16)` reads digits from: past white space, the sign and a `0x` prefix. */
  function JsHexBody(s: string): string
  {
    var t := TrimLeft(s, JsWhitespace);
    var u := if |t| > 0 && (t[0] == '-' || t[0] == '+') then t[1..] else t;
    if |u| >= 2 && u[0] == '0' && (u[1] == 'x' || u[1] == 'X') then u[2..] else u
  }

  /** Two hex digits parse to their value, and `%02x` writes that value back in lower case. */
  lemma ParseTwoHexDigits(s: string)
    requires |s| == 2 && IsHexDigit(s[0]) && IsHexDigit(s[1])
    ensures JsParseInt16(s) == Some(16 * HexValue(s[0]) + HexValue(s[1]))
    ensures 16 * HexValue(s[0]) + HexValue(s[1]) < 256
    ensures Hex2(16 * HexValue(s[0]) + HexValue(s[1])) == [LowerChar(s[0]), LowerChar(s[1])]
  {
    var a, b := HexValue(s[0]), HexValue(s[1]);
    TwoDigitsBody(s);
    TwoDigitsValue(s);
    HexPair(a, b);
    HexValueLower(s[0]);
    HexValueLower(s[1]);
  }

  lemma TwoDigitsValue(s: string)
    requires |s| == 2 && IsHexDigit(s[0]) && IsHexDigit(s[1])
    ensures HexDigitsValue(s) == 16 * HexValue(s[0]) + HexValue(s[1])
  {
    assert s[..1][..0] == "";
    assert HexDigitsValue(s[..1]) == HexValue(s[0]);
  }

  /** The two hex digits of `16 * a + b`. */
  lemma HexPair(a: nat, b: nat)
    requires a < 16 && b < 16
    ensures 16 * a + b < 256 && (16 * a + b) / 16 == a && (16 * a + b) % 16 == b
  {
  }

  lemma TwoDigitsBody(s: string)
    requires |s| == 2 && IsHexDigit(s[0]) && IsHexDigit(s[1])
    ensures TrimLeft(s, JsWhitespace) == s && HexPrefix(JsHexBody(s)) == s
  {
    assert !JsWhitespace(s[0]);
    assert JsHexBody(s) == s;
    HexPrefixOfDigits(s);
  }

  lemma HexPrefixOfDigits(s: string)
    requires forall i :: 0 <= i < |s| ==> IsHexDigit(s[i])
    ensures HexPrefix(s) == s
  {
  }

  lemma HexValueLower(c: char)
    requires IsHexDigit(c)
    ensures HexDigitLower(HexValue(c)) == LowerChar(c)
  {
  }

  // ---------------------------------------------------------------- case mapping

  /**
   * Upper-case mapping of one character for the letters of ASCII and of the
   * Latin-1 supplement (`à`..`þ` without `÷`); every other character is kept.
   */
  function UpperChar(c: char): char
  {
    if 'a' <= c <= 'z' || ('\U{E0}' <= c <= '\U{FE}' && c != '\U{F7}') then ((c as int) - 32) as char else c
  }

  /** Lower-case mapping of one character, the inverse of `UpperChar` on the letters it covers. */
  function LowerChar(c: char): char
  {
    if 'A' <= c <= 'Z' || ('\U{C0}' <= c <= '\U{DE}' && c != '\U{D7}') then ((c as int) + 32) as char else c
  }

  function Upper(s: string): (r: string)
    ensures |r| == |s| && forall i :: 0 <= i < |s| ==> r[i] == UpperChar(s[i])
  {
    if s == [] then [] else [UpperChar(s[0])] + Upper(s[1..])
  }

  function Lower(s: string): (r: string)
    ensures |r| == |s| && forall i :: 0 <= i < |s| ==> r[i] == LowerChar(s[i])
  {
    if s == [] then [] else [LowerChar(s[0])] + Lower(s[1..])
  }

  lemma LowerPointwise(r: string, s: string)
    requires |r| == |s| && forall i :: 0 <= i < |s| ==> r[i] == LowerChar(s[i])
    ensures r == Lower(s)
  {
  }

  /** Java's per-character test in `String.equalsIgnoreCase`. */
  predicate CharEqualsIgnoreCase(c: char, d: char)
  {
    c == d || UpperChar(c) == UpperChar(d) || LowerChar(UpperChar(c)) == LowerChar(UpperChar(d))
  }

  predicate EqualsIgnoreCase(a: string, b: string)
  {
    |a| == |b| && forall i :: 0 <= i < |a| ==> CharEqualsIgnoreCase(a[i], b[i])
  }

  lemma CharEqualsIgnoreCaseIsFolding(c: char, d: char)
    ensures CharEqualsIgnoreCase(c, d) <==> LowerChar(UpperChar(c)) == LowerChar(UpperChar(d))
  {
  }

  lemma EqualsIgnoreCaseTransitive(a: string, b: string, c: string)
    requires EqualsIgnoreCase(a, b) && EqualsIgnoreCase(b, c)
    ensures EqualsIgnoreCase(a, c)
  {
    forall i | 0 <= i < |a| ensures CharEqualsIgnoreCase(a[i], c[i]) {
      CharEqualsIgnoreCaseIsFolding(a[i], b[i]);
      CharEqualsIgnoreCaseIsFolding(b[i], c[i]);
      CharEqualsIgnoreCaseIsFolding(a[i], c[i]);
    }
  }

  lemma EqualsIgnoreCaseSymmetric(a: string, b: string)
    requires EqualsIgnoreCase(a, b)
    ensures EqualsIgnoreCase(b, a)
  {
  }

  // ---------------------------------------------------------------- searching

  predicate MatchesAt(s: string, t: string, i: int)
  {
    0 <= i && i + |t| <= |s| && s[i..i + |t|] == t
  }

  /** The first index `>= from` where `t` occurs in `s`: Java's `indexOf(t, from)`. */
  function IndexOfFrom(s: string, t: string, from: nat): (r: Option<nat>)
    ensures r.Some? ==> from <= r.value && MatchesAt(s, t, r.value)
    ensures r.Some? ==> forall j :: from <= j < r.value ==> !MatchesAt(s, t, j)
    ensures r.None? ==> forall j :: from <= j ==> !MatchesAt(s, t, j)
    decreases |s| - from
  {
    if from + |t| > |s| then None
    else if s[from..from + |t|] == t then Some(from)
    else IndexOfFrom(s, t, from + 1)
  }

  function IndexOf(s: string, t: string): Option<nat> { IndexOfFrom(s, t, 0) }

  predicate Contains(s: string, t: string) { IndexOf(s, t).Some? }

  lemma ContainsMeans(s: string, t: string)
    ensures Contains(s, t) <==> exists i :: MatchesAt(s, t, i)
  {
    if Contains(s, t) {
      assert MatchesAt(s, t, IndexOf(s, t).value);
    }
  }

  predicate StartsWith(s: string, t: string) { |t| <= |s| && s[..|t|] == t }

  predicate EndsWith(s: string, t: string) { |t| <= |s| && s[|s| - |t|..] == t }

  /** A string does not start with a prefix whose first character differs from its own. */
  lemma NotStartsWith(s: string, t: string)
    requires |t| >= 1 && (s == [] || s[0] != t[0])
    ensures !StartsWith(s, t)
  {
    if |t| <= |s| {
      assert s[..|t|][0] == s[0];
    }
  }

  // ---------------------------------------------------------------- trimming

  /** The characters Java's `String.trim` removes: every code point up to U+0020. */
  predicate JavaTrimmable(c: char) { c <= ' ' }

  function TrimLeft(s: string, drop: char -> bool): (r: string)
    ensures |r| <= |s| && r == s[|s| - |r|..]
    ensures |r| > 0 ==> !drop(r[0])
    ensures forall i :: 0 <= i < |s| - |r| ==> drop(s[i])
  {
    if s != [] && drop(s[0]) then TrimLeft(s[1..], drop) else s
  }

  function TrimRight(s: string, drop: char -> bool): (r: string)
    ensures |r| <= |s| && r == s[..|r|]
    ensures |r| > 0 ==> !drop(r[|r| - 1])
    ensures forall i :: |r| <= i < |s| ==> drop(s[i])
  {
    if s != [] && drop(s[|s| - 1]) then TrimRight(s[..|s| - 1], drop) else s
  }

  /** A string that starts and ends with a kept character is its own trim. */
  lemma TrimKeeps(s: string, drop: char -> bool)
    requires s != [] && !drop(s[0]) && !drop(s[|s| - 1])
    ensures TrimRight(TrimLeft(s, drop), drop) == s
  {
  }

  function JavaTrim(s: string): string { TrimRight(TrimLeft(s, JavaTrimmable), JavaTrimmable) }

  /** Java's `Character.isWhitespace`, the test behind `String.isBlank`. */
  predicate JavaWhitespace(c: char)
  {
    var n := c as int;
    (0x09 <= n <= 0x0D) || (0x1C <= n <= 0x20) || n == 0x1680 || (0x2000 <= n <= 0x2006)
    || (0x2008 <= n <= 0x200A) || n == 0x2028 || n == 0x2029 || n == 0x205F || n == 0x3000
  }

  predicate IsBlank(s: string) { forall i :: 0 <= i < |s| ==> JavaWhitespace(s[i]) }

  /** The white space and line terminators JavaScript's `String.prototype.trim` removes. */
  predicate JsWhitespace(c: char)
  {
    var n := c as int;
    (0x09 <= n <= 0x0D) || n == 0x20 || n == 0xA0 || n == 0x1680 || (0x2000 <= n <= 0x200A)
    || n == 0x2028 || n == 0x2029 || n == 0x202F || n == 0x205F || n == 0x3000 || n == 0xFEFF
  }

  function JsTrim(s: string): string { TrimRight(TrimLeft(s, JsWhitespace), JsWhitespace) }

  // ---------------------------------------------------------------- splitting and joining

  function Join(parts: seq<string>, sep: char): string
  {
    if parts == [] then "" else if |parts| == 1 then parts[0] else parts[0] + [sep] + Join(parts[1..], sep)
  }

  /** JavaScript's `s.split(c)`: every piece between separators, empty pieces included. */
  function JsSplit(s: string, c: char): (r: seq<string>)
    ensures |r| >= 1
    ensures Join(r, c) == s
    ensures forall k :: 0 <= k < |r| ==> c !in r[k]
    ensures c !in s ==> r == [s]
    decreases |s|
  {
    match IndexOf(s, [c])
    case None =>
      NoCharBefore(s, c, |s|);
      [s]
    case Some(i) =>
      NoCharBefore(s, c, i);
      var rest := JsSplit(s[i + 1..], c);
      SplitJoin(s, c, i, rest);
      [s[..i]] + rest
  }

  /** No match of the one-character string `[c]` before `i`: no `c` before `i`. */
  lemma NoCharBefore(s: string, c: char, i: nat)
    requires i <= |s| && forall j :: 0 <= j < i ==> !MatchesAt(s, [c], j)
    ensures forall j :: 0 <= j < i ==> s[j] != c
  {
    forall j | 0 <= j < i ensures s[j] != c {
      assert s[j..j + 1] == [s[j]];
      assert !MatchesAt(s, [c], j);
    }
  }

  /** The piece before the first `c`, then the pieces after it, join back to `s`. */
  lemma SplitJoin(s: string, c: char, i: nat, rest: seq<string>)
    requires MatchesAt(s, [c], i) && forall j :: 0 <= j < i ==> s[j] != c
    requires |rest| >= 1 && Join(rest, c) == s[i + 1..] && forall k :: 0 <= k < |rest| ==> c !in rest[k]
    ensures Join([s[..i]] + rest, c) == s
    ensures forall k :: 0 <= k < |rest| + 1 ==> c !in ([s[..i]] + rest)[k]
    ensures c in s
  {
    var r := [s[..i]] + rest;
    assert s[i..i + 1] == [c];
    assert s[i] == c;
    assert r[1..] == rest;
    assert s == s[..i] + [c] + s[i + 1..];
    forall k | 0 <= k < |r| ensures c !in r[k] {
      if k == 0 {
        assert forall x :: x in s[..i] ==> exists j :: 0 <= j < i && s[j] == x;
      } else {
        assert r[k] == rest[k - 1];
      }
    }
  }

  /** Splitting at a first separator: the piece before it, then the pieces of the rest. */
  lemma JsSplitFirst(a: string, rest: string, c: char)
    requires c !in a
    ensures JsSplit(a + [c] + rest, c) == [a] + JsSplit(rest, c)
  {
    var s := a + [c] + rest;
    assert MatchesAt(s, [c], |a|) by {
      assert s[|a|..|a| + 1] == [c];
    }
    forall j | 0 <= j < |a|
      ensures !MatchesAt(s, [c], j)
    {
      assert s[j..j + 1] == [a[j]];
    }
    var i := IndexOf(s, [c]).value;
    assert i == |a|;
    assert s[..i] == a;
    assert s[i + 1..] == rest;
  }

  function DropTrailingEmpty(parts: seq<string>): (r: seq<string>)
    ensures |r| <= |parts| && r == parts[..|r|]
    ensures |r| > 0 ==> r[|r| - 1] != ""
    ensures forall k :: |r| <= k < |parts| ==> parts[k] == ""
  {
    if parts != [] && parts[|parts| - 1] == "" then DropTrailingEmpty(parts[..|parts| - 1]) else parts
  }

  /**
   * Java's `s.split(String.valueOf(c))` for a literal one-character separator:
   * the input unchanged when the separator does not occur, otherwise the pieces
   * with trailing empty pieces removed.
   */
  function JavaSplit(s: string, c: char): (r: seq<string>)
    ensures c !in s ==> r == [s]
    ensures c in s ==> r == DropTrailingEmpty(JsSplit(s, c))
  {
    if c !in s then [s] else DropTrailingEmpty(JsSplit(s, c))
  }

  // ---------------------------------------------------------------- replacing

  /** Every occurrence of the character `c` replaced by `rep`: Java's `String.replace`. */
  function ReplaceChar(s: string, c: char, rep: string): (r: string)
    ensures c !in rep ==> c !in r
    ensures c !in s ==> r == s
  {
    if s == [] then "" else (if s[0] == c then rep else [s[0]]) + ReplaceChar(s[1..], c, rep)
  }

  /** A one-character string: replaced when it is `c`, kept otherwise. */
  lemma ReplaceSingle(d: char, c: char, rep: string)
    ensures ReplaceChar([d], c, rep) == if d == c then rep else [d]
  {
    assert [d][1..] == [];
  }

  lemma ReplaceCharKeepsOthers(s: string, c: char, rep: string, d: char)
    requires d != c && d !in rep
    ensures d in ReplaceChar(s, c, rep) <==> d in s
  {
    if s != [] {
      ReplaceCharKeepsOthers(s[1..], c, rep, d);
      assert s == [s[0]] + s[1..];
    }
  }

  /** The first occurrence of `c` removed: JavaScript's `s.replace(c, '')` with a string pattern. */
  function RemoveFirst(s: string, c: char): (r: string)
    ensures c !in s ==> r == s
    ensures |r| == if c in s then |s| - 1 else |s|
  {
    if s == [] then "" else if s[0] == c then s[1..] else [s[0]] + RemoveFirst(s[1..], c)
  }

  /** JavaScript's `s.substring(a, b)` for `0 <= a <= b`: indexes are clamped to the length. */
  function JsSubstring(s: string, a: nat, b: nat): (r: string)
    requires a <= b
    ensures |r| <= b - a
  {
    var hi := if b <= |s| then b else |s|;
    var lo := if a <= hi then a else hi;
    s[lo..hi]
  }
}
