/**
 * Talents and spells (`Ability`): a check string such as `"(MU/IN/GE)"`
 * names the three properties rolled against, and a handicap string such as
 * `"BE"`, `"BEx2"` or `"BE-3"` says how the armour handicap (BE) counts.
 */
module Abilities {
  import opened Common
  import opened Text
  import opened PropertyNames

  // ---------------------------------------------------------------- the check string

  const Dashes: seq<string> := ["--", "--", "--"]

  /** The check text with one surrounding pair of parentheses removed, when both are there. */
  function StripParens(trimmed: string): (r: string)
    ensures StartsWith(trimmed, "(") && EndsWith(trimmed, ")") ==> |trimmed| >= 2 && r == trimmed[1..|trimmed| - 1]
    ensures !(StartsWith(trimmed, "(") && EndsWith(trimmed, ")")) ==> r == trimmed
  {
    if StartsWith(trimmed, "(") && EndsWith(trimmed, ")") then
      assert trimmed[0] == '(' && trimmed[|trimmed| - 1] == ')';
      trimmed[1..|trimmed| - 1]
    else trimmed
  }

  /**
   * `parseCheckString`: three dashes for a missing or blank check; otherwise
   * the trimmed text, without one pair of parentheses, split at `/`, when
   * that gives exactly three pieces, and three dashes when it does not.
   */
  function ParseCheckString(check: Option<string>): (r: seq<string>)
    ensures |r| == 3
    ensures check.None? || IsBlank(check.value) ==> r == Dashes
    ensures check.Some? && !IsBlank(check.value) ==> r == SplitInThree(StripParens(JavaTrim(check.value)))
  {
    if check.None? || IsBlank(check.value) then Dashes
    else SplitInThree(StripParens(JavaTrim(check.value)))
  }

  /** The pieces of `body` between slashes when there are exactly three, three dashes otherwise. */
  function SplitInThree(body: string): (r: seq<string>)
    ensures |r| == 3
    ensures |JavaSplit(body, '/')| == 3 ==> r == JavaSplit(body, '/')
    ensures |JavaSplit(body, '/')| != 3 ==> r == Dashes
  {
    var parts := JavaSplit(body, '/');
    if |parts| != 3 then Dashes else parts
  }

  /** A missing or blank check names `NONE` three times. */
  lemma MissingCheckNamesNone(check: Option<string>)
    requires check.None? || IsBlank(check.value)
    ensures forall k :: 0 <= k < 3 ==> Resolve(ParseCheckString(check)[k]) == NoProperty
  {
    DashesAreNone();
  }

  /** A property abbreviation, or `NONE` when it names no property. */
  function Resolve(abrv: string): PropertyName
  {
    match GetByAbrv(abrv)
    case Some(p) => p
    case None => NoProperty
  }

  /** Text whose first and last characters survive `trim`. */
  predicate Trimmed(s: string)
  {
    s != [] && !JavaTrimmable(s[0]) && !JavaTrimmable(s[|s| - 1])
  }

  /** A trimmed, non-blank check without a surrounding pair of parentheses is split as it is. */
  lemma TrimmedCheck(s: string)
    requires Trimmed(s) && !IsBlank(s) && !(s[0] == '(' && s[|s| - 1] == ')')
    ensures ParseCheckString(Some(s)) == SplitInThree(s)
  {
    assert StripParens(JavaTrim(s)) == s by {
      TrimKeeps(s, JavaTrimmable);
      assert !(StartsWith(s, "(") && EndsWith(s, ")"));
    }
  }

  /**
   * One pair of parentheses around a check is ignored: `"(MU/IN/GE)"` parses
   * like `"MU/IN/GE"`.
   */
  lemma ParenthesesIgnored(body: string)
    requires Trimmed(body) && !IsBlank(body) && !(body[0] == '(' && body[|body| - 1] == ')')
    ensures ParseCheckString(Some("(" + body + ")")) == ParseCheckString(Some(body))
  {
    TrimmedCheck(body);
    FramedCheck(body);
  }

  lemma FramedCheck(body: string)
    requires body != []
    ensures ParseCheckString(Some("(" + body + ")")) == SplitInThree(body)
  {
    var s := "(" + body + ")";
    assert s[0] == '(' && s[|s| - 1] == ')';
    assert StripParens(JavaTrim(s)) == body by {
      TrimKeeps(s, JavaTrimmable);
      assert StartsWith(s, "(") by { assert s[..1] == [s[0]]; }
      assert EndsWith(s, ")") by { assert s[|s| - 1..] == [s[|s| - 1]]; }
      assert s[1..|s| - 1] == body;
    }
    assert !IsBlank(s) by { assert !JavaWhitespace(s[0]); }
  }

  /** Two separators between three pieces without one, the last non-empty: Java's split gives the three pieces. */
  lemma SplitThree(a: string, b: string, c: string, sep: char)
    requires sep !in a && sep !in b && sep !in c && c != ""
    ensures JavaSplit(a + [sep] + b + [sep] + c, sep) == [a, b, c]
  {
    var s := a + [sep] + b + [sep] + c;
    assert s == a + [sep] + (b + [sep] + c);
    JsSplitFirst(a, b + [sep] + c, sep);
    JsSplitFirst(b, c, sep);
    assert JsSplit(c, sep) == [c];
    assert JsSplit(s, sep) == [a, b, c];
    assert s[|a|] == sep;
    assert sep in s;
    assert DropTrailingEmpty([a, b, c]) == [a, b, c];
  }

  /**
   * A check of three pieces between slashes comes back as its pieces, which
   * are not trimmed: `"MU / IN / GE"` gives `"MU "`, `" IN "` and `" GE"`.
   */
  lemma ThreePartCheck(a: string, b: string, c: string)
    requires '/' !in a && '/' !in b && '/' !in c
    requires a != [] && !JavaTrimmable(a[0]) && !JavaWhitespace(a[0])
    requires c != [] && !JavaTrimmable(c[|c| - 1]) && !(a[0] == '(' && c[|c| - 1] == ')')
    ensures ParseCheckString(Some(a + "/" + b + "/" + c)) == [a, b, c]
  {
    var s := a + "/" + b + "/" + c;
    SplitThree(a, b, c, '/');
    assert s[0] == a[0] && s[|s| - 1] == c[|c| - 1];
    TrimmedCheck(s);
  }

  /** No abbreviation starts with a parenthesis. */
  lemma ParenIsNoAbrv(s: string)
    requires s != [] && s[0] == '('
    ensures Resolve(s) == NoProperty
  {
    forall p ensures !EqualsIgnoreCase(Abrv(p), s) {
      AbrvStartsPlain(p);
      var c := Abrv(p)[0];
      assert !CharEqualsIgnoreCase(c, s[0]);
    }
  }

  /** Every abbreviation starts with a capital letter or a dash. */
  lemma AbrvStartsPlain(p: PropertyName)
    ensures Abrv(p) != [] && ('A' <= Abrv(p)[0] <= 'Z' || Abrv(p)[0] == '-')
  {
  }

  /** Without its closing parenthesis the opening one stays with the first piece. */
  lemma UnpairedParenthesisKept(b: string, c: string)
    requires '/' !in b && '/' !in c && c != [] && !JavaTrimmable(c[|c| - 1]) && c[|c| - 1] != ')'
    ensures ParseCheckString(Some("(MU/" + b + "/" + c))[0] == "(MU"
    ensures Resolve("(MU") == NoProperty
  {
    assert "(MU/" + b + "/" + c == "(MU" + "/" + b + "/" + c;
    ThreePartCheck("(MU", b, c);
    ParenIsNoAbrv("(MU");
  }

  // ---------------------------------------------------------------- the handicap

  /** The effective-BE function `getBe` builds: `b -> b`, `b -> b * n`, `b -> max(b - n, 0)` or `b -> 0`. */
  datatype BeRule = Identity | Times(factor: int) | Minus(amount: int) | Zero

  function ApplyBe(rule: BeRule, b: int): int
  {
    match rule
    case Identity => b
    case Times(n) => b * n
    case Minus(n) => if b - n < 0 then 0 else b - n
    case Zero => 0
  }

  /** `Integer.parseInt(text.split(sep)[1])`, or 2 when there is no second piece or it is no number. */
  function NumberAfter(text: string, sep: char): int
  {
    var parts := JavaSplit(text, sep);
    if |parts| >= 2 && JavaParseInt(parts[1]).Some? then JavaParseInt(parts[1]).value else 2
  }

  /** The rule of a handicap, with the multiplier read from `numberText` of the handicap. */
  function BeRuleFrom(handicap: Option<string>, numberText: string -> string): (r: BeRule)
    ensures r == Identity <==> handicap.Some? && handicap.value != "" && Lower(handicap.value) == "be"
    ensures r.Times? <==> handicap.Some? && handicap.value != "" && Lower(handicap.value) != "be" && 'x' in Lower(handicap.value)
    ensures r.Minus? <==> handicap.Some? && handicap.value != "" && Lower(handicap.value) != "be"
                          && 'x' !in Lower(handicap.value) && '-' in Lower(handicap.value)
    ensures r.Times? ==> r.factor == NumberAfter(numberText(handicap.value), 'x')
    ensures r.Minus? ==> r.amount == NumberAfter(handicap.value, '-')
  {
    if handicap.None? || handicap.value == "" then Zero
    else
      var lower := Lower(handicap.value);
      if lower == "be" then Identity
      else if 'x' in lower then Times(NumberAfter(numberText(handicap.value), 'x'))
      else if '-' in lower then Minus(NumberAfter(handicap.value, '-'))
      else Zero
  }

  function Unchanged(s: string): string { s }

  function Lowered(s: string): string { Lower(s) }

  /**
   * `getBe` as written: the tests run on the lower-cased handicap, but the
   * number is read by splitting the handicap as given at a lower-case `x`.
   */
  function BeOfAsWritten(handicap: Option<string>): BeRule
  {
    BeRuleFrom(handicap, Unchanged)
  }

  /** `getBe` as intended: the number after the `x` is read whatever the case of the `x`. */
  function BeOf(handicap: Option<string>): BeRule
  {
    BeRuleFrom(handicap, Lowered)
  }

  /** The correction changes nothing for a handicap written without capitals. */
  lemma CorrectionKeepsLowerCase(h: string)
    requires Lower(h) == h
    ensures BeOf(Some(h)) == BeOfAsWritten(Some(h))
  {
    assert Lowered(h) == Unchanged(h);
  }

  /** The correction changes only multipliers: both readings pick the same kind of rule, and the same rule unless it multiplies. */
  lemma CorrectionOnlyTouchesTimes(handicap: Option<string>)
    ensures BeOf(handicap).Times? <==> BeOfAsWritten(handicap).Times?
    ensures !BeOf(handicap).Times? ==> BeOf(handicap) == BeOfAsWritten(handicap)
  {
  }

  /** No handicap, or an empty one, counts for nothing. */
  lemma MissingHandicapIsZero(handicap: Option<string>, b: int)
    requires handicap.None? || handicap.value == ""
    ensures ApplyBe(BeOf(handicap), b) == 0
  {
  }

  /** A reduced handicap never goes below zero and never above the BE it starts from. */
  lemma MinusRuleBounds(n: int, b: int)
    requires n >= 0
    ensures 0 <= ApplyBe(Minus(n), b)
    ensures b >= 0 ==> ApplyBe(Minus(n), b) <= b
    ensures b >= n ==> ApplyBe(Minus(n), b) == b - n
  {
  }

  lemma LowerOfDigitsTail(p: string, d: string)
    requires AllDigits(d)
    ensures Lower(p + d) == Lower(p) + d
  {
    var r := Lower(p) + d;
    forall i | 0 <= i < |p + d| ensures r[i] == LowerChar((p + d)[i]) {
      if i >= |p| { assert IsDigit(d[i - |p|]); }
    }
    LowerPointwise(r, p + d);
  }

  /** A separator followed by one non-empty piece without it: Java's split gives the two pieces. */
  lemma SplitTwo(a: string, d: string, sep: char)
    requires sep !in a && sep !in d && d != ""
    ensures JavaSplit(a + [sep] + d, sep) == [a, d]
  {
    JsSplitFirst(a, d, sep);
    assert (a + [sep] + d)[|a|] == sep;
    assert DropTrailingEmpty([a, d]) == [a, d];
  }

  lemma NoLetterInDigits(d: string, c: char)
    requires AllDigits(d) && !IsDigit(c)
    ensures c !in d
  {
    forall i | 0 <= i < |d| ensures d[i] != c { assert IsDigit(d[i]); }
  }

  lemma JavaParseIntOfNat(n: nat)
    requires n <= IntMax
    ensures JavaParseInt(NatToString(n)) == Some(n)
  {
    var d := NatToString(n);
    DigitsValueOfNatToString(n);
    assert IsDigit(d[0]);
  }

  /** The number after the separator is read when the second piece is a decimal in range. */
  lemma NumberAfterDecimal(t: string, sep: char, a: string, n: nat)
    requires n <= IntMax && JavaSplit(t, sep) == [a, NatToString(n)]
    ensures NumberAfter(t, sep) == n
  {
    JavaParseIntOfNat(n);
  }

  /** A handicap with an `x` in it, other than `"be"`, multiplies by the number after the `x`. */
  lemma TimesRule(h: string, n: int)
    requires h != "" && Lower(h) != "be" && 'x' in Lower(h) && NumberAfter(Lower(h), 'x') == n
    ensures BeOf(Some(h)) == Times(n)
  {
    assert Lowered(h) == Lower(h);
  }

  /** The multiplier written after the `x` counts, in either case of the `x`. */
  lemma MultiplierIsRead(n: nat, capital: bool)
    requires n <= IntMax
    ensures BeOf(Some((if capital then "BEX" else "BEx") + NatToString(n))) == Times(n)
  {
    var d := NatToString(n);
    var p := if capital then "BEX" else "BEx";
    LowerOfDigitsTail(p, d);
    assert Lower(p) == "bex";
    var lower := Lower(p + d);
    assert lower == "be" + ['x'] + d;
    assert lower[2] == 'x' && |lower| >= 3;
    NoLetterInDigits(d, 'x');
    SplitTwo("be", d, 'x');
    NumberAfterDecimal(lower, 'x', "be", n);
    TimesRule(p + d, n);
  }

  lemma TimesRuleAsWritten(h: string, n: int)
    requires h != "" && Lower(h) != "be" && 'x' in Lower(h) && NumberAfter(h, 'x') == n
    ensures BeOfAsWritten(Some(h)) == Times(n)
  {
    assert Unchanged(h) == h;
  }

  /** As written, `"BEX3"` is read with the default multiplier 2. */
  lemma CapitalXLosesMultiplier()
    ensures BeOfAsWritten(Some("BEX3")) == Times(2)
  {
    var upper := "BEX3";
    var lower := Lower(upper);
    assert lower == "bex3" by { LowerPointwise("bex3", upper); }
    assert lower[2] == 'x';
    assert 'x' !in upper;
    assert NumberAfter(upper, 'x') == 2;
    TimesRuleAsWritten(upper, 2);
  }

  /** As written, a lower-case `x` is read: `"BEx3"` multiplies by 3. */
  lemma LowerXKeepsMultiplier()
    ensures BeOfAsWritten(Some("BEx3")) == Times(3)
  {
    var mixed := "BEx3";
    assert Lower(mixed) == "bex3" by { LowerPointwise("bex3", mixed); }
    assert Lower(mixed)[2] == 'x';
    assert mixed == "BE" + ['x'] + "3";
    assert NatToString(3) == "3";
    SplitTwo("BE", "3", 'x');
    NumberAfterDecimal(mixed, 'x', "BE", 3);
    TimesRuleAsWritten(mixed, 3);
  }

  /** Read as intended, `"BEX3"` multiplies by 3. */
  lemma CapitalXMultiplierRead()
    ensures BeOf(Some("BEX3")) == Times(3)
  {
    var lower := Lower("BEX3");
    assert lower == "bex3" by { LowerPointwise("bex3", "BEX3"); }
    assert lower[2] == 'x';
    assert lower == "be" + ['x'] + "3";
    assert NatToString(3) == "3";
    SplitTwo("be", "3", 'x');
    NumberAfterDecimal(lower, 'x', "be", 3);
    TimesRule("BEX3", 3);
  }

  // ---------------------------------------------------------------- the ability

  class Ability {
    var name: string
    var check: Option<string>
    var value: int
    var propOne: PropertyName
    var propTwo: PropertyName
    var propThree: PropertyName
    var handicap: Option<string>
    /** The cached `be` function, `null` until `getBe` builds it. */
    var be: Option<BeRule>

    /** The cache, when filled, holds the rule of the current handicap. */
    ghost predicate Valid()
      reads this
    {
      be.Some? ==> be.value == BeOf(handicap)
    }

    /** The three properties the check string names, each `NONE` when it names none. */
    predicate ChecksProperties(c: Option<string>)
      reads this
    {
      var parts := ParseCheckString(c);
      propOne == Resolve(parts[0]) && propTwo == Resolve(parts[1]) && propThree == Resolve(parts[2])
    }

    constructor(name: string, check: Option<string>, value: int)
      ensures Valid()
      ensures this.name == name && this.check == check && this.value == value
      ensures ChecksProperties(check)
      ensures handicap.None? && be.None?
    {
      this.name := name;
      this.check := check;
      var checks := ParseCheckString(check);
      propOne := Resolve(checks[0]);
      propTwo := Resolve(checks[1]);
      propThree := Resolve(checks[2]);
      this.value := value;
      handicap := None;
      be := None;
    }

    method SetCheck(check: Option<string>)
      requires Valid()
      modifies this
      ensures Valid()
      ensures this.check == check && ChecksProperties(check)
      ensures name == old(name) && value == old(value) && handicap == old(handicap) && be == old(be)
    {
      this.check := check;
      var checks := ParseCheckString(check);
      propOne := Resolve(checks[0]);
      propTwo := Resolve(checks[1]);
      propThree := Resolve(checks[2]);
    }

    /** `setHandicap`: a new handicap and an empty cache. */
    method SetHandicap(handicap: Option<string>)
      modifies this
      ensures Valid()
      ensures this.handicap == handicap && be.None?
      ensures name == old(name) && check == old(check) && value == old(value)
      ensures propOne == old(propOne) && propTwo == old(propTwo) && propThree == old(propThree)
    {
      this.handicap := handicap;
      be := None;
    }

    /** `getProp`: the n-th checked property, `null` outside 0..2. */
    function GetProp(n: int): (r: Option<PropertyName>)
      reads this
      ensures r.None? <==> !(0 <= n < 3)
      ensures n == 0 ==> r == Some(propOne)
      ensures n == 1 ==> r == Some(propTwo)
      ensures n == 2 ==> r == Some(propThree)
    {
      if n == 0 then Some(propOne) else if n == 1 then Some(propTwo) else if n == 2 then Some(propThree) else None
    }

    /** `getBe`: the rule of the current handicap, built once and cached. */
    method GetBe() returns (rule: BeRule)
      requires Valid()
      modifies this
      ensures Valid()
      ensures rule == BeOf(handicap) && be == Some(rule)
      ensures handicap == old(handicap) && name == old(name) && check == old(check) && value == old(value)
      ensures propOne == old(propOne) && propTwo == old(propTwo) && propThree == old(propThree)
    {
      if be.None? {
        var built: BeRule;
        if handicap.Some? && handicap.value != "" {
          var lower := Lower(handicap.value);
          if lower == "be" {
            built := Identity;
          } else if 'x' in lower {
            built := Times(NumberAfter(lower, 'x'));
          } else if '-' in lower {
            built := Minus(NumberAfter(handicap.value, '-'));
          } else {
            built := Zero;
          }
        } else {
          built := Zero;
        }
        be := Some(built);
      }
      rule := be.value;
    }
  }
}
