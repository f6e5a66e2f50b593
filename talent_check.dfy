/**
 * The talent check of the game-session page (`rollTalentCheck` of
 * `GameSessionDetailComponent`): the selected talent's check string names
 * three properties, three d20 rolls are held against them, and the points
 * left over are reported in the chat. The component's fields become the
 * fields of a class; the chat is the list of messages sent, and the three
 * rolls are parameters.
 */
module TalentChecks {
  import opened Common
  import opened Text

  /** A talent of the character as the page holds it: `id` may be missing, `check` may be missing. */
  datatype SessionTalent = SessionTalent(id: Option<int>, name: string, check: Option<string>, value: int)

  datatype SessionProperty = SessionProperty(name: string, value: int)

  /** The parts of the page's `Character` that a talent check reads. */
  datatype SessionCharacter = SessionCharacter(
    name: string,
    talents: seq<SessionTalent>,
    properties: Option<seq<SessionProperty>>,
    wounds: Option<int>)

  /** JavaScript truthiness of a `number | null` field: neither null nor 0. */
  predicate Truthy(n: Option<int>)
  {
    n.Some? && n.value != 0
  }

  function OrZero(n: Option<int>): int
  {
    if n.Some? then n.value else 0
  }

  // ---------------------------------------------------------------- counting a character

  function CountChar(s: string, c: char): nat
  {
    if s == [] then 0 else (if s[0] == c then 1 else 0) + CountChar(s[1..], c)
  }

  lemma {:induction false} CountAppend(a: string, b: string, c: char)
    ensures CountChar(a + b, c) == CountChar(a, c) + CountChar(b, c)
  {
    if a == [] {
      assert a + b == b;
    } else {
      CountAppend(a[1..], b, c);
      assert (a + b)[1..] == a[1..] + b;
    }
  }

  lemma {:induction false} CountAbsent(s: string, c: char)
    requires c !in s
    ensures CountChar(s, c) == 0
  {
    if s != [] {
      CountAbsent(s[1..], c);
    }
  }

  /** Removing every `c` keeps the number of any other character `d`. */
  lemma {:induction false} CountAfterRemoval(s: string, c: char, d: char)
    requires c != d
    ensures CountChar(ReplaceChar(s, c, ""), d) == CountChar(s, d)
  {
    if s != [] {
      CountAfterRemoval(s[1..], c, d);
      var head := if s[0] == c then "" else [s[0]];
      CountAppend(head, ReplaceChar(s[1..], c, ""), d);
    }
  }

  /** Dropping a prefix of characters other than `c` keeps the number of `c`. */
  lemma DropPrefixKeepsCount(s: string, k: nat, c: char)
    requires k <= |s| && forall i :: 0 <= i < k ==> s[i] != c
    ensures CountChar(s[k..], c) == CountChar(s, c)
  {
    assert s == s[..k] + s[k..];
    CountAppend(s[..k], s[k..], c);
    CountAbsent(s[..k], c);
  }

  /** Dropping a suffix of characters other than `c` keeps the number of `c`. */
  lemma DropSuffixKeepsCount(s: string, k: nat, c: char)
    requires k <= |s| && forall i :: k <= i < |s| ==> s[i] != c
    ensures CountChar(s[..k], c) == CountChar(s, c)
  {
    assert s == s[..k] + s[k..];
    CountAppend(s[..k], s[k..], c);
    CountAbsent(s[k..], c);
  }

  /** Trimming removes only characters the trim drops. */
  lemma TrimKeepsCount(s: string, drop: char -> bool, c: char)
    requires !drop(c)
    ensures CountChar(TrimRight(TrimLeft(s, drop), drop), c) == CountChar(s, c)
  {
    var l := TrimLeft(s, drop);
    DropPrefixKeepsCount(s, |s| - |l|, c);
    var r := TrimRight(l, drop);
    DropSuffixKeepsCount(l, |r|, c);
  }

  /** The first position of `c` in `s`. */
  function FirstPosition(s: string, c: char): (r: nat)
    requires c in s
    ensures r < |s| && s[r] == c && c !in s[..r]
  {
    if s[0] == c then 0 else FirstPosition(s[1..], c) + 1
  }

  /** A first separator adds one to the number of separators. */
  lemma CountAtFirstSeparator(a: string, rest: string, c: char)
    requires c !in a
    ensures CountChar(a + [c] + rest, c) == CountChar(rest, c) + 1
  {
    CountAppend(a, [c] + rest, c);
    CountAppend([c], rest, c);
    CountAbsent(a, c);
    assert a + [c] + rest == a + ([c] + rest);
  }

  /** `split(c)` gives one piece more than there are separators. */
  lemma {:induction false} SplitCount(s: string, c: char)
    ensures |JsSplit(s, c)| == CountChar(s, c) + 1
    decreases |s|
  {
    if c !in s {
      CountAbsent(s, c);
    } else {
      var i := FirstPosition(s, c);
      var a, rest := s[..i], s[i + 1..];
      assert s == a + [c] + rest;
      JsSplitFirst(a, rest, c);
      CountAtFirstSeparator(a, rest, c);
      SplitCount(rest, c);
    }
  }

  // ---------------------------------------------------------------- the check string

  /** `checkStr.replace(/[()]/g, '')`: every parenthesis removed. */
  function StripParentheses(s: string): (r: string)
    ensures '(' !in r && ')' !in r
    ensures CountChar(r, '/') == CountChar(s, '/')
  {
    CountAfterRemoval(s, '(', '/');
    CountAfterRemoval(ReplaceChar(s, '(', ""), ')', '/');
    ReplaceCharKeepsOthers(ReplaceChar(s, '(', ""), ')', "", '(');
    ReplaceChar(ReplaceChar(s, '(', ""), ')', "")
  }

  /** `.map(p => p.trim())`. */
  function TrimEach(parts: seq<string>): (r: seq<string>)
    ensures |r| == |parts|
    ensures forall k :: 0 <= k < |parts| ==> r[k] == JsTrim(parts[k])
  {
    if parts == [] then [] else [JsTrim(parts[0])] + TrimEach(parts[1..])
  }

  /** The property abbreviations of a check: `(talent.check || '')` without parentheses, trimmed, split at `/`, each piece trimmed. */
  function CheckParts(check: Option<string>): (r: seq<string>)
    ensures |r| >= 1
  {
    var checkStr := if check.Some? then check.value else "";
    TrimEach(JsSplit(JsTrim(StripParentheses(checkStr)), '/'))
  }

  /** A check names three properties exactly when it holds two slashes; parentheses and white space do not count. */
  lemma ThreePartsIffTwoSlashes(check: Option<string>)
    ensures |CheckParts(check)| == 3 <==> CountChar(if check.Some? then check.value else "", '/') == 2
  {
    var checkStr := if check.Some? then check.value else "";
    var stripped := StripParentheses(checkStr);
    TrimKeepsCount(stripped, JsWhitespace, '/');
    SplitCount(JsTrim(stripped), '/');
  }

  /** A talent without a check string yields one empty part, so it is reported as malformed. */
  lemma MissingCheckIsOnePart()
    ensures CheckParts(None) == [""]
  {
    assert StripParentheses("") == "";
    assert JsTrim("") == "";
    assert JsSplit("", '/') == [""];
  }

  // ---------------------------------------------------------------- the property lookup

  /** `propertyMap[key] || [key]`: the names a property abbreviation may stand for. */
  function PossibleNames(key: string): (r: seq<string>)
    ensures |r| >= 1 && key in r
  {
    if key == "MU" then ["Mut", "Courage", "MU"]
    else if key == "KL" then ["Klugheit", "Wisdom", "KL"]
    else if key == "IN" then ["Intuition", "IN"]
    else if key == "CH" then ["Charisma", "CH"]
    else if key == "FF" then ["Fingerfertigkeit", "Dexterity", "FF"]
    else if key == "GE" then ["Gewandtheit", "Agility", "GE"]
    else if key == "KO" then ["Konstitution", "Constitution", "KO"]
    else if key == "KK" then ["K\U{F6}rperkraft", "Strength", "KK"]
    else if key == "MR" then ["Magieresistenz", "Magic Resistance", "MR"]
    else if key == "LEP" then ["Lebensenergie", "Life", "LEP"]
    else if key == "AUP" then ["Ausdauer", "Endurance", "AUP"]
    else if key == "ASP" then ["Astralenergie", "Magic Energy", "ASP"]
    else if key == "KE" then ["Karmaenergie", "Karma", "KE"]
    else if key == "SO" then ["Sozialstatus", "Social Standing", "SO"]
    else [key]
  }

  /** `abbr.toUpperCase().trim()`. */
  function LookupKey(abbr: string): string
  {
    JsTrim(Upper(abbr))
  }

  /** One possible name against the upper-cased property name: equal to it, a prefix of it, or inside it. */
  predicate LooseMatch(upperName: string, name: string)
  {
    upperName == Upper(name) || StartsWith(upperName, Upper(name)) || Contains(upperName, Upper(name))
  }

  /** `possibleNames.some(...)` with the loose test. */
  predicate SomeLooseMatch(upperName: string, names: seq<string>)
  {
    names != [] && (LooseMatch(upperName, names[0]) || SomeLooseMatch(upperName, names[1..]))
  }

  /** `possibleNames.some(...)` with equality only. */
  predicate SomeEqual(upperName: string, names: seq<string>)
  {
    names != [] && (upperName == Upper(names[0]) || SomeEqual(upperName, names[1..]))
  }

  /** The test inside `find`: the upper-cased property name equals, starts with or contains an upper-cased possible name. */
  predicate NameMatches(propName: string, names: seq<string>)
  {
    SomeLooseMatch(Upper(propName), names)
  }

  /** The test of the corrected lookup: the upper-cased property name is one of the upper-cased possible names. */
  predicate NameIs(propName: string, names: seq<string>)
  {
    SomeEqual(Upper(propName), names)
  }

  /** The index of the first property whose name matches, as `Array.find` picks it. */
  function FirstMatch(props: seq<SessionProperty>, names: seq<string>): (r: Option<nat>)
    ensures r.Some? ==> r.value < |props| && NameMatches(props[r.value].name, names)
    ensures r.Some? ==> forall j :: 0 <= j < r.value ==> !NameMatches(props[j].name, names)
    ensures r.None? ==> forall j :: 0 <= j < |props| ==> !NameMatches(props[j].name, names)
  {
    if props == [] then None
    else if NameMatches(props[0].name, names) then Some(0)
    else
      var rest := FirstMatch(props[1..], names);
      if rest.Some? then Some(rest.value + 1) else None
  }

  /** The index of the first property whose name is exactly one of the possible names. */
  function FirstExact(props: seq<SessionProperty>, names: seq<string>): (r: Option<nat>)
    ensures r.Some? ==> r.value < |props| && NameIs(props[r.value].name, names)
    ensures r.Some? ==> forall j :: 0 <= j < r.value ==> !NameIs(props[j].name, names)
    ensures r.None? ==> forall j :: 0 <= j < |props| ==> !NameIs(props[j].name, names)
  {
    if props == [] then None
    else if NameIs(props[0].name, names) then Some(0)
    else
      var rest := FirstExact(props[1..], names);
      if rest.Some? then Some(rest.value + 1) else None
  }

  /** `getPropertyValue` as written: the value of the first property that matches loosely, 0 when none does. */
  function PropertyValueAsWritten(props: seq<SessionProperty>, abbr: string): int
  {
    var found := FirstMatch(props, PossibleNames(LookupKey(abbr)));
    if found.Some? then props[found.value].value else 0
  }

  /**
   * The corrected `getPropertyValue`: a property named exactly by one of the
   * possible names wins over a loose match; otherwise the loose match as written.
   */
  function PropertyValue(props: seq<SessionProperty>, abbr: string): int
  {
    var names := PossibleNames(LookupKey(abbr));
    var exact := FirstExact(props, names);
    if exact.Some? then props[exact.value].value else PropertyValueAsWritten(props, abbr)
  }

  /** An exact name never fails the loose test, so the corrected lookup only reorders the same candidates. */
  lemma ExactIsAMatch(propName: string, names: seq<string>)
    requires NameIs(propName, names)
    ensures NameMatches(propName, names)
  {
    EqualIsLoose(Upper(propName), names);
  }

  lemma {:induction false} EqualIsLoose(upperName: string, names: seq<string>)
    requires SomeEqual(upperName, names)
    ensures SomeLooseMatch(upperName, names)
  {
    if upperName != Upper(names[0]) {
      EqualIsLoose(upperName, names[1..]);
    }
  }

  /** The corrected lookup reads the first property named exactly by the abbreviation, when there is one. */
  lemma CorrectedReadsExactName(props: seq<SessionProperty>, abbr: string, i: nat)
    requires i < |props| && NameIs(props[i].name, PossibleNames(LookupKey(abbr)))
    requires forall j :: 0 <= j < i ==> !NameIs(props[j].name, PossibleNames(LookupKey(abbr)))
    ensures PropertyValue(props, abbr) == props[i].value
  {
    var exact := FirstExact(props, PossibleNames(LookupKey(abbr)));
    assert exact.Some?;
    assert exact.value == i;
  }

  /** Where no property is named exactly, both lookups agree. */
  lemma CorrectedAgreesWithoutExactName(props: seq<SessionProperty>, abbr: string)
    requires forall j :: 0 <= j < |props| ==> !NameIs(props[j].name, PossibleNames(LookupKey(abbr)))
    ensures PropertyValue(props, abbr) == PropertyValueAsWritten(props, abbr)
  {
  }

  lemma UpperPointwise(r: string, s: string)
    requires |r| == |s| && forall i :: 0 <= i < |s| ==> r[i] == UpperChar(s[i])
    ensures r == Upper(s)
  {
  }

  /** The abbreviation `GE` is already upper case and trimmed, and stands for Gewandtheit. */
  lemma AgilityNames()
    ensures LookupKey("GE") == "GE"
    ensures PossibleNames("GE") == ["Gewandtheit", "Agility", "GE"]
  {
    UpperPointwise("GE", "GE");
    TrimKeeps("GE", JsWhitespace);
  }

  /** A property name that holds one of the possible names somewhere matches. */
  lemma HoldingNameMatches(propName: string, names: seq<string>, k: nat, at: nat)
    requires k < |names| && MatchesAt(Upper(propName), Upper(names[k]), at)
    ensures NameMatches(propName, names)
  {
    ContainsMeans(Upper(propName), Upper(names[k]));
    HoldingSomeName(Upper(propName), names, k);
  }

  lemma {:induction false} HoldingSomeName(upperName: string, names: seq<string>, k: nat)
    requires k < |names| && LooseMatch(upperName, names[k])
    ensures SomeLooseMatch(upperName, names)
  {
    if k > 0 {
      HoldingSomeName(upperName, names[1..], k - 1);
    }
  }

  lemma UpperAgilityKey()
    ensures Upper("GE") == "GE"
  {
    UpperPointwise("GE", "GE");
  }

  /** A name with "ge" at index 3, such as "Fingerfertigkeit", holds "GE" there once upper-cased. */
  lemma HoldsAgilityKey(name: string)
    requires |name| >= 5 && name[3] == 'g' && name[4] == 'e'
    ensures MatchesAt(Upper(name), "GE", 3)
  {
    var upper := Upper(name);
    assert upper[3..5] == [upper[3], upper[4]];
  }

  lemma DexterityMatchesAgility()
    ensures NameMatches("Fingerfertigkeit", ["Gewandtheit", "Agility", "GE"])
  {
    var names := ["Gewandtheit", "Agility", "GE"];
    UpperAgilityKey();
    HoldsAgilityKey("Fingerfertigkeit");
    assert MatchesAt(Upper("Fingerfertigkeit"), Upper(names[2]), 3);
    HoldingNameMatches("Fingerfertigkeit", names, 2, 3);
  }

  /** A name of a length none of the possible names has is none of them. */
  lemma NameOfOtherLength(propName: string, names: seq<string>)
    requires forall k :: 0 <= k < |names| ==> |names[k]| != |propName|
    ensures !NameIs(propName, names)
  {
    NoneOfOtherLength(Upper(propName), names);
  }

  lemma {:induction false} NoneOfOtherLength(upperName: string, names: seq<string>)
    requires forall k :: 0 <= k < |names| ==> |names[k]| != |upperName|
    ensures !SomeEqual(upperName, names)
  {
    if names != [] {
      NoneOfOtherLength(upperName, names[1..]);
    }
  }

  /** "Fingerfertigkeit" is none of Gewandtheit's names; "Gewandtheit" is the first of them. */
  lemma DexterityIsNotAgility()
    ensures !NameIs("Fingerfertigkeit", ["Gewandtheit", "Agility", "GE"])
    ensures NameIs("Gewandtheit", ["Gewandtheit", "Agility", "GE"])
  {
    var names := ["Gewandtheit", "Agility", "GE"];
    var dexterity := "Fingerfertigkeit";
    assert |dexterity| == 16;
    assert |names[0]| == 11 && |names[1]| == 7 && |names[2]| == 2;
    NameOfOtherLength(dexterity, names);
    assert Upper("Gewandtheit") == Upper(names[0]);
  }

  /**
   * As written, a GE check on a character whose properties list
   * Fingerfertigkeit before Gewandtheit reads the Fingerfertigkeit value:
   * "FINGERFERTIGKEIT" contains "GE".
   */
  lemma AgilityReadsDexterity()
    ensures PropertyValueAsWritten([SessionProperty("Fingerfertigkeit", 12), SessionProperty("Gewandtheit", 15)], "GE") == 12
  {
    AgilityNames();
    DexterityMatchesAgility();
  }

  /** Of two properties, the corrected lookup reads the second when only its name is exact. */
  lemma CorrectedReadsSecond(first: SessionProperty, second: SessionProperty, abbr: string)
    requires !NameIs(first.name, PossibleNames(LookupKey(abbr)))
    requires NameIs(second.name, PossibleNames(LookupKey(abbr)))
    ensures PropertyValue([first, second], abbr) == second.value
  {
    CorrectedReadsExactName([first, second], abbr, 1);
  }

  /** The corrected lookup reads Gewandtheit for the same character. */
  lemma AgilityReadsAgility()
    ensures PropertyValue([SessionProperty("Fingerfertigkeit", 12), SessionProperty("Gewandtheit", 15)], "GE") == 15
  {
    AgilityNames();
    DexterityIsNotAgility();
    CorrectedReadsSecond(SessionProperty("Fingerfertigkeit", 12), SessionProperty("Gewandtheit", 15), "GE");
  }

  // ---------------------------------------------------------------- the result

  /** `accumulatedMod`: the modifier plus two points per wound. */
  function AccumulatedMod(mod: int, wounds: Option<int>): int
  {
    mod + OrZero(wounds) * 2
  }

  /** `diff`: how far the modifier exceeds the talent value, 0 when it does not. */
  function Diff(totalMod: int): (r: nat)
    ensures r > 0 <==> totalMod < 0
    ensures totalMod < 0 ==> Max(totalMod, 0) == 0
  {
    if totalMod < 0 then -totalMod else 0
  }

  /** How many points one roll costs: the amount by which it exceeds the property value less `diff`. */
  function Cost(prop: int, diff: int, roll: int): (r: int)
    ensures r <= 0
    ensures r == 0 <==> roll <= prop - diff
  {
    Min(prop - diff - roll, 0)
  }

  /** The points left over, before the cap: `max(totalMod, 0)` less the cost of each roll. */
  function Uncapped(value: int, acc: int, props: seq<int>, rolls: seq<int>): int
    requires |props| == 3 && |rolls| == 3
  {
    var totalMod := value - acc;
    var diff := Diff(totalMod);
    Max(totalMod, 0) + Cost(props[0], diff, rolls[0]) + Cost(props[1], diff, rolls[1]) + Cost(props[2], diff, rolls[2])
  }

  /** The reported result: the points left over, never more than the talent value. */
  function TalentResult(value: int, acc: int, props: seq<int>, rolls: seq<int>): (r: int)
    requires |props| == 3 && |rolls| == 3
    ensures r <= value
    ensures r <= Uncapped(value, acc, props, rolls)
    ensures r == value || r == Uncapped(value, acc, props, rolls)
  {
    Min(Uncapped(value, acc, props, rolls), value)
  }

  /** Rolls that all stay within their property (less `diff`) leave the starting points, capped at the value. */
  lemma RollsWithinKeepPoints(value: int, acc: int, props: seq<int>, rolls: seq<int>)
    requires |props| == 3 && |rolls| == 3
    requires forall k :: 0 <= k < 3 ==> rolls[k] <= props[k] - Diff(value - acc)
    ensures TalentResult(value, acc, props, rolls) == Min(Max(value - acc, 0), value)
  {
  }

  /** A higher roll never improves the result. */
  lemma HigherRollNoBetter(value: int, acc: int, props: seq<int>, rolls: seq<int>, worse: seq<int>)
    requires |props| == 3 && |rolls| == 3 && |worse| == 3
    requires forall k :: 0 <= k < 3 ==> rolls[k] <= worse[k]
    ensures TalentResult(value, acc, props, worse) <= TalentResult(value, acc, props, rolls)
  {
  }

  /** A higher property value never worsens the result. */
  lemma HigherPropertyNoWorse(value: int, acc: int, props: seq<int>, better: seq<int>, rolls: seq<int>)
    requires |props| == 3 && |better| == 3 && |rolls| == 3
    requires forall k :: 0 <= k < 3 ==> props[k] <= better[k]
    ensures TalentResult(value, acc, props, rolls) <= TalentResult(value, acc, better, rolls)
  {
  }

  /** A larger modifier never improves the result. */
  lemma LargerModifierNoBetter(value: int, acc: int, harder: int, props: seq<int>, rolls: seq<int>)
    requires |props| == 3 && |rolls| == 3 && acc <= harder
    ensures TalentResult(value, harder, props, rolls) <= TalentResult(value, acc, props, rolls)
  {
  }

  // ---------------------------------------------------------------- the messages

  /** `${talent.check}`: a missing check prints as "undefined". */
  function CheckText(check: Option<string>): string
  {
    if check.Some? then check.value else "undefined"
  }

  function NotFoundMessage(id: int): string
  {
    "\U{274C} Talent not found (ID: " + IntToString(id) + ")"
  }

  function InvalidFormatMessage(check: Option<string>, parts: nat): string
  {
    "\U{274C} Invalid talent check format: " + CheckText(check) + " (expected 3 properties, got " + IntToString(parts) + ")"
  }

  const NotLoadedMessage := "\U{274C} Character properties not loaded"

  /** `modStr`: nothing for no modifier, otherwise the modifier with its sign. */
  function ModifierText(acc: int): (r: string)
    ensures r == "" <==> acc == 0
    ensures acc > 0 ==> r == "+" + IntToString(acc)
    ensures acc < 0 ==> r == IntToString(acc)
  {
    if acc == 0 then "" else if acc < 0 then IntToString(acc) else "+" + IntToString(acc)
  }

  /** `HeroName 🎲 TalentName (roll1|roll2|roll3)modStr = result`. */
  function RollMessage(heroName: string, talentName: string, rolls: seq<int>, acc: int, result: int): string
    requires |rolls| == 3
  {
    heroName + " \U{1F3B2} " + talentName
      + " (" + IntToString(rolls[0]) + "|" + IntToString(rolls[1]) + "|" + IntToString(rolls[2]) + ")"
      + ModifierText(acc) + " = " + IntToString(result)
  }

  // ---------------------------------------------------------------- the whole check

  /** The index of the first talent whose id is `id`. */
  function FindTalent(talents: seq<SessionTalent>, id: int): (r: Option<nat>)
    ensures r.Some? ==> r.value < |talents| && talents[r.value].id == Some(id)
    ensures r.Some? ==> forall j :: 0 <= j < r.value ==> talents[j].id != Some(id)
    ensures r.None? ==> forall j :: 0 <= j < |talents| ==> talents[j].id != Some(id)
  {
    if talents == [] then None
    else if talents[0].id == Some(id) then Some(0)
    else
      var rest := FindTalent(talents[1..], id);
      if rest.Some? then Some(rest.value + 1) else None
  }

  /** The first talent with the id is found. */
  lemma FindTalentAt(talents: seq<SessionTalent>, id: int, i: nat)
    requires i < |talents| && talents[i].id == Some(id)
    requires forall j :: 0 <= j < i ==> talents[j].id != Some(id)
    ensures FindTalent(talents, id) == Some(i)
  {
  }

  /** What makes `rollTalentCheck` go past its silent early returns. */
  predicate Ready(sessionId: Option<int>, chatAvailable: bool, character: Option<SessionCharacter>, selected: Option<int>)
  {
    Truthy(sessionId) && chatAvailable && character.Some? && Truthy(selected)
  }

  /** The three property values a well-formed check reads. */
  function CheckValues(ps: seq<SessionProperty>, parts: seq<string>): (r: seq<int>)
    requires |parts| == 3
    ensures |r| == 3
  {
    [PropertyValue(ps, parts[0]), PropertyValue(ps, parts[1]), PropertyValue(ps, parts[2])]
  }

  /** The message for a talent that was found: a malformed check, missing properties, or the roll. */
  function TalentReport(c: SessionCharacter, talent: SessionTalent, mod: int, rolls: seq<int>): string
    requires |rolls| == 3
  {
    var parts := CheckParts(talent.check);
    if |parts| != 3 then InvalidFormatMessage(talent.check, |parts|)
    else if c.properties.None? || c.properties.value == [] then NotLoadedMessage
    else
      var acc := AccumulatedMod(mod, c.wounds);
      RollMessage(c.name, talent.name, rolls, acc, TalentResult(talent.value, acc, CheckValues(c.properties.value, parts), rolls))
  }

  /** The message of one roll-talent request once past the early returns: an error or the roll. */
  function Report(c: SessionCharacter, id: int, mod: int, rolls: seq<int>): string
    requires |rolls| == 3
  {
    var found := FindTalent(c.talents, id);
    if found.None? then NotFoundMessage(id) else TalentReport(c, c.talents[found.value], mod, rolls)
  }

  /**
   * `rollTalentCheck(mod)`: nothing when a requirement is missing; otherwise
   * the one message sent to the chat.
   */
  function TalentCheck(sessionId: Option<int>, chatAvailable: bool, character: Option<SessionCharacter>,
                       selected: Option<int>, mod: int, rolls: seq<int>): (r: Option<string>)
    requires |rolls| == 3
    ensures r.Some? <==> Ready(sessionId, chatAvailable, character, selected)
  {
    if Ready(sessionId, chatAvailable, character, selected)
    then Some(Report(character.value, selected.value, mod, rolls))
    else None
  }

  /** A talent the character does not have is reported by its id. */
  lemma UnknownTalentReported(c: SessionCharacter, id: int, mod: int, rolls: seq<int>)
    requires |rolls| == 3
    requires forall j :: 0 <= j < |c.talents| ==> c.talents[j].id != Some(id)
    ensures Report(c, id, mod, rolls) == NotFoundMessage(id)
  {
  }

  /** A check that does not split into three properties is reported, and nothing is rolled. */
  lemma MalformedCheckReported(c: SessionCharacter, id: int, mod: int, rolls: seq<int>, i: nat)
    requires |rolls| == 3
    requires i < |c.talents| && c.talents[i].id == Some(id)
    requires forall j :: 0 <= j < i ==> c.talents[j].id != Some(id)
    requires |CheckParts(c.talents[i].check)| != 3
    ensures Report(c, id, mod, rolls) == InvalidFormatMessage(c.talents[i].check, |CheckParts(c.talents[i].check)|)
  {
    FindTalentAt(c.talents, id, i);
  }

  /** A character without properties is reported once the check is well formed. */
  lemma MissingPropertiesReported(c: SessionCharacter, id: int, mod: int, rolls: seq<int>, i: nat)
    requires |rolls| == 3
    requires i < |c.talents| && c.talents[i].id == Some(id)
    requires forall j :: 0 <= j < i ==> c.talents[j].id != Some(id)
    requires |CheckParts(c.talents[i].check)| == 3
    requires c.properties.None? || c.properties.value == []
    ensures Report(c, id, mod, rolls) == NotLoadedMessage
  {
    FindTalentAt(c.talents, id, i);
  }

  /** With a well-formed check and loaded properties the rolls are reported with their result. */
  lemma RollReported(c: SessionCharacter, id: int, mod: int, rolls: seq<int>, i: nat)
    requires |rolls| == 3
    requires i < |c.talents| && c.talents[i].id == Some(id)
    requires forall j :: 0 <= j < i ==> c.talents[j].id != Some(id)
    requires |CheckParts(c.talents[i].check)| == 3
    requires c.properties.Some? && c.properties.value != []
    ensures var acc := AccumulatedMod(mod, c.wounds);
      Report(c, id, mod, rolls) == RollMessage(c.name, c.talents[i].name, rolls, acc,
        TalentResult(c.talents[i].value, acc, CheckValues(c.properties.value, CheckParts(c.talents[i].check)), rolls))
  {
    FindTalentAt(c.talents, id, i);
  }

  /**
   * The arithmetic of `rollTalentCheck`, step by step: start from the points
   * the modifier leaves, subtract what each roll costs, cap at the value.
   */
  method ComputeResult(value: int, accumulatedMod: int, prop1Value: int, prop2Value: int, prop3Value: int,
                       roll1: int, roll2: int, roll3: int) returns (result: int)
    ensures result == TalentResult(value, accumulatedMod, [prop1Value, prop2Value, prop3Value], [roll1, roll2, roll3])
  {
    var totalMod := value - accumulatedMod;
    result := Max(totalMod, 0);
    var diff := if totalMod < 0 then -totalMod else 0;
    var r1 := prop1Value - diff - roll1;
    var r2 := prop2Value - diff - roll2;
    var r3 := prop3Value - diff - roll3;
    result := result + Min(r1, 0);
    result := result + Min(r2, 0);
    result := result + Min(r3, 0);
    if result > value {
      result := value;
    }
  }

  /** A talent roll as `rollTalentCheck` performs it once the check is well formed, and the message that reports it. */
  method TalentRoll(heroName: string, ps: seq<SessionProperty>, wounds: Option<int>, talent: SessionTalent,
                    properties: seq<string>, mod: int, roll1: int, roll2: int, roll3: int)
    returns (message: string)
    requires |properties| == 3
    ensures var acc := AccumulatedMod(mod, wounds);
      message == RollMessage(heroName, talent.name, [roll1, roll2, roll3], acc,
        TalentResult(talent.value, acc, CheckValues(ps, properties), [roll1, roll2, roll3]))
  {
    var accumulatedMod := mod;
    accumulatedMod := accumulatedMod + OrZero(wounds) * 2;
    var prop1Value := PropertyValue(ps, properties[0]);
    var prop2Value := PropertyValue(ps, properties[1]);
    var prop3Value := PropertyValue(ps, properties[2]);
    assert CheckValues(ps, properties) == [prop1Value, prop2Value, prop3Value];
    var result := ComputeResult(talent.value, accumulatedMod, prop1Value, prop2Value, prop3Value, roll1, roll2, roll3);
    assert accumulatedMod == AccumulatedMod(mod, wounds);
    assert result == TalentResult(talent.value, accumulatedMod, CheckValues(ps, properties), [roll1, roll2, roll3]);
    message := RollMessage(heroName, talent.name, [roll1, roll2, roll3], accumulatedMod, result);
  }

  // ---------------------------------------------------------------- the component

  class GameSessionDetail {
    var sessionId: Option<int>
    /** Whether the chat component is present. */
    var chatAvailable: bool
    var myCharacter: Option<SessionCharacter>
    var selectedTalentId: Option<int>
    /** The messages sent to the chat, oldest first. */
    var chat: seq<string>

    constructor(sessionId: Option<int>, chatAvailable: bool, myCharacter: Option<SessionCharacter>)
      ensures this.sessionId == sessionId && this.chatAvailable == chatAvailable && this.myCharacter == myCharacter
      ensures selectedTalentId.None? && chat == []
    {
      this.sessionId := sessionId;
      this.chatAvailable := chatAvailable;
      this.myCharacter := myCharacter;
      selectedTalentId := None;
      chat := [];
    }

    /** `selectTalent`. */
    method SelectTalent(id: int)
      modifies this
      ensures selectedTalentId == Some(id)
      ensures sessionId == old(sessionId) && chatAvailable == old(chatAvailable) && myCharacter == old(myCharacter) && chat == old(chat)
    {
      selectedTalentId := Some(id);
    }

    /**
     * `rollTalentCheck(mod)` with the three d20 results as parameters: when
     * a message is due it is sent and the selection is cleared; otherwise
     * nothing changes.
     */
    method RollTalentCheck(mod: int, roll1: int, roll2: int, roll3: int)
      modifies this
      ensures var sent := TalentCheck(old(sessionId), old(chatAvailable), old(myCharacter), old(selectedTalentId), mod, [roll1, roll2, roll3]);
        if sent.Some? then chat == old(chat) + [sent.value] && selectedTalentId.None?
        else chat == old(chat) && selectedTalentId == old(selectedTalentId)
      ensures sessionId == old(sessionId) && chatAvailable == old(chatAvailable) && myCharacter == old(myCharacter)
    {
      if !Truthy(sessionId) || !chatAvailable {
        return;
      }
      if myCharacter.None? {
        return;
      }
      if !Truthy(selectedTalentId) {
        return;
      }
      var character := myCharacter.value;
      var talentId := selectedTalentId.value;
      ghost var rolls := [roll1, roll2, roll3];
      var found := FindTalent(character.talents, talentId);
      if found.None? {
        var message := NotFoundMessage(talentId);
        UnknownTalentReported(character, talentId, mod, rolls);
        chat := chat + [message];
        selectedTalentId := None;
        return;
      }
      var talent := character.talents[found.value];
      var properties := CheckParts(talent.check);
      if |properties| != 3 {
        var message := InvalidFormatMessage(talent.check, |properties|);
        MalformedCheckReported(character, talentId, mod, rolls, found.value);
        chat := chat + [message];
        selectedTalentId := None;
        return;
      }
      if character.properties.None? || character.properties.value == [] {
        MissingPropertiesReported(character, talentId, mod, rolls, found.value);
        chat := chat + [NotLoadedMessage];
        selectedTalentId := None;
        return;
      }
      var message := TalentRoll(character.name, character.properties.value, character.wounds, talent, properties, mod, roll1, roll2, roll3);
      RollReported(character, talentId, mod, rolls, found.value);
      chat := chat + [message];
      selectedTalentId := None;
    }
  }
}
