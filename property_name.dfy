/**
 * The hero property table (`PropertyName`): twenty constants, each with a
 * display name and an abbreviation, looked up ignoring case.
 */
module PropertyNames {
  import opened Common
  import opened Text

  datatype PropertyName =
    | Courage | Wisdom | Intuition | Charisma | Dexterity | Agility | Constitution | Strength
    | MagicResistenz | Life | Endurance | MagicEnergy | Karma | SocialStanding
    | BaseAttack | BaseDefence | BaseRangedAt | Initiative
    | NoProperty  // the constant `NONE`
    | Dodge

  function Name(p: PropertyName): string
  {
    match p
    case Courage => "Mut"
    case Wisdom => "Klugheit"
    case Intuition => "Intuition"
    case Charisma => "Charisma"
    case Dexterity => "Fingerfertigkeit"
    case Agility => "Gewandtheit"
    case Constitution => "Konstitution"
    case Strength => "Körperkraft"
    case MagicResistenz => "Magieresistenz"
    case Life => "Lebensenergie"
    case Endurance => "Ausdauer"
    case MagicEnergy => "Astralenergie"
    case Karma => "Karmaenergie"
    case SocialStanding => "Sozialstatus"
    case BaseAttack => "AT"
    case BaseDefence => "PA"
    case BaseRangedAt => "FK"
    case Initiative => "ini"
    case NoProperty => "none"
    case Dodge => "Ausweichen"
  }

  function Abrv(p: PropertyName): string
  {
    match p
    case Courage => "MU"
    case Wisdom => "KL"
    case Intuition => "IN"
    case Charisma => "CH"
    case Dexterity => "FF"
    case Agility => "GE"
    case Constitution => "KO"
    case Strength => "KK"
    case MagicResistenz => "MR"
    case Life => "LeP"
    case Endurance => "AuP"
    case MagicEnergy => "ASP"
    case Karma => "KE"
    case SocialStanding => "SO"
    case BaseAttack => "AT"
    case BaseDefence => "PA"
    case BaseRangedAt => "FK"
    case Initiative => "INI"
    case NoProperty => "--"
    case Dodge => "Aw"
  }

  /** `values()`: the constants in declaration order. */
  const Values: seq<PropertyName> := [
    Courage, Wisdom, Intuition, Charisma, Dexterity, Agility, Constitution, Strength,
    MagicResistenz, Life, Endurance, MagicEnergy, Karma, SocialStanding,
    BaseAttack, BaseDefence, BaseRangedAt, Initiative, NoProperty, Dodge]

  /** The position of a constant in `values()`. */
  function Ordinal(p: PropertyName): (k: nat)
    ensures k < |Values| && Values[k] == p
  {
    match p
    case Courage => 0
    case Wisdom => 1
    case Intuition => 2
    case Charisma => 3
    case Dexterity => 4
    case Agility => 5
    case Constitution => 6
    case Strength => 7
    case MagicResistenz => 8
    case Life => 9
    case Endurance => 10
    case MagicEnergy => 11
    case Karma => 12
    case SocialStanding => 13
    case BaseAttack => 14
    case BaseDefence => 15
    case BaseRangedAt => 16
    case Initiative => 17
    case NoProperty => 18
    case Dodge => 19
  }

  /** A search through all of `values()` that finds nothing means no constant matches. */
  lemma NotFoundAnywhere(key: PropertyName -> string, s: string)
    requires forall j :: 0 <= j < |Values| ==> !EqualsIgnoreCase(key(Values[j]), s)
    ensures forall p :: !EqualsIgnoreCase(key(p), s)
  {
    forall p ensures !EqualsIgnoreCase(key(p), s) {
      var k := Ordinal(p);
    }
  }

  /** The first constant from index `i` on whose `key` equals `s` ignoring case. */
  function FindFrom(key: PropertyName -> string, s: string, i: nat): (r: Option<PropertyName>)
    requires i <= |Values|
    ensures r.Some? ==> EqualsIgnoreCase(key(r.value), s)
    ensures r.None? ==> forall j :: i <= j < |Values| ==> !EqualsIgnoreCase(key(Values[j]), s)
    decreases |Values| - i
  {
    if i == |Values| then None
    else if EqualsIgnoreCase(key(Values[i]), s) then Some(Values[i])
    else FindFrom(key, s, i + 1)
  }

  /** `getByName`: the constant whose name equals `name` ignoring case, if any. */
  function GetByName(name: string): (r: Option<PropertyName>)
    ensures r.Some? ==> EqualsIgnoreCase(Name(r.value), name)
    ensures r.None? <==> forall p :: !EqualsIgnoreCase(Name(p), name)
  {
    var r := FindFrom(Name, name, 0);
    if r.None? then NotFoundAnywhere(Name, name); r else r
  }

  /** `getByAbrv`: the constant whose abbreviation equals `abrv` ignoring case, if any. */
  function GetByAbrv(abrv: string): (r: Option<PropertyName>)
    ensures r.Some? ==> EqualsIgnoreCase(Abrv(r.value), abrv)
    ensures r.None? <==> forall p :: !EqualsIgnoreCase(Abrv(p), abrv)
  {
    var r := FindFrom(Abrv, abrv, 0);
    if r.None? then NotFoundAnywhere(Abrv, abrv); r else r
  }

  /** A folded character: the comparison `equalsIgnoreCase` makes. */
  function Fold(c: char): char
  {
    LowerChar(UpperChar(c))
  }

  lemma FoldedDiffer(a: string, b: string, i: nat)
    requires i < |a| && i < |b| && Fold(a[i]) != Fold(b[i])
    ensures !EqualsIgnoreCase(a, b)
  {
    CharEqualsIgnoreCaseIsFolding(a[i], b[i]);
  }

  /** No two abbreviations are equal ignoring case. */
  lemma AbrvsDistinct(p: PropertyName, q: PropertyName)
    requires EqualsIgnoreCase(Abrv(p), Abrv(q))
    ensures p == q
  {
    var a, b := Abrv(p), Abrv(q);
    if p != q {
      if |a| == |b| {
        FoldedDiffer(a, b, if Fold(a[0]) != Fold(b[0]) then 0 else 1);
      }
    }
  }

  /** No two names are equal ignoring case. */
  lemma NamesDistinct(p: PropertyName, q: PropertyName)
    requires EqualsIgnoreCase(Name(p), Name(q))
    ensures p == q
  {
    var a, b := Name(p), Name(q);
    if p != q {
      if |a| == |b| {
        FoldedDiffer(a, b, if Fold(a[0]) != Fold(b[0]) then 0 else 1);
      }
    }
  }

  /**
   * At most one constant matches a given abbreviation, so `findAny` has no
   * choice to make, and every constant is found by its own abbreviation in
   * any capitalisation.
   */
  lemma GetByAbrvFindsOwner(p: PropertyName, abrv: string)
    requires EqualsIgnoreCase(Abrv(p), abrv)
    ensures GetByAbrv(abrv) == Some(p)
  {
    var r := GetByAbrv(abrv);
    EqualsIgnoreCaseSymmetric(Abrv(r.value), abrv);
    EqualsIgnoreCaseTransitive(Abrv(p), abrv, Abrv(r.value));
    AbrvsDistinct(p, r.value);
  }

  lemma GetByNameFindsOwner(p: PropertyName, name: string)
    requires EqualsIgnoreCase(Name(p), name)
    ensures GetByName(name) == Some(p)
  {
    var r := GetByName(name);
    EqualsIgnoreCaseSymmetric(Name(r.value), name);
    EqualsIgnoreCaseTransitive(Name(p), name, Name(r.value));
    NamesDistinct(p, r.value);
  }

  lemma EqualsIgnoreCaseReflexive(s: string)
    ensures EqualsIgnoreCase(s, s)
  {
  }

  /** `"--"` names the constant `NONE`. */
  lemma DashesAreNone()
    ensures GetByAbrv("--") == Some(NoProperty)
  {
    EqualsIgnoreCaseReflexive("--");
    GetByAbrvFindsOwner(NoProperty, "--");
  }
}
