/**
 * Heroes (`Character`): their property list, the values derived from it
 * (life, magic resistance, astral energy, endurance, the primary property)
 * and `updateCalculated`, which adds the dodge value and the basic combat
 * talents.
 */
module Characters {
  import opened Common
  import opened Text
  import opened PropertyNames

  /** A `HeroProperty`: a property constant and its value. */
  datatype HeroProperty = HeroProperty(name: PropertyName, value: int)

  /** What `updateCalculated` reads of a `Talent`: its name and value. */
  datatype TalentEntry = TalentEntry(name: string, value: int)

  datatype CombatTalent = CombatTalent(attack: int, parry: int, name: string)

  /** The parts of a hero the derived values depend on. */
  datatype Hero = Hero(
    properties: seq<HeroProperty>,
    talents: seq<TalentEntry>,
    combatTalents: seq<CombatTalent>,
    specialities: seq<string>,
    race: Option<string>,
    profession: Option<string>)

  const BaseTalentName: string := "Basis"

  // ---------------------------------------------------------------- property lookup

  /** The position of the first property named `name`: what `findAny` on the sequential stream returns. */
  function FirstIndex(ps: seq<HeroProperty>, name: PropertyName): (r: Option<nat>)
    ensures r.Some? ==> r.value < |ps| && ps[r.value].name == name
                        && forall j :: 0 <= j < r.value ==> ps[j].name != name
    ensures r.None? <==> forall j :: 0 <= j < |ps| ==> ps[j].name != name
  {
    if ps == [] then None
    else if ps[0].name == name then Some(0)
    else match FirstIndex(ps[1..], name)
      case None => None
      case Some(i) => Some(i + 1)
  }

  /** `getPropertyValue`: the value of the first property of that name, 0 when there is none. */
  function PropertyValue(ps: seq<HeroProperty>, name: PropertyName): int
  {
    match FirstIndex(ps, name)
    case None => 0
    case Some(i) => ps[i].value
  }

  /** `getPropertyValue` reads the first entry of that name, and an absent property counts as 0. */
  lemma PropertyValueMeans(ps: seq<HeroProperty>, name: PropertyName, i: nat)
    ensures (forall j :: 0 <= j < |ps| ==> ps[j].name != name) ==> PropertyValue(ps, name) == 0
    ensures i < |ps| && ps[i].name == name && (forall j :: 0 <= j < i ==> ps[j].name != name)
            ==> PropertyValue(ps, name) == ps[i].value
  {
    var r := FirstIndex(ps, name);
    if r.Some? && i < |ps| && ps[i].name == name && (forall j :: 0 <= j < i ==> ps[j].name != name) {
      assert !(r.value < i);
      assert !(i < r.value);
    }
  }

  /** A property added at the end does not change the value of a name already present, nor of another name. */
  lemma PropertyValueOfAppend(ps: seq<HeroProperty>, p: HeroProperty, name: PropertyName)
    requires p.name != name || FirstIndex(ps, name).Some?
    ensures PropertyValue(ps + [p], name) == PropertyValue(ps, name)
  {
    var qs := ps + [p];
    match FirstIndex(ps, name)
    case None =>
      assert forall j :: 0 <= j < |qs| ==> qs[j].name != name by {
        forall j | 0 <= j < |qs| ensures qs[j].name != name {
          if j < |ps| { assert qs[j] == ps[j]; }
        }
      }
    case Some(i) =>
      assert qs[i] == ps[i];
      assert forall j :: 0 <= j < i ==> qs[j] == ps[j];
  }

  /** Changing the value of one entry keeps every value looked up under another name. */
  lemma PropertyValueOfUpdate(ps: seq<HeroProperty>, i: nat, v: int, name: PropertyName)
    requires i < |ps| && ps[i].name != name
    ensures PropertyValue(ps[i := ps[i].(value := v)], name) == PropertyValue(ps, name)
  {
    var qs := ps[i := ps[i].(value := v)];
    FirstIndexByNames(qs, ps, name);
  }

  /** The first index depends on the names alone. */
  lemma FirstIndexByNames(ps: seq<HeroProperty>, qs: seq<HeroProperty>, name: PropertyName)
    requires |ps| == |qs| && forall j :: 0 <= j < |ps| ==> ps[j].name == qs[j].name
    ensures FirstIndex(ps, name) == FirstIndex(qs, name)
  {
    var a, b := FirstIndex(ps, name), FirstIndex(qs, name);
    if a.Some? {
      assert qs[a.value].name == name;
    }
    if b.Some? {
      assert ps[b.value].name == name;
    }
  }

  // ---------------------------------------------------------------- rounding

  /** `Math.round(x / 2.0f)`: the nearest integer to x/2, halves rounded up. */
  function RoundHalf(x: int): (r: int)
    ensures 2 * r - 1 <= x < 2 * r + 1
  {
    (x + 1) / 2
  }

  /** `Math.round(x / 5.0f)`: the nearest integer to x/5 (x/5 is never a half). */
  function RoundFifth(x: int): (r: int)
    ensures 5 * r - 2 <= x <= 5 * r + 2
  {
    (2 * x + 5) / 10
  }

  // ---------------------------------------------------------------- derived values

  function Value(h: Hero, name: PropertyName): int
  {
    PropertyValue(h.properties, name)
  }

  /** `getTotalLife`: LeP plus half of 2·KO + KK, rounded. */
  function TotalLife(h: Hero): (r: int)
    ensures var bonus := r - Value(h, Life);
      2 * bonus - 1 <= 2 * Value(h, Constitution) + Value(h, Strength) < 2 * bonus + 1
  {
    Value(h, Life) + RoundHalf(Value(h, Constitution) * 2 + Value(h, Strength))
  }

  /** `getMagicResistance`: MR plus a fifth of MU + KL + KO, rounded. */
  function MagicResistance(h: Hero): (r: int)
    ensures var bonus := r - Value(h, MagicResistenz);
      5 * bonus - 2 <= Value(h, Courage) + Value(h, Wisdom) + Value(h, Constitution) <= 5 * bonus + 2
  {
    Value(h, MagicResistenz) + RoundFifth(Value(h, Courage) + Value(h, Wisdom) + Value(h, Constitution))
  }

  const VesselOfStars: string := "Gefäß der Sterne"

  /**
   * `getMagicEnergy`: nothing for a hero without astral energy; otherwise ASP
   * plus half of MU + IN + CH, rounded, where CH counts twice for a hero with
   * the speciality "Gefäß der Sterne".
   */
  function TotalMagicEnergy(h: Hero): (r: int)
    ensures Value(h, MagicEnergy) == 0 ==> r == 0
    ensures Value(h, MagicEnergy) != 0 ==>
      var charisma := if VesselOfStars in h.specialities then 2 * Value(h, Charisma) else Value(h, Charisma);
      var bonus := r - Value(h, MagicEnergy);
      2 * bonus - 1 <= Value(h, Courage) + Value(h, Intuition) + charisma < 2 * bonus + 1
  {
    var me := FirstIndex(h.properties, MagicEnergy);
    if me.None? || h.properties[me.value].value == 0 then 0
    else
      var base := Value(h, MagicEnergy);
      var bonus := if VesselOfStars in h.specialities
        then RoundHalf(Value(h, Courage) + Value(h, Intuition) + 2 * Value(h, Charisma))
        else RoundHalf(Value(h, Courage) + Value(h, Intuition) + Value(h, Charisma));
      base + bonus
  }

  /** `getEndurance`: AuP plus half of MU + KO + GE, rounded. */
  function TotalEndurance(h: Hero): (r: int)
    ensures var bonus := r - Value(h, Endurance);
      2 * bonus - 1 <= Value(h, Courage) + Value(h, Constitution) + Value(h, Agility) < 2 * bonus + 1
  {
    Value(h, Endurance) + RoundHalf(Value(h, Courage) + Value(h, Constitution) + Value(h, Agility))
  }

  predicate Mentions(text: Option<string>, word: string)
  {
    text.Some? && Contains(Lower(text.value), word)
  }

  /** `getPrimaryPropertyName`: IN for elves, else CH for witches, else KL. */
  function PrimaryProperty(h: Hero): (r: PropertyName)
    ensures r == Intuition <==> Mentions(h.race, "elf")
    ensures r == Charisma <==> !Mentions(h.race, "elf") && Mentions(h.profession, "hex")
    ensures r == Wisdom <==> !Mentions(h.race, "elf") && !Mentions(h.profession, "hex")
  {
    if Mentions(h.race, "elf") then Intuition
    else if Mentions(h.profession, "hex") then Charisma
    else Wisdom
  }

  // ---------------------------------------------------------------- updateCalculated

  /** The first talent whose name equals `name` ignoring case. */
  function FindTalent(ts: seq<TalentEntry>, name: string): (r: Option<TalentEntry>)
    ensures r.Some? ==> r.value in ts && EqualsIgnoreCase(r.value.name, name)
    ensures r.None? <==> forall t :: t in ts ==> !EqualsIgnoreCase(t.name, name)
  {
    if ts == [] then None
    else if EqualsIgnoreCase(ts[0].name, name) then Some(ts[0])
    else
      var r := FindTalent(ts[1..], name);
      assert forall t :: t in ts ==> t == ts[0] || t in ts[1..];
      r
  }

  function SpecialityBonus(specialities: seq<string>, name: string): (r: int)
    ensures r == 0 || r == 3
    ensures r == 3 <==> name in specialities
  {
    if name in specialities then 3 else 0
  }

  /** Athletik above 9 adds a third of the excess, rounded down. */
  function AthleticsBonus(ts: seq<TalentEntry>): (r: int)
    ensures r >= 0
    ensures FindTalent(ts, "Athletik").None? || FindTalent(ts, "Athletik").value.value <= 9 ==> r == 0
    ensures FindTalent(ts, "Athletik").Some? && FindTalent(ts, "Athletik").value.value > 9 ==>
      var excess := FindTalent(ts, "Athletik").value.value - 9;
      3 * r <= excess < 3 * r + 3
  {
    match FindTalent(ts, "Athletik")
    case Some(ath) => if ath.value > 9 then (ath.value - 9) / 3 else 0
    case None => 0
  }

  /** The dodge bonus: 3 for each of Ausweichen I, II and III, plus the Athletik bonus. */
  function DodgeBonus(specialities: seq<string>, talents: seq<TalentEntry>): (r: int)
    ensures 0 <= r
    ensures r - AthleticsBonus(talents) in {0, 3, 6, 9}
  {
    SpecialityBonus(specialities, "Ausweichen I")
    + SpecialityBonus(specialities, "Ausweichen II")
    + SpecialityBonus(specialities, "Ausweichen III")
    + AthleticsBonus(talents)
  }

  /** The property list with a DODGE entry, appended with value 0 when there is none. */
  function WithDodge(ps: seq<HeroProperty>): (r: seq<HeroProperty>)
    ensures FirstIndex(r, Dodge).Some?
    ensures FirstIndex(ps, Dodge).Some? ==> r == ps
    ensures FirstIndex(ps, Dodge).None? ==> r == ps + [HeroProperty(Dodge, 0)]
  {
    if FirstIndex(ps, Dodge).None? then
      var r := ps + [HeroProperty(Dodge, 0)];
      assert r[|ps|].name == Dodge;
      r
    else ps
  }

  /** The first DODGE entry set to `value`. */
  function SetDodge(ps: seq<HeroProperty>, value: int): seq<HeroProperty>
    requires FirstIndex(ps, Dodge).Some?
  {
    var i := FirstIndex(ps, Dodge).value;
    ps[i := ps[i].(value := value)]
  }

  /** The ranged combat talent for the first talent called `talent` (ignoring case), if the hero has one. */
  function RangedEntry(ps: seq<HeroProperty>, ts: seq<TalentEntry>, talent: string, entry: string): (r: seq<CombatTalent>)
    ensures FindTalent(ts, talent).None? ==> r == []
    ensures FindTalent(ts, talent).Some? ==>
      r == [CombatTalent(PropertyValue(ps, BaseRangedAt) + FindTalent(ts, talent).value.value, PropertyValue(ps, BaseDefence), entry)]
  {
    match FindTalent(ts, talent)
    case Some(t) => [CombatTalent(PropertyValue(ps, BaseRangedAt) + t.value, PropertyValue(ps, BaseDefence), entry)]
    case None => []
  }

  /** The Bogen, Armbrust and Wurfmesser entries `updateCalculated` appends, in that order. */
  function RangedEntries(ps: seq<HeroProperty>, ts: seq<TalentEntry>): seq<CombatTalent>
  {
    RangedEntry(ps, ts, "bogen", "Bogen") + RangedEntry(ps, ts, "armbrust", "Armbrust") + RangedEntry(ps, ts, "wurfmesser", "Wurfmesser")
  }

  predicate HasBaseTalent(cts: seq<CombatTalent>)
  {
    exists i :: 0 <= i < |cts| && cts[i].name == BaseTalentName
  }

  /** First stage of `updateCalculated`: a DODGE entry, valued PA plus the dodge bonus. */
  function DodgeUpdated(h: Hero): Hero
  {
    h.(properties := DodgeProperties(h.properties, h.specialities, h.talents))
  }

  function DodgeProperties(ps: seq<HeroProperty>, specialities: seq<string>, talents: seq<TalentEntry>): seq<HeroProperty>
  {
    var qs := WithDodge(ps);
    SetDodge(qs, PropertyValue(qs, BaseDefence) + DodgeBonus(specialities, talents))
  }

  /** Second stage: a "Basis" combat talent with the hero's AT and PA, unless one exists. */
  function WithBaseTalent(h: Hero): Hero
  {
    if HasBaseTalent(h.combatTalents) then h
    else h.(combatTalents := h.combatTalents + [CombatTalent(Value(h, BaseAttack), Value(h, BaseDefence), BaseTalentName)])
  }

  /** Third stage: the ranged combat talents, appended unconditionally. */
  function WithRanged(h: Hero): Hero
  {
    h.(combatTalents := h.combatTalents + RangedEntries(h.properties, h.talents))
  }

  /** The hero after `updateCalculated`. */
  function Updated(h: Hero): Hero
  {
    WithRanged(WithBaseTalent(DodgeUpdated(h)))
  }

  /** Adding and setting the DODGE entry leaves every other property value alone. */
  lemma DodgeKeepsOtherValues(ps: seq<HeroProperty>, v: int, name: PropertyName)
    requires name != Dodge
    ensures PropertyValue(SetDodge(WithDodge(ps), v), name) == PropertyValue(ps, name)
  {
    var qs := WithDodge(ps);
    if FirstIndex(ps, Dodge).None? {
      PropertyValueOfAppend(ps, HeroProperty(Dodge, 0), name);
    }
    PropertyValueOfUpdate(qs, FirstIndex(qs, Dodge).value, v, name);
  }

  lemma SetDodgeValue(ps: seq<HeroProperty>, v: int)
    requires FirstIndex(ps, Dodge).Some?
    ensures FirstIndex(SetDodge(ps, v), Dodge) == FirstIndex(ps, Dodge)
    ensures PropertyValue(SetDodge(ps, v), Dodge) == v
  {
    var i := FirstIndex(ps, Dodge).value;
    FirstIndexByNames(SetDodge(ps, v), ps, Dodge);
  }

  /** Setting the DODGE entry to the value it has changes nothing. */
  lemma SetDodgeToItsValue(ps: seq<HeroProperty>)
    requires FirstIndex(ps, Dodge).Some?
    ensures SetDodge(ps, PropertyValue(ps, Dodge)) == ps
  {
  }

  /** After the first stage the hero has a DODGE entry, valued PA plus the dodge bonus. */
  lemma DodgeStage(h: Hero)
    ensures FirstIndex(DodgeUpdated(h).properties, Dodge).Some?
    ensures Value(DodgeUpdated(h), Dodge) == Value(h, BaseDefence) + DodgeBonus(h.specialities, h.talents)
  {
    var ps := WithDodge(h.properties);
    var v := PropertyValue(ps, BaseDefence) + DodgeBonus(h.specialities, h.talents);
    SetDodgeValue(ps, v);
    WithDodgeKeepsValue(h.properties, BaseDefence);
  }

  lemma WithDodgeKeepsValue(ps: seq<HeroProperty>, name: PropertyName)
    requires name != Dodge
    ensures PropertyValue(WithDodge(ps), name) == PropertyValue(ps, name)
  {
    if FirstIndex(ps, Dodge).None? {
      PropertyValueOfAppend(ps, HeroProperty(Dodge, 0), name);
    }
  }

  /** The first stage leaves every property value other than DODGE as it was. */
  lemma DodgeStageKeepsOthers(h: Hero, name: PropertyName)
    requires name != Dodge
    ensures Value(DodgeUpdated(h), name) == Value(h, name)
  {
    var ps := WithDodge(h.properties);
    var v := PropertyValue(ps, BaseDefence) + DodgeBonus(h.specialities, h.talents);
    DodgeKeepsOtherValues(h.properties, v, name);
  }

  /** A hero whose dodge value is already up to date is left alone by the first stage. */
  lemma DodgeStageSettles(h: Hero)
    ensures DodgeUpdated(DodgeUpdated(h)) == DodgeUpdated(h)
  {
    var h1 := DodgeUpdated(h);
    DodgeStage(h);
    DodgeStageKeepsOthers(h, BaseDefence);
    SettledProperties(h1.properties, h.specialities, h.talents);
  }

  /** A property list whose DODGE value is already PA plus the bonus is left as it is. */
  lemma SettledProperties(ps: seq<HeroProperty>, specialities: seq<string>, talents: seq<TalentEntry>)
    requires FirstIndex(ps, Dodge).Some?
    requires PropertyValue(ps, Dodge) == PropertyValue(ps, BaseDefence) + DodgeBonus(specialities, talents)
    ensures DodgeProperties(ps, specialities, talents) == ps
  {
    assert WithDodge(ps) == ps;
    SetDodgeToItsValue(ps);
  }

  /**
   * After `updateCalculated` the hero has a DODGE value of PA plus the dodge
   * bonus, every other property value is unchanged, and so are the talents
   * and the specialities.
   */
  lemma UpdatedDodge(h: Hero)
    ensures Value(Updated(h), Dodge) == Value(h, BaseDefence) + DodgeBonus(h.specialities, h.talents)
    ensures forall name :: name != Dodge ==> Value(Updated(h), name) == Value(h, name)
    ensures Updated(h).talents == h.talents && Updated(h).specialities == h.specialities
  {
    DodgeStage(h);
    assert Updated(h).properties == DodgeUpdated(h).properties;
    forall name | name != Dodge ensures Value(Updated(h), name) == Value(h, name) {
      DodgeStageKeepsOthers(h, name);
    }
  }

  /** A "Basis" combat talent is there afterwards, and the combat talents there before keep their places. */
  lemma UpdatedBaseTalent(h: Hero)
    ensures HasBaseTalent(Updated(h).combatTalents)
    ensures |Updated(h).combatTalents| >= |h.combatTalents|
    ensures Updated(h).combatTalents[..|h.combatTalents|] == h.combatTalents
  {
    var d := DodgeUpdated(h);
    var h1 := WithBaseTalent(d);
    BaseTalentAdded(d);
    ExtendedKeepsBase(h1.combatTalents, RangedEntries(h1.properties, h1.talents), h.combatTalents);
  }

  /** The second stage leaves a "Basis" combat talent behind and keeps the ones before in place. */
  lemma BaseTalentAdded(h: Hero)
    ensures HasBaseTalent(WithBaseTalent(h).combatTalents)
    ensures |WithBaseTalent(h).combatTalents| >= |h.combatTalents|
    ensures WithBaseTalent(h).combatTalents[..|h.combatTalents|] == h.combatTalents
  {
    var cts := WithBaseTalent(h).combatTalents;
    if !HasBaseTalent(h.combatTalents) {
      assert cts[|h.combatTalents|].name == BaseTalentName;
    }
  }

  /** Appending keeps a "Basis" combat talent and a prefix. */
  lemma ExtendedKeepsBase(cts: seq<CombatTalent>, more: seq<CombatTalent>, prefix: seq<CombatTalent>)
    requires HasBaseTalent(cts) && |cts| >= |prefix| && cts[..|prefix|] == prefix
    ensures HasBaseTalent(cts + more)
    ensures |cts + more| >= |prefix| && (cts + more)[..|prefix|] == prefix
  {
    var i :| 0 <= i < |cts| && cts[i].name == BaseTalentName;
    assert (cts + more)[i] == cts[i];
    assert (cts + more)[..|prefix|] == cts[..|prefix|];
  }

  /** A hero that has a "Basis" combat talent gets only the ranged entries appended. */
  lemma BaseTalentNotRepeated(h: Hero)
    requires HasBaseTalent(h.combatTalents)
    ensures Updated(h).combatTalents == h.combatTalents + RangedEntries(Updated(h).properties, Updated(h).talents)
  {
  }

  /**
   * `updateCalculated` is not idempotent: a second call leaves the properties
   * as the first call set them and appends the ranged combat talents once more.
   */
  lemma UpdateTwiceRepeatsRanged(h: Hero)
    ensures Updated(Updated(h)).properties == Updated(h).properties
    ensures Updated(Updated(h)).combatTalents == Updated(h).combatTalents + RangedEntries(Updated(h).properties, Updated(h).talents)
  {
    var h1 := Updated(h);
    var d := DodgeUpdated(h);
    DodgeStageSettles(h);
    assert h1.properties == d.properties && h1.talents == d.talents && h1.specialities == d.specialities;
    assert DodgeProperties(h1.properties, h1.specialities, h1.talents) == h1.properties;
    assert DodgeUpdated(h1) == h1;
    UpdatedBaseTalent(h);
  }

  lemma AppendThree<T>(a: seq<T>, x: seq<T>, y: seq<T>, z: seq<T>)
    ensures a + x + y + z == a + (x + y + z)
  {
  }

  // ---------------------------------------------------------------- the entity

  class Character {
    var properties: seq<HeroProperty>
    var talents: seq<TalentEntry>
    var combatTalents: seq<CombatTalent>
    var specialities: seq<string>
    var race: Option<string>
    var profession: Option<string>

    function State(): Hero
      reads this
    {
      Hero(properties, talents, combatTalents, specialities, race, profession)
    }

    constructor()
      ensures State() == Hero([], [], [], [], None, None)
    {
      properties, talents, combatTalents, specialities := [], [], [], [];
      race, profession := None, None;
    }

    /** `setProperties`: the list is emptied and refilled from `ps`; `null` leaves it empty. */
    method SetProperties(ps: Option<seq<HeroProperty>>)
      modifies this
      ensures State() == old(State()).(properties := if ps.None? then [] else ps.value)
    {
      properties := [];
      if ps.Some? {
        properties := properties + ps.value;
      }
    }

    /** `addProperty`: appends the property; `null` changes nothing. */
    method AddProperty(p: Option<HeroProperty>)
      modifies this
      ensures State() == old(State()).(properties := if p.None? then old(properties) else old(properties) + [p.value])
    {
      if p.None? {
        return;
      }
      properties := properties + [p.value];
    }

    /** `addCombatTalent`: appends the combat talent; `null` changes nothing. */
    method AddCombatTalent(ct: Option<CombatTalent>)
      modifies this
      ensures State() == old(State()).(combatTalents := if ct.None? then old(combatTalents) else old(combatTalents) + [ct.value])
    {
      if ct.None? {
        return;
      }
      combatTalents := combatTalents + [ct.value];
    }

    /** `hasSpeciality`: a speciality of exactly this name. */
    predicate HasSpeciality(name: string)
      reads this
    {
      name in specialities
    }

    /** `updateCalculated`. */
    method UpdateCalculated()
      modifies this
      ensures State() == Updated(old(State()))
    {
      UpdateDodge();
      if !HasBaseTalent(combatTalents) {
        AddCombatTalent(Some(CombatTalent(PropertyValue(properties, BaseAttack), PropertyValue(properties, BaseDefence), BaseTalentName)));
      }
      ghost var before := State();
      ghost var ps, ts := properties, talents;
      AddRanged("bogen", "Bogen");
      AddRanged("armbrust", "Armbrust");
      AddRanged("wurfmesser", "Wurfmesser");
      ghost var bow, crossbow, knife := RangedEntry(ps, ts, "bogen", "Bogen"),
        RangedEntry(ps, ts, "armbrust", "Armbrust"), RangedEntry(ps, ts, "wurfmesser", "Wurfmesser");
      assert combatTalents == before.combatTalents + bow + crossbow + knife;
      assert RangedEntries(ps, ts) == bow + crossbow + knife;
      AppendThree(before.combatTalents, bow, crossbow, knife);
      assert properties == ps && talents == ts && specialities == before.specialities;
      assert race == before.race && profession == before.profession;
      assert State() == WithRanged(before);
    }

    /** The dodge part of `updateCalculated`: adds DODGE when missing, then sets it to PA plus the bonus. */
    method UpdateDodge()
      modifies this
      ensures State() == DodgeUpdated(old(State()))
    {
      ghost var before := State();
      if FirstIndex(properties, Dodge).None? {
        AddProperty(Some(HeroProperty(Dodge, 0)));
      }
      assert properties == WithDodge(before.properties);
      var bonus := DodgeBonusOf(specialities, talents);
      // `getProperty(DODGE)` is always present here, after the step above
      var i := FirstIndex(properties, Dodge).value;
      properties := properties[i := properties[i].(value := PropertyValue(properties, BaseDefence) + bonus)];
    }

    /** The bonus part of the dodge update: three per dodge speciality, a third of Athletics above 9. */
    static method DodgeBonusOf(specialities: seq<string>, talents: seq<TalentEntry>) returns (bonus: int)
      ensures bonus == DodgeBonus(specialities, talents)
    {
      bonus := 0;
      if "Ausweichen I" in specialities {
        bonus := bonus + 3;
      }
      if "Ausweichen II" in specialities {
        bonus := bonus + 3;
      }
      if "Ausweichen III" in specialities {
        bonus := bonus + 3;
      }
      var ath := FindTalent(talents, "Athletik");
      if ath.Some? && ath.value.value > 9 {
        bonus := bonus + (ath.value.value - 9) / 3;
      }
    }

    /** Appends the ranged combat talent for the first talent called `talent`, if there is one. */
    method AddRanged(talent: string, entry: string)
      modifies this
      ensures State() == old(State()).(combatTalents := old(combatTalents) + RangedEntry(old(properties), old(talents), talent, entry))
    {
      var t := FindTalent(talents, talent);
      if t.Some? {
        AddCombatTalent(Some(CombatTalent(PropertyValue(properties, BaseRangedAt) + t.value.value, PropertyValue(properties, BaseDefence), entry)));
      }
    }
  }
}
