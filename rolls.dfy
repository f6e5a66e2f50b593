/**
 * The attack and parry roll of the game table (`rollAttackOrParry`). The
 * dice are inputs: `damageRoll(i)` is the i-th d6 of the damage, `roll` the
 * d20 against the attack or parry value and `confirm` the second d20 that
 * confirms a critical hit or a fumble.
 */
module Rolls {
  import opened Common
  import opened Text

  /** `AttackParryContext`; an absent number is JavaScript `undefined`. */
  datatype Context = Context(heroName: string, wearingArmour: bool, armourBe: Option<int>, wounds: Option<int>)

  datatype Weapon = Weapon(name: string, damageBonus: Option<int>, numberOfDice: Option<int>,
                           atMod: Option<int>, paMod: Option<int>)

  datatype CombatTalent = CombatTalent(attack: Option<int>, parry: Option<int>)

  /** `x || 0` on a number. */
  function OrZero(x: Option<int>): int
  {
    if x.Some? then x.value else 0
  }

  /** JavaScript's `%`: the remainder takes the sign of the dividend. */
  function JsRem(a: int, b: int): (r: int)
    requires b > 0
    ensures a >= 0 ==> 0 <= r < b
    ensures a < 0 ==> -b < r <= 0
  {
    if a >= 0 then a % b else -((-a) % b)
  }

  // ---------------------------------------------------------------- modifiers and values

  function BePart(ctx: Context, isAttack: bool): int
  {
    var be := OrZero(ctx.armourBe);
    if !ctx.wearingArmour then 0
    else if isAttack then be / 2
    else be / 2 + JsRem(be, 2)
  }

  /** The total modifier: the caller's, the armour's share of the BE and two per wound. */
  function Modifier(ctx: Context, isAttack: bool, mod: int): int
  {
    mod + BePart(ctx, isAttack) + OrZero(ctx.wounds) * 2
  }

  /** The value the d20 must not exceed. */
  function CheckValue(ctx: Context, weapon: Weapon, talent: CombatTalent, isAttack: bool, mod: int): int
  {
    if isAttack then OrZero(talent.attack) + OrZero(weapon.atMod) - Modifier(ctx, true, mod)
    else OrZero(talent.parry) + OrZero(weapon.paMod) - Modifier(ctx, false, mod)
  }

  /**
   * Wearing armour, a non-negative BE is shared out between attack and
   * parry: the attack bears its lower half, the parry the rest.
   */
  lemma BeIsSharedOut(ctx: Context, mod: int)
    requires ctx.wearingArmour && OrZero(ctx.armourBe) >= 0
    ensures BePart(ctx, true) + BePart(ctx, false) == OrZero(ctx.armourBe)
    ensures 0 <= BePart(ctx, false) - BePart(ctx, true) <= 1
    ensures Modifier(ctx, true, mod) + Modifier(ctx, false, mod) == 2 * mod + OrZero(ctx.armourBe) + 4 * OrZero(ctx.wounds)
  {
  }

  /** Without armour no BE counts; wounds count two each for attack and parry alike. */
  lemma NoArmourNoBe(ctx: Context, mod: int)
    requires !ctx.wearingArmour
    ensures Modifier(ctx, true, mod) == Modifier(ctx, false, mod) == mod + 2 * OrZero(ctx.wounds)
  {
  }

  // ---------------------------------------------------------------- damage

  /** `numberOfDice` when it is positive, one die otherwise. */
  function DiceCount(weapon: Weapon): (r: nat)
    ensures r >= 1
    ensures weapon.numberOfDice.Some? && weapon.numberOfDice.value > 0 ==> r == weapon.numberOfDice.value
    ensures weapon.numberOfDice.None? || weapon.numberOfDice.value <= 0 ==> r == 1
  {
    if weapon.numberOfDice.Some? && weapon.numberOfDice.value > 0 then weapon.numberOfDice.value else 1
  }

  /** The sum of the first `n` damage dice. */
  function SumRolls(damageRoll: nat -> int, n: nat): int
  {
    if n == 0 then 0 else SumRolls(damageRoll, n - 1) + damageRoll(n - 1)
  }

  /** With every die between 1 and 6, n dice sum to between n and 6n. */
  lemma {:induction false} SumRollsBounds(damageRoll: nat -> int, n: nat)
    requires forall i :: 0 <= i < n ==> 1 <= damageRoll(i) <= 6
    ensures n <= SumRolls(damageRoll, n) <= 6 * n
  {
    if n > 0 {
      SumRollsBounds(damageRoll, n - 1);
    }
  }

  /** Damage before a critical hit: the weapon's bonus, the caller's bonus and the dice. */
  function BaseDamage(weapon: Weapon, bonusDmg: int, damageRoll: nat -> int): int
  {
    OrZero(weapon.damageBonus) + bonusDmg + SumRolls(damageRoll, DiceCount(weapon))
  }

  /** A confirmed critical: a 1, and a confirmation roll within the value. */
  predicate Critical(roll: int, confirm: int, value: int)
  {
    roll == 1 && confirm <= value
  }

  function Damage(weapon: Weapon, bonusDmg: int, damageRoll: nat -> int, roll: int, confirm: int, value: int): (r: int)
    ensures Critical(roll, confirm, value) ==> r == 2 * BaseDamage(weapon, bonusDmg, damageRoll)
    ensures !Critical(roll, confirm, value) ==> r == BaseDamage(weapon, bonusDmg, damageRoll)
  {
    var base := BaseDamage(weapon, bonusDmg, damageRoll);
    if Critical(roll, confirm, value) then 2 * base else base
  }

  /** An attack hits when the d20 is within the value, except that a 20 always misses. */
  predicate Hits(roll: int, value: int)
  {
    roll <= value && roll != 20
  }

  lemma TwentyAlwaysMisses(value: int)
    ensures !Hits(20, value)
    ensures Hits(1, value) <==> value >= 1
  {
  }

  // ---------------------------------------------------------------- messages

  function CriticalNote(roll: int, confirm: int, value: int): (r: string)
    ensures r == "" <==> roll != 1
  {
    if roll != 1 then "" else if confirm <= value then "kritisch " else "nicht kritisch "
  }

  function FumbleNote(roll: int, confirm: int, value: int): (r: string)
    ensures r == "" <==> roll != 20
  {
    if roll != 20 then "" else if confirm > value then " (Patzer)" else " (Kein Patzer)"
  }

  /** `(roll)`, with a `b` when the BE was applied. */
  function RollText(roll: int, applyBe: bool): string
  {
    "(" + IntToString(roll) + (if applyBe then "b" else "") + ") "
  }

  function ModifierText(modifier: int): (r: string)
    ensures r == "" <==> modifier == 0
  {
    if modifier != 0 then IntToString(modifier) + " " else ""
  }

  function AttackResult(hit: bool, critical: string, damage: int, fumble: string): string
  {
    if hit then "trifft " + critical + "mit " + IntToString(damage) + " Schaden" else "verfehlt" + fumble
  }

  /** The chat line of an attack. */
  function AttackMessage(ctx: Context, weapon: Weapon, talent: CombatTalent, mod: int, bonusDmg: int,
                         damageRoll: nat -> int, roll: int, confirm: int): string
  {
    var modifier := Modifier(ctx, true, mod);
    var value := CheckValue(ctx, weapon, talent, true, mod);
    ctx.heroName + "s " + weapon.name + "-Angriff " + ModifierText(modifier) + RollText(roll, ctx.wearingArmour)
    + AttackResult(Hits(roll, value), CriticalNote(roll, confirm, value),
                   Damage(weapon, bonusDmg, damageRoll, roll, confirm, value), FumbleNote(roll, confirm, value))
  }

  function ParryResult(success: bool): string
  {
    if success then " war erfolgreich " else "schlägt fehl"
  }

  /** The chat line of a parry. */
  function ParryMessage(ctx: Context, weapon: Weapon, talent: CombatTalent, mod: int, roll: int): string
  {
    ctx.heroName + "s Parade " + RollText(roll, ctx.wearingArmour)
    + ParryResult(roll <= CheckValue(ctx, weapon, talent, false, mod))
  }

  /** The two results of an attack differ in their last character: a hit ends its line in "Schaden". */
  lemma AttackResultTellsHit(hit: bool, critical: string, damage: int, fumble: string)
    requires fumble in {"", " (Patzer)", " (Kein Patzer)"}
    ensures var r := AttackResult(hit, critical, damage, fumble);
      |r| > 0 && (r[|r| - 1] == 'n' <==> hit)
  {
  }

  /** The two results of a parry differ in their first character. */
  lemma ParryResultTellsSuccess(success: bool)
    ensures var r := ParryResult(success); |r| > 0 && (r[0] == ' ' <==> success)
  {
  }

  /** The text after the fixed head of a line is the result, so the line says whether the roll succeeded. */
  lemma AttackMessageEndsInResult(ctx: Context, weapon: Weapon, talent: CombatTalent, mod: int, bonusDmg: int,
                                  damageRoll: nat -> int, roll: int, confirm: int)
    ensures var m := AttackMessage(ctx, weapon, talent, mod, bonusDmg, damageRoll, roll, confirm);
      |m| > 0 && (m[|m| - 1] == 'n' <==> Hits(roll, CheckValue(ctx, weapon, talent, true, mod)))
  {
    var value := CheckValue(ctx, weapon, talent, true, mod);
    var fumble := FumbleNote(roll, confirm, value);
    assert fumble in {"", " (Patzer)", " (Kein Patzer)"};
    AttackResultTellsHit(Hits(roll, value), CriticalNote(roll, confirm, value),
                         Damage(weapon, bonusDmg, damageRoll, roll, confirm, value), fumble);
  }

  // ---------------------------------------------------------------- the roll

  /** `rollAttackOrParry`. */
  method RollAttackOrParry(ctx: Context, weapon: Weapon, talent: CombatTalent, isAttack: bool, mod: int, bonusDmg: int,
                           damageRoll: nat -> int, roll: int, confirm: int) returns (message: string)
    ensures isAttack ==> message == AttackMessage(ctx, weapon, talent, mod, bonusDmg, damageRoll, roll, confirm)
    ensures !isAttack ==> message == ParryMessage(ctx, weapon, talent, mod, roll)
  {
    if isAttack {
      message := RollAttack(ctx, weapon, talent, mod, bonusDmg, damageRoll, roll, confirm);
    } else {
      message := RollParry(ctx, weapon, talent, mod, roll);
    }
  }

  /** The attack branch: the modifier, the damage dice one by one, the d20 and the confirmation roll. */
  method RollAttack(ctx: Context, weapon: Weapon, talent: CombatTalent, mod: int, bonusDmg: int,
                    damageRoll: nat -> int, roll: int, confirm: int) returns (message: string)
    ensures message == AttackMessage(ctx, weapon, talent, mod, bonusDmg, damageRoll, roll, confirm)
  {
    var m := mod;
    var dmg := OrZero(weapon.damageBonus) + bonusDmg;
    var applyBe := ctx.wearingArmour;
    var armourBe := OrZero(ctx.armourBe);
    if applyBe {
      m := m + armourBe / 2;
    }
    m := m + OrZero(ctx.wounds) * 2;
    var value := OrZero(talent.attack) + OrZero(weapon.atMod) - m;
    var diceCount := if weapon.numberOfDice.Some? && weapon.numberOfDice.value > 0 then weapon.numberOfDice.value else 1;
    var i := 0;
    while i < diceCount
      invariant 0 <= i <= diceCount
      invariant dmg == OrZero(weapon.damageBonus) + bonusDmg + SumRolls(damageRoll, i)
    {
      dmg := dmg + damageRoll(i);
      i := i + 1;
    }
    var critMsg := "";
    if roll == 1 {
      if confirm <= value {
        critMsg := "kritisch ";
        dmg := dmg * 2;
      } else {
        critMsg := "nicht kritisch ";
      }
    }
    var fail := "";
    if roll == 20 {
      if confirm > value {
        fail := " (Patzer)";
      } else {
        fail := " (Kein Patzer)";
      }
    }
    assert m == Modifier(ctx, true, mod) && value == CheckValue(ctx, weapon, talent, true, mod);
    assert dmg == Damage(weapon, bonusDmg, damageRoll, roll, confirm, value);
    message := ctx.heroName + "s " + weapon.name + "-Angriff " + ModifierText(m) + RollText(roll, applyBe)
      + AttackResult(roll <= value && roll != 20, critMsg, dmg, fail);
  }

  /** The parry branch. */
  method RollParry(ctx: Context, weapon: Weapon, talent: CombatTalent, mod: int, roll: int) returns (message: string)
    ensures message == ParryMessage(ctx, weapon, talent, mod, roll)
  {
    var m := mod;
    var applyBe := ctx.wearingArmour;
    var armourBe := OrZero(ctx.armourBe);
    if applyBe {
      m := m + armourBe / 2 + JsRem(armourBe, 2);
    }
    m := m + OrZero(ctx.wounds) * 2;
    var value := OrZero(talent.parry) + OrZero(weapon.paMod) - m;
    assert value == CheckValue(ctx, weapon, talent, false, mod);
    var success := roll <= value;
    message := ctx.heroName + "s Parade " + RollText(roll, applyBe) + ParryResult(success);
  }
}
