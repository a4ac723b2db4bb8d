/**
 Action resolution: the random formulas for damage and healing, the escape
 test, the two player classes with their action menus, and the effect of the
 player's chosen action on both combatants. The random source is injected as
 a `Draw` value instead of being read from an ambient generator.
 */
module Resolver {
  import opened Character

  /** One value of the random source, uniform in [0, 1). */
  type Draw = r: real | 0.0 <= r < 1.0

  /**
   floor(r * 20) + 10: the damage of a weapon attack (by the player or by the
   opponent) and the fuel restored by a potion.
   */
  function Roll(r: Draw): (k: int)
    ensures 10 <= k <= 29
    ensures (k - 10) as real <= r * 20.0 < (k - 9) as real
  {
    (r * 20.0).Floor + 10
  }

  /** A draw on which `Roll` yields `k`: every value in [10, 29] can occur. */
  function DrawFor(k: int): (r: Draw)
    requires 10 <= k <= 29
    ensures Roll(r) == k
    ensures r * 20.0 == (k - 10) as real
  {
    (k - 10) as real / 20.0
  }

  /** A larger draw never rolls a smaller value. */
  lemma RollMonotone(a: Draw, b: Draw)
    requires a <= b
    ensures Roll(a) <= Roll(b)
  {
    assert (Roll(a) - 10) as real <= a * 20.0 <= b * 20.0 < (Roll(b) - 9) as real;
  }

  /** The fixed damage of a spell; it consumes no draw. */
  const SpellDamage: int := 15

  /** An escape attempt succeeds only on a draw strictly above one half. */
  predicate Escapes(r: Draw) {
    r > 0.5
  }

  /** A draw of exactly one half fails; anything above it succeeds. */
  lemma EscapeThreshold(r: Draw)
    ensures !Escapes(0.5)
    ensures Escapes(0.50000001)
    ensures r <= 0.5 ==> !Escapes(r)
  {
  }

  /** The playable classes. `Fighter` is the class the game calls `Player`. */
  datatype Kind = Fighter | Mage

  /** An answer to the action prompt; `Other` keeps any unmatched answer. */
  datatype Choice = Attack | CastSpell | DrinkPotion | RunAway | Other(answer: string)

  /** The menu text of a choice. */
  function Label(c: Choice): string {
    match c
    case Attack => "Attack"
    case CastSpell => "Cast Spell"
    case DrinkPotion => "Drink Potion"
    case RunAway => "Run For Your Life.."
    case Other(s) => s
  }

  /** The answer text names one of the known actions. */
  predicate IsKnownLabel(s: string) {
    s == "Attack" || s == "Cast Spell" || s == "Drink Potion" || s == "Run For Your Life.."
  }

  /** Recognises an answer by exact string comparison, as the game loop does. */
  function Parse(answer: string): (c: Choice)
    ensures Label(c) == answer
    ensures c.Other? <==> !IsKnownLabel(answer)
  {
    if answer == "Attack" then Attack
    else if answer == "Cast Spell" then CastSpell
    else if answer == "Drink Potion" then DrinkPotion
    else if answer == "Run For Your Life.." then RunAway
    else Other(answer)
  }

  /** Parsing the menu text of a choice gives the choice back. */
  lemma ParseLabel(c: Choice)
    requires c.Other? ==> !IsKnownLabel(c.answer)
    ensures Parse(Label(c)) == c
  {
  }

  /** Whether the class actually has the action; anything else is a no-op. */
  predicate Offers(k: Kind, c: Choice) {
    match c
    case Attack => k == Fighter
    case CastSpell => k == Mage
    case DrinkPotion => true
    case RunAway => true
    case Other(_) => false
  }

  /** The offensive action of each class. */
  function Strike(k: Kind): (c: Choice)
    ensures Offers(k, c) && c != DrinkPotion && c != RunAway
  {
    match k
    case Fighter => Attack
    case Mage => CastSpell
  }

  /** The least fuel a strike of the class takes off an opponent that survives it. */
  function StrikeDamage(k: Kind): int {
    match k
    case Fighter => 10
    case Mage => SpellDamage
  }

  /** The action prompt each class is shown. */
  function Menu(k: Kind): seq<string> {
    match k
    case Fighter => ["Attack", "Drink Potion", "Run For Your Life.."]
    case Mage => ["Cast Spell", "Drink Potion", "Run For Your Life.."]
  }

  /** The menu offers exactly the actions the class has. */
  lemma MenuMatchesOffers(k: Kind, c: Choice)
    ensures Label(c) in Menu(k) <==> Offers(k, Parse(Label(c)))
    ensures forall i :: 0 <= i < |Menu(k)| ==> Offers(k, Parse(Menu(k)[i]))
  {
  }

  /** What the player's action leaves of both combatants, and whether they got away. */
  datatype Effect = Effect(player: Combatant, opponent: Combatant, escaped: bool)

  /**
   The player's action in the extended edition: the answer is matched against
   the class, so an attack only works for a fighter and a spell only for a
   mage; an answer that matches nothing changes nothing.
   */
  function PlayerAct(k: Kind, c: Choice, player: Combatant, opponent: Combatant, r: Draw): (e: Effect)
    ensures e.player.name == player.name && e.opponent.name == opponent.name
    ensures e.escaped <==> c == RunAway && Escapes(r)
    ensures !Offers(k, c) ==> e == Effect(player, opponent, false)
    ensures c == RunAway ==> e.player == player && e.opponent == opponent
    ensures c == DrinkPotion ==> e.opponent == opponent && 10 <= e.player.fuel - player.fuel <= 29
    ensures c == DrinkPotion ==> e.player.fuel == player.fuel + Roll(r)
    ensures c == Attack && k == Fighter ==>
              e.player == player && DamagedWithin(opponent.fuel, e.opponent.fuel, 10, 29)
    ensures c == Attack && k == Fighter ==> e.opponent.fuel == Max(0, opponent.fuel - Roll(r))
    ensures c == CastSpell && k == Mage ==>
              e.player == player && e.opponent.fuel == Max(0, opponent.fuel - SpellDamage)
    ensures c != Strike(k) ==> e.opponent == opponent
    ensures e.player.fuel >= player.fuel
    ensures opponent.fuel >= 0 ==> e.opponent.fuel <= opponent.fuel
  {
    match c
    case Attack =>
      if k == Fighter then Effect(player, TakeDamage(opponent, Roll(r)), false)
      else Effect(player, opponent, false)
    case CastSpell =>
      if k == Mage then Effect(player, TakeDamage(opponent, SpellDamage), false)
      else Effect(player, opponent, false)
    case DrinkPotion => Effect(Heal(player, Roll(r)), opponent, false)
    case RunAway => Effect(player, opponent, Escapes(r))
    case Other(_) => Effect(player, opponent, false)
  }

  /**
   The injected draw picks the magnitude exactly: the draw for `k` makes an
   attack deal `k`, a potion heal `k`, and the opponent's attack deal `k`.
   */
  lemma DrawPicksMagnitude(player: Combatant, opponent: Combatant, k: int)
    requires 10 <= k <= 29
    ensures PlayerAct(Fighter, Attack, player, opponent, DrawFor(k)).opponent == TakeDamage(opponent, k)
    ensures PlayerAct(Fighter, DrinkPotion, player, opponent, DrawFor(k)).player == Heal(player, k)
    ensures PlayerAct(Mage, DrinkPotion, player, opponent, DrawFor(k)).player == Heal(player, k)
    ensures OpponentAttack(player, DrawFor(k)) == TakeDamage(player, k)
  {
  }

  /** A spell's effect does not depend on the draw. */
  lemma SpellIgnoresDraw(player: Combatant, opponent: Combatant, r1: Draw, r2: Draw)
    ensures PlayerAct(Mage, CastSpell, player, opponent, r1) == PlayerAct(Mage, CastSpell, player, opponent, r2)
  {
  }

  /**
   The player's action in the minimal edition, which has one class only; it
   agrees with the extended edition's fighter.
   */
  function ClassicAct(c: Choice, player: Combatant, opponent: Combatant, r: Draw): (e: Effect)
    ensures e == PlayerAct(Fighter, c, player, opponent, r)
  {
    if c == Attack then Effect(player, TakeDamage(opponent, Roll(r)), false)
    else if c == DrinkPotion then Effect(Heal(player, Roll(r)), opponent, false)
    else if c == RunAway then Effect(player, opponent, Escapes(r))
    else Effect(player, opponent, false)
  }

  /** The opponent's only action: a weapon attack of the same formula. */
  function OpponentAttack(player: Combatant, r: Draw): (p: Combatant)
    ensures p.name == player.name
    ensures DamagedWithin(player.fuel, p.fuel, 10, 29)
    ensures p.fuel == Max(0, player.fuel - Roll(r))
    ensures IsDefeated(p) <==> p.fuel == 0
  {
    TakeDamage(player, Roll(r))
  }
}
