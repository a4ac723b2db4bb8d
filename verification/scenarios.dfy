/**
 End-to-end turns with fixed draws, one per rule of the loop: a win that
 draws no reply, a reply that empties the player's tank, an escape that
 leaves both sides untouched, and a potion that heals past the starting fuel.
 */
module Scenarios {
  import opened Character
  import opened Resolver
  import opened Engine

  /** A fighter at 100 hits an opponent at 12 for 15 and wins; no reply follows. */
  lemma WinDrawsNoReply()
    ensures var r := Play(Game(Fighter, Combatant("Hero", 100), Combatant("Zombie", 12), Active),
                          [TurnInput("Attack", DrawFor(15), DrawFor(29))]);
            r.status == PlayerWon && r.player.fuel == 100 && r.opponent.fuel == 0
  {
  }

  /** A failed escape at fuel 15 is answered by a hit of 20, which clamps the fuel to 0. */
  lemma ReplyEmptiesTank()
    ensures var r := Play(Game(Mage, Combatant("Hero", 15), Combatant("Skeleton", 100), Active),
                          [TurnInput("Run For Your Life..", 0.5, DrawFor(20))]);
            r.status == OpponentWon && r.player.fuel == 0 && r.opponent.fuel == 100
  {
  }

  /** An escape on a draw of 0.9 ends the game with both fuels as they were. */
  lemma EscapeLeavesFuel()
    ensures var r := Play(Game(Fighter, Combatant("Hero", 40), Combatant("Assassin", 70), Active),
                          [TurnInput("Run For Your Life..", 0.9, 0.0), TurnInput("Attack", 0.0, 0.0)]);
            r.status == PlayerFled && r.player.fuel == 40 && r.opponent.fuel == 70
  {
  }

  /** An attack of 10 leaves an opponent at 12 on 2, and the opponent replies with 27. */
  lemma WeakAttackIsAnswered()
    ensures var r := Play(Game(Fighter, Combatant("Hero", 100), Combatant("Zombie", 12), Active),
                          [TurnInput("Attack", DrawFor(10), DrawFor(27))]);
            r.status == Active && r.player.fuel == 73 && r.opponent.fuel == 2
  {
  }

  /** A potion of 12 at fuel 95 gives 107; the opponent still replies with 10. */
  lemma PotionHasNoCap()
    ensures var r := Play(Game(Mage, Combatant("Hero", 95), Combatant("Zombie", 100), Active),
                          [TurnInput("Drink Potion", DrawFor(12), 0.0)]);
            r.status == Active && r.player.fuel == 97 && r.opponent.fuel == 100
  {
    assert Heal(Combatant("Hero", 95), 12).fuel == 107;
  }

  /** A mage's "Attack" is not on its menu and does nothing, yet the opponent still replies. */
  lemma WrongClassActionStillReplied()
    ensures var r := Play(Game(Mage, Combatant("Hero", 100), Combatant("Zombie", 100), Active),
                          [TurnInput("Attack", 0.0, DrawFor(25))]);
            r.status == Active && r.player.fuel == 75 && r.opponent.fuel == 100
  {
  }
}
