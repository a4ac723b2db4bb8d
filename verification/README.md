# Battle game turn engine, in Dafny

A model of the combat core of a terminal battle game that comes in two
editions. The minimal edition (`index.ts`) has one player class. The extended
edition (`index.js`) adds a `Mage` class. A player and an opponent each hold a
fuel level, the game's only measure of health. Each turn the player attacks,
casts a spell, drinks a potion or tries to run away. The opponent then attacks
back, unless the player escaped or the opponent is already beaten.

The model is functional:

- `character.dfy` (module `Character`): the combatant record, with
  `TakeDamage` (clamped at 0), `Heal` (no cap) and `IsDefeated` (`fuel <= 0`).
- `resolver.dfy` (module `Resolver`): the injected random draw `Draw`, a real
  in [0, 1). It also holds the damage/heal formula `Roll` =
  floor(r * 20) + 10, the fixed spell damage 15, and the escape test `r > 0.5`.
  The classes are a tagged variant: `Fighter` is the class the source calls
  `Player`, and `Mage` is the other. The file also has the action menus, the
  parsing of the menu answer, and the player's action (`PlayerAct` for the
  extended edition, `ClassicAct` for the minimal one).
- `engine.dfy` (module `Engine`): session setup and the game loop. The loop is
  a state machine with states `Active`, `PlayerWon`, `OpponentWon` and
  `PlayerFled`. `Turn` is one pass of the loop body. `Play` runs the loop over
  a finite sequence of per-turn inputs; each input is an answer plus two
  draws. `Battle` is the same loop written imperatively, with its `break`s,
  and is proved equal to `Play`.
- `scenarios.dfy` (module `Scenarios`): end-to-end turns with fixed draws.

The minimal edition's loop (index.ts:96-117) is the extended edition's loop
with a `Fighter`. `ClassicAct` is proved equal to `PlayerAct(Fighter, …)`, so
`Turn` and `Play` on a `Fighter` game model both editions.

The game need not end: `PotionsCanStall` shows that a player can drink potions
forever. So the model runs the loop over a finite input sequence and never
claims that the game terminates. `StrikesEndGame` shows the other direction:
striking on every turn always ends the game.

`this.fuel -= damage` would raise the fuel for a negative value. No caller
passes one, so `TakeDamage` keeps that arithmetic.

## Model

| member | source | states |
|---|---|---|
| Character.New | index.ts:6-12 | a new combatant keeps its name, starts with fuel 100, and is not beaten |
| Character.TakeDamage | index.ts:14-21 | fuel becomes max(0, fuel - damage) and is never negative; from non-negative fuel it never rises for non-negative damage; afterwards "beaten" holds exactly when the fuel is 0, and exactly when the damage was at least the old fuel |
| Character.IsDefeated | index.ts:19-21 | a combatant is beaten exactly when its fuel is 0 or less |
| Character.Heal | index.ts:33 | the fuel rises by exactly the amount, with no upper cap |
| Character.DamagedWithinExactly | index.js:12-16 | `DamagedWithin(before, after, lo, hi)` holds exactly for the results of one clamped damage of some value in [lo, hi] (both directions) |
| Resolver.Roll | index.js:33 | for a draw in [0, 1), floor(r*20)+10 lies in [10, 29] and is the floor of r*20 shifted by 10 |
| Resolver.DrawFor | index.js:64 | every value in [10, 29] is produced by some draw in [0, 1), so the range is tight |
| Resolver.RollMonotone | index.ts:26 | a larger draw never gives a smaller damage or heal |
| Resolver.Escapes | index.ts:39-40 | an escape attempt succeeds exactly when the draw is strictly greater than 0.5 |
| Resolver.EscapeThreshold | index.ts:39-40 | a draw of exactly 0.5 fails to escape, 0.50000001 succeeds, and no draw at or below 0.5 succeeds |
| Resolver.Parse | index.js:187-201 | the answer is recognised by exact text; it yields one of the four actions exactly when the text is one of the four menu labels, and keeps the text otherwise |
| Resolver.ParseLabel | index.js:145 | parsing an action's menu text gives that action back |
| Resolver.Strike | index.js:187-191 | the fighter's offensive action is Attack and the mage's is Cast Spell; each is an action the class has |
| Resolver.Menu | index.js:140-157 | a fighter is offered Attack, Drink Potion and Run; a mage is offered Cast Spell, Drink Potion and Run |
| Resolver.MenuMatchesOffers | index.js:140-157 | a class's action menu lists exactly the actions that have an effect for that class |
| Resolver.PlayerAct | index.js:187-206 | Attack works only for a fighter and takes floor(r*20)+10 of the draw, a value in 10-29, off the opponent (clamped). Cast Spell works only for a mage and takes exactly 15. A potion heals floor(r*20)+10, a value in 10-29, and leaves the opponent alone. Running changes no fuel and escapes iff the draw > 0.5. Any other answer changes nothing |
| Resolver.DrawPicksMagnitude | index.js:32-40 | the draw picks the magnitude exactly: for every k in [10, 29] there is a draw on which an attack deals k, a potion heals k and the opponent's attack deals k |
| Resolver.SpellIgnoresDraw | index.js:80-84 | a spell's effect does not depend on the random draw |
| Resolver.ClassicAct | index.ts:99-105 | the minimal edition's action dispatch agrees with the extended edition's fighter on every answer |
| Resolver.OpponentAttack | index.js:63-66 | the opponent's attack takes floor(r*20)+10 of its draw, a value in 10-29, off the player, clamped at 0, so the player is beaten exactly at fuel 0 |
| Engine.SelectKind | index.js:167-172 | the class is Mage exactly when the answer is "Mage", and the fighter class otherwise |
| Engine.NewGame | index.js:163-173 | both combatants start at fuel 100 with the names given, the class follows the answer, and the game starts active and consistent |
| Engine.NewClassicGame | index.ts:88-92 | the minimal edition always builds a fighter, the same as the extended setup for the answer "Player" |
| Engine.Guard | index.js:177 | the loop continues exactly while neither side is beaten |
| Engine.ExitLoop | index.js:177 | leaving the loop because its condition failed ends the game, with the opponent winning exactly when the player is beaten |
| Engine.Turn | index.js:180-216 | the game ends as "fled" iff the answer is Run and the draw > 0.5, with both fuels unchanged. It ends as "player won" iff the opponent is beaten; that takes a strike, and the player is left untouched because no reply follows. A strike changes the opponent exactly as the player's action does, and nothing else changes the opponent. Otherwise the opponent hits once, after any potion, with the damage floor(r*20)+10 of its own draw, a value in 10-29, and "opponent won" holds iff the player is now beaten. An active result has neither side beaten |
| Engine.Play | index.js:177-217 | a finished game ignores further inputs; an active result has neither side beaten; consistency (no negative fuel, status agrees with who is beaten) is kept |
| Engine.PlayAppend | index.ts:96-117 | playing inputs a then b is the same as playing a followed by b |
| Engine.FinishedIgnoresRest | index.js:203-212 | once an escape or a win has ended the game, later inputs have no effect |
| Engine.ReachableConsistent | index.js:8-19 | in every game reachable from setup, fuel is never negative, and "beaten" means fuel exactly 0 |
| Engine.StrikesEndGame | index.js:187-213 | if the player strikes every turn and the strikes could have emptied the opponent's fuel (at least 10 per attack, 15 per spell), the game is over |
| Engine.StrikesEndFreshGame | index.js:161-217 | from setup, ten attacks by a fighter or seven spells by a mage always end the game |
| Engine.PotionsCanStall | index.js:193-209 | with potions healing 29 and replies hitting 10, the game stays active for any number of turns, and the player gains 19 fuel per turn |
| Engine.Battle | index.js:177-217 | the imperative loop, with its breaks, computes exactly `Play`. Its result depends only on the prompts it answered, and every answered prompt was asked while the game was still active, so no prompt follows an escape, a win or a defeat |
| Scenarios.WinDrawsNoReply | index.ts:107-112 | fighter at 100 against an opponent at 12: an attack of 15 wins, and the player's fuel stays 100 |
| Scenarios.WeakAttackIsAnswered | index.js:207-209 | against an opponent at 12, an attack of 10 leaves it at 2, and the opponent replies with 27 |
| Scenarios.ReplyEmptiesTank | index.js:214-216 | a failed escape at fuel 15, then a hit of 20: fuel clamps to 0 and the opponent wins |
| Scenarios.EscapeLeavesFuel | index.ts:103-104 | an escape on a draw of 0.9 ends the game with both fuels unchanged, and the next input is ignored |
| Scenarios.PotionHasNoCap | index.ts:31-35 | at fuel 95, a potion of 12 and a reply of 10 leave 97 (107 before the reply), and the game goes on |
| Scenarios.WrongClassActionStillReplied | index.js:187-209 | a mage answering "Attack" does nothing, yet the opponent still replies |

## Left out

- Interactive prompts (name, class, opponent and action menus): their answers
  are inputs to the model. The opponent menu only supplies a name, so the
  opponent name is a free string.
- Console output, colouring, the title banner, status display and ASCII art:
  presentation only.
- `Math.random()` itself: replaced by an injected `Draw` in [0, 1) per use.
  The model works in exact real arithmetic. Floating-point rounding of
  `r * 20` is not modelled; for doubles below 1 it does not reach 20.
- Fuel is a JavaScript number; the model uses unbounded integers. The two
  agree while fuel stays below 2^53. Potions can raise fuel without bound
  (see `PotionsCanStall`), but at most 19 per turn, so reaching 2^53 takes
  over 10^14 turns.
- `async`/`await`: the only suspension is waiting for input, which becomes the
  input sequence.
- Termination of the game loop: it is not guaranteed (see
  `PotionsCanStall`), so `Play` consumes a finite input sequence and may end
  `Active`.
