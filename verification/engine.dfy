/**
 The turn engine: session setup and the game loop as a state machine over a
 finite sequence of per-turn inputs (the answer to the action prompt plus the
 draws the turn may consume). The game ends when the player escapes, when the
 player's action leaves the opponent beaten, or when the opponent's reply
 leaves the player beaten; otherwise it stays `Active` for the next input.
 */
module Engine {
  import opened Character
  import opened Resolver

  datatype Status = Active | PlayerWon | OpponentWon | PlayerFled

  datatype Game = Game(kind: Kind, player: Combatant, opponent: Combatant, status: Status)

  /**
   One pass of the loop's inputs: the answer to the action prompt, the draw
   the player's action uses (damage, healing or escape), and the draw for the
   opponent's reply.
   */
  datatype TurnInput = TurnInput(answer: string, actionDraw: Draw, opponentDraw: Draw)

  /** The loop condition: neither side is beaten. */
  predicate Guard(g: Game) {
    !IsDefeated(g.player) && !IsDefeated(g.opponent)
  }

  /** Fuel is never negative, and the status agrees with who is beaten. */
  predicate Consistent(g: Game) {
    && g.player.fuel >= 0
    && g.opponent.fuel >= 0
    && match g.status
       case Active => !(IsDefeated(g.player) && IsDefeated(g.opponent))
       case PlayerWon => IsDefeated(g.opponent) && !IsDefeated(g.player)
       case OpponentWon => IsDefeated(g.player) && !IsDefeated(g.opponent)
       case PlayerFled => Guard(g)
  }

  /** Class selection: a mage exactly when the answer is "Mage", a fighter otherwise. */
  function SelectKind(answer: string): (k: Kind)
    ensures k == Mage <==> answer == "Mage"
  {
    if answer == "Mage" then Mage else Fighter
  }

  /** Setup of the extended edition: both sides start with full fuel. */
  function NewGame(playerName: string, classAnswer: string, opponentName: string): (g: Game)
    ensures g.kind == Mage <==> classAnswer == "Mage"
    ensures g.player.name == playerName && g.opponent.name == opponentName
    ensures g.player.fuel == StartingFuel && g.opponent.fuel == StartingFuel
    ensures g.status == Active && Guard(g) && Consistent(g)
  {
    Game(SelectKind(classAnswer), New(playerName), New(opponentName), Active)
  }

  /** Setup of the minimal edition, which always builds a fighter. */
  function NewClassicGame(playerName: string, opponentName: string): (g: Game)
    ensures g.kind == Fighter
    ensures g == NewGame(playerName, "Player", opponentName)
  {
    Game(Fighter, New(playerName), New(opponentName), Active)
  }

  /** Leaving the loop because its condition failed. */
  function ExitLoop(g: Game): (r: Game)
    requires !Guard(g)
    ensures r.status != Active
    ensures r.status == OpponentWon <==> IsDefeated(g.player)
    ensures r.kind == g.kind && r.player == g.player && r.opponent == g.opponent
    ensures Consistent(g) ==> Consistent(r)
  {
    g.(status := if IsDefeated(g.player) then OpponentWon else PlayerWon)
  }

  /**
   One pass of the loop body: the player acts; a successful escape ends the
   game at once; a beaten opponent ends it with a player win and no reply;
   otherwise the opponent attacks once, and a beaten player ends it.
   */
  function Turn(g: Game, t: TurnInput): (r: Game)
    requires g.status == Active && Guard(g)
    ensures r.kind == g.kind
    ensures r.player.name == g.player.name && r.opponent.name == g.opponent.name
    ensures Consistent(r)
    ensures r.status == Active ==> Guard(r)
    ensures r.status == PlayerFled <==> Parse(t.answer) == RunAway && Escapes(t.actionDraw)
    ensures r.status == PlayerFled ==> r.player == g.player && r.opponent == g.opponent
    ensures r.status == PlayerWon <==> IsDefeated(r.opponent)
    // a win comes only from a strike, and the beaten opponent does not reply
    ensures r.status == PlayerWon ==> Parse(t.answer) == Strike(g.kind) && r.player == g.player
    ensures r.status == OpponentWon <==> IsDefeated(r.player)
    // the opponent replied exactly when the game neither fled nor was won
    ensures (r.status == Active || r.status == OpponentWon) && Parse(t.answer) != DrinkPotion ==>
              DamagedWithin(g.player.fuel, r.player.fuel, 10, 29)
    ensures (r.status == Active || r.status == OpponentWon) && Parse(t.answer) == DrinkPotion ==>
              DamagedWithin(g.player.fuel + Roll(t.actionDraw), r.player.fuel, 10, 29)
    // the reply's damage is the one the opponent's draw picks
    ensures (r.status == Active || r.status == OpponentWon) && Parse(t.answer) != DrinkPotion ==>
              r.player.fuel == Max(0, g.player.fuel - Roll(t.opponentDraw))
    ensures (r.status == Active || r.status == OpponentWon) && Parse(t.answer) == DrinkPotion ==>
              r.player.fuel == Max(0, g.player.fuel + Roll(t.actionDraw) - Roll(t.opponentDraw))
    // the opponent's fuel changes only through the player's strike
    ensures Parse(t.answer) != Strike(g.kind) ==> r.opponent == g.opponent
    ensures Parse(t.answer) == Strike(g.kind) ==>
              r.opponent == PlayerAct(g.kind, Strike(g.kind), g.player, g.opponent, t.actionDraw).opponent
  {
    var e := PlayerAct(g.kind, Parse(t.answer), g.player, g.opponent, t.actionDraw);
    if e.escaped then
      Game(g.kind, e.player, e.opponent, PlayerFled)
    else if IsDefeated(e.opponent) then
      Game(g.kind, e.player, e.opponent, PlayerWon)
    else
      var hit := OpponentAttack(e.player, t.opponentDraw);
      Game(g.kind, hit, e.opponent, if IsDefeated(hit) then OpponentWon else Active)
  }

  /**
   The game loop driven by a finite sequence of inputs. A finished game
   ignores further inputs; an active one whose condition fails leaves the
   loop; an active one with no inputs left is still waiting for the player.
   */
  function Play(g: Game, inputs: seq<TurnInput>): (r: Game)
    ensures r.kind == g.kind
    ensures r.player.name == g.player.name && r.opponent.name == g.opponent.name
    ensures g.status != Active ==> r == g
    ensures r.status == Active ==> Guard(r)
    ensures Consistent(g) ==> Consistent(r)
    decreases |inputs|
  {
    if g.status != Active then g
    else if !Guard(g) then ExitLoop(g)
    else if |inputs| == 0 then g
    else Play(Turn(g, inputs[0]), inputs[1..])
  }

  /** Playing two input sequences one after the other is playing their concatenation. */
  lemma {:induction false} PlayAppend(g: Game, a: seq<TurnInput>, b: seq<TurnInput>)
    ensures Play(g, a + b) == Play(Play(g, a), b)
    decreases |a|
  {
    if g.status != Active || !Guard(g) {
    } else if |a| == 0 {
      assert a + b == b;
    } else {
      assert (a + b)[0] == a[0];
      assert (a + b)[1..] == a[1..] + b;
      PlayAppend(Turn(g, a[0]), a[1..], b);
    }
  }

  /** Once the game is over, the remaining inputs are never used. */
  lemma FinishedIgnoresRest(g: Game, a: seq<TurnInput>, b: seq<TurnInput>)
    requires Play(g, a).status != Active
    ensures Play(g, a + b) == Play(g, a)
  {
    PlayAppend(g, a, b);
  }

  /** Every game reachable from setup is consistent: fuel never drops below zero. */
  lemma ReachableConsistent(playerName: string, classAnswer: string, opponentName: string,
                            inputs: seq<TurnInput>)
    ensures var r := Play(NewGame(playerName, classAnswer, opponentName), inputs);
            Consistent(r) && r.player.fuel >= 0 && r.opponent.fuel >= 0
            && (IsDefeated(r.player) <==> r.player.fuel == 0)
            && (IsDefeated(r.opponent) <==> r.opponent.fuel == 0)
  {
  }

  /** The player answers every prompt with the class's offensive action. */
  predicate AllStrikes(k: Kind, inputs: seq<TurnInput>) {
    forall i :: 0 <= i < |inputs| ==> Parse(inputs[i].answer) == Strike(k)
  }

  /**
   Striking on every turn ends the game once the strikes could have emptied
   the opponent's fuel: each strike the opponent survives takes at least
   `StrikeDamage` off it.
   */
  lemma {:induction false} StrikesEndGame(g: Game, inputs: seq<TurnInput>)
    requires AllStrikes(g.kind, inputs)
    requires g.opponent.fuel <= StrikeDamage(g.kind) * |inputs|
    ensures Play(g, inputs).status != Active
    decreases |inputs|
  {
    if g.status != Active || !Guard(g) {
    } else {
      assert |inputs| > 0;
      var t := inputs[0];
      assert Parse(t.answer) == Strike(g.kind);
      var r := Turn(g, t);
      var e := PlayerAct(g.kind, Parse(t.answer), g.player, g.opponent, t.actionDraw);
      assert r.opponent == e.opponent;
      if r.status == Active {
        assert !IsDefeated(e.opponent);
        assert e.opponent.fuel <= g.opponent.fuel - StrikeDamage(g.kind);
        assert AllStrikes(r.kind, inputs[1..]) by {
          forall i | 0 <= i < |inputs[1..]|
            ensures Parse(inputs[1..][i].answer) == Strike(r.kind)
          {
            assert inputs[1..][i] == inputs[i + 1];
          }
        }
        StrikesEndGame(r, inputs[1..]);
      }
    }
  }

  /** A fighter's ten attacks, or a mage's seven spells, always end a fresh game. */
  lemma StrikesEndFreshGame(playerName: string, classAnswer: string, opponentName: string,
                            inputs: seq<TurnInput>)
    requires AllStrikes(SelectKind(classAnswer), inputs)
    requires |inputs| >= (if classAnswer == "Mage" then 7 else 10)
    ensures Play(NewGame(playerName, classAnswer, opponentName), inputs).status != Active
  {
    StrikesEndGame(NewGame(playerName, classAnswer, opponentName), inputs);
  }

  /** The turn that always drinks a potion healing 29 while the opponent hits for 10. */
  function StallingTurn(): (t: TurnInput)
    ensures Parse(t.answer) == DrinkPotion
    ensures Roll(t.actionDraw) == 29 && Roll(t.opponentDraw) == 10
  {
    TurnInput("Drink Potion", DrawFor(29), 0.0)
  }

  /**
   The game need not end: with potions healing more than the opponent hits,
   the player gains 19 fuel per turn and the game stays active for any number
   of turns.
   */
  lemma {:induction false} PotionsCanStall(g: Game, n: nat)
    requires g.status == Active && Guard(g)
    ensures var r := Play(g, seq(n, _ => StallingTurn()));
            r.status == Active && r.player.fuel == g.player.fuel + 19 * n && r.opponent == g.opponent
    decreases n
  {
    var inputs := seq(n, _ => StallingTurn());
    if n > 0 {
      var r := Turn(g, inputs[0]);
      assert inputs[0] == StallingTurn();
      assert r.player.fuel == g.player.fuel + 19;
      assert inputs[1..] == seq(n - 1, _ => StallingTurn());
      PotionsCanStall(r, n - 1);
    }
  }

  /**
   The loop as the game runs it: it prompts while neither side is beaten and
   inputs remain, leaves early on an escape or a win, and reports how many
   prompts were answered. No prompt follows the turn that ended the game.
   */
  method Battle(g: Game, inputs: seq<TurnInput>) returns (r: Game, turns: nat)
    ensures r == Play(g, inputs)
    ensures turns <= |inputs|
    ensures r.status == Active ==> turns == |inputs|
    // only the answered prompts decide the outcome ...
    ensures r == Play(g, inputs[..turns])
    // ... and every answered prompt was asked while the game was still on
    ensures 0 < turns ==> Play(g, inputs[..turns - 1]).status == Active
  {
    if g.status != Active {
      return g, 0;
    }
    var player, opponent, status := g.player, g.opponent, Active;
    turns := 0;
    while !IsDefeated(player) && !IsDefeated(opponent) && turns < |inputs|
      invariant turns <= |inputs|
      invariant status == Active || status == OpponentWon
      invariant status == OpponentWon ==> IsDefeated(player)
      invariant Play(g, inputs) == Play(Game(g.kind, player, opponent, status), inputs[turns..])
      invariant !Guard(g) ==> turns == 0
      invariant Guard(g) ==> Play(g, inputs[..turns]) == Game(g.kind, player, opponent, status)
      invariant 0 < turns ==> Play(g, inputs[..turns - 1]).status == Active
    {
      var t := inputs[turns];
      assert inputs[turns..][0] == t;
      assert inputs[turns..][1..] == inputs[turns + 1..];
      PlayAppend(g, inputs[..turns], [t]);
      assert inputs[..turns] + [t] == inputs[..turns + 1];
      turns := turns + 1;
      var e := PlayerAct(g.kind, Parse(t.answer), player, opponent, t.actionDraw);
      player, opponent := e.player, e.opponent;
      if e.escaped {
        status := PlayerFled;
        break;
      }
      if !IsDefeated(opponent) {
        player := OpponentAttack(player, t.opponentDraw);
      } else {
        status := PlayerWon;
        break;
      }
      if IsDefeated(player) {
        status := OpponentWon;
      }
    }
    r := Game(g.kind, player, opponent, status);
    if status == Active && !Guard(r) {
      r := ExitLoop(r);
    }
  }
}
