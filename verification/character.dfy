/**
 The combatant shared by both editions of the battle game: a display name and
 a fuel level, which is the only measure of health. Fuel starts at 100, damage
 never drives it below zero, and healing has no ceiling.
 */
module Character {

  /** Fuel every combatant is created with. */
  const StartingFuel: int := 100

  datatype Combatant = Combatant(name: string, fuel: int)

  function Max(a: int, b: int): int {
    if a < b then b else a
  }

  /** A freshly constructed combatant. */
  function New(name: string): (c: Combatant)
    ensures c.name == name && c.fuel == StartingFuel
    ensures !IsDefeated(c)
  {
    Combatant(name, StartingFuel)
  }

  /** A combatant is beaten as soon as its fuel is no longer positive. */
  predicate IsDefeated(c: Combatant) {
    c.fuel <= 0
  }

  /** Subtracts `damage` from the fuel and clamps the result at zero. */
  function TakeDamage(c: Combatant, damage: int): (r: Combatant)
    ensures r.name == c.name
    ensures r.fuel >= 0
    ensures r.fuel == Max(0, c.fuel - damage)
    ensures damage >= 0 && c.fuel >= 0 ==> r.fuel <= c.fuel
    ensures damage <= c.fuel ==> r.fuel == c.fuel - damage
    // after any damage, defeat means exactly an empty tank
    ensures IsDefeated(r) <==> r.fuel == 0
    ensures IsDefeated(r) <==> damage >= c.fuel
  {
    var left := c.fuel - damage;
    c.(fuel := if left < 0 then 0 else left)
  }

  /** Adds `amount` to the fuel; there is no upper cap. */
  function Heal(c: Combatant, amount: int): (r: Combatant)
    ensures r.name == c.name
    ensures r.fuel - c.fuel == amount
    ensures amount >= 0 && IsDefeated(r) ==> IsDefeated(c)
  {
    c.(fuel := c.fuel + amount)
  }

  /**
   `after` is a fuel level that `TakeDamage` can leave of `before` for some
   damage between `lo` and `hi` inclusive.
   */
  predicate DamagedWithin(before: int, after: int, lo: int, hi: int) {
    && 0 <= after
    && before - after <= hi
    && (after == 0 || lo <= before - after)
  }

  /**
   `DamagedWithin` describes exactly the outcomes of one `TakeDamage` call with
   a damage value in [lo, hi].
   */
  lemma DamagedWithinExactly(c: Combatant, r: Combatant, lo: int, hi: int)
    requires lo <= hi
    ensures (r.name == c.name && DamagedWithin(c.fuel, r.fuel, lo, hi))
            <==> (exists d :: lo <= d <= hi && r == TakeDamage(c, d))
  {
    if r.name == c.name && DamagedWithin(c.fuel, r.fuel, lo, hi) {
      var d := if r.fuel > 0 then c.fuel - r.fuel else Max(lo, c.fuel);
      assert lo <= d <= hi;
      assert r == TakeDamage(c, d);
    }
    if exists d :: lo <= d <= hi && r == TakeDamage(c, d) {
      var d :| lo <= d <= hi && r == TakeDamage(c, d);
      assert r.fuel == Max(0, c.fuel - d);
    }
  }
}
