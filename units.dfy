/**
 * The unit a weapon belongs to or hits. Its own movement and health logic is
 * not part of this model: a unit only records, in order, the damage and the
 * forces applied to it.
 */
module Units {
  import opened Xna

  class Unit {
    var center: Vector2
    const hitRect: Rectangle
    var damageTaken: seq<int>
    var forcesTaken: seq<Force>

    constructor (center: Vector2, hitRect: Rectangle)
      ensures this.center == center && this.hitRect == hitRect
      ensures damageTaken == [] && forcesTaken == []
    {
      this.center := center;
      this.hitRect := hitRect;
      damageTaken := [];
      forcesTaken := [];
    }

    method ApplyDamage(amount: int)
      modifies this`damageTaken
      ensures damageTaken == old(damageTaken) + [amount]
    {
      damageTaken := damageTaken + [amount];
    }

    method ApplyForce(force: Force)
      modifies this`forcesTaken
      ensures forcesTaken == old(forcesTaken) + [force]
    {
      forcesTaken := forcesTaken + [force];
    }
  }
}
