/** The enemy record, as far as the modelled core reads or writes it. */
module Enemies {
  import opened Geometry

  /** `bodyRadius` is the collision radius that player.go reads and main.go passes
      to NewEnemy as its fourth argument (enemySize). */
  datatype Enemy = Enemy(
    pos: Vec,
    health: real,
    maxHealth: real,
    damage: real,
    destroyed: bool,
    bodyRadius: real)

  /** DealDamage: a plain health subtraction; it never touches `destroyed`. */
  function DealDamage(e: Enemy, dmg: real): (r: Enemy)
    ensures r.health == e.health - dmg
    ensures r == e.(health := r.health)
  {
    e.(health := e.health - dmg)
  }
}
