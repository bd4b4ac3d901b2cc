/** The `Collides` capability of collision.go as a closed set of body variants.
    Each variant carries the data its own Position, CheckCollision and Rearrange
    read. Enemies define neither test nor reaction in the code base, so both
    are parameters (`EnemyRules`) rather than invented behaviour. */
module Bodies {
  import opened Geometry
  import opened Enemies
  import opened Loot
  import opened GrenadePickups

  datatype Body =
    | PlayerBody(pos: Vec, hitRadius: real)    // hitRadius: playerSize * 0.7
    | EnemyBody(enemy: Enemy)
    | WeaponLootBody(loot: WeaponLoot)
    | AmmoLootBody(ammo: AmmoLoot)
    | GrenadePickupBody(pickup: GrenadePickup)
    | GrenadeBody(pos: Vec)

  /** What an enemy does when asked to test or to resolve an overlap. The
      reaction gives new positions for the enemy itself and for the other body. */
  datatype EnemyRules = EnemyRules(
    collides: (Enemy, Body) -> bool,
    separate: (Enemy, Body) -> (Vec, Vec))

  /** CollisionPair: the two bodies as indices into the body list. */
  datatype Pair = Pair(first: nat, second: nat)

  /** Position(): every variant reports the position it stores. */
  function Position(b: Body): Vec
  {
    match b
    case PlayerBody(pos, _) => pos
    case EnemyBody(e) => e.pos
    case WeaponLootBody(l) => l.pos
    case AmmoLootBody(a) => a.pos
    case GrenadePickupBody(g) => g.pos
    case GrenadeBody(pos) => pos
  }

  /** The same body placed at `p`; everything but the position is kept. */
  function MoveTo(b: Body, p: Vec): (r: Body)
    ensures Position(r) == p
  {
    match b
    case PlayerBody(_, radius) => PlayerBody(p, radius)
    case EnemyBody(e) => EnemyBody(e.(pos := p))
    case WeaponLootBody(l) => WeaponLootBody(l.(pos := p))
    case AmmoLootBody(a) => AmmoLootBody(a.(pos := p))
    case GrenadePickupBody(g) => GrenadePickupBody(g.(pos := p))
    case GrenadeBody(_) => GrenadeBody(p)
  }

  /** `after` is `before`, possibly at another position. */
  predicate SameButPosition(before: Body, after: Body)
  {
    MoveTo(before, Position(after)) == after
  }

  /** CheckCollision(self, other): the player tests its circle against enemies
      only; loot, ammo, grenade pickups and grenades never collide. */
  predicate CheckCollision(self: Body, other: Body, rules: EnemyRules)
  {
    match self
    case PlayerBody(pos, hitRadius) =>
      other.EnemyBody? && CirclesOverlap(pos, hitRadius, other.enemy.pos, other.enemy.bodyRadius)
    case EnemyBody(e) => rules.collides(e, other)
    case WeaponLootBody(_) => false
    case AmmoLootBody(_) => false
    case GrenadePickupBody(_) => false
    case GrenadeBody(_) => false
  }

  /** `first.Rearrange(second)` on the body list: only an enemy reacts; every other
      variant's Rearrange is empty. */
  function Rearrange(bodies: seq<Body>, p: Pair, rules: EnemyRules): (r: seq<Body>)
    requires p.first < |bodies| && p.second < |bodies|
    ensures |r| == |bodies|
    ensures !bodies[p.first].EnemyBody? ==> r == bodies
  {
    match bodies[p.first]
    case EnemyBody(e) =>
      var other := bodies[p.second];
      var (selfPos, otherPos) := rules.separate(e, other);
      bodies[p.first := MoveTo(bodies[p.first], selfPos)][p.second := MoveTo(other, otherPos)]
    case _ => bodies
  }

  /** Rearranging leaves every body outside the pair as it was, and only moves the two
      bodies of the pair: variant and every other field survive. */
  lemma RearrangeOnlyMoves(bodies: seq<Body>, p: Pair, rules: EnemyRules)
    requires p.first < |bodies| && p.second < |bodies|
    ensures forall k :: 0 <= k < |bodies| && k != p.first && k != p.second ==> Rearrange(bodies, p, rules)[k] == bodies[k]
    ensures forall k :: 0 <= k < |bodies| ==> SameButPosition(bodies[k], Rearrange(bodies, p, rules)[k])
  {
  }

  /** The player collides exactly with the enemies whose circle meets its own. */
  lemma PlayerCollidesOnlyWithEnemies(pos: Vec, hitRadius: real, other: Body, rules: EnemyRules)
    ensures CheckCollision(PlayerBody(pos, hitRadius), other, rules)
        <==> other.EnemyBody? && CirclesOverlap(pos, hitRadius, other.enemy.pos, other.enemy.bodyRadius)
  {
  }

  /** Loot, ammo, grenade pickups and grenades never report a collision, and asking
      them (or the player) to rearrange changes no body. */
  lemma PassiveBodiesAreInert(bodies: seq<Body>, p: Pair, other: Body, rules: EnemyRules)
    requires p.first < |bodies| && p.second < |bodies|
    requires !bodies[p.first].EnemyBody?
    ensures !bodies[p.first].PlayerBody? ==> !CheckCollision(bodies[p.first], other, rules)
    ensures Rearrange(bodies, p, rules) == bodies
  {
  }
}
