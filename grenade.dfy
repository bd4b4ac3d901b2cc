/** The timed grenade of grenade.go: placed, exploding once on the first update
    at or after its fuse time (damaging every enemy within the blast radius),
    and destroyed on a later update once the explosion has been shown. */
module Grenades {
  import opened Geometry
  import opened Enemies

  const GrenadeRadius: real := 20.0
  /** Fuse length in seconds. */
  const FuseTime: real := 2.0
  const ExplosionSize: real := 150.0
  const GrenadeDamage: real := 200.0
  /** How long the explosion stays on screen before the grenade is destroyed. */
  const ExplosionShown: real := 0.5

  // ---------------------------------------------------------------------------
  // The blast, on values

  /** One enemy after the blast: damaged when its distance to the centre is at
      most the explosion size. */
  function Hit(center: Vec, e: Enemy): Enemy
  {
    if WithinDistance(center, e.pos, ExplosionSize) then DealDamage(e, GrenadeDamage) else e
  }

  /** The enemy list after the blast, enemy by enemy in list order. */
  function Blast(center: Vec, enemies: seq<Enemy>): seq<Enemy>
    decreases |enemies|
  {
    if enemies == [] then []
    else Blast(center, enemies[..|enemies| - 1]) + [Hit(center, enemies[|enemies| - 1])]
  }

  /** The blast keeps the list's length and order and treats each enemy on its own. */
  lemma {:induction false} BlastPointwise(center: Vec, enemies: seq<Enemy>)
    ensures |Blast(center, enemies)| == |enemies|
    ensures forall i :: 0 <= i < |enemies| ==> Blast(center, enemies)[i] == Hit(center, enemies[i])
    decreases |enemies|
  {
    if enemies != [] {
      BlastPointwise(center, enemies[..|enemies| - 1]);
    }
  }

  /** The blast of one more enemy extends the blast of the list before it. */
  lemma BlastStep(center: Vec, enemies: seq<Enemy>, i: nat)
    requires i < |enemies|
    ensures Blast(center, enemies[..i + 1]) == Blast(center, enemies[..i]) + [Hit(center, enemies[i])]
  {
    assert enemies[..i + 1][..i] == enemies[..i];
  }

  /** The damage loop of Update: every enemy of the array within the blast
      radius of `center` takes the grenade's damage, in place. */
  method ApplyBlast(center: Vec, enemies: array<Enemy>)
    modifies enemies
    ensures enemies[..] == Blast(center, old(enemies[..]))
  {
    ghost var before := enemies[..];
    var i := 0;
    while i < enemies.Length
      invariant 0 <= i <= enemies.Length
      invariant enemies[..i] == Blast(center, before[..i])
      invariant enemies[i..] == before[i..]
    {
      BlastStep(center, before, i);
      assert enemies[i] == before[i];
      if WithinDistance(center, enemies[i].pos, ExplosionSize) {
        enemies[i] := DealDamage(enemies[i], GrenadeDamage);
      }
      assert enemies[..i + 1] == enemies[..i] + [enemies[i]];
      i := i + 1;
    }
    assert before[..enemies.Length] == before;
  }

  /** Every enemy within the radius loses exactly the grenade's damage, every
      other enemy is unchanged, and no enemy's destroyed flag, position or
      other field changes. */
  lemma BlastEffect(center: Vec, enemies: seq<Enemy>)
    ensures |Blast(center, enemies)| == |enemies|
    ensures forall i :: 0 <= i < |enemies| ==>
              var after := Blast(center, enemies)[i];
              after == enemies[i].(health := after.health) &&
              after.health == enemies[i].health -
                (if WithinDistance(center, enemies[i].pos, ExplosionSize) then GrenadeDamage else 0.0)
  {
    BlastPointwise(center, enemies);
  }

  // ---------------------------------------------------------------------------
  // The timer, on values

  /** The grenade's timer fields: exploded yet, destroyed yet, and the time the
      next transition is due (first the explosion, then the destruction). */
  datatype Fuse = Fuse(exploded: bool, destroyed: bool, deadline: real)

  /** A freshly placed grenade. */
  function Placed(t: real): (f: Fuse)
    ensures !f.exploded && !f.destroyed && f.deadline == t + FuseTime
  {
    Fuse(false, false, t + FuseTime)
  }

  /** The update at time `t` sets the grenade off. */
  predicate Detonates(f: Fuse, t: real)
  {
    !f.exploded && t >= f.deadline
  }

  /** The timer part of Update at time `t`. */
  function Tick(f: Fuse, t: real): (r: Fuse)
    ensures Detonates(f, t) ==> r.exploded && r.deadline == t + ExplosionShown && r.destroyed == f.destroyed
    ensures !Detonates(f, t) ==> r.exploded == f.exploded && r.deadline == f.deadline
    ensures r.destroyed <==> f.destroyed || (f.exploded && t > f.deadline)
  {
    var g := if Detonates(f, t) then f.(exploded := true, deadline := t + ExplosionShown) else f;
    if g.exploded && t > g.deadline then g.(destroyed := true) else g
  }

  /** The grenade explodes at most once: after a detonating update, no later
      update detonates it again. */
  lemma ExplodesOnce(f: Fuse, t: real, later: real)
    requires Detonates(f, t)
    ensures !Detonates(Tick(f, t), later)
  {
  }

  /** Once exploded, a grenade stays exploded, and once destroyed it stays destroyed. */
  lemma Irreversible(f: Fuse, t: real)
    ensures f.exploded ==> Tick(f, t).exploded
    ensures f.destroyed ==> Tick(f, t).destroyed
  {
  }

  /** The update that sets the grenade off never destroys it. */
  lemma NotDestroyedOnDetonation(f: Fuse, t: real)
    requires Detonates(f, t) && !f.destroyed
    ensures !Tick(f, t).destroyed
  {
  }

  /** The life of a grenade placed at `t0`: updates before the fuse time leave it
      as placed; the first update at `t1 >= t0 + 2` sets it off; an update after
      `t1 + 0.5` destroys it. */
  lemma Lifecycle(t0: real, early: real, t1: real, t2: real)
    requires early < t0 + FuseTime <= t1 && t2 > t1 + ExplosionShown
    ensures Tick(Placed(t0), early) == Placed(t0)
    ensures Detonates(Placed(t0), t1)
    ensures var f1 := Tick(Placed(t0), t1); f1.exploded && !f1.destroyed && Tick(f1, t2).destroyed
  {
  }

  // ---------------------------------------------------------------------------
  // The grenade object

  class Grenade {
    const pos: Vec
    const placedTime: real
    var hasExploded: bool
    var destroyed: bool
    var explosionTime: real
    var currentTime: real

    function Timer(): Fuse
      reads this
    {
      Fuse(hasExploded, destroyed, explosionTime)
    }

    /** NewGrenade: placed at `p` at time `t`, due to explode at `t + 2`. */
    constructor (p: Vec, t: real)
      ensures pos == p && placedTime == t && currentTime == t
      ensures Timer() == Placed(t)
    {
      pos := p;
      placedTime := t;
      explosionTime := t + FuseTime;
      currentTime := t;
      hasExploded := false;
      destroyed := false;
    }

    /** Update at time `t`: records the time, advances the timer and, on the
        detonating update only, applies the blast to the enemy list in place. */
    method Update(t: real, enemies: array<Enemy>)
      modifies this, enemies
      ensures currentTime == t
      ensures Timer() == Tick(old(Timer()), t)
      ensures enemies[..] == if Detonates(old(Timer()), t) then Blast(pos, old(enemies[..])) else old(enemies[..])
    {
      currentTime := t;
      if !hasExploded && currentTime >= explosionTime {
        hasExploded := true;
        ApplyBlast(pos, enemies);
        explosionTime := t + ExplosionShown;
      }
      if hasExploded && t > explosionTime {
        destroyed := true;
      }
    }
  }
}
