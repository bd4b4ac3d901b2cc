/** The game rules main.go applies each frame, lifted out of its loop: list
    compaction of destroyed world items, the per-level scaling formulas, the
    loot timeout, and the level progression (completion, transition, enemy
    spawning). */
module Game {
  import opened Enemies

  // ---------------------------------------------------------------------------
  // Compaction of world-item lists

  /** RemoveIndex: the list without its element at `i`, the rest in order. */
  function RemoveIndex<T>(s: seq<T>, i: int): (r: seq<T>)
    requires 0 <= i < |s|
    ensures |r| == |s| - 1
    ensures forall k :: 0 <= k < i ==> r[k] == s[k]
    ensures forall k :: i <= k < |r| ==> r[k] == s[k + 1]
  {
    s[..i] + s[i + 1..]
  }

  /** The items that are not destroyed, in their original order. */
  function Survivors<T>(s: seq<T>, destroyed: T -> bool): seq<T>
  {
    if s == [] then []
    else if destroyed(s[0]) then Survivors(s[1..], destroyed)
    else [s[0]] + Survivors(s[1..], destroyed)
  }

  /** An item survives exactly when it was in the list and is not destroyed. */
  lemma {:induction false} SurvivorsMembers<T>(s: seq<T>, destroyed: T -> bool)
    ensures forall x :: x in Survivors(s, destroyed) <==> x in s && !destroyed(x)
  {
    if s != [] {
      SurvivorsMembers(s[1..], destroyed);
      assert s == [s[0]] + s[1..];
    }
  }

  /** Compaction works piece by piece, so it keeps the relative order. */
  lemma {:induction false} SurvivorsAppend<T>(a: seq<T>, b: seq<T>, destroyed: T -> bool)
    ensures Survivors(a + b, destroyed) == Survivors(a, destroyed) + Survivors(b, destroyed)
  {
    if a == [] {
      assert a + b == b;
    } else {
      assert (a + b)[1..] == a[1..] + b;
      SurvivorsAppend(a[1..], b, destroyed);
    }
  }

  /** A list with nothing destroyed is left as it is; otherwise it gets shorter. */
  lemma {:induction false} SurvivorsShrink<T>(s: seq<T>, destroyed: T -> bool)
    ensures |Survivors(s, destroyed)| <= |s|
    ensures |Survivors(s, destroyed)| == |s| <==> forall k :: 0 <= k < |s| ==> !destroyed(s[k])
    ensures (forall k :: 0 <= k < |s| ==> !destroyed(s[k])) ==> Survivors(s, destroyed) == s
  {
    if s != [] {
      SurvivorsShrink(s[1..], destroyed);
      assert forall k :: 1 <= k < |s| ==> s[1..][k - 1] == s[k];
    }
  }

  /** A list with nothing destroyed survives compaction unchanged. */
  lemma {:induction false} SurvivorsAllLive<T>(s: seq<T>, destroyed: T -> bool)
    requires forall k :: 0 <= k < |s| ==> !destroyed(s[k])
    ensures Survivors(s, destroyed) == s
  {
    if s != [] {
      assert !destroyed(s[0]);
      assert forall k :: 0 <= k < |s| - 1 ==> s[1..][k] == s[k + 1];
      SurvivorsAllLive(s[1..], destroyed);
      assert [s[0]] + s[1..] == s;
    }
  }

  /** Compacting twice is the same as compacting once. */
  lemma SurvivorsIdempotent<T>(s: seq<T>, destroyed: T -> bool)
    ensures Survivors(Survivors(s, destroyed), destroyed) == Survivors(s, destroyed)
  {
    var r := Survivors(s, destroyed);
    SurvivorsMembers(s, destroyed);
    assert forall k :: 0 <= k < |r| ==> r[k] in r;
    SurvivorsShrink(r, destroyed);
  }

  /** The indices below `hi` of destroyed items, highest first, as
      UpdateWorldItems collects them. */
  function Marked<T>(s: seq<T>, destroyed: T -> bool, hi: nat): seq<nat>
    requires hi <= |s|
    decreases hi
  {
    if hi == 0 then []
    else if destroyed(s[hi - 1]) then [hi - 1] + Marked(s, destroyed, hi - 1)
    else Marked(s, destroyed, hi - 1)
  }

  /** The collected indices are exactly the destroyed ones. */
  lemma {:induction false} MarkedMembers<T>(s: seq<T>, destroyed: T -> bool, hi: nat)
    requires hi <= |s|
    ensures forall k: nat :: k in Marked(s, destroyed, hi) <==> k < hi && destroyed(s[k])
    decreases hi
  {
    if hi > 0 {
      MarkedMembers(s, destroyed, hi - 1);
    }
  }

  /** The collected indices are strictly decreasing, so removing them in order
      never shifts an index still to be removed. */
  lemma {:induction false} MarkedDescending<T>(s: seq<T>, destroyed: T -> bool, hi: nat)
    requires hi <= |s|
    ensures forall a, b :: 0 <= a < b < |Marked(s, destroyed, hi)| ==>
              Marked(s, destroyed, hi)[a] > Marked(s, destroyed, hi)[b]
    decreases hi
  {
    if hi > 0 && destroyed(s[hi - 1]) {
      var m := Marked(s, destroyed, hi - 1);
      MarkedDescending(s, destroyed, hi - 1);
      MarkedMembers(s, destroyed, hi - 1);
      var full := [hi - 1] + m;
      forall a, b | 0 <= a < b < |full| ensures full[a] > full[b] {
        assert full[b] == m[b - 1] && m[b - 1] in m;
        if a > 0 {
          assert full[a] == m[a - 1];
        }
      }
    } else if hi > 0 {
      MarkedDescending(s, destroyed, hi - 1);
    }
  }

  /** The first collected index below `hi` is destroyed, everything between it
      and `hi` is not, and the rest of the list is what is collected below it. */
  lemma {:induction false} MarkedHead<T>(s: seq<T>, destroyed: T -> bool, hi: nat)
    requires hi <= |s| && Marked(s, destroyed, hi) != []
    ensures var m := Marked(s, destroyed, hi);
            m[0] < hi && destroyed(s[m[0]]) && m[1..] == Marked(s, destroyed, m[0]) &&
            forall k :: m[0] < k < hi ==> !destroyed(s[k])
    decreases hi
  {
    if !destroyed(s[hi - 1]) {
      MarkedHead(s, destroyed, hi - 1);
    }
  }

  /** Nothing collected below `hi` means nothing destroyed below `hi`. */
  lemma {:induction false} MarkedNone<T>(s: seq<T>, destroyed: T -> bool, hi: nat)
    requires hi <= |s| && Marked(s, destroyed, hi) == []
    ensures forall k :: 0 <= k < hi ==> !destroyed(s[k])
    decreases hi
  {
    if hi > 0 {
      MarkedNone(s, destroyed, hi - 1);
    }
  }

  /** Removing the highest destroyed index below `hi` from a list whose tail
      from `hi` is already compacted extends the compacted tail down to it. */
  lemma RemoveStep<T>(s: seq<T>, destroyed: T -> bool, hi: nat, idx: nat)
    requires idx < hi <= |s| && destroyed(s[idx])
    requires forall k :: idx < k < hi ==> !destroyed(s[k])
    ensures idx < |s[..hi] + Survivors(s[hi..], destroyed)|
    ensures RemoveIndex(s[..hi] + Survivors(s[hi..], destroyed), idx) == s[..idx] + Survivors(s[idx..], destroyed)
  {
    var mid, post := s[idx + 1..hi], s[hi..];
    var from, tail := s[idx..], Survivors(post, destroyed);
    assert forall k :: 0 <= k < |mid| ==> !destroyed(mid[k]);
    assert from[0] == s[idx] && from[1..] == mid + post;
    calc {
      Survivors(from, destroyed);
      Survivors(mid + post, destroyed);
      { SurvivorsAppend(mid, post, destroyed); }
      Survivors(mid, destroyed) + tail;
      { SurvivorsAllLive(mid, destroyed); }
      mid + tail;
    }
    var t := s[..hi] + tail;
    assert t[..idx] == s[..idx];
    assert t[idx + 1..] == mid + tail;
  }

  /** Collecting index `i` (when its item is destroyed) extends the collected
      list from the indices above `i` to the indices from `i` up. */
  lemma CollectStep<T>(s: seq<T>, destroyed: T -> bool, toRemove: seq<nat>, i: nat)
    requires i < |s| && toRemove + Marked(s, destroyed, i + 1) == Marked(s, destroyed, |s|)
    ensures (if destroyed(s[i]) then toRemove + [i] else toRemove) + Marked(s, destroyed, i) == Marked(s, destroyed, |s|)
  {
    if destroyed(s[i]) {
      assert toRemove + [i] + Marked(s, destroyed, i) == toRemove + ([i] + Marked(s, destroyed, i));
    }
  }

  /** Removing the next collected index keeps the second loop's invariant: the
      list is its untouched prefix followed by the compacted rest. */
  lemma RemoveNext<T>(s: seq<T>, destroyed: T -> bool, hi: nat, rest: seq<nat>, r: seq<T>)
    requires hi <= |s| && rest == Marked(s, destroyed, hi) && rest != []
    requires r == s[..hi] + Survivors(s[hi..], destroyed)
    ensures rest[0] < hi && rest[0] < |r| && rest[1..] == Marked(s, destroyed, rest[0])
    ensures RemoveIndex(r, rest[0]) == s[..rest[0]] + Survivors(s[rest[0]..], destroyed)
  {
    MarkedHead(s, destroyed, hi);
    RemoveStep(s, destroyed, hi, rest[0]);
  }

  /** With nothing collected below `hi`, the list is fully compacted. */
  lemma RemoveDone<T>(s: seq<T>, destroyed: T -> bool, hi: nat)
    requires hi <= |s| && Marked(s, destroyed, hi) == []
    ensures s[..hi] + Survivors(s[hi..], destroyed) == Survivors(s, destroyed)
  {
    var pre, post := s[..hi], s[hi..];
    MarkedNone(s, destroyed, hi);
    assert forall k :: 0 <= k < |pre| ==> !destroyed(pre[k]);
    calc {
      Survivors(s, destroyed);
      { assert s == pre + post; }
      Survivors(pre + post, destroyed);
      { SurvivorsAppend(pre, post, destroyed); }
      Survivors(pre, destroyed) + Survivors(post, destroyed);
      { SurvivorsAllLive(pre, destroyed); }
      pre + Survivors(post, destroyed);
    }
  }

  /** UpdateWorldItems: collects the indices of destroyed items from the last to
      the first, then removes them in that order. The result is the list of
      items that are not destroyed, in their original order. */
  method UpdateWorldItems<T>(items: seq<T>, destroyed: T -> bool) returns (r: seq<T>)
    ensures r == Survivors(items, destroyed)
  {
    var toRemove: seq<nat> := [];
    var i := |items| - 1;
    while i >= 0
      invariant -1 <= i < |items|
      invariant toRemove + Marked(items, destroyed, i + 1) == Marked(items, destroyed, |items|)
    {
      CollectStep(items, destroyed, toRemove, i);
      if destroyed(items[i]) {
        toRemove := toRemove + [i];
      }
      i := i - 1;
    }
    assert toRemove + [] == toRemove;
    r := items;
    ghost var hi: nat := |items|;
    var j := 0;
    while j < |toRemove|
      invariant 0 <= j <= |toRemove| && hi <= |items|
      invariant toRemove[j..] == Marked(items, destroyed, hi)
      invariant r == items[..hi] + Survivors(items[hi..], destroyed)
    {
      RemoveNext(items, destroyed, hi, toRemove[j..], r);
      r := RemoveIndex(r, toRemove[j]);
      hi := toRemove[j];
      assert toRemove[j + 1..] == toRemove[j..][1..];
      j := j + 1;
    }
    RemoveDone(items, destroyed, hi);
  }

  // ---------------------------------------------------------------------------
  // Per-level scaling

  /** getEnemiesForLevel: five enemies, plus five per level after the first. */
  function EnemiesForLevel(level: int): (n: int)
    ensures n == 5 * level
  {
    5 + (level - 1) * 5
  }

  /** getEnemyHealthForLevel: 100, plus 20 per level after the first. */
  function EnemyHealthForLevel(level: int): (h: real)
    ensures h == 80.0 + 20.0 * level as real
  {
    100.0 + (level - 1) as real * 20.0
  }

  /** getEnemyDamageForLevel: 10, plus 5 per level after the first. */
  function EnemyDamageForLevel(level: int): (d: real)
    ensures d == 5.0 + 5.0 * level as real
  {
    10.0 + (level - 1) as real * 5.0
  }

  /** Each new level brings five more enemies, 20 more health and 5 more damage
      per enemy; the first level has 5 enemies of health 100 and damage 10. */
  lemma LevelScaling(level: int)
    ensures EnemiesForLevel(level + 1) == EnemiesForLevel(level) + 5
    ensures EnemyHealthForLevel(level + 1) == EnemyHealthForLevel(level) + 20.0
    ensures EnemyDamageForLevel(level + 1) == EnemyDamageForLevel(level) + 5.0
    ensures EnemiesForLevel(1) == 5 && EnemyHealthForLevel(1) == 100.0 && EnemyDamageForLevel(1) == 10.0
  {
  }

  const MinSpawnDelay: real := 0.3

  /** getEnemySpawnDelayForLevel: one second, a tenth less per level after the
      first, never below 0.3. */
  function SpawnDelayForLevel(level: int): (d: real)
    ensures d >= MinSpawnDelay
    ensures 1.0 - (level - 1) as real * 0.1 >= MinSpawnDelay ==> d == 1.0 - (level - 1) as real * 0.1
    ensures 1.0 - (level - 1) as real * 0.1 < MinSpawnDelay ==> d == MinSpawnDelay
  {
    var delay := 1.0 - (level - 1) as real * 0.1;
    if delay < MinSpawnDelay then MinSpawnDelay else delay
  }

  /** The delay is 1 second at level 1, shrinks (never grows) as levels rise, and
      is 0.3 from level 8 on. */
  lemma SpawnDelayShrinks(level: int, later: int)
    requires level <= later
    ensures SpawnDelayForLevel(later) <= SpawnDelayForLevel(level)
    ensures SpawnDelayForLevel(1) == 1.0
    ensures later >= 8 ==> SpawnDelayForLevel(later) == MinSpawnDelay
  {
  }

  // ---------------------------------------------------------------------------
  // Loot timeout

  const LootLifetime: real := 10.0

  /** The timeout rule for weapon loot, ammo crates and grenade pickups: an item
      older than ten seconds that is not yet destroyed becomes destroyed. */
  function Expired(destroyed: bool, createTime: real, currentTime: real): (r: bool)
    ensures r <==> destroyed || currentTime - createTime > LootLifetime
    ensures destroyed ==> r
  {
    if currentTime - createTime > LootLifetime && !destroyed then true else destroyed
  }

  // ---------------------------------------------------------------------------
  // Projectile kills

  /** A projectile hitting enemy `e` while `inPlay` enemies are counted in play,
      as the projectile loop of main() handles it: the damage lands, and an
      enemy left at zero health or below is marked destroyed and taken off the
      counter, whether or not an earlier hit already did so. */
  function StrikeAsWritten(e: Enemy, dmg: real, inPlay: int): (r: (Enemy, int))
    ensures r.0 == DealDamage(e, dmg).(destroyed := r.0.destroyed)
    ensures r.0.destroyed <==> e.destroyed || e.health - dmg <= 0.0
    ensures r.1 == if e.health - dmg <= 0.0 then inPlay - 1 else inPlay
  {
    var d := DealDamage(e, dmg);
    if d.health <= 0.0 then (d.(destroyed := true), inPlay - 1) else (d, inPlay)
  }

  /** Two hits on the same enemy in one frame, the first of them fatal and the
      second doing any damage at all, take the enemy off the counter twice. */
  lemma DeadEnemyCountedTwice(e: Enemy, d1: real, d2: real, inPlay: int)
    requires !e.destroyed && 0.0 < e.health <= d1 && 0.0 <= d2
    ensures var first := StrikeAsWritten(e, d1, inPlay);
            var second := StrikeAsWritten(first.0, d2, first.1);
            first.0.destroyed && second.0.destroyed && second.1 == inPlay - 2
  {
  }

  /** The kill rule as the grenade-kill loop of main() writes it, and as the
      projectile loop evidently intends: only the hit that finishes an enemy
      not yet destroyed takes it off the counter. */
  function Strike(e: Enemy, dmg: real, inPlay: int): (r: (Enemy, int))
    ensures r.0 == DealDamage(e, dmg).(destroyed := r.0.destroyed)
    ensures r.0.destroyed <==> e.destroyed || e.health - dmg <= 0.0
    ensures r.1 == if r.0.destroyed && !e.destroyed then inPlay - 1 else inPlay
  {
    var d := DealDamage(e, dmg);
    if d.health <= 0.0 && !e.destroyed then (d.(destroyed := true), inPlay - 1) else (d, inPlay)
  }

  /** Hits `dmgs` striking one enemy in turn, with the corrected kill rule. */
  function StrikeAll(e: Enemy, dmgs: seq<real>, inPlay: int): (r: (Enemy, int))
    decreases |dmgs|
  {
    if dmgs == [] then (e, inPlay)
    else
      var h := Strike(e, dmgs[0], inPlay);
      StrikeAll(h.0, dmgs[1..], h.1)
  }

  /** However many hits land on one enemy, the counter drops by one exactly when
      they kill it, and a destroyed enemy stays destroyed. */
  lemma {:induction false} EachKillCountedOnce(e: Enemy, dmgs: seq<real>, inPlay: int)
    ensures e.destroyed ==> StrikeAll(e, dmgs, inPlay).0.destroyed
    ensures StrikeAll(e, dmgs, inPlay).1 ==
              if StrikeAll(e, dmgs, inPlay).0.destroyed && !e.destroyed then inPlay - 1 else inPlay
    decreases |dmgs|
  {
    if dmgs != [] {
      var h := Strike(e, dmgs[0], inPlay);
      EachKillCountedOnce(h.0, dmgs[1..], h.1);
    }
  }

  // ---------------------------------------------------------------------------
  // Level progression

  const MaxConcurrentEnemies: int := 199
  /** How long the level-complete message is shown. */
  const LevelCompletedDuration: real := 2.0

  /** The level-system locals of main(). */
  datatype Progress = Progress(
    level: int,
    remaining: int,     // enemies still to spawn in this level
    inPlay: int,        // enemies spawned and not yet killed
    completed: bool,    // level-complete transition active
    completedTime: real,
    lastSpawn: real,
    spawnDelay: real)

  /** What the progression keeps true: a level from 1 on, a remaining count that
      is never negative, at most 199 enemies in play, and the spawn delay that
      belongs to the level. */
  predicate Sound(p: Progress)
  {
    p.level >= 1 && p.remaining >= 0 && p.inPlay <= MaxConcurrentEnemies &&
    p.spawnDelay == SpawnDelayForLevel(p.level)
  }

  /** The state main() starts from at time `now`. */
  function Start(now: real): (p: Progress)
    ensures Sound(p) && p.level == 1 && p.remaining == 5 && p.inPlay == 0 && !p.completed
  {
    Progress(1, EnemiesForLevel(1), 0, false, 0.0, now, SpawnDelayForLevel(1))
  }

  /** The level is over: nobody left in the enemy list, nobody left to spawn and
      no transition already running. */
  predicate LevelOver(p: Progress, enemiesListed: nat)
  {
    enemiesListed == 0 && p.remaining == 0 && !p.completed
  }

  /** Level completion followed by the end-of-transition check, as main() runs
      them each frame. */
  function Advance(p: Progress, enemiesListed: nat, now: real): (r: Progress)
    ensures LevelOver(p, enemiesListed) ==>
              r.level == p.level + 1 && r.remaining == EnemiesForLevel(p.level + 1) &&
              r.completed && r.completedTime == now && r.spawnDelay == SpawnDelayForLevel(p.level + 1)
    ensures !LevelOver(p, enemiesListed) ==>
              r.level == p.level && r.remaining == p.remaining && r.spawnDelay == p.spawnDelay &&
              r.completedTime == p.completedTime &&
              (r.completed <==> p.completed && now <= p.completedTime + LevelCompletedDuration)
    ensures r.inPlay == p.inPlay && r.lastSpawn == p.lastSpawn
  {
    var q := if LevelOver(p, enemiesListed) then
               p.(completed := true, completedTime := now, level := p.level + 1,
                  remaining := EnemiesForLevel(p.level + 1), spawnDelay := SpawnDelayForLevel(p.level + 1))
             else p;
    if q.completed && now > q.completedTime + LevelCompletedDuration then q.(completed := false) else q
  }

  /** The spawn guard: no transition running, enemies left to spawn, room on
      screen, and the spawn delay has passed since the last spawn. */
  predicate SpawnDue(p: Progress, now: real)
  {
    !p.completed && p.remaining > 0 && p.inPlay < MaxConcurrentEnemies && now > p.lastSpawn + p.spawnDelay
  }

  /** A due spawn moves one enemy from the remaining count into play. */
  function Spawn(p: Progress, now: real): (r: Progress)
    ensures SpawnDue(p, now) ==>
              r == p.(lastSpawn := now, remaining := p.remaining - 1, inPlay := p.inPlay + 1)
    ensures !SpawnDue(p, now) ==> r == p
    ensures r.remaining + r.inPlay == p.remaining + p.inPlay
  {
    if SpawnDue(p, now) then p.(lastSpawn := now, remaining := p.remaining - 1, inPlay := p.inPlay + 1) else p
  }

  /** Every step keeps the progression sound. */
  lemma StepsStaySound(p: Progress, enemiesListed: nat, now: real)
    requires Sound(p)
    ensures Sound(Advance(p, enemiesListed, now))
    ensures Sound(Spawn(p, now))
    ensures Sound(p.(inPlay := p.inPlay - 1))
  {
  }

  /** No enemy spawns while the level-complete message is shown, and the
      message lasts: right after completion nothing spawns until a later frame
      ends the transition more than two seconds on. */
  lemma TransitionBlocksSpawning(p: Progress, enemiesListed: nat, now: real, later: real)
    requires LevelOver(p, enemiesListed)
    ensures var q := Advance(p, enemiesListed, now);
            q.completed && !SpawnDue(q, later) &&
            (Advance(q, enemiesListed, later).completed <==> later <= now + LevelCompletedDuration)
  {
  }

  /** Over a level, the spawns that can happen are exactly the level's enemy
      count: after `k` due spawns from a fresh level, `k` fewer remain. */
  function SpawnAll(p: Progress, times: seq<real>): Progress
    decreases |times|
  {
    if times == [] then p else SpawnAll(Spawn(p, times[0]), times[1..])
  }

  lemma {:induction false} SpawnsNeverExceedLevel(p: Progress, times: seq<real>)
    requires p.remaining >= 0
    ensures SpawnAll(p, times).remaining >= 0
    ensures SpawnAll(p, times).remaining + SpawnAll(p, times).inPlay == p.remaining + p.inPlay
    decreases |times|
  {
    if times != [] {
      SpawnsNeverExceedLevel(Spawn(p, times[0]), times[1..]);
    }
  }

  /** The level-system variables of main() as an object updated in place. */
  class LevelFlow {
    var currentLevel: int
    var enemiesRemaining: int
    var enemiesInPlay: int
    var levelCompleted: bool
    var levelCompletedTime: real
    var lastEnemySpawn: real
    var enemySpawnDelay: real
    /** The highest level reached, kept for the game-over statistics. */
    var levelReached: int

    function State(): Progress
      reads this
    {
      Progress(currentLevel, enemiesRemaining, enemiesInPlay, levelCompleted, levelCompletedTime,
               lastEnemySpawn, enemySpawnDelay)
    }

    constructor (now: real)
      ensures State() == Start(now) && levelReached == 1
    {
      currentLevel := 1;
      enemiesRemaining := EnemiesForLevel(1);
      enemiesInPlay := 0;
      levelCompleted := false;
      levelCompletedTime := 0.0;
      lastEnemySpawn := now;
      enemySpawnDelay := SpawnDelayForLevel(1);
      levelReached := 1;
    }

    /** The level-completion check and the transition check of one frame. */
    method CheckLevel(enemiesListed: nat, currentTime: real)
      modifies this
      ensures State() == Advance(old(State()), enemiesListed, currentTime)
      ensures levelReached == if LevelOver(old(State()), enemiesListed) then currentLevel else old(levelReached)
    {
      if enemiesListed == 0 && enemiesRemaining == 0 && !levelCompleted {
        levelCompleted := true;
        levelCompletedTime := currentTime;
        currentLevel := currentLevel + 1;
        levelReached := currentLevel;
        enemiesRemaining := EnemiesForLevel(currentLevel);
        enemySpawnDelay := SpawnDelayForLevel(currentLevel);
      }
      if levelCompleted {
        if currentTime > levelCompletedTime + LevelCompletedDuration {
          levelCompleted := false;
        }
      }
    }

    /** The enemy spawn of one frame. When it is due, one enemy with the level's
        health and damage is placed (where is random and not modelled). */
    method SpawnEnemy(currentTime: real) returns (spawned: bool, health: real, damage: real)
      modifies this
      ensures spawned == SpawnDue(old(State()), currentTime)
      ensures State() == Spawn(old(State()), currentTime) && levelReached == old(levelReached)
      ensures spawned ==> health == EnemyHealthForLevel(currentLevel) && damage == EnemyDamageForLevel(currentLevel)
    {
      spawned, health, damage := false, 0.0, 0.0;
      if !levelCompleted && enemiesRemaining > 0 && enemiesInPlay < MaxConcurrentEnemies &&
         currentTime > lastEnemySpawn + enemySpawnDelay {
        lastEnemySpawn := currentTime;
        health := EnemyHealthForLevel(currentLevel);
        damage := EnemyDamageForLevel(currentLevel);
        enemiesRemaining := enemiesRemaining - 1;
        enemiesInPlay := enemiesInPlay + 1;
        spawned := true;
      }
    }

    /** An enemy in play died (killed by a projectile or a grenade). */
    method EnemyKilled()
      modifies this
      ensures State() == old(State()).(inPlay := old(enemiesInPlay) - 1) && levelReached == old(levelReached)
    {
      enemiesInPlay := enemiesInPlay - 1;
    }
  }
}
