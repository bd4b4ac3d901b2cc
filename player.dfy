/** The player of player.go: hit points, the weapon in hand, the magazine and
    the ammunition reserve, the reload timer and the grenade count. The weapon
    bookkeeping is specified by pure step functions over `Arms`; the `Player`
    class updates its fields in place as the Go methods do and is proved
    against those functions. */
module Players {
  import opened Geometry
  import opened Weapons
  import opened Loot
  import opened GrenadePickups

  // ---------------------------------------------------------------------------
  // Weapon state as a value

  /** The weapon-related fields of the player: weapon in hand, rounds in the
      magazine, rounds in the reserve, and the reload timer. */
  datatype Arms = Arms(weapon: Weapon, magazine: int, reserve: int, reloading: bool, reloadStart: real)

  /** The counts the player can hold: a magazine between empty and full, and a
      reserve that is never negative. */
  predicate Stocked(a: Arms)
  {
    0 <= a.magazine <= a.weapon.magazineSize && 0 <= a.reserve
  }

  /** Reload: refused while reloading, with a full magazine, or with an ammo
      weapon and an empty reserve; a weapon without ammo is refilled at once;
      an ammo weapon starts the reload timer. The flag is Reload's result. */
  function StartReload(a: Arms, now: real): (r: (Arms, bool))
    ensures !r.1 <==> a.reloading || a.magazine >= a.weapon.magazineSize || (a.weapon.usesAmmo && a.reserve <= 0)
    ensures !r.1 ==> r.0 == a
    ensures r.1 && !a.weapon.usesAmmo ==> r.0 == a.(magazine := a.weapon.magazineSize) && !r.0.reloading
    ensures r.1 && a.weapon.usesAmmo ==>
              r.0.reloading && r.0.reloadStart == now &&
              r.0.magazine == a.magazine && r.0.reserve == a.reserve && r.0.weapon == a.weapon
  {
    if a.reloading then (a, false)
    else if a.magazine >= a.weapon.magazineSize then (a, false)
    else if !a.weapon.usesAmmo then (a.(magazine := a.weapon.magazineSize), true)
    else if a.reserve <= 0 then (a, false)
    else (a.(reloading := true, reloadStart := now), true)
  }

  /** The reload timer has run out at time `now`. */
  predicate ReloadDue(a: Arms, now: real)
  {
    a.reloading && now >= a.reloadStart + a.weapon.reloadTime
  }

  /** Reload completion in UpdateWithoutMovement: once the reload time has
      passed, an ammo weapon takes what it needs from the reserve (all of it
      when it is short), a weapon without ammo is simply refilled. */
  function FinishReload(a: Arms, now: real): (r: Arms)
    ensures !ReloadDue(a, now) ==> r == a
    ensures ReloadDue(a, now) ==> !r.reloading && r.weapon == a.weapon && r.reloadStart == a.reloadStart
    ensures ReloadDue(a, now) && a.weapon.usesAmmo ==>
              r.magazine + r.reserve == a.magazine + a.reserve &&
              r.magazine == Min(a.weapon.magazineSize, a.magazine + a.reserve)
    ensures ReloadDue(a, now) && !a.weapon.usesAmmo ==>
              r.magazine == a.weapon.magazineSize && r.reserve == a.reserve
  {
    if !ReloadDue(a, now) then a
    else
      var needed := a.weapon.magazineSize - a.magazine;
      if a.weapon.usesAmmo then
        if a.reserve >= needed then a.(reloading := false, reserve := a.reserve - needed, magazine := a.weapon.magazineSize)
        else a.(reloading := false, magazine := a.magazine + a.reserve, reserve := 0)
      else a.(reloading := false, magazine := a.weapon.magazineSize)
  }

  /** What one trigger pull does: the weapon state after it, the number of
      projectiles fired, and whether the player fell back to the pistol. */
  datatype Pull = Pull(arms: Arms, shots: nat, switched: bool)

  /** Shoot's ammunition accounting: nothing while reloading; an ammo weapon with
      an empty magazine and an empty reserve falls back to a full pistol; then,
      if the magazine holds a round or the weapon needs none, nProj projectiles
      leave and an ammo weapon spends exactly one round for the whole pull. */
  function Fire(a: Arms): (r: Pull)
    ensures a.reloading ==> r == Pull(a, 0, false)
    ensures r.switched <==> !a.reloading && a.magazine <= 0 && a.reserve <= 0 && a.weapon.usesAmmo
    ensures r.switched ==> r == Pull(a.(weapon := PISTOL, magazine := PISTOL.magazineSize), Max(0, PISTOL.nProj), true)
    ensures !r.switched ==> r.arms.weapon == a.weapon && r.arms.reserve == a.reserve
    ensures !a.reloading && !r.switched && a.weapon.usesAmmo && a.magazine <= 0 ==> r == Pull(a, 0, false)
    ensures !a.reloading && a.weapon.usesAmmo && a.magazine > 0 ==>
              r == Pull(a.(magazine := if a.weapon.nProj > 0 then a.magazine - 1 else a.magazine), Max(0, a.weapon.nProj), false)
    ensures !a.reloading && !a.weapon.usesAmmo ==> r.shots == Max(0, a.weapon.nProj) && r.arms == a
  {
    if a.reloading then Pull(a, 0, false)
    else
      var switched := a.magazine <= 0 && a.reserve <= 0 && a.weapon.usesAmmo;
      var b := if switched then a.(weapon := PISTOL, magazine := PISTOL.magazineSize) else a;
      if b.magazine > 0 || !b.weapon.usesAmmo then
        var n := Max(0, b.weapon.nProj);
        Pull(if b.weapon.usesAmmo && n > 0 then b.(magazine := b.magazine - 1) else b, n, switched)
      else Pull(b, 0, switched)
  }

  /** The weapon pickup of main.go: the new weapon replaces the old one (with the
      rounds left in its magazine) and cancels any reload; an ammo weapon loads
      as much of a full magazine as the reserve allows, a weapon without ammo
      starts full. */
  function Equip(a: Arms, w: Weapon): (r: Arms)
    ensures r.weapon == w && !r.reloading && r.reloadStart == a.reloadStart
    ensures w.usesAmmo ==> r.magazine == Min(a.reserve, w.magazineSize) && r.reserve == a.reserve - r.magazine
    ensures !w.usesAmmo ==> r.magazine == w.magazineSize && r.reserve == a.reserve
  {
    var b := a.(weapon := w, reloading := false);
    if w.usesAmmo then
      if a.reserve >= w.magazineSize then b.(magazine := w.magazineSize, reserve := a.reserve - w.magazineSize)
      else b.(magazine := a.reserve, reserve := 0)
    else b.(magazine := w.magazineSize)
  }

  /** Every weapon step keeps the counts in range. */
  lemma StepsKeepStock(a: Arms, now: real, w: Weapon)
    requires Stocked(a)
    ensures Stocked(StartReload(a, now).0)
    ensures Stocked(FinishReload(a, now))
    ensures Stocked(Fire(a).arms)
    ensures 0 <= w.magazineSize ==> Stocked(Equip(a, w))
  {
  }

  /** A reload of an ammo weapon started at `start` and completed at any later
      time past the reload time fills the magazine as far as the reserve allows,
      losing and creating no round. */
  lemma ReloadCycle(a: Arms, start: real, later: real)
    requires a.weapon.usesAmmo && StartReload(a, start).1
    requires later >= start + a.weapon.reloadTime
    ensures var r := FinishReload(StartReload(a, start).0, later);
            !r.reloading && r.magazine == Min(a.weapon.magazineSize, a.magazine + a.reserve) &&
            r.magazine + r.reserve == a.magazine + a.reserve
  {
  }

  /** Until the reload time has passed, completion changes nothing and the
      player cannot fire. */
  lemma ReloadBlocksFire(a: Arms, start: real, now: real)
    requires a.weapon.usesAmmo && StartReload(a, start).1
    requires now < start + a.weapon.reloadTime
    ensures FinishReload(StartReload(a, start).0, now) == StartReload(a, start).0
    ensures Fire(StartReload(a, start).0).shots == 0
  {
  }

  /** `k` trigger pulls in a row: the weapon state after them and the projectiles fired. */
  function FireTimes(a: Arms, k: nat): (r: (Arms, nat))
    decreases k
  {
    if k == 0 then (a, 0)
    else
      var p := Fire(a);
      var rest := FireTimes(p.arms, k - 1);
      (rest.0, p.shots + rest.1)
  }

  /** With an ammo weapon in hand, `k` pulls on a magazine of at least `k` rounds
      fire `k` volleys and spend exactly `k` rounds. */
  lemma {:induction false} PullsSpendOneRoundEach(a: Arms, k: nat)
    requires !a.reloading && a.weapon.usesAmmo && a.weapon.nProj > 0 && k <= a.magazine
    ensures FireTimes(a, k).0 == a.(magazine := a.magazine - k)
    ensures FireTimes(a, k).1 == k * a.weapon.nProj
    decreases k
  {
    if k > 0 {
      var b := a.(magazine := a.magazine - 1);
      assert Fire(a) == Pull(b, a.weapon.nProj, false);
      PullsSpendOneRoundEach(b, k - 1);
      assert b.(magazine := b.magazine - (k - 1)) == a.(magazine := a.magazine - k);
    }
  }

  // ---------------------------------------------------------------------------
  // The player object

  /** A projectile as Shoot creates it: from the player's position with the
      weapon's damage. Its direction (mouse position plus random noise) is
      not modelled. */
  datatype Shot = Shot(origin: Vec, damage: real)

  const OutOfAmmoNotice: string := "Pistol (Out of ammo!)"

  class Player {
    var TotalHp: int
    var CurrentHp: int
    var Pos: Vec
    var currentWeapon: Weapon
    var ammo: int
    var currentMagazine: int
    var isReloading: bool
    var reloadStartTime: real
    var grenades: int
    var weaponPickupTime: real
    var weaponPickupName: string
    var ammoPickupTime: real
    var ammoPickupAmount: int

    /** The weapon fields as one value. */
    function Armament(): Arms
      reads this
    {
      Arms(currentWeapon, currentMagazine, ammo, isReloading, reloadStartTime)
    }

    /** The fields no weapon operation touches. */
    function Vitals(): (int, int, Vec, int)
      reads this
    {
      (TotalHp, CurrentHp, Pos, grenades)
    }

    /** The pickup notifications shown on screen. */
    function Notices(): (real, string, real, int)
      reads this
    {
      (weaponPickupTime, weaponPickupName, ammoPickupTime, ammoPickupAmount)
    }

    /** The class invariant: the weapon counts are in range and hit points never
        go below zero. */
    ghost predicate Valid()
      reads this
    {
      Stocked(Armament()) && 0 <= CurrentHp
    }

    /** NewPlayer: full health, at (500, 500), a full pistol, 10000 rounds in
        reserve, three grenades, no reload and no notification. */
    constructor (totalHp: int)
      ensures TotalHp == totalHp && CurrentHp == totalHp && Pos == Vec(500.0, 500.0)
      ensures Armament() == Arms(PISTOL, 12, 10000, false, 0.0)
      ensures grenades == 3
      ensures Notices() == (0.0, "", 0.0, 0)
      ensures 0 <= totalHp ==> Valid()
    {
      TotalHp := totalHp;
      CurrentHp := totalHp;
      Pos := Vec(500.0, 500.0);
      currentWeapon := PISTOL;
      ammo := 10000;
      currentMagazine := PISTOL.magazineSize;
      isReloading := false;
      reloadStartTime := 0.0;
      grenades := 3;
      weaponPickupTime := 0.0;
      weaponPickupName := "";
      ammoPickupTime := 0.0;
      ammoPickupAmount := 0;
    }

    /** TakeDamage: hit points drop by the damage truncated toward zero, and are
        clamped at zero. */
    method TakeDamage(damage: real)
      modifies this
      requires Valid()
      ensures Valid()
      ensures CurrentHp == Max(0, old(CurrentHp) - Truncate(damage))
      ensures TotalHp == old(TotalHp) && Pos == old(Pos) && grenades == old(grenades)
      ensures Armament() == old(Armament()) && Notices() == old(Notices())
    {
      CurrentHp := CurrentHp - Truncate(damage);
      if CurrentHp < 0 {
        CurrentHp := 0;
      }
    }

    method Reload(currentTime: real) returns (ok: bool)
      modifies this
      requires Valid()
      ensures Valid()
      ensures (Armament(), ok) == StartReload(old(Armament()), currentTime)
      ensures Vitals() == old(Vitals()) && Notices() == old(Notices())
    {
      if isReloading {
        return false;
      }
      if currentMagazine >= currentWeapon.magazineSize {
        return false;
      }
      if !currentWeapon.usesAmmo {
        currentMagazine := currentWeapon.magazineSize;
        return true;
      }
      if ammo <= 0 {
        return false;
      }
      isReloading := true;
      reloadStartTime := currentTime;
      return true;
    }

    /** UpdateWithoutMovement: a pressed reload key (an input, so a parameter)
        tries Reload, then a due reload completes. */
    method UpdateWithoutMovement(reloadPressed: bool, currentTime: real)
      modifies this
      requires Valid()
      ensures Valid()
      ensures Armament() == FinishReload(if reloadPressed then StartReload(old(Armament()), currentTime).0
                                         else old(Armament()), currentTime)
      ensures Vitals() == old(Vitals()) && Notices() == old(Notices())
    {
      if reloadPressed {
        var _ := Reload(currentTime);
      }
      if isReloading {
        if currentTime >= reloadStartTime + currentWeapon.reloadTime {
          isReloading := false;
          var bulletsNeeded := currentWeapon.magazineSize - currentMagazine;
          if currentWeapon.usesAmmo {
            if ammo >= bulletsNeeded {
              ammo := ammo - bulletsNeeded;
              currentMagazine := currentWeapon.magazineSize;
            } else {
              currentMagazine := currentMagazine + ammo;
              ammo := 0;
            }
          } else {
            currentMagazine := currentWeapon.magazineSize;
          }
        }
      }
    }

    /** Shoot, with the clock reading of the fallback notice as a parameter: the
        projectiles of one trigger pull, all from the player's position with the
        damage of the weapon in hand. */
    method Shoot(now: real) returns (projs: seq<Shot>)
      modifies this
      requires Valid()
      ensures Valid()
      ensures Armament() == Fire(old(Armament())).arms
      ensures |projs| == Fire(old(Armament())).shots
      ensures forall k :: 0 <= k < |projs| ==> projs[k] == Shot(Pos, currentWeapon.projDamage)
      ensures Fire(old(Armament())).switched ==>
                weaponPickupTime == now && weaponPickupName == OutOfAmmoNotice
      ensures !Fire(old(Armament())).switched ==>
                weaponPickupTime == old(weaponPickupTime) && weaponPickupName == old(weaponPickupName)
      ensures ammoPickupTime == old(ammoPickupTime) && ammoPickupAmount == old(ammoPickupAmount)
      ensures Vitals() == old(Vitals())
    {
      if isReloading {
        return [];
      }
      if currentMagazine <= 0 && ammo <= 0 && currentWeapon.usesAmmo {
        currentWeapon := PISTOL;
        currentMagazine := PISTOL.magazineSize;
        weaponPickupTime := now;
        weaponPickupName := OutOfAmmoNotice;
      }
      projs := [];
      if currentMagazine > 0 || !currentWeapon.usesAmmo {
        var i := 0;
        while i < currentWeapon.nProj
          invariant 0 <= i <= Max(0, currentWeapon.nProj)
          invariant |projs| == i
          invariant forall k :: 0 <= k < i ==> projs[k] == Shot(Pos, currentWeapon.projDamage)
        {
          projs := projs + [Shot(Pos, currentWeapon.projDamage)];
          i := i + 1;
        }
        if currentWeapon.usesAmmo && |projs| > 0 {
          currentMagazine := currentMagazine - 1;
        }
      }
    }

    /** Picking up weapon loot the player touches (the raylib circle-rectangle
        test is the `touching` parameter): the weapon is equipped, the loot is
        marked destroyed and the pickup notice is set. Returns the loot. */
    method PickUpWeapon(l: WeaponLoot, touching: bool, currentTime: real) returns (after: WeaponLoot)
      modifies this
      requires Valid()
      ensures 0 <= l.weapon.magazineSize ==> Valid()
      ensures !touching ==> after == l && Armament() == old(Armament()) && Notices() == old(Notices())
      ensures touching ==> after == l.(destroyed := true) && Armament() == Equip(old(Armament()), l.weapon)
      ensures touching ==> weaponPickupTime == currentTime && weaponPickupName == l.weapon.weaponName
      ensures ammoPickupTime == old(ammoPickupTime) && ammoPickupAmount == old(ammoPickupAmount)
      ensures Vitals() == old(Vitals())
    {
      after := l;
      if touching {
        currentWeapon := l.weapon;
        isReloading := false;
        if currentWeapon.usesAmmo {
          if ammo >= currentWeapon.magazineSize {
            currentMagazine := currentWeapon.magazineSize;
            ammo := ammo - currentWeapon.magazineSize;
          } else {
            currentMagazine := ammo;
            ammo := 0;
          }
        } else {
          currentMagazine := currentWeapon.magazineSize;
        }
        after := after.(destroyed := true);
        weaponPickupTime := currentTime;
        weaponPickupName := l.weapon.weaponName;
      }
    }

    /** Picking up an ammo crate: only a crate that is not yet destroyed and that
        the player touches counts; its whole amount goes to the reserve and the
        crate is marked destroyed. Returns the crate. */
    method PickUpAmmo(a: AmmoLoot, touching: bool, currentTime: real) returns (after: AmmoLoot)
      modifies this
      requires Valid()
      ensures 0 <= a.amount ==> Valid()
      ensures !a.destroyed && touching ==>
                after == a.(destroyed := true) && ammo == old(ammo) + a.amount &&
                ammoPickupTime == currentTime && ammoPickupAmount == a.amount
      ensures a.destroyed || !touching ==>
                after == a && ammo == old(ammo) &&
                ammoPickupTime == old(ammoPickupTime) && ammoPickupAmount == old(ammoPickupAmount)
      ensures currentWeapon == old(currentWeapon) && currentMagazine == old(currentMagazine)
      ensures isReloading == old(isReloading) && reloadStartTime == old(reloadStartTime)
      ensures weaponPickupTime == old(weaponPickupTime) && weaponPickupName == old(weaponPickupName)
      ensures Vitals() == old(Vitals())
    {
      after := a;
      if !a.destroyed && touching {
        ammo := ammo + a.amount;
        after := a.(destroyed := true);
        ammoPickupTime := currentTime;
        ammoPickupAmount := a.amount;
      }
    }

    /** Picking up a grenade pickup: only one not yet destroyed and touched
        counts; its grenades are added and it is marked destroyed. Returns the
        pickup. */
    method PickUpGrenades(g: GrenadePickup, touching: bool) returns (after: GrenadePickup)
      modifies this
      requires Valid()
      ensures Valid()
      ensures !g.destroyed && touching ==> after == g.(destroyed := true) && grenades == old(grenades) + g.amount
      ensures g.destroyed || !touching ==> after == g && grenades == old(grenades)
      ensures TotalHp == old(TotalHp) && CurrentHp == old(CurrentHp) && Pos == old(Pos)
      ensures Armament() == old(Armament()) && Notices() == old(Notices())
    {
      after := g;
      if !g.destroyed && touching {
        grenades := grenades + g.amount;
        after := g.(destroyed := true);
      }
    }
  }
}
