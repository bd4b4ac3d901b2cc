/** The weapon table of player.go: four fixed weapon values. */
module Weapons {

  datatype Weapon = Weapon(
    weaponName: string,
    shootingDelay: real,
    projDamage: real,
    nProj: int,          // projectiles per trigger pull
    usesAmmo: bool,      // false: infinite reserve, the magazine is refilled for free
    magazineSize: int,
    reloadTime: real)

  const PISTOL: Weapon := Weapon("Pistol", 0.5, 50.0, 1, false, 12, 1.0)
  const MITRA: Weapon := Weapon("Mitra", 0.1, 500.0, 1, true, 30, 1.5)
  const SHOTGUN: Weapon := Weapon("Shotgun", 0.8, 30.0, 5, true, 8, 2.0)
  const MINIGUN: Weapon := Weapon("Minigun", 0.05, 15.0, 1, true, 100, 3.0)
}
