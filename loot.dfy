/** Weapon and ammo pickups (loot.go): plain values created once and only read
    afterwards; main.go marks them destroyed when picked up or expired. */
module Loot {
  import opened Geometry
  import opened Weapons

  /** The raylib colours the weapon switch can choose. */
  datatype Color = Green | Blue | Purple | Gold

  datatype WeaponLoot = WeaponLoot(
    weapon: Weapon,
    pos: Vec,
    destroyed: bool,
    createTime: real,
    color: Color)

  datatype AmmoLoot = AmmoLoot(
    amount: int,
    pos: Vec,
    destroyed: bool,
    createTime: real)

  /** The colour switch of NewWeaponLoot: one colour per special weapon, green otherwise. */
  function LootColor(w: Weapon): (c: Color)
    ensures c == Blue <==> w == MITRA
    ensures c == Purple <==> w == SHOTGUN
    ensures c == Gold <==> w == MINIGUN
    ensures c == Green <==> w != MITRA && w != SHOTGUN && w != MINIGUN
  {
    if w == PISTOL then Green
    else if w == MITRA then Blue
    else if w == SHOTGUN then Purple
    else if w == MINIGUN then Gold
    else Green
  }

  function NewWeaponLoot(w: Weapon, pos: Vec, currentTime: real): (l: WeaponLoot)
    ensures l.weapon == w && l.pos == pos && l.createTime == currentTime
    ensures !l.destroyed
    ensures l.color == LootColor(w)
  {
    WeaponLoot(w, pos, false, currentTime, LootColor(w))
  }

  function NewAmmoLoot(amount: int, pos: Vec, currentTime: real): (l: AmmoLoot)
    ensures l.amount == amount && l.pos == pos && l.createTime == currentTime
    ensures !l.destroyed
  {
    AmmoLoot(amount, pos, false, currentTime)
  }
}
