/** The grenade pickup of grenadepickup.go: a value created once and only read afterwards. */
module GrenadePickups {
  import opened Geometry

  datatype GrenadePickup = GrenadePickup(
    pos: Vec,
    createTime: real,
    destroyed: bool,
    amount: int,   // grenades granted
    size: int)     // side of the square pickup area

  /** A fresh pickup grants two grenades over a 60-pixel square. */
  function NewGrenadePickup(pos: Vec, createTime: real): (g: GrenadePickup)
    ensures g.pos == pos && g.createTime == createTime
    ensures !g.destroyed && g.amount == 2 && g.size == 60
  {
    GrenadePickup(pos, createTime, false, 2, 60)
  }
}
