/** A bullet and the configuration it shares with its manager (src/objects/bullet.rs). */
module Bullets {
  import opened Draw

  /** Speed in pixels per frame and a size shared by every bullet. */
  datatype BulletConfig = BulletConfig(speed: nat, size: Size)

  /** `BulletConfig::new(speed, size)`: bullets are squares of the given side. */
  function NewBulletConfig(speed: nat, side: nat): (c: BulletConfig)
    ensures c.speed == speed
    ensures c.size.height == c.size.width == side
  {
    BulletConfig(speed, Size(side, side))
  }

  /** `Bullet::new(position, config)`; the bullet's size is its config's size. */
  datatype Bullet = Bullet(position: Position, config: BulletConfig)
  {
    function Size(): Size
    {
      config.size
    }
  }

  /** `is_off_screen`: `y < 1`, which for an unsigned y means y is 0. */
  predicate IsOffScreen(b: Bullet)
  {
    b.position.y < 1
  }

  lemma OffScreenIffAtTop(b: Bullet)
    ensures IsOffScreen(b) <==> b.position.y == 0
  {
  }

  /** `Bullet::update`: one frame upwards. The source subtracts on u32, so the
      bullet must be at least `speed` pixels below the top. */
  function Step(b: Bullet): (r: Bullet)
    requires b.position.y >= b.config.speed
    ensures r.position.x == b.position.x
    ensures r.position.y + b.config.speed == b.position.y
    ensures r.config == b.config && r.Size() == b.Size()
  {
    b.(position := b.position.(y := b.position.y - b.config.speed))
  }
}
