/** One member of the enemy grid (src/objects/enemy.rs). */
module Enemies {
  import opened Draw

  datatype Enemy = Enemy(position: Position, size: Size)

  /** `Enemy::new(width, height, x, y)`: note that width comes before height. */
  function NewEnemy(width: nat, height: nat, x: nat, y: nat): (e: Enemy)
    ensures e.position.x == x && e.position.y == y
    ensures e.size.width == width && e.size.height == height
  {
    Enemy(Position(x, y), Size(height, width))
  }

  /** `is_hit`: the bullet's box reaches the enemy horizontally (edges that
      only touch count) and the bullet's bottom edge lies within the enemy's
      rows. The bullet's top edge is not looked at. */
  predicate IsHit(e: Enemy, bulletSize: Size, bulletPos: Position)
  {
    && bulletPos.x + bulletSize.width >= e.position.x
    && bulletPos.x <= e.position.x + e.size.width
    && bulletPos.y + bulletSize.height >= e.position.y
    && bulletPos.y + bulletSize.height <= e.position.y + e.size.height
  }

  /** Touching edges count: a bullet whose right edge meets the enemy's left
      edge and whose bottom meets the enemy's top is a hit, and so is one
      whose left edge meets the enemy's right edge at the enemy's bottom row. */
  lemma HitIncludesTouchingEdges(e: Enemy, s: Size, p: Position)
    ensures p.x + s.width == e.position.x && p.y + s.height == e.position.y ==> IsHit(e, s, p)
    ensures p.x == e.position.x + e.size.width && p.y + s.height == e.position.y + e.size.height
            ==> IsHit(e, s, p)
  {
  }

  /** Only the bullet's bottom edge is tested: a bullet whose body overlaps the
      enemy but whose bottom is below it is no hit, and two bullets with the
      same bottom edge are judged alike whatever their heights. */
  lemma HitTestsOnlyBulletBottom(e: Enemy, s: Size, p: Position, s': Size, p': Position)
    ensures p.y + s.height > e.position.y + e.size.height ==> !IsHit(e, s, p)
    ensures p.x == p'.x && s.width == s'.width && p.y + s.height == p'.y + s'.height
            ==> (IsHit(e, s, p) <==> IsHit(e, s', p'))
  {
  }

  /** `Enemy::update(x, y)`: a new position, the same size. */
  function MovedTo(e: Enemy, x: nat, y: nat): (r: Enemy)
    ensures r.position == Position(x, y)
    ensures r.size == e.size
  {
    e.(position := Position(x, y))
  }
}
