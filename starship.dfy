/** The player's ship (src/objects/starship.rs). */
module Starships {
  import opened Draw
  import opened Directions
  import opened Enemies

  /** `Ord::clamp`, which panics unless `lo <= hi`. */
  function Clamp(v: int, lo: int, hi: int): (r: int)
    requires lo <= hi
    ensures lo <= r <= hi
    ensures lo <= v <= hi ==> r == v
    ensures v < lo ==> r == lo
    ensures v > hi ==> r == hi
  {
    if v < lo then lo else if v > hi then hi else v
  }

  /** The x coordinate after one `move_starship`: step by `speed`, then clamp to
      `[1, screenWidth - width]`. The u32 subtractions need `width < screenWidth`
      (for the clamp's upper bound to be at least 1) and, moving left, `x >= speed`. */
  function MovedX(x: nat, d: Direction, speed: nat, screenWidth: nat, width: nat): (r: nat)
    requires width < screenWidth
    requires d == Left ==> x >= speed
    ensures 1 <= r <= screenWidth - width
    ensures d == Right && 1 <= x + speed <= screenWidth - width ==> r == x + speed
    ensures d == Left && x - speed >= 1 && x <= screenWidth - width ==> r == x - speed
    ensures d == Left && x - speed < 1 ==> r == 1
    ensures d == Right && 1 <= x && x + speed > screenWidth - width ==> r == screenWidth - width
  {
    var stepped := match d
      case Left => x - speed
      case Right => x + speed;
    Clamp(stepped, 1, screenWidth - width)
  }

  /** With the source's speed of 1: one pixel per move inside the bounds, and
      no movement at all against a bound. */
  lemma MoveByOnePixel(x: nat, screenWidth: nat, width: nat)
    requires width < screenWidth && 1 <= x <= screenWidth - width
    ensures x < screenWidth - width ==> MovedX(x, Right, 1, screenWidth, width) == x + 1
    ensures x > 1 ==> MovedX(x, Left, 1, screenWidth, width) == x - 1
    ensures x == 1 ==> MovedX(x, Left, 1, screenWidth, width) == 1
    ensures x == screenWidth - width ==> MovedX(x, Right, 1, screenWidth, width) == x
  {
  }

  /** `check_collision`: the enemy's bottom edge is strictly below the ship's
      top. Only y coordinates and the enemy's height matter. */
  predicate Collides(shipPos: Position, e: Enemy)
  {
    shipPos.y < e.position.y + e.size.height
  }

  /** The test ignores every x coordinate and is strict: an enemy whose bottom
      is exactly level with the ship's top does not collide. */
  lemma CollisionIsVerticalAndStrict(p: Position, e: Enemy, p': Position, e': Enemy)
    ensures p.y == p'.y && e.position.y == e'.position.y && e.size.height == e'.size.height
            ==> (Collides(p, e) <==> Collides(p', e'))
    ensures e.position.y + e.size.height == p.y ==> !Collides(p, e)
  {
  }

  /** Where `Starship::config` puts a ship of the given size: horizontally
      centred, its top `height + 30` pixels above the window's bottom. */
  function ShipStart(window: Size, height: nat, width: nat): (p: Position)
    requires window.height >= height + 30 && window.width >= width
    ensures p.y + height + 30 == window.height
    ensures p.x + width / 2 <= window.width / 2 <= p.x + width / 2 + 1
  {
    Position((window.width - width) / 2, window.height - height - 30)
  }

  class Starship {
    var position: Position
    const size: Size
    const moveSpeed: nat

    /** `Starship::config(window, height, width)`: horizontally centred, 30 pixels
        above the bottom, moving one pixel per step. The u32 subtractions need the
        window to be at least `height + 30` high and `width` wide. */
    constructor Config(window: Size, height: nat, width: nat)
      requires window.height >= height + 30 && window.width >= width
      ensures size == Size(height, width) && moveSpeed == 1
      ensures position.y + height + 30 == window.height
      ensures position.x == (window.width - width) / 2
    {
      size := Size(height, width);
      position := ShipStart(window, height, width);
      moveSpeed := 1;
    }

    /** `move_starship`: only x changes, and it stays within `[1, screenWidth - width]`. */
    method MoveStarship(direction: Direction, screenWidth: nat)
      requires size.width < screenWidth
      requires direction == Left ==> position.x >= moveSpeed
      modifies this
      ensures position.y == old(position.y)
      ensures position.x == MovedX(old(position.x), direction, moveSpeed, screenWidth, size.width)
    {
      var x: int;
      match direction {
        case Left => x := position.x - moveSpeed;
        case Right => x := position.x + moveSpeed;
      }
      position := position.(x := Clamp(x, 1, screenWidth - size.width));
    }

    predicate CheckCollision(e: Enemy)
      reads this
    {
      Collides(position, e)
    }
  }
}
