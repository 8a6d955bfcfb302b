/** The live bullets (src/managers/bullets.rs): fired from the ship, moved
    up every frame, dropped at the top of the window or on a hit. */
module BulletManagers {
  import opened Draw
  import opened Bullets
  import opened Starships
  import Retain

  /** `get_bullet_start_position`: level with the ship's top, with the bullet's
      middle over the ship's middle (both halves rounded down, as u32 division
      does). The u32 subtraction needs the ship's middle to be at least half a
      bullet from the left edge. */
  function StartPosition(shipPos: Position, shipSize: Size, bulletSize: Size): (p: Position)
    requires shipPos.x + shipSize.width / 2 >= bulletSize.width / 2
    ensures p.x + bulletSize.width / 2 == shipPos.x + shipSize.width / 2
    ensures p.y == shipPos.y
  {
    Position(shipPos.x + shipSize.width / 2 - bulletSize.width / 2, shipPos.y)
  }

  /** Every bullet can take its step without a u32 underflow. */
  predicate CanAdvance(bs: seq<Bullet>)
  {
    forall i :: 0 <= i < |bs| ==> bs[i].position.y >= bs[i].config.speed
  }

  /** One `update` of the whole list: each bullet steps up and is kept unless
      it has reached the top; the survivors keep their order. */
  function Advanced(bs: seq<Bullet>): (r: seq<Bullet>)
    requires CanAdvance(bs)
    ensures |r| <= |bs|
    ensures forall j :: 0 <= j < |r| ==> !IsOffScreen(r[j])
    decreases |bs|
  {
    if bs == [] then []
    else
      var stepped := Step(bs[|bs| - 1]);
      Advanced(bs[..|bs| - 1]) + (if IsOffScreen(stepped) then [] else [stepped])
  }

  /** What survives an update is exactly the stepped bullets that are still on screen. */
  lemma {:induction false} AdvancedMembers(bs: seq<Bullet>, b: Bullet)
    requires CanAdvance(bs)
    ensures b in Advanced(bs) <==> exists i :: 0 <= i < |bs| && b == Step(bs[i]) && !IsOffScreen(b)
    decreases |bs|
  {
    if bs != [] {
      var n := |bs| - 1;
      AdvancedMembers(bs[..n], b);
      if exists i :: 0 <= i < |bs| && b == Step(bs[i]) && !IsOffScreen(b) {
        var i :| 0 <= i < |bs| && b == Step(bs[i]) && !IsOffScreen(b);
        if i < n {
          assert bs[..n][i] == bs[i];
        }
      }
    }
  }

  /** Bullets do not interact: updating a list is updating its parts. */
  lemma {:induction false} AdvancedAppend(xs: seq<Bullet>, ys: seq<Bullet>)
    requires CanAdvance(xs) && CanAdvance(ys)
    ensures CanAdvance(xs + ys)
    ensures Advanced(xs + ys) == Advanced(xs) + Advanced(ys)
    decreases |ys|
  {
    var zs := xs + ys;
    assert forall i :: 0 <= i < |zs| ==> zs[i] == if i < |xs| then xs[i] else ys[i - |xs|];
    if ys == [] {
      assert zs == xs;
    } else {
      var m := |ys| - 1;
      assert zs[..|zs| - 1] == xs + ys[..m];
      AdvancedAppend(xs, ys[..m]);
    }
  }

  /** Every bullet is at least n steps of its speed below the top, so n
      updates in a row never underflow. */
  predicate FarEnough(bs: seq<Bullet>, n: nat)
  {
    forall i :: 0 <= i < |bs| ==> bs[i].position.y >= n * bs[i].config.speed
  }

  lemma AdvancedStaysFarEnough(bs: seq<Bullet>, n: nat)
    requires n >= 1 && FarEnough(bs, n)
    ensures CanAdvance(bs)
    ensures FarEnough(Advanced(bs), n - 1)
  {
    forall i | 0 <= i < |bs|
      ensures bs[i].position.y >= bs[i].config.speed
    {
      assert n * bs[i].config.speed >= bs[i].config.speed;
    }
    var r := Advanced(bs);
    forall j | 0 <= j < |r|
      ensures r[j].position.y >= (n - 1) * r[j].config.speed
    {
      AdvancedMembers(bs, r[j]);
      var i :| 0 <= i < |bs| && r[j] == Step(bs[i]);
      assert (n - 1) * bs[i].config.speed == n * bs[i].config.speed - bs[i].config.speed;
    }
  }

  /** n consecutive `update`s. */
  function Updates(bs: seq<Bullet>, n: nat): seq<Bullet>
    requires FarEnough(bs, n)
    decreases n
  {
    if n == 0 then bs
    else
      AdvancedStaysFarEnough(bs, n);
      Updates(Advanced(bs), n - 1)
  }

  lemma {:induction false} UpdatesOfNone(n: nat)
    ensures FarEnough([], n) && Updates([], n) == []
  {
    if n > 0 {
      UpdatesOfNone(n - 1);
    }
  }

  /** A bullet fired k speed-steps below the top climbs one step per update and
      is gone after exactly the k-th update. */
  lemma {:induction false} BulletLifetime(b: Bullet, k: nat, n: nat)
    requires b.config.speed > 0 && k >= 1 && b.position.y == k * b.config.speed && n <= k
    ensures FarEnough([b], n)
    ensures n < k ==> Updates([b], n) == [b.(position := b.position.(y := (k - n) * b.config.speed))]
    ensures n == k ==> Updates([b], n) == []
    decreases n
  {
    var s := b.config.speed;
    assert n * s <= k * s;
    if n > 0 {
      var b' := Step(b);
      assert b'.position.y == (k - 1) * s;
      assert [b][..0] == [];
      if k == 1 {
        assert Advanced([b]) == [];
        UpdatesOfNone(n - 1);
      } else {
        assert Advanced([b]) == [b'];
        BulletLifetime(b', k - 1, n - 1);
      }
    }
  }

  /** `check_collisions` keeps exactly the bullets for which the callback did
      not report a hit, asking it once per bullet in order. */
  lemma CheckCollisionsDropsHits<S>(hit: (S, Bullet) -> (S, bool), s: S, bs: seq<Bullet>, b: Bullet)
    ensures |Retain.Verdicts(hit, s, bs)| == |bs|
    ensures b in Retain.Pass(Retain.Unless(hit), s, bs).1
            <==> exists i :: 0 <= i < |bs| && !Retain.Verdicts(hit, s, bs)[i] && bs[i] == b
  {
    Retain.PassKeepsSelected(Retain.Unless(hit), s, bs);
    Retain.UnlessNegates(hit, s, bs);
    Retain.SelectMembers(bs, Retain.Verdicts(Retain.Unless(hit), s, bs), b);
  }

  class BulletManager {
    var bullets: seq<Bullet>
    const config: BulletConfig

    /** `BulletManager::new`: no bullets yet. */
    constructor (config: BulletConfig)
      ensures bullets == [] && this.config == config
    {
      bullets := [];
      this.config := config;
    }

    /** `fire`: one new bullet at the end, centred on the ship; the others are untouched. */
    method Fire(ship: Starship)
      requires ship.position.x + ship.size.width / 2 >= config.size.width / 2
      modifies this
      ensures bullets == old(bullets) + [Bullet(StartPosition(ship.position, ship.size, config.size), config)]
    {
      var p := StartPosition(ship.position, ship.size, config.size);
      bullets := bullets + [Bullet(p, config)];
    }

    /** `update`: the in-place `retain_mut` that steps each bullet and drops
        those that reached the top. */
    method Update()
      requires CanAdvance(bullets)
      modifies this
      ensures bullets == Advanced(old(bullets))
    {
      var kept: seq<Bullet> := [];
      var i := 0;
      while i < |bullets|
        invariant 0 <= i <= |bullets|
        invariant bullets == old(bullets)
        invariant kept == Advanced(bullets[..i])
      {
        assert bullets[..i + 1][..i] == bullets[..i];
        var b := Step(bullets[i]);
        if !IsOffScreen(b) {
          kept := kept + [b];
        }
        i := i + 1;
      }
      assert bullets[..i] == bullets;
      bullets := kept;
    }

    /** `check_collisions`: the in-place `retain` that drops every bullet for
        which the callback reports a hit. The callback's captured state is
        threaded through and returned. */
    method CheckCollisions<S>(collision: (S, Bullet) -> (S, bool), s0: S) returns (s: S)
      modifies this
      ensures (s, bullets) == Retain.Pass(Retain.Unless(collision), s0, old(bullets))
    {
      var keep := Retain.Unless(collision);
      var kept: seq<Bullet> := [];
      s := s0;
      var i := 0;
      while i < |bullets|
        invariant 0 <= i <= |bullets|
        invariant bullets == old(bullets)
        invariant (s, kept) == Retain.Pass(keep, s0, bullets[..i])
      {
        assert bullets[..i + 1][..i] == bullets[..i];
        var answer := keep(s, bullets[i]);
        var k := answer.1;
        s := answer.0;
        if k {
          kept := kept + [bullets[i]];
        }
        i := i + 1;
      }
      assert bullets[..i] == bullets;
      bullets := kept;
    }
  }
}
