/** The physics and collision rules of one frame: hero motion under held keys,
    gravity and the ground clamp; the leftward scroll of coins and spikes; the
    two collision filters; and the sprite-frame counters. */
module Physics {
  import opened Geometry

  const GROUND_Y: real := 300.0
  const HERO_W: real := 40.0
  const HERO_H: real := 40.0
  /** Horizontal speed of the hero while an arrow key is held, units per second. */
  const RUN_SPEED: real := 220.0
  /** Vertical velocity given by a jump (upward, so negative). */
  const JUMP_VY: real := -380.0
  const GRAVITY: real := 900.0
  /** Leftward scroll speeds of coins and of spikes. */
  const COIN_SCROLL: real := 200.0
  const SPIKE_SCROLL: real := 220.0
  /** The largest time step the frame loop ever passes to the update. */
  const FRAME_CAP: real := 0.033

  const HERO_FRAME_COUNT: nat := 4
  const HERO_FRAME_DURATION: real := 0.1
  const COIN_FRAME_COUNT: nat := 6
  const COIN_FRAME_DURATION: real := 0.08

  /** The hero's mutable state; its size is fixed at HERO_W by HERO_H. */
  datatype Hero = Hero(x: real, y: real, vy: real, onGround: bool)

  /** The hero's collision box. */
  function Box(h: Hero): Rect {
    Rect(h.x, h.y, HERO_W, HERO_H)
  }

  /** Twice the gravity times the height above the ground plus the square of the
      vertical velocity: the jump impulse sets it to JUMP_VY², a step in the air
      lowers it, and landing sets it to 0. */
  function Energy(h: Hero): real {
    2.0 * GRAVITY * (GROUND_Y - h.y) + h.vy * h.vy
  }

  /** The hero invariant: never below the ground, grounded exactly when standing
      on it, at rest while grounded, and never higher than one jump from the
      ground carries it. */
  predicate Settled(h: Hero) {
    h.y <= GROUND_Y &&
    (h.onGround <==> h.y == GROUND_Y) &&
    (h.onGround ==> h.vy == 0.0) &&
    Energy(h) <= JUMP_VY * JUMP_VY
  }

  /** The highest the hero ever gets: JUMP_VY² / (2·GRAVITY), about 80.2 units,
      above the ground, so its height stays positive. */
  lemma SettledHeightBounded(h: Hero)
    requires Settled(h)
    ensures GROUND_Y - JUMP_VY * JUMP_VY / (2.0 * GRAVITY) <= h.y <= GROUND_Y
    ensures 0.0 < h.y
  {
    assert h.vy * h.vy >= 0.0;
  }

  // ---------------------------------------------------------------- hero

  /** Horizontal position after a step: right, then left, each when held. */
  function HorizontalMove(x: real, keys: set<string>, dt: real): real {
    var x1 := if "ArrowRight" in keys then x + RUN_SPEED * dt else x;
    if "ArrowLeft" in keys then x1 - RUN_SPEED * dt else x1
  }

  /** The jump impulse: only with Space held and only from the ground. */
  function Jump(h: Hero, keys: set<string>): Hero {
    if "Space" in keys && h.onGround then h.(vy := JUMP_VY, onGround := false) else h
  }

  /** Gravity integration followed by the ground clamp. */
  function Fall(h: Hero, dt: real): Hero {
    var vy := h.vy + GRAVITY * dt;
    var y := h.y + vy * dt;
    if y >= GROUND_Y then h.(y := GROUND_Y, vy := 0.0, onGround := true)
    else h.(y := y, vy := vy)
  }

  /** The hero's whole step: horizontal move, jump, gravity and clamp. */
  function HeroStep(h: Hero, keys: set<string>, dt: real): Hero {
    Fall(Jump(h.(x := HorizontalMove(h.x, keys, dt)), keys), dt)
  }

  /** A step moves the hero right by RUN_SPEED·dt while ArrowRight is held and
      left by as much while ArrowLeft is held; the jump, gravity and the clamp
      leave x alone. */
  lemma HeroStepMovesX(h: Hero, keys: set<string>, dt: real)
    ensures HeroStep(h, keys, dt).x ==
            h.x + (if "ArrowRight" in keys then RUN_SPEED * dt else 0.0)
                - (if "ArrowLeft" in keys then RUN_SPEED * dt else 0.0)
  {
  }

  /** Holding both arrow keys leaves the hero where it is. */
  lemma ArrowsCancel(x: real, keys: set<string>, dt: real)
    requires "ArrowRight" in keys && "ArrowLeft" in keys
    ensures HorizontalMove(x, keys, dt) == x
  {
  }

  /** After the vertical step the hero is never below the ground, and whenever it
      stands on the ground (the clamp fired) it is at rest and grounded; otherwise
      it moved by exactly the integrated velocity. */
  lemma FallClamps(h: Hero, dt: real)
    ensures Fall(h, dt).y <= GROUND_Y
    ensures Fall(h, dt).y == GROUND_Y ==> Fall(h, dt).vy == 0.0 && Fall(h, dt).onGround
    ensures Fall(h, dt).y < GROUND_Y ==>
              Fall(h, dt).vy == h.vy + GRAVITY * dt &&
              Fall(h, dt).y == h.y + Fall(h, dt).vy * dt &&
              Fall(h, dt).onGround == h.onGround
    ensures Fall(h, dt).x == h.x
  {
  }

  /** A step keeps the hero invariant, whatever the keys and the time step. */
  lemma HeroStepKeepsSettled(h: Hero, keys: set<string>, dt: real)
    requires Settled(h)
    ensures Settled(HeroStep(h, keys, dt))
  {
    var j := Jump(h.(x := HorizontalMove(h.x, keys, dt)), keys);
    if j.onGround {
      // standing at rest: gravity pulls it down and the clamp catches it
      assert j.y == GROUND_Y && j.vy == 0.0;
      assert (j.vy + GRAVITY * dt) * dt == GRAVITY * (dt * dt);
      assert dt * dt >= 0.0;
    } else {
      // in the air, with at most the energy of a jump from the ground
      assert Energy(j) <= JUMP_VY * JUMP_VY;
      var vy := j.vy + GRAVITY * dt;
      var y := j.y + vy * dt;
      // a step in the air lowers the energy by (GRAVITY·dt)²
      assert 2.0 * GRAVITY * (GROUND_Y - y) + vy * vy ==
             Energy(j) - (GRAVITY * dt) * (GRAVITY * dt);
    }
  }

  /** From the ground with Space held and a positive capped step, the hero takes
      off: its velocity is the impulse plus one step of gravity and it rises. */
  lemma TakeOff(h: Hero, keys: set<string>, dt: real)
    requires Settled(h) && h.onGround && "Space" in keys
    requires 0.0 < dt <= FRAME_CAP
    ensures HeroStep(h, keys, dt).vy == JUMP_VY + GRAVITY * dt
    ensures HeroStep(h, keys, dt).y < h.y
    ensures !HeroStep(h, keys, dt).onGround
  {
    var vy := JUMP_VY + GRAVITY * dt;
    assert vy < 0.0;
    assert vy * dt < 0.0;
  }

  /** In the air, Space changes nothing: there is no double jump. */
  lemma NoDoubleJump(h: Hero, keys: set<string>, dt: real)
    requires !h.onGround
    ensures HeroStep(h, keys, dt) == HeroStep(h, keys - {"Space"}, dt)
  {
    assert "ArrowRight" in keys <==> "ArrowRight" in keys - {"Space"};
    assert "ArrowLeft" in keys <==> "ArrowLeft" in keys - {"Space"};
  }

  /** A hero at rest on the ground with Space held, stepped by 0.1 s, has
      velocity -290 and rises to 271. */
  lemma JumpExample()
    ensures HeroStep(Hero(50.0, 300.0, 0.0, true), {"Space"}, 0.1) == Hero(50.0, 271.0, -290.0, false)
  {
  }

  // ---------------------------------------------------------------- scrolling

  /** An entity moved left by d. */
  function Shift(r: Rect, d: real): Rect {
    r.(x := r.x - d)
  }

  /** Every entity of s moved left by d, in the same order. */
  function Scrolled(s: seq<Rect>, d: real): seq<Rect> {
    seq(|s|, i requires 0 <= i < |s| => Shift(s[i], d))
  }

  /** Scrolling keeps the number and order of entities and changes only x. */
  lemma ScrolledMovesOnlyX(s: seq<Rect>, d: real)
    ensures |Scrolled(s, d)| == |s|
    ensures forall i :: 0 <= i < |s| ==>
              Scrolled(s, d)[i].x == s[i].x - d &&
              Scrolled(s, d)[i].y == s[i].y &&
              Scrolled(s, d)[i].w == s[i].w &&
              Scrolled(s, d)[i].h == s[i].h
  {
  }

  /** Scrolling a list with an entity appended scrolls the list and the entity. */
  lemma ScrolledAppend(a: seq<Rect>, b: seq<Rect>, d: real)
    ensures Scrolled(a + b, d) == Scrolled(a, d) + Scrolled(b, d)
  {
  }

  // ---------------------------------------------------------------- collision filters

  /** The entities of s that do not overlap box, in their original order. */
  function Kept(box: Rect, s: seq<Rect>): seq<Rect>
    decreases |s|
  {
    if s == [] then []
    else Kept(box, s[..|s| - 1]) + (if Aabb(box, s[|s| - 1]) then [] else [s[|s| - 1]])
  }

  /** How many entities of s overlap box. */
  function Hits(box: Rect, s: seq<Rect>): nat
    decreases |s|
  {
    if s == [] then 0
    else Hits(box, s[..|s| - 1]) + (if Aabb(box, s[|s| - 1]) then 1 else 0)
  }

  /** Every entity is either kept or counted as a hit: the count is exactly the
      number removed. */
  lemma {:induction false} KeptPlusHits(box: Rect, s: seq<Rect>)
    ensures |Kept(box, s)| + Hits(box, s) == |s|
    decreases |s|
  {
    if s != [] {
      KeptPlusHits(box, s[..|s| - 1]);
    }
  }

  /** An entity survives the filter exactly when it was there and does not
      overlap the box. */
  lemma {:induction false} KeptExactly(box: Rect, s: seq<Rect>, e: Rect)
    ensures e in Kept(box, s) <==> e in s && !Aabb(box, e)
    decreases |s|
  {
    if s != [] {
      var init := s[..|s| - 1];
      KeptExactly(box, init, e);
      assert s == init + [s[|s| - 1]];
    }
  }

  /** The filter works entity by entity, front to back: filtering a
      concatenation filters each part and keeps their order. */
  lemma {:induction false} KeptAppend(box: Rect, a: seq<Rect>, b: seq<Rect>)
    ensures Kept(box, a + b) == Kept(box, a) + Kept(box, b)
    ensures Hits(box, a + b) == Hits(box, a) + Hits(box, b)
    decreases |b|
  {
    if b == [] {
      assert a + b == a;
    } else {
      var init := b[..|b| - 1];
      KeptAppend(box, a, init);
      assert (a + b)[..|a + b| - 1] == a + init;
    }
  }

  // ---------------------------------------------------------------- lives

  /** Lives left after n hits, each hit taking one life while any remain. */
  function Drained(lives: nat, n: nat): nat
    decreases n
  {
    if n == 0 then lives
    else
      var k := Drained(lives, n - 1);
      if k > 0 then k - 1 else 0
  }

  /** The per-hit saturating decrement amounts to max(0, lives - n). */
  lemma {:induction false} DrainedClosedForm(lives: nat, n: nat)
    ensures Drained(lives, n) == if lives >= n then lives - n else 0
    decreases n
  {
    if n > 0 {
      DrainedClosedForm(lives, n - 1);
    }
  }

  // ---------------------------------------------------------------- sprite frames

  /** A sprite's frame index and the time accumulated towards its next frame. */
  datatype Anim = Anim(frame: nat, timer: real)

  /** Advance a sprite timer by dt; once a whole frame duration has gathered,
      move to the next frame, wrapping around after the last. */
  function Advance(a: Anim, dt: real, count: nat, duration: real): (r: Anim)
    requires count > 0
    ensures a.frame < count ==> r.frame < count
    ensures r.frame == a.frame || r.frame == (a.frame + 1) % count
  {
    var t := a.timer + dt;
    if t >= duration then Anim((a.frame + 1) % count, t - duration)
    else Anim(a.frame, t)
  }

  /** With a step no longer than one frame duration, the timer stays in
      [0, duration). */
  lemma AdvanceTimerBounded(a: Anim, dt: real, count: nat, duration: real)
    requires count > 0
    requires 0.0 <= a.timer < duration
    requires 0.0 <= dt <= duration
    ensures 0.0 <= Advance(a, dt, count, duration).timer < duration
  {
  }
}
