/** The running game as one object whose fields the frame loop, the restart and
    the input listeners update in place. Most methods are proved against the
    state machine of GameLogic: their new state is the matching function of
    their old state. MoveHero and Start state the fields they change, and their
    frames keep the rest. The frame loop and the input handlers also keep the
    invariant. */
module Runner {
  import opened Geometry
  import opened Physics
  import opened Spawner
  import opened GameLogic

  class Game {
    var score: nat
    var lives: nat
    var hero: Hero
    var coins: seq<Rect>
    var spikes: seq<Rect>
    /** Names of the keys currently held down. */
    var keys: set<string>
    var paused: bool
    var gameOver: bool
    /** Whether the help overlay is hidden. */
    var helpHidden: bool
    var heroFrame: nat
    var heroFrameTimer: real
    var coinFrame: nat
    var coinFrameTimer: real

    /** The object's state as a value. */
    function Snapshot(): GameState
      reads this
    {
      GameState(score, lives, hero, coins, spikes, keys, paused, gameOver, helpHidden,
                Anim(heroFrame, heroFrameTimer), Anim(coinFrame, coinFrameTimer))
    }

    ghost predicate Valid()
      reads this
    {
      Inv(Snapshot())
    }

    /** The state when the page loads. */
    constructor (helpInitiallyHidden: bool)
      ensures Valid()
      ensures Snapshot() == Initial(helpInitiallyHidden)
    {
      score, lives := 0, START_LIVES;
      hero := START_HERO;
      coins, spikes := [], [];
      keys := {};
      paused, gameOver := false, false;
      helpHidden := helpInitiallyHidden;
      heroFrame, heroFrameTimer := 0, 0.0;
      coinFrame, coinFrameTimer := 0, 0.0;
    }

    /** Restart: reset the world, the flags and the sprite counters. The held
        keys and the help overlay are outside its frame. */
    method Start()
      modifies this`score, this`lives, this`hero, this`coins, this`spikes, this`paused, this`gameOver
      modifies this`heroFrame, this`heroFrameTimer, this`coinFrame, this`coinFrameTimer
      ensures score == 0 && lives == START_LIVES && hero == START_HERO
      ensures coins == [] && spikes == [] && !paused && !gameOver
      ensures heroFrame == 0 && heroFrameTimer == 0.0 && coinFrame == 0 && coinFrameTimer == 0.0
    {
      score := 0;
      lives := START_LIVES;
      hero := hero.(x := START_X, y := GROUND_Y, vy := 0.0, onGround := true);
      coins := [];
      spikes := [];
      paused := false;
      gameOver := false;
      heroFrame := 0;
      heroFrameTimer := 0.0;
      coinFrame := 0;
      coinFrameTimer := 0.0;
    }

    /** The hero's part of a step: arrows, jump, gravity and the ground clamp. */
    method MoveHero(dt: real)
      modifies this`hero
      ensures hero == HeroStep(old(hero), keys, dt)
    {
      if "ArrowRight" in keys {
        hero := hero.(x := hero.x + RUN_SPEED * dt);
      }
      if "ArrowLeft" in keys {
        hero := hero.(x := hero.x - RUN_SPEED * dt);
      }
      if "Space" in keys && hero.onGround {
        hero := hero.(vy := JUMP_VY);
        hero := hero.(onGround := false);
      }
      hero := hero.(vy := hero.vy + GRAVITY * dt);
      hero := hero.(y := hero.y + hero.vy * dt);
      if hero.y >= GROUND_Y {
        hero := hero.(y := GROUND_Y);
        hero := hero.(vy := 0.0);
        hero := hero.(onGround := true);
      }
    }

    /** Append at most one coin and one spike, as the draws decide. */
    method Spawn(width: nat, d: Draws)
      modifies this`coins, this`spikes
      ensures Snapshot() == SpawnStage(old(Snapshot()), width, d)
    {
      if d.coinRoll < COIN_CHANCE {
        coins := coins + [NewCoin(width, d.yRoll)];
      }
      if d.spikeRoll < SPIKE_CHANCE {
        spikes := spikes + [NewSpike(width)];
      }
    }

    /** Move every coin and every spike left, each in place. */
    method ScrollEntities(dt: real)
      modifies this`coins, this`spikes
      ensures Snapshot() == ScrollStage(old(Snapshot()), dt)
    {
      var i := 0;
      while i < |coins|
        invariant 0 <= i <= |coins| == |old(coins)|
        invariant forall j :: 0 <= j < i ==> coins[j] == Shift(old(coins)[j], COIN_SCROLL * dt)
        invariant forall j :: i <= j < |coins| ==> coins[j] == old(coins)[j]
        invariant spikes == old(spikes)
      {
        coins := coins[i := coins[i].(x := coins[i].x - COIN_SCROLL * dt)];
        i := i + 1;
      }
      assert coins == Scrolled(old(coins), COIN_SCROLL * dt);
      i := 0;
      while i < |spikes|
        invariant 0 <= i <= |spikes| == |old(spikes)|
        invariant forall j :: 0 <= j < i ==> spikes[j] == Shift(old(spikes)[j], SPIKE_SCROLL * dt)
        invariant forall j :: i <= j < |spikes| ==> spikes[j] == old(spikes)[j]
        invariant coins == Scrolled(old(coins), COIN_SCROLL * dt)
      {
        spikes := spikes[i := spikes[i].(x := spikes[i].x - SPIKE_SCROLL * dt)];
        i := i + 1;
      }
      assert spikes == Scrolled(old(spikes), SPIKE_SCROLL * dt);
    }

    /** Filter out the coins touching the hero, scoring one for each. */
    method CollectCoins()
      modifies this`coins, this`score
      ensures Snapshot() == CollectStage(old(Snapshot()))
    {
      var box := Box(hero);
      var kept: seq<Rect> := [];
      var i := 0;
      while i < |coins|
        invariant 0 <= i <= |coins|
        invariant coins == old(coins)
        invariant kept == Kept(box, coins[..i])
        invariant score == old(score) + Hits(box, coins[..i])
      {
        var c := coins[i];
        assert coins[..i + 1][..i] == coins[..i];
        if !Aabb(box, c) {
          kept := kept + [c];
        } else {
          score := score + 1;
        }
        i := i + 1;
      }
      assert coins[..i] == coins;
      coins := kept;
    }

    /** Filter out the spikes touching the hero, each taking a life while any
        remain. */
    method HitSpikes()
      modifies this`spikes, this`lives
      ensures Snapshot() == DamageStage(old(Snapshot()))
    {
      var box := Box(hero);
      var kept: seq<Rect> := [];
      var i := 0;
      while i < |spikes|
        invariant 0 <= i <= |spikes|
        invariant spikes == old(spikes)
        invariant kept == Kept(box, spikes[..i])
        invariant lives == Drained(old(lives), Hits(box, spikes[..i]))
      {
        var s := spikes[i];
        assert spikes[..i + 1][..i] == spikes[..i];
        if Aabb(box, s) {
          if lives > 0 {
            lives := lives - 1;
          }
        } else {
          kept := kept + [s];
        }
        i := i + 1;
      }
      assert spikes[..i] == spikes;
      spikes := kept;
    }

    /** The one-shot game-over transition. */
    method CheckGameOver()
      modifies this`lives, this`gameOver, this`paused
      ensures Snapshot() == GameOverStage(old(Snapshot()))
    {
      if lives <= 0 && !gameOver {
        lives := 0;
        gameOver := true;
        paused := true;
      }
    }

    /** Step the two sprite-frame counters. */
    method Animate(dt: real)
      modifies this`heroFrame, this`heroFrameTimer, this`coinFrame, this`coinFrameTimer
      ensures Snapshot() == AnimateStage(old(Snapshot()), dt)
    {
      heroFrameTimer := heroFrameTimer + dt;
      if heroFrameTimer >= HERO_FRAME_DURATION {
        heroFrameTimer := heroFrameTimer - HERO_FRAME_DURATION;
        heroFrame := (heroFrame + 1) % HERO_FRAME_COUNT;
      }
      coinFrameTimer := coinFrameTimer + dt;
      if coinFrameTimer >= COIN_FRAME_DURATION {
        coinFrameTimer := coinFrameTimer - COIN_FRAME_DURATION;
        coinFrame := (coinFrame + 1) % COIN_FRAME_COUNT;
      }
    }

    /** One simulation step of dt seconds. */
    method Update(dt: real, width: nat, d: Draws)
      requires Valid()
      modifies this
      ensures Valid()
      ensures Snapshot() == Step(old(Snapshot()), dt, width, d)
    {
      ghost var s := Snapshot();
      MoveHero(dt);
      assert Snapshot() == MoveStage(s, dt);
      Spawn(width, d);
      ScrollEntities(dt);
      CollectCoins();
      HitSpikes();
      CheckGameOver();
      Animate(dt);
      StepPreservesInv(s, dt, width, d);
    }

    /** One pass of the frame loop, given the seconds elapsed since the last. */
    method Loop(elapsed: real, width: nat, d: Draws)
      requires Valid()
      modifies this
      ensures Valid()
      ensures Snapshot() == Tick(old(Snapshot()), elapsed, width, d)
    {
      var dt := FrameDt(elapsed);
      if !paused && !gameOver {
        Update(dt, width, d);
      }
    }

    /** The key-down listeners, in the order they are registered. */
    method OnKeyDown(key: string, code: string)
      requires Valid()
      modifies this
      ensures Valid()
      ensures Snapshot() == KeyDown(old(Snapshot()), key, code)
    {
      OnRestartKey(key);
      OnPauseKey(key);
      OnHoldKey(key, code);
      OnEscapeKey(key);
      KeyDownPreservesInv(old(Snapshot()), key, code);
    }

    /** The restart listener. */
    method OnRestartKey(key: string)
      modifies this
      ensures Snapshot() == RestartListener(old(Snapshot()), key)
    {
      if IsRestartKey(key) {
        Start();
      }
    }

    /** The pause listener. */
    method OnPauseKey(key: string)
      modifies this`paused
      ensures Snapshot() == PauseListener(old(Snapshot()), key)
    {
      if IsPauseKey(key) {
        paused := !paused;
      }
    }

    /** The held-keys listener. */
    method OnHoldKey(key: string, code: string)
      modifies this`keys
      ensures Snapshot() == HoldListener(old(Snapshot()), key, code)
    {
      keys := keys + {KeyName(key, code)};
    }

    /** The Escape listener. */
    method OnEscapeKey(key: string)
      modifies this`helpHidden, this`paused
      ensures Snapshot() == EscapeListener(old(Snapshot()), key)
    {
      if key == "Escape" && helpHidden {
        helpHidden := false;
        if !paused {
          paused := !paused;
        }
      } else if key == "Escape" && !helpHidden {
        helpHidden := true;
        if paused {
          paused := !paused;
        }
      }
    }

    /** The key-up listener. */
    method OnKeyUp(key: string, code: string)
      requires Valid()
      modifies this`keys
      ensures Valid()
      ensures Snapshot() == KeyUp(old(Snapshot()), key, code)
    {
      keys := keys - {KeyName(key, code)};
    }

    /** A click on the help button opens the overlay and pauses. */
    method OnHelpClick()
      requires Valid()
      modifies this`helpHidden, this`paused
      ensures Valid()
      ensures Snapshot() == OpenHelp(old(Snapshot()))
    {
      helpHidden := false;
      if !paused {
        paused := !paused;
      }
    }

    /** A click on the close button hides the overlay and resumes. */
    method OnCloseClick()
      requires Valid()
      modifies this`helpHidden, this`paused
      ensures Valid()
      ensures Snapshot() == CloseHelp(old(Snapshot()))
    {
      helpHidden := true;
      if paused {
        paused := !paused;
      }
    }

    /** A click on the overlay's backdrop hides it. */
    method OnBackdropClick()
      requires Valid()
      modifies this`helpHidden
      ensures Valid()
      ensures Snapshot() == DismissHelp(old(Snapshot()))
    {
      helpHidden := true;
    }
  }
}
