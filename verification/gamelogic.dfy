/** The game's state machine as values: the whole game state, one frame of
    simulation, the frame loop's gate, restart, and the key and click handlers.
    Sequences of events are folded over a state, so properties of whole sessions
    can be stated. */
module GameLogic {
  import opened Geometry
  import opened Physics
  import opened Spawner

  const START_X: real := 50.0
  const START_LIVES: nat := 3
  const START_HERO: Hero := Hero(START_X, GROUND_Y, 0.0, true)

  /** Everything the simulation reads or writes: the world (score, lives, hero,
      coins, spikes), the held keys, the pause, game-over and help-hidden flags,
      and the two sprite counters. */
  datatype GameState = GameState(
    score: nat,
    lives: nat,
    hero: Hero,
    coins: seq<Rect>,
    spikes: seq<Rect>,
    keys: set<string>,
    paused: bool,
    gameOver: bool,
    helpHidden: bool,
    heroAnim: Anim,
    coinAnim: Anim)

  /** Every coin has the shape the spawner gives coins. */
  predicate AllCoins(coins: seq<Rect>) {
    forall c :: c in coins ==> IsCoin(c)
  }

  /** Every spike has the shape the spawner gives spikes. */
  predicate AllSpikes(spikes: seq<Rect>) {
    forall k :: k in spikes ==> IsSpike(k)
  }

  /** What holds in every reachable state. */
  predicate Inv(s: GameState) {
    Settled(s.hero) &&
    s.lives <= START_LIVES &&
    (s.gameOver <==> s.lives == 0) &&
    s.heroAnim.frame < HERO_FRAME_COUNT &&
    s.coinAnim.frame < COIN_FRAME_COUNT &&
    AllCoins(s.coins) &&
    AllSpikes(s.spikes)
  }

  /** The two states agree on everything the simulation step changes. */
  predicate SameWorld(s: GameState, t: GameState) {
    s.score == t.score && s.lives == t.lives && s.hero == t.hero &&
    s.coins == t.coins && s.spikes == t.spikes &&
    s.heroAnim == t.heroAnim && s.coinAnim == t.coinAnim
  }

  // ---------------------------------------------------------------- start

  /** The state when the page loads; whether the help overlay starts hidden is
      decided by the page, not by the script. */
  function Initial(helpHidden: bool): GameState {
    GameState(0, START_LIVES, START_HERO, [], [], {}, false, false, helpHidden,
              Anim(0, 0.0), Anim(0, 0.0))
  }

  /** Restart: every world field, flag and counter back to its initial value;
      held keys and the help overlay are left alone. */
  function Reset(s: GameState): GameState {
    s.(score := 0, lives := START_LIVES, hero := START_HERO, coins := [], spikes := [],
       paused := false, gameOver := false,
       heroAnim := Anim(0, 0.0), coinAnim := Anim(0, 0.0))
  }

  /** Restart yields one fixed state, whatever came before, and doing it twice
      is doing it once. */
  lemma ResetCanonical(s: GameState)
    ensures Reset(s) == Initial(s.helpHidden).(keys := s.keys)
    ensures Reset(Reset(s)) == Reset(s)
    ensures Inv(Reset(s))
  {
  }

  // ---------------------------------------------------------------- one frame

  /** The coins after spawning and scrolling, before collisions. */
  function ArrivingCoins(s: GameState, dt: real, width: nat, d: Draws): seq<Rect> {
    Scrolled(SpawnCoins(s.coins, width, d), COIN_SCROLL * dt)
  }

  /** The spikes after spawning and scrolling, before collisions. */
  function ArrivingSpikes(s: GameState, dt: real, width: nat, d: Draws): seq<Rect> {
    Scrolled(SpawnSpikes(s.spikes, width, d), SPIKE_SCROLL * dt)
  }

  /** The stages of a step, each on the state the previous one left: the hero
      moves; the spawner appends; coins and spikes scroll; coins are collected;
      spikes do damage; the game-over check; the sprite counters. */
  function MoveStage(s: GameState, dt: real): GameState {
    s.(hero := HeroStep(s.hero, s.keys, dt))
  }

  function SpawnStage(s: GameState, width: nat, d: Draws): GameState {
    s.(coins := SpawnCoins(s.coins, width, d), spikes := SpawnSpikes(s.spikes, width, d))
  }

  function ScrollStage(s: GameState, dt: real): GameState {
    s.(coins := Scrolled(s.coins, COIN_SCROLL * dt), spikes := Scrolled(s.spikes, SPIKE_SCROLL * dt))
  }

  function CollectStage(s: GameState): GameState {
    s.(coins := Kept(Box(s.hero), s.coins), score := s.score + Hits(Box(s.hero), s.coins))
  }

  function DamageStage(s: GameState): GameState {
    s.(spikes := Kept(Box(s.hero), s.spikes), lives := Drained(s.lives, Hits(Box(s.hero), s.spikes)))
  }

  function GameOverStage(s: GameState): GameState {
    var over := s.lives == 0 && !s.gameOver;
    s.(gameOver := s.gameOver || over, paused := s.paused || over)
  }

  function AnimateStage(s: GameState, dt: real): GameState {
    s.(heroAnim := Advance(s.heroAnim, dt, HERO_FRAME_COUNT, HERO_FRAME_DURATION),
       coinAnim := Advance(s.coinAnim, dt, COIN_FRAME_COUNT, COIN_FRAME_DURATION))
  }

  /** One simulation step of dt seconds: the stages run one after another. */
  function Step(s: GameState, dt: real, width: nat, d: Draws): GameState {
    AnimateStage(GameOverStage(DamageStage(CollectStage(
      ScrollStage(SpawnStage(MoveStage(s, dt), width, d), dt)))), dt)
  }

  /** The frame loop's time step: the elapsed time, capped at FRAME_CAP. */
  function FrameDt(elapsed: real): (dt: real)
    ensures dt <= FRAME_CAP
    ensures elapsed <= FRAME_CAP ==> dt == elapsed
    ensures dt == elapsed || dt == FRAME_CAP
  {
    if elapsed < FRAME_CAP then elapsed else FRAME_CAP
  }

  /** One pass of the frame loop: a capped step, only while neither paused nor
      over. */
  function Tick(s: GameState, elapsed: real, width: nat, d: Draws): GameState {
    if !s.paused && !s.gameOver then Step(s, FrameDt(elapsed), width, d) else s
  }

  lemma ScrolledCoinsStayCoins(t: seq<Rect>, d: real)
    requires AllCoins(t)
    ensures AllCoins(Scrolled(t, d))
  {
    forall c | c in Scrolled(t, d) ensures IsCoin(c) {
      var i :| 0 <= i < |t| && Scrolled(t, d)[i] == c;
      assert t[i] in t;
    }
  }

  lemma ScrolledSpikesStaySpikes(t: seq<Rect>, d: real)
    requires AllSpikes(t)
    ensures AllSpikes(Scrolled(t, d))
  {
    forall k | k in Scrolled(t, d) ensures IsSpike(k) {
      var i :| 0 <= i < |t| && Scrolled(t, d)[i] == k;
      assert t[i] in t;
    }
  }

  /** A step keeps the invariant, whatever the keys, time step and draws. */
  lemma StepPreservesInv(s: GameState, dt: real, width: nat, d: Draws)
    requires Inv(s)
    ensures Inv(Step(s, dt, width, d))
  {
    var r := Step(s, dt, width, d);
    HeroStepKeepsSettled(s.hero, s.keys, dt);
    var box := Box(r.hero);
    var spikes := ArrivingSpikes(s, dt, width, d);
    DrainedClosedForm(s.lives, Hits(box, spikes));

    var spawnedCoins := SpawnCoins(s.coins, width, d);
    SpawnCoinsAppendsAtMostOne(s.coins, width, d);
    forall c | c in spawnedCoins ensures IsCoin(c) {
      if c !in s.coins {
        assert c == NewCoin(width, d.yRoll);
      }
    }
    ScrolledCoinsStayCoins(spawnedCoins, COIN_SCROLL * dt);
    forall c | c in r.coins ensures IsCoin(c) {
      KeptExactly(box, ArrivingCoins(s, dt, width, d), c);
    }

    var spawnedSpikes := SpawnSpikes(s.spikes, width, d);
    ScrolledSpikesStaySpikes(spawnedSpikes, SPIKE_SCROLL * dt);
    forall k | k in r.spikes ensures IsSpike(k) {
      KeptExactly(box, spikes, k);
    }
  }

  /** A step removes exactly the arriving coins that overlap the hero, keeping
      the others in their order, and raises the score by the number removed. */
  lemma StepCollectsCoins(s: GameState, dt: real, width: nat, d: Draws)
    ensures var r := Step(s, dt, width, d);
      var arriving := ArrivingCoins(s, dt, width, d);
      r.coins == Kept(Box(r.hero), arriving) &&
      |r.coins| <= |arriving| &&
      r.score == s.score + (|arriving| - |r.coins|) &&
      (forall c :: c in r.coins <==> c in arriving && !Aabb(Box(r.hero), c))
  {
    var r := Step(s, dt, width, d);
    var arriving := ArrivingCoins(s, dt, width, d);
    KeptPlusHits(Box(r.hero), arriving);
    forall c ensures c in r.coins <==> c in arriving && !Aabb(Box(r.hero), c) {
      KeptExactly(Box(r.hero), arriving, c);
    }
  }

  /** A step removes exactly the arriving spikes that overlap the hero, keeping
      the others in their order, and each
      one removed takes a life while any remain: lives become
      max(0, lives - removed). */
  lemma StepDrainsLives(s: GameState, dt: real, width: nat, d: Draws)
    ensures var r := Step(s, dt, width, d);
      var arriving := ArrivingSpikes(s, dt, width, d);
      var removed := |arriving| - |r.spikes|;
      r.spikes == Kept(Box(r.hero), arriving) &&
      |r.spikes| <= |arriving| &&
      r.lives == (if s.lives >= removed then s.lives - removed else 0) &&
      (forall k :: k in r.spikes <==> k in arriving && !Aabb(Box(r.hero), k))
  {
    var r := Step(s, dt, width, d);
    var arriving := ArrivingSpikes(s, dt, width, d);
    KeptPlusHits(Box(r.hero), arriving);
    DrainedClosedForm(s.lives, Hits(Box(r.hero), arriving));
    forall k ensures k in r.spikes <==> k in arriving && !Aabb(Box(r.hero), k) {
      KeptExactly(Box(r.hero), arriving, k);
    }
  }

  /** Game over fires when lives reach zero and the game is not over yet, and
      then also pauses; otherwise a step leaves the pause flag alone. A step
      never touches the held keys or the help overlay. */
  lemma StepGameOverOnce(s: GameState, dt: real, width: nat, d: Draws)
    ensures var r := Step(s, dt, width, d);
      r.gameOver == (s.gameOver || r.lives == 0) &&
      (!s.gameOver && r.gameOver ==> r.paused && r.lives == 0) &&
      (s.gameOver ==> r.paused == s.paused) &&
      (r.gameOver == s.gameOver ==> r.paused == s.paused) &&
      r.keys == s.keys && r.helpHidden == s.helpHidden
  {
  }

  /** While paused or over, the frame loop changes nothing. */
  lemma TickFrozen(s: GameState, elapsed: real, width: nat, d: Draws)
    requires s.paused || s.gameOver
    ensures Tick(s, elapsed, width, d) == s
  {
  }

  /** Running with Space held from the ground, the hero takes off on the next
      frame: its velocity is the impulse plus one capped step of gravity. */
  lemma TickTakesOff(s: GameState, elapsed: real, width: nat, d: Draws)
    requires Inv(s) && !s.paused && !s.gameOver
    requires s.hero.onGround && "Space" in s.keys
    requires elapsed > 0.0
    ensures var r := Tick(s, elapsed, width, d);
      r.hero.vy == JUMP_VY + GRAVITY * FrameDt(elapsed) &&
      r.hero.y < s.hero.y &&
      !r.hero.onGround
  {
    TakeOff(s.hero, s.keys, FrameDt(elapsed));
  }

  // ---------------------------------------------------------------- input

  /** The held-keys name of a key event: the Space key by its fixed name, every
      other key by its key value. */
  function KeyName(key: string, code: string): string {
    if code == "Space" then "Space" else key
  }

  /** The key values that lower-case to "r" and to "p". */
  predicate IsRestartKey(key: string) {
    key == "r" || key == "R"
  }

  predicate IsPauseKey(key: string) {
    key == "p" || key == "P"
  }

  /** Opening help pauses the game. */
  function OpenHelp(s: GameState): GameState {
    s.(helpHidden := false, paused := true)
  }

  /** Closing help resumes the game. */
  function CloseHelp(s: GameState): GameState {
    s.(helpHidden := true, paused := false)
  }

  /** A click on the overlay's backdrop hides it and leaves the pause alone. */
  function DismissHelp(s: GameState): GameState {
    s.(helpHidden := true)
  }

  /** The first key-down listener: the restart key restarts. */
  function RestartListener(s: GameState, key: string): GameState {
    if IsRestartKey(key) then Reset(s) else s
  }

  /** The second: the pause key flips the pause flag. */
  function PauseListener(s: GameState, key: string): GameState {
    if IsPauseKey(key) then s.(paused := !s.paused) else s
  }

  /** The third: the key becomes held. */
  function HoldListener(s: GameState, key: string, code: string): GameState {
    s.(keys := s.keys + {KeyName(key, code)})
  }

  /** The fourth: Escape opens help when it is hidden and closes it otherwise. */
  function EscapeListener(s: GameState, key: string): GameState {
    if key == "Escape" && s.helpHidden then OpenHelp(s)
    else if key == "Escape" && !s.helpHidden then CloseHelp(s)
    else s
  }

  /** The four key-down listeners in the order they are registered. */
  function KeyDown(s: GameState, key: string, code: string): GameState {
    EscapeListener(HoldListener(PauseListener(RestartListener(s, key), key), key, code), key)
  }

  /** The key-up listener: the key is no longer held. */
  function KeyUp(s: GameState, key: string, code: string): GameState {
    s.(keys := s.keys - {KeyName(key, code)})
  }

  /** Key-down adds the key's name to the held keys and key-up removes it; the
      Space key always goes by the name "Space". Key-up, and key-down of any key
      other than restart, pause and Escape, change nothing else. */
  lemma KeysHeld(s: GameState, key: string, code: string)
    ensures KeyDown(s, key, code).keys == s.keys + {KeyName(key, code)}
    ensures KeyUp(s, key, code).keys == s.keys - {KeyName(key, code)}
    ensures KeyName(key, "Space") == "Space"
    ensures !IsRestartKey(key) && !IsPauseKey(key) && key != "Escape" ==>
              KeyDown(s, key, code).(keys := s.keys) == s
    ensures KeyUp(s, key, code).(keys := s.keys) == s
  {
  }

  /** The pause key flips the pause flag and nothing else of the game. */
  lemma PauseKeyToggles(s: GameState, key: string, code: string)
    requires IsPauseKey(key)
    ensures KeyDown(s, key, code).paused == !s.paused
    ensures KeyDown(s, key, code).gameOver == s.gameOver
    ensures KeyDown(s, key, code).helpHidden == s.helpHidden
    ensures SameWorld(KeyDown(s, key, code), s)
  {
  }

  /** Escape flips the help overlay; opening it pauses and closing it resumes. */
  lemma EscapeTogglesHelp(s: GameState, code: string)
    ensures var t := KeyDown(s, "Escape", code);
      t.helpHidden == !s.helpHidden &&
      t.paused == !t.helpHidden &&
      t.gameOver == s.gameOver &&
      SameWorld(t, s)
  {
  }

  // ---------------------------------------------------------------- sessions

  /** Everything that can happen to the game: a frame of the loop (with its
      elapsed seconds, the field width and the spawner's draws), a key going
      down or up, and the three clicks of the help overlay. */
  datatype Event =
    | Frame(elapsed: real, width: nat, draws: Draws)
    | Press(key: string, code: string)
    | Release(key: string, code: string)
    | HelpButton
    | CloseButton
    | Backdrop

  predicate IsRestart(e: Event) {
    e.Press? && IsRestartKey(e.key)
  }

  function Apply(s: GameState, e: Event): GameState {
    match e
    case Frame(elapsed, width, d) => Tick(s, elapsed, width, d)
    case Press(key, code) => KeyDown(s, key, code)
    case Release(key, code) => KeyUp(s, key, code)
    case HelpButton => OpenHelp(s)
    case CloseButton => CloseHelp(s)
    case Backdrop => DismissHelp(s)
  }

  /** The state after the events of es, in order. */
  function Run(s: GameState, es: seq<Event>): GameState
    decreases |es|
  {
    if es == [] then s else Run(Apply(s, es[0]), es[1..])
  }

  /** A state that agrees with an invariant-keeping one on its world and on game
      over keeps the invariant too. */
  lemma InvOfSameWorld(s: GameState, t: GameState)
    requires Inv(s) && SameWorld(s, t) && t.gameOver == s.gameOver
    ensures Inv(t)
  {
  }

  /** Key-down keeps the invariant. */
  lemma KeyDownPreservesInv(s: GameState, key: string, code: string)
    requires Inv(s)
    ensures Inv(KeyDown(s, key, code))
  {
    var s1 := RestartListener(s, key);
    ResetCanonical(s);
    assert Inv(s1);
    var s2 := PauseListener(s1, key);
    InvOfSameWorld(s1, s2);
    var s3 := HoldListener(s2, key, code);
    InvOfSameWorld(s2, s3);
    InvOfSameWorld(s3, EscapeListener(s3, key));
  }

  /** Every event keeps the invariant. */
  lemma ApplyPreservesInv(s: GameState, e: Event)
    requires Inv(s)
    ensures Inv(Apply(s, e))
  {
    match e
    case Frame(elapsed, width, d) =>
      if !s.paused && !s.gameOver {
        StepPreservesInv(s, FrameDt(elapsed), width, d);
      }
    case Press(key, code) =>
      KeyDownPreservesInv(s, key, code);
    case Release(key, code) =>
      InvOfSameWorld(s, KeyUp(s, key, code));
    case HelpButton =>
      InvOfSameWorld(s, OpenHelp(s));
    case CloseButton =>
      InvOfSameWorld(s, CloseHelp(s));
    case Backdrop =>
      InvOfSameWorld(s, DismissHelp(s));
  }

  /** Every session keeps the invariant. */
  lemma {:induction false} RunPreservesInv(s: GameState, es: seq<Event>)
    requires Inv(s)
    ensures Inv(Run(s, es))
    decreases |es|
  {
    if es != [] {
      ApplyPreservesInv(s, es[0]);
      RunPreservesInv(Apply(s, es[0]), es[1..]);
    }
  }

  /** Over any session from the page load, the hero stays in the play field:
      never below the ground and never more than JUMP_VY² / (2·GRAVITY) above
      it, so its height is always positive. */
  lemma HeroStaysInField(helpHidden: bool, es: seq<Event>)
    ensures var h := Run(Initial(helpHidden), es).hero;
      GROUND_Y - JUMP_VY * JUMP_VY / (2.0 * GRAVITY) <= h.y <= GROUND_Y && 0.0 < h.y
  {
    RunPreservesInv(Initial(helpHidden), es);
    SettledHeightBounded(Run(Initial(helpHidden), es).hero);
  }

  /** Only a restart key clears game over. */
  lemma GameOverClearedOnlyByRestart(s: GameState, e: Event)
    requires s.gameOver && !Apply(s, e).gameOver
    ensures IsRestart(e)
  {
  }

  /** Without a restart, no event lowers the score or raises the lives. */
  lemma ApplyMonotone(s: GameState, e: Event)
    requires !IsRestart(e)
    ensures Apply(s, e).score >= s.score
    ensures Apply(s, e).lives <= s.lives
  {
    if e.Frame? && !s.paused && !s.gameOver {
      StepDrainsLives(s, FrameDt(e.elapsed), e.width, e.draws);
    }
  }

  /** Between restarts the score never falls and lives never rise. */
  lemma {:induction false} ScoreAndLivesMonotone(s: GameState, es: seq<Event>)
    requires forall i :: 0 <= i < |es| ==> !IsRestart(es[i])
    ensures Run(s, es).score >= s.score
    ensures Run(s, es).lives <= s.lives
    decreases |es|
  {
    if es != [] {
      ApplyMonotone(s, es[0]);
      ScoreAndLivesMonotone(Apply(s, es[0]), es[1..]);
    }
  }

  /** Once over, a single event other than a restart changes neither game over
      nor the world. */
  lemma ApplyWhileOver(s: GameState, e: Event)
    requires s.gameOver && !IsRestart(e)
    ensures Apply(s, e).gameOver && SameWorld(Apply(s, e), s)
  {
    if e.Press? {
      var s2 := PauseListener(RestartListener(s, e.key), e.key);
      assert s2.gameOver && SameWorld(s2, s);
    }
  }

  /** Once over, the game stays over and its world stays frozen, whatever else
      happens, until a restart. */
  lemma {:induction false} FrozenUntilRestart(s: GameState, es: seq<Event>)
    requires s.gameOver
    requires forall i :: 0 <= i < |es| ==> !IsRestart(es[i])
    ensures Run(s, es).gameOver
    ensures SameWorld(Run(s, es), s)
    decreases |es|
  {
    if es != [] {
      var t := Apply(s, es[0]);
      ApplyWhileOver(s, es[0]);
      FrozenUntilRestart(t, es[1..]);
    }
  }
}
