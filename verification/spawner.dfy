/** The entity spawner: each frame it may append one coin and one spike just
    beyond the right edge of the play field. Its random draws are parameters. */
module Spawner {
  import opened Geometry
  import opened Physics

  /** A draw of the platform's uniform random number generator, in [0, 1). */
  type Roll = r: real | 0.0 <= r < 1.0

  const COIN_CHANCE: real := 0.03
  const SPIKE_CHANCE: real := 0.02
  /** The band coins appear in: integer heights in [COIN_MIN_Y, COIN_MAX_Y),
      from the ground up to the height the game takes a jump to reach. */
  const MAX_JUMP_HEIGHT: int := 80
  const COIN_MAX_Y: int := 300
  const COIN_MIN_Y: int := COIN_MAX_Y - MAX_JUMP_HEIGHT
  const COIN_SIZE: real := 24.0
  const SPIKE_W: real := 40.0
  const SPIKE_H: real := 40.0

  /** The three draws one spawn can consume: whether a coin appears, the coin's
      height, and whether a spike appears. */
  datatype Draws = Draws(coinRoll: Roll, yRoll: Roll, spikeRoll: Roll)

  /** The coin height from a draw: the band's lower bound plus the draw scaled to
      the band, truncated towards zero (the value is positive, so this is floor). */
  function CoinY(roll: Roll): (y: int)
    ensures COIN_MIN_Y <= y < COIN_MAX_Y
  {
    (COIN_MIN_Y as real + roll * (COIN_MAX_Y - COIN_MIN_Y) as real).Floor
  }

  /** A freshly spawned coin, 20 units past the right edge. */
  function NewCoin(width: nat, roll: Roll): Rect {
    Rect(width as real + 20.0, CoinY(roll) as real, COIN_SIZE, COIN_SIZE)
  }

  /** A freshly spawned spike, 10 units past the right edge, standing on the
      ground line the hero stands on. */
  function NewSpike(width: nat): Rect {
    Rect(width as real + 10.0, GROUND_Y + HERO_H - SPIKE_H, SPIKE_W, SPIKE_H)
  }

  /** The coin list after the spawner's coin draw. */
  function SpawnCoins(coins: seq<Rect>, width: nat, d: Draws): seq<Rect> {
    if d.coinRoll < COIN_CHANCE then coins + [NewCoin(width, d.yRoll)] else coins
  }

  /** The spike list after the spawner's spike draw. */
  function SpawnSpikes(spikes: seq<Rect>, width: nat, d: Draws): seq<Rect> {
    if d.spikeRoll < SPIKE_CHANCE then spikes + [NewSpike(width)] else spikes
  }

  /** The shape every coin has: 24 by 24 at an integer height in the band. */
  predicate IsCoin(c: Rect) {
    c.w == COIN_SIZE && c.h == COIN_SIZE &&
    COIN_MIN_Y as real <= c.y < COIN_MAX_Y as real &&
    c.y.Floor as real == c.y
  }

  /** The shape every spike has: 40 by 40, standing at GROUND_Y. */
  predicate IsSpike(s: Rect) {
    s.w == SPIKE_W && s.h == SPIKE_H && s.y == GROUND_Y
  }

  /** The spawner appends at most one coin, at the end, leaving the existing
      coins as they were; an appended coin is well shaped and sits at width + 20.
      It appends one exactly when the coin draw is below the coin chance. */
  lemma SpawnCoinsAppendsAtMostOne(coins: seq<Rect>, width: nat, d: Draws)
    ensures var r := SpawnCoins(coins, width, d);
      |r| == |coins| + (if d.coinRoll < COIN_CHANCE then 1 else 0) &&
      r[..|coins|] == coins &&
      (|r| > |coins| ==> IsCoin(r[|coins|]) && r[|coins|].x == width as real + 20.0)
  {
    var r := SpawnCoins(coins, width, d);
    assert r[..|coins|] == coins;
  }

  /** The same for spikes: at most one, at the end, at width + 10 on the ground. */
  lemma SpawnSpikesAppendsAtMostOne(spikes: seq<Rect>, width: nat, d: Draws)
    ensures var r := SpawnSpikes(spikes, width, d);
      |r| == |spikes| + (if d.spikeRoll < SPIKE_CHANCE then 1 else 0) &&
      r[..|spikes|] == spikes &&
      (|r| > |spikes| ==> IsSpike(r[|spikes|]) && r[|spikes|].x == width as real + 10.0)
  {
    var r := SpawnSpikes(spikes, width, d);
    assert r[..|spikes|] == spikes;
  }
}
