/** The knockback distance an enemy still has to travel (enemy.py, apply_knockback and update). */
module Knockback {
  import opened Config

  /** Distance consumed by one tick of knockback: min(ENEMY_KNOCKBACK_SPEED, remaining). */
  function Step(remaining: int): (s: int)
    ensures remaining > 0 ==> 0 < s <= remaining && s <= ENEMY_KNOCKBACK_SPEED
    ensures remaining >= ENEMY_KNOCKBACK_SPEED ==> s == ENEMY_KNOCKBACK_SPEED
    ensures remaining <= ENEMY_KNOCKBACK_SPEED ==> s == remaining
  {
    if ENEMY_KNOCKBACK_SPEED < remaining then ENEMY_KNOCKBACK_SPEED else remaining
  }

  /** Remaining distance after n enemy updates: an update consumes a step while the remaining
      distance is positive, and pursues the player (leaving it alone) otherwise. */
  function Remaining(d: int, n: nat): int
    decreases n
  {
    if n == 0 then d
    else if d > 0 then Remaining(d - Step(d), n - 1)
    else Remaining(d, n - 1)
  }

  /** Total distance moved by knockback during n enemy updates. */
  function Travelled(d: int, n: nat): int
    decreases n
  {
    if n == 0 then 0
    else if d > 0 then Step(d) + Travelled(d - Step(d), n - 1)
    else Travelled(d, n - 1)
  }

  /** Number of updates a knockback of distance d lasts. */
  function Ticks(d: nat): nat
  {
    (d + ENEMY_KNOCKBACK_SPEED - 1) / ENEMY_KNOCKBACK_SPEED
  }

  /** The steps never overshoot: the remaining distance stays non-negative, and what
      has been travelled plus what remains is the distance that was set. */
  lemma {:induction false} Conserved(d: int, n: nat)
    requires d >= 0
    ensures Remaining(d, n) >= 0
    ensures Travelled(d, n) + Remaining(d, n) == d
    decreases n
  {
    if n > 0 {
      if d > 0 {
        Conserved(d - Step(d), n - 1);
      } else {
        Conserved(d, n - 1);
      }
    }
  }

  /** The knockback is exhausted exactly after Ticks(d) updates. */
  lemma {:induction false} ExhaustedAfterTicks(d: int, n: nat)
    requires d >= 0
    ensures Remaining(d, n) == 0 <==> n >= Ticks(d)
    decreases n
  {
    if n > 0 {
      if d > 0 {
        assert Ticks(d - Step(d)) == Ticks(d) - 1;
        ExhaustedAfterTicks(d - Step(d), n - 1);
      } else {
        ExhaustedAfterTicks(d, n - 1);
      }
    }
  }

  /** A contact pushback of 80 pixels at 5 pixels per tick lasts 16 ticks and covers all 80. */
  lemma PushbackLastsSixteenTicks()
    ensures Ticks(PUSHBACK_DISTANCE) == 16
    ensures Remaining(PUSHBACK_DISTANCE, 16) == 0 && Travelled(PUSHBACK_DISTANCE, 16) == PUSHBACK_DISTANCE
    ensures Remaining(PUSHBACK_DISTANCE, 15) > 0
  {
    ExhaustedAfterTicks(PUSHBACK_DISTANCE, 16);
    ExhaustedAfterTicks(PUSHBACK_DISTANCE, 15);
    Conserved(PUSHBACK_DISTANCE, 16);
    Conserved(PUSHBACK_DISTANCE, 15);
  }
}
