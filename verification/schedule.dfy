/** The enemy spawn timer (game.py, spawn_enemies lines 211-214). */
module Schedule {
  import opened Config

  /** One tick of the timer: it counts up and, on reaching the interval, resets and spawns. */
  function SpawnTick(timer: int): (r: (int, bool))
    ensures 0 <= timer < SPAWN_INTERVAL ==> 0 <= r.0 < SPAWN_INTERVAL
    ensures r.1 <==> timer + 1 >= SPAWN_INTERVAL
    ensures r.1 ==> r.0 == 0
    ensures !r.1 ==> r.0 == timer + 1
  {
    var t := timer + 1;
    if t >= SPAWN_INTERVAL then (0, true) else (t, false)
  }

  /** The timer and the number of spawns after n ticks. */
  function Run(timer: int, n: nat): (int, nat)
    decreases n
  {
    if n == 0 then (timer, 0)
    else
      var t := SpawnTick(timer);
      var r := Run(t.0, n - 1);
      (r.0, r.1 + if t.1 then 1 else 0)
  }

  /** Ticks that do not reach the interval only count up. */
  lemma {:induction false} Quiet(timer: int, n: nat)
    requires 0 <= timer && timer + n < SPAWN_INTERVAL
    ensures Run(timer, n) == (timer + n, 0)
    decreases n
  {
    if n > 0 {
      Quiet(timer + 1, n - 1);
    }
  }

  /** Running a + b ticks is running a ticks, then b. */
  lemma {:induction false} RunSplit(timer: int, a: nat, b: nat)
    ensures Run(timer, a + b).0 == Run(Run(timer, a).0, b).0
    ensures Run(timer, a + b).1 == Run(timer, a).1 + Run(Run(timer, a).0, b).1
    decreases a
  {
    if a > 0 {
      RunSplit(SpawnTick(timer).0, a - 1, b);
    }
  }

  /** From any legal timer value, 60 consecutive ticks spawn exactly one enemy and bring the
      timer back to where it was; from a fresh timer, the spawn falls on the 60th tick. */
  lemma OneSpawnPerInterval(timer: int)
    requires 0 <= timer < SPAWN_INTERVAL
    ensures Run(timer, SPAWN_INTERVAL) == (timer, 1)
    ensures timer == 0 ==> Run(0, SPAWN_INTERVAL - 1).1 == 0
  {
    var a := SPAWN_INTERVAL - 1 - timer;
    Quiet(timer, a);
    RunSplit(timer, a, 1 + timer);
    RunSplit(SPAWN_INTERVAL - 1, 1, timer);
    Quiet(0, timer);
    assert Run(SPAWN_INTERVAL - 1, 1) == (0, 1);
    if timer == 0 {
      Quiet(0, SPAWN_INTERVAL - 1);
    }
  }

  /** The edge of the arena a new enemy enters from. */
  datatype Side = Top | Bottom | Left | Right

  /** Where a spawned enemy appears: SPAWN_MARGIN beyond the chosen edge, at the drawn
      coordinate `along` that edge (random.randint(0, WIDTH) or random.randint(0, HEIGHT)). */
  function SpawnPoint(side: Side, along: int): (p: (int, int))
    requires 0 <= along <= if side == Top || side == Bottom then WIDTH else HEIGHT
    ensures !(0 <= p.0 <= WIDTH && 0 <= p.1 <= HEIGHT)
    ensures -SPAWN_MARGIN <= p.0 <= WIDTH + SPAWN_MARGIN && -SPAWN_MARGIN <= p.1 <= HEIGHT + SPAWN_MARGIN
    ensures p.0 == along || p.1 == along
  {
    match side
    case Top => (along, -SPAWN_MARGIN)
    case Bottom => (along, HEIGHT + SPAWN_MARGIN)
    case Left => (-SPAWN_MARGIN, along)
    case Right => (WIDTH + SPAWN_MARGIN, along)
  }

  /** The result of one spawn_enemies call as written: the timer moves on, or the call raises. */
  datatype SpawnOutcome = Continues(timer: int) | Raises

  /** spawn_enemies as written: when the timer reaches the interval, the weighted tier draw
      unpacks the single class that random.choices(...)[0] yields into two names, which raises
      TypeError before any enemy is built. */
  function SpawnAsWritten(timer: int): (r: SpawnOutcome)
    ensures r == Raises <==> SpawnTick(timer).1
    ensures r != Raises ==> r == Continues(SpawnTick(timer).0)
  {
    var t := timer + 1;
    if t >= SPAWN_INTERVAL then Raises else Continues(t)
  }

  /** n consecutive spawn_enemies calls as written; a raise ends the run. */
  function RunAsWritten(timer: int, n: nat): SpawnOutcome
    decreases n
  {
    if n == 0 then Continues(timer)
    else match SpawnAsWritten(timer)
      case Raises => Raises
      case Continues(t) => RunAsWritten(t, n - 1)
  }

  /** Before the interval is reached, the as-written timer agrees with the intended one. */
  lemma {:induction false} QuietAsWritten(timer: int, n: nat)
    requires 0 <= timer && timer + n < SPAWN_INTERVAL
    ensures RunAsWritten(timer, n) == Continues(Run(timer, n).0)
    decreases n
  {
    Quiet(timer, n);
    if n > 0 {
      QuietAsWritten(timer + 1, n - 1);
      Quiet(timer + 1, n - 1);
    }
  }

  /** The counterexample: from a fresh timer the first 59 calls pass, and the 60th, the one
      that should bring in the first enemy, raises, so as written no enemy is ever spawned. */
  lemma SixtiethCallRaises()
    ensures RunAsWritten(0, SPAWN_INTERVAL - 1) == Continues(SPAWN_INTERVAL - 1)
    ensures RunAsWritten(0, SPAWN_INTERVAL) == Raises
    ensures Run(0, SPAWN_INTERVAL).1 == 1
  {
    QuietAsWritten(0, SPAWN_INTERVAL - 1);
    Quiet(0, SPAWN_INTERVAL - 1);
    RunSplit(0, SPAWN_INTERVAL - 1, 1);
    assert RunAsWritten(SPAWN_INTERVAL - 1, 1) == Raises;
    RunAsWrittenSplit(0, SPAWN_INTERVAL - 1);
    OneSpawnPerInterval(0);
  }

  /** One more call after n calls that did not raise. */
  lemma {:induction false} RunAsWrittenSplit(timer: int, n: nat)
    ensures RunAsWritten(timer, n + 1) ==
      match RunAsWritten(timer, n)
      case Raises => Raises
      case Continues(t) => SpawnAsWritten(t)
    decreases n
  {
    if n > 0 {
      match SpawnAsWritten(timer)
      case Raises =>
      case Continues(t) => RunAsWrittenSplit(t, n - 1);
    }
  }
}
