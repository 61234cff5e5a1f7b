/** Player movement inside the arena (player.py, handle_input). */
module Arena {
  import opened Config
  import opened Input

  function Clamp(v: int, lo: int, hi: int): (r: int)
    requires lo <= hi
    ensures lo <= r <= hi
    ensures lo <= v <= hi ==> r == v
    ensures v < lo ==> r == lo
    ensures v > hi ==> r == hi
  {
    if v < lo then lo else if v > hi then hi else v
  }

  /** Net velocity from the held keys: each key adds plus or minus speed on its axis. */
  function Velocity(k: Keys, speed: int): (v: (int, int))
    ensures k.left == k.right ==> v.0 == 0
    ensures k.up == k.down ==> v.1 == 0
    ensures k.left && !k.right ==> v.0 == -speed
    ensures k.right && !k.left ==> v.0 == speed
    ensures k.up && !k.down ==> v.1 == -speed
    ensures k.down && !k.up ==> v.1 == speed
  {
    var vx := (if k.left then -speed else 0) + (if k.right then speed else 0);
    var vy := (if k.up then -speed else 0) + (if k.down then speed else 0);
    (vx, vy)
  }

  /** The player's position after one tick of input: moved by the velocity, then clamped
      into [0, WIDTH] x [0, HEIGHT]. A diagonal is not normalised. */
  function Move(x: int, y: int, k: Keys): (p: (int, int))
    ensures 0 <= p.0 <= WIDTH && 0 <= p.1 <= HEIGHT
    ensures 0 <= x + Velocity(k, PLAYER_SPEED).0 <= WIDTH ==> p.0 == x + Velocity(k, PLAYER_SPEED).0
    ensures 0 <= y + Velocity(k, PLAYER_SPEED).1 <= HEIGHT ==> p.1 == y + Velocity(k, PLAYER_SPEED).1
  {
    var v := Velocity(k, PLAYER_SPEED);
    (Clamp(x + v.0, 0, WIDTH), Clamp(y + v.1, 0, HEIGHT))
  }

  /** The position after n ticks with the same keys held. */
  function Walk(x: int, y: int, k: Keys, n: nat): (int, int)
    decreases n
  {
    if n == 0 then (x, y) else var p := Move(x, y, k); Walk(p.0, p.1, k, n - 1)
  }

  /** Once inside the arena, any number of ticks keeps the player inside. */
  lemma {:induction false} WalkStaysInArena(x: int, y: int, k: Keys, n: nat)
    requires 0 <= x <= WIDTH && 0 <= y <= HEIGHT
    ensures var p := Walk(x, y, k, n); 0 <= p.0 <= WIDTH && 0 <= p.1 <= HEIGHT
    decreases n
  {
    if n > 0 {
      var p := Move(x, y, k);
      WalkStaysInArena(p.0, p.1, k, n - 1);
    }
  }

  /** Holding left and up in the top-left corner leaves the player pinned at (0, 0). */
  lemma {:induction false} PinnedInCorner(n: nat)
    ensures Walk(0, 0, Keys(true, false, true, false), n) == (0, 0)
  {
    if n > 0 {
      assert Move(0, 0, Keys(true, false, true, false)) == (0, 0);
      PinnedInCorner(n - 1);
    }
  }
}
