/** Angles of a multi-bullet volley and of the boss shockwave (player.py, enemy.py). */
module Volley {

  /** Offset of bullet i of n from the aim direction, in spread steps: i - (n - 1) / 2. */
  function SpreadOffset(i: int, n: int): real
  {
    i as real - (n - 1) as real / 2.0
  }

  /** The offsets mirror each other around the aim direction. */
  lemma OffsetsMirror(i: int, n: int)
    ensures SpreadOffset(i, n) == -SpreadOffset(n - 1 - i, n)
  {
  }

  /** Sum of the offsets of the first k bullets of a volley of n. */
  function OffsetSum(k: nat, n: int): real
  {
    if k == 0 then 0.0 else OffsetSum(k - 1, n) + SpreadOffset(k - 1, n)
  }

  lemma {:induction false} OffsetSumClosedForm(k: nat, n: int)
    ensures 2.0 * OffsetSum(k, n) == (k * (k - n)) as real
  {
    if k > 0 {
      OffsetSumClosedForm(k - 1, n);
      assert (k - 1) * (k - 1 - n) + 2 * (k - 1) - (n - 1) == k * (k - n);
    }
  }

  /** A volley is centred on the aim direction: its offsets add up to zero. */
  lemma VolleyCentred(n: nat)
    ensures OffsetSum(n, n) == 0.0
  {
    OffsetSumClosedForm(n, n);
  }

  /** Python's `range(start, stop, step)` for a positive step. */
  function Range(start: int, stop: int, step: int): (r: seq<int>)
    requires step > 0
    ensures forall i :: 0 <= i < |r| ==> r[i] == start + i * step && r[i] < stop
    ensures |r| == 0 <==> start >= stop
    ensures |r| > 0 ==> r[|r| - 1] + step >= stop
    decreases stop - start
  {
    if start >= stop then []
    else
      var rest := Range(start + step, stop, step);
      var r := [start] + rest;
      forall i | 1 <= i < |r| ensures r[i] == start + i * step {
        assert r[i] == rest[i - 1] == start + step + (i - 1) * step;
      }
      r
  }

  /** The shockwave fires at 0, 45, ..., 315 degrees: eight evenly spread directions. */
  lemma ShockwaveAngles()
    ensures |Range(0, 360, 45)| == 8
    ensures forall i :: 0 <= i < 8 ==> Range(0, 360, 45)[i] == 45 * i
  {
    var r := Range(0, 360, 45);
    assert r[|r| - 1] == 45 * (|r| - 1) < 360;
  }
}
