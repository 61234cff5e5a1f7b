/** Nearest-target search by squared distance (bullet.py find_target, game.py find_nearest_enemy). */
module Targeting {

  datatype Pos = Pos(x: real, y: real)

  function SqDist(a: Pos, b: Pos): real
  {
    (a.x - b.x) * (a.x - b.x) + (a.y - b.y) * (a.y - b.y)
  }

  /** k is the earliest of the positions closest to q: nothing is strictly closer,
      and everything before k is strictly farther. */
  ghost predicate EarliestNearest(ps: seq<Pos>, q: Pos, k: int)
  {
    && 0 <= k < |ps|
    && (forall j :: 0 <= j < |ps| ==> SqDist(q, ps[k]) <= SqDist(q, ps[j]))
    && (forall j :: 0 <= j < k ==> SqDist(q, ps[k]) < SqDist(q, ps[j]))
  }

  /** The index a scan with a strict `<` comparison keeps: the earliest nearest position. */
  function Nearest(ps: seq<Pos>, q: Pos): (k: int)
    requires |ps| > 0
    ensures EarliestNearest(ps, q, k)
    decreases |ps|
  {
    if |ps| == 1 then 0
    else
      var last := |ps| - 1;
      var k := Nearest(ps[..last], q);
      assert EarliestNearest(ps[..last], q, k);
      if SqDist(q, ps[last]) < SqDist(q, ps[k]) then last else k
  }
}
