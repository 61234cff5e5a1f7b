/** The game's mutable entities: bullets, enemies, coins, the player and the game session
    (bullet.py, enemy.py, player.py, game.py). They live in one module because an enemy keeps a
    back-reference to the game that owns it. Floating-point geometry is supplied by the caller:
    `Normalizer` stands for dividing an offset by its length (math.sqrt), `Aim` for the
    cos/sin/atan2 of a volley, `Polar` for the cos/sin of a shockwave angle. */
module Shooter {
  import opened Config
  import opened Seqs
  import opened Input
  import opened Arena
  import opened Damage
  import Knockback
  import opened Progression
  import opened Schedule
  import opened Volley
  import opened Targeting

  /** The unit vector of a non-zero offset (dx, dy). */
  type Normalizer = (real, real) -> (real, real)

  /** The velocity of a bullet of the given speed fired along the offset (dx, dy), turned by
      the given number of degrees. */
  type Aim = (real, real, real) -> (real, real)

  /** (cos a, sin a) of an angle a in degrees. */
  type Polar = int -> (real, real)

  /** The positions of a list of enemies, in order. */
  function Positions(es: seq<Enemy>): (ps: seq<Pos>)
    reads set e | e in es
    ensures |ps| == |es|
    ensures forall i :: 0 <= i < |es| ==> ps[i] == Pos(es[i].x, es[i].y)
  {
    if es == [] then [] else [Pos(es[0].x, es[0].y)] + Positions(es[1..])
  }

  /** The linear scan shared by HomingBullet.find_target and Game.find_nearest_enemy: keep the
      first enemy whose distance to q is strictly below the best so far. Both compare distances
      (squared, or their square roots) with `<`, which pick the same enemy. */
  method ClosestTo(enemies: seq<Enemy>, q: Pos) returns (closest: Enemy?)
    ensures closest == null <==> |enemies| == 0
    ensures closest != null ==> closest == enemies[Nearest(Positions(enemies), q)]
  {
    if |enemies| == 0 {
      return null;
    }
    ghost var ps := Positions(enemies);
    ghost var best := 0;
    closest := enemies[0];
    var minDist := SqDist(q, Pos(closest.x, closest.y));
    assert Nearest(ps[..1], q) == 0;
    for i := 1 to |enemies|
      invariant 0 <= best < i && best == Nearest(ps[..i], q)
      invariant closest == enemies[best] && minDist == SqDist(q, ps[best])
    {
      var enemy := enemies[i];
      var dist := SqDist(q, Pos(enemy.x, enemy.y));
      NearestStep(ps, q, i);
      if dist < minDist {
        minDist := dist;
        closest := enemy;
        best := i;
      }
    }
    assert ps[..|enemies|] == ps;
  }

  /** One step of the scan: extending the prefix by position i moves the nearest index to i
      exactly when i is strictly closer. */
  lemma NearestStep(ps: seq<Pos>, q: Pos, i: int)
    requires 0 < i < |ps|
    ensures Nearest(ps[..i + 1], q) ==
      if SqDist(q, ps[i]) < SqDist(q, ps[Nearest(ps[..i], q)]) then i else Nearest(ps[..i], q)
  {
    assert ps[..i + 1][..i] == ps[..i];
  }

  /** The healths of a list of enemies, in order. */
  function Healths(es: seq<Enemy>): (hs: seq<int>)
    reads set e | e in es
    ensures |hs| == |es|
    ensures forall i :: 0 <= i < |es| ==> hs[i] == es[i].health
  {
    if es == [] then [] else [es[0].health] + Healths(es[1..])
  }

  /** The bullet list S and the special list T hold no repeats, every explosive of S is
      also in T, and T holds no normal bullet. */
  predicate Arsenal(S: seq<Bullet>, T: seq<Bullet>)
  {
    && Distinct(S) && Distinct(T)
    && (forall i :: 0 <= i < |S| && S[i].kind == Explosive ==> S[i] in T)
    && (forall i :: 0 <= i < |T| ==> T[i].kind != Normal)
  }

  /** Filtering both bullet lists by the same set keeps them free of repeats, keeps every
      explosive of the bullet list in the special list, and keeps normal bullets out of it. */
  lemma FilteringKeepsBullets(S: seq<Bullet>, T: seq<Bullet>, gone: set<Bullet>)
    requires Arsenal(S, T)
    ensures Arsenal(Without(S, gone), Without(T, gone))
  {
    WithoutDistinct(S, gone);
    WithoutDistinct(T, gone);
    WithoutSubset(S, gone);
    WithoutSubset(T, gone);
    var s, t := Without(S, gone), Without(T, gone);
    forall i | 0 <= i < |s| && s[i].kind == Explosive
      ensures s[i] in t
    {
      WithoutKeeps(T, gone, s[i]);
    }
  }

  /** The point lies in [0, WIDTH] x [0, HEIGHT]. */
  predicate Inside(x: real, y: real)
  {
    0.0 <= x <= WIDTH as real && 0.0 <= y <= HEIGHT as real
  }

  /** The enemies of a list whose health is gone. */
  ghost function Slain(es: seq<Enemy>): set<Enemy>
    reads set e | e in es
  {
    set e | e in es && e.health <= 0
  }

  /** Enemies already dead stay dead; the rest die exactly when their health is gone. */
  lemma SlainJoin(E: seq<Enemy>, dead: set<Enemy>)
    requires forall j :: 0 <= j < |E| && E[j] in dead ==> E[j].health <= 0
    ensures forall j :: 0 <= j < |E| ==> (E[j] in dead + Slain(Without(E, dead)) <==> E[j].health <= 0)
  {
    forall j | 0 <= j < |E|
      ensures E[j] in dead + Slain(Without(E, dead)) <==> E[j].health <= 0
    {
      if E[j] !in dead {
        WithoutKeeps(E, dead, E[j]);
      }
    }
  }

  /** The next flight state of each bullet of a list, in order. */
  ghost function Nexts(bs: seq<Bullet>, enemies: seq<Enemy>, unit: Normalizer): (fs: seq<Flight>)
    reads set b | b in bs, set e | e in enemies
    ensures |fs| == |bs|
    ensures forall i :: 0 <= i < |bs| ==> fs[i] == bs[i].Next(enemies, unit)
  {
    if bs == [] then [] else [bs[0].Next(enemies, unit)] + Nexts(bs[1..], enemies, unit)
  }

  /** What one update changes about a bullet. */
  datatype Flight = Flight(x: real, y: real, vx: real, vy: real, target: Enemy?)

  class Bullet {
    var x: real
    var y: real
    var vx: real
    var vy: real
    const size: int
    const kind: BulletType
    /** Homing bullets only: the enemy being tracked, or None. */
    var target: Enemy?
    /** Explosive bullets only: whether it has gone off. */
    var exploded: bool

    constructor (x0: real, y0: real, vx0: real, vy0: real, size0: int, kind0: BulletType)
      ensures x == x0 && y == y0 && vx == vx0 && vy == vy0 && size == size0 && kind == kind0
      ensures target == null && !exploded
    {
      x, y, vx, vy := x0, y0, vx0, vy0;
      size, kind := size0, kind0;
      target, exploded := null, false;
    }

    function At(): Pos
      reads this
    {
      Pos(x, y)
    }

    function State(): Flight
      reads this
    {
      Flight(x, y, vx, vy, target)
    }

    /** Inside the arena; a bullet outside is pruned. */
    predicate InArena()
      reads this
    {
      Inside(x, y)
    }

    /** An explosive bullet that has gone off. */
    predicate Spent()
      reads this
    {
      kind == Explosive && exploded
    }

    /** The enemy lies within the explosion radius (sqrt(d) <= 50 exactly when d <= 50 * 50). */
    predicate InBlast(e: Enemy)
      reads this`x, this`y, e`x, e`y
    {
      SqDist(Pos(e.x, e.y), Pos(x, y)) <= (EXPLOSION_RADIUS * EXPLOSION_RADIUS) as real
    }

    /** The target a homing update settles on: the current one while it is still in the list,
        otherwise the nearest enemy. */
    function Retargeted(enemies: seq<Enemy>): (t: Enemy)
      requires |enemies| > 0
      reads this, set e | e in enemies
      ensures t in enemies
      ensures target != null && target in enemies ==> t == target
      ensures target == null || target !in enemies ==> t == enemies[Nearest(Positions(enemies), At())]
    {
      if target != null && target in enemies then target
      else enemies[Nearest(Positions(enemies), At())]
    }

    /** Where one update takes the bullet. A homing bullet with enemies about locks on (see
        Retargeted) and adds HOMING_STRENGTH times the unit vector toward its target to its
        velocity, unless it sits exactly on the target; every bullet then moves by its velocity. */
    function Next(enemies: seq<Enemy>, unit: Normalizer): Flight
      reads this, set e | e in enemies
    {
      if kind == Homing && |enemies| > 0 then
        var t := Retargeted(enemies);
        var dx, dy := t.x - x, t.y - y;
        var v := if dx != 0.0 || dy != 0.0
                 then (vx + unit(dx, dy).0 * HOMING_STRENGTH, vy + unit(dx, dy).1 * HOMING_STRENGTH)
                 else (vx, vy);
        Flight(x + v.0, y + v.1, v.0, v.1, t)
      else
        Flight(x + vx, y + vy, vx, vy, target)
    }

    /** What Next promises: the bullet moves by its new velocity; only a homing bullet with
        enemies about changes course, locking on to an enemy of the list (its current target
        while that is still listed) and steering toward it unless it sits exactly on it. */
    lemma NextMeaning(enemies: seq<Enemy>, unit: Normalizer)
      ensures var f := Next(enemies, unit);
        && f.x == x + f.vx && f.y == y + f.vy
        && (kind != Homing || |enemies| == 0 ==> f.vx == vx && f.vy == vy && f.target == target)
        && (kind == Homing && |enemies| > 0 ==>
              && f.target != null && f.target in enemies
              && (target != null && target in enemies ==> f.target == target)
              && ((f.target.x, f.target.y) != (x, y) ==>
                    f.vx == vx + unit(f.target.x - x, f.target.y - y).0 * HOMING_STRENGTH &&
                    f.vy == vy + unit(f.target.x - x, f.target.y - y).1 * HOMING_STRENGTH)
              && ((f.target.x, f.target.y) == (x, y) ==> f.vx == vx && f.vy == vy))
    {
    }

    /** The per-bullet step of Player.update: a homing bullet with enemies about runs
        HomingBullet.update(enemies); every other bullet (and a homing one with no enemies)
        runs Bullet.update. */
    method Fly(enemies: seq<Enemy>, unit: Normalizer)
      modifies this`x, this`y, this`vx, this`vy, this`target
      ensures State() == old(Next(enemies, unit))
    {
      if kind == Homing && |enemies| > 0 {
        Home(enemies, unit);
      } else {
        Advance();
      }
    }

    /** Bullet.update: one step of linear motion. */
    method Advance()
      modifies this`x, this`y
      ensures x == old(x) + vx && y == old(y) + vy
    {
      x := x + vx;
      y := y + vy;
    }

    /** HomingBullet.find_target: the earliest of the enemies nearest to the bullet, or None. */
    method FindTarget(enemies: seq<Enemy>) returns (closest: Enemy?)
      ensures closest == null <==> |enemies| == 0
      ensures closest != null ==> closest == enemies[Nearest(Positions(enemies), At())]
    {
      closest := ClosestTo(enemies, At());
    }

    /** HomingBullet.update with a non-empty enemy list. */
    method Home(enemies: seq<Enemy>, unit: Normalizer)
      requires kind == Homing && |enemies| > 0
      modifies this`x, this`y, this`vx, this`vy, this`target
      ensures State() == old(Next(enemies, unit))
    {
      ghost var f := Next(enemies, unit);
      var t := target;
      if t == null || t !in enemies {
        t := FindTarget(enemies);
      }
      assert t == Retargeted(enemies) == f.target;
      target := t;
      if t != null {
        var dx := t.x - x;
        var dy := t.y - y;
        if dx != 0.0 || dy != 0.0 {
          var u := unit(dx, dy);
          vx := vx + u.0 * HOMING_STRENGTH;
          vy := vy + u.1 * HOMING_STRENGTH;
        }
      }
      assert vx == f.vx && vy == f.vy;
      Advance();
    }

    /** The health an explosion here takes from e: the armour-mitigated explosion damage
        inside the radius, nothing outside. */
    function BlastLoss(e: Enemy, piercing: bool): (d: int)
      reads this`x, this`y, e`x, e`y
      ensures d >= 0
      ensures !InBlast(e) ==> d == 0
      ensures InBlast(e) ==> d == Effective(EXPLOSION_DAMAGE, e.armor, piercing)
      ensures InBlast(e) && piercing ==> d == EXPLOSION_DAMAGE
      ensures InBlast(e) && !piercing && 0 <= e.armor <= EXPLOSION_DAMAGE ==> d == EXPLOSION_DAMAGE - e.armor
      ensures InBlast(e) && !piercing && e.armor >= EXPLOSION_DAMAGE ==> d == 0
    {
      if InBlast(e) then Effective(EXPLOSION_DAMAGE, e.armor, piercing) else 0
    }

    /** The blast losses of a list of enemies, in order. */
    ghost function Losses(es: seq<Enemy>, piercing: bool): (ls: seq<int>)
      reads this, set e | e in es
      ensures |ls| == |es|
      ensures forall i :: 0 <= i < |es| ==> ls[i] == BlastLoss(es[i], piercing)
    {
      if es == [] then [] else [BlastLoss(es[0], piercing)] + Losses(es[1..], piercing)
    }

    /** ExplosiveBullet.explode: the first call deals explosion damage to every enemy of the
        game within the radius (scanning a snapshot, so deaths do not skip anyone), which drops
        the slain from the game's list, and marks the bullet exploded; later calls do nothing. */
    method Explode(game: Game)
      requires kind == Explosive
      requires Distinct(game.enemies)
      requires forall e :: e in game.enemies ==> e.game == game && e.health > 0
      modifies this`exploded, game`enemies, (set e | e in game.enemies)`health
      ensures exploded
      ensures old(exploded) ==> game.enemies == old(game.enemies)
      ensures forall e :: e in old(game.enemies) ==>
        e.health == old(e.health) - if old(exploded) then 0 else BlastLoss(e, game.player.armorPiercing)
      ensures game.enemies == Without(old(game.enemies), Slain(old(game.enemies)))
      ensures Distinct(game.enemies)
      ensures forall e :: e in game.enemies ==> e.game == game && e.health > 0
    {
      if !exploded {
        Blast(game);
        exploded := true;
      } else {
        WithoutNothing(game.enemies, Slain(game.enemies));
      }
    }

    /** The damage loop of explode, over a snapshot of the game's enemies. */
    method Blast(game: Game)
      requires Distinct(game.enemies)
      requires forall e :: e in game.enemies ==> e.game == game && e.health > 0
      modifies game`enemies, (set e | e in game.enemies)`health
      ensures forall e :: e in old(game.enemies) ==>
        e.health == old(e.health) - BlastLoss(e, game.player.armorPiercing)
      ensures game.enemies == Without(old(game.enemies), Slain(old(game.enemies)))
      ensures Distinct(game.enemies)
      ensures forall e :: e in game.enemies ==> e.game == game && e.health > 0
    {
      ghost var E := game.enemies;
      ghost var dead: set<Enemy> := {};
      WithoutNothing(E, dead);
      var snapshot := game.enemies;
      ghost var H := Healths(E);
      ghost var L := Losses(E, game.player.armorPiercing);
      for i := 0 to |snapshot|
        invariant Blasted(game, E, i, dead, H, L)
      {
        dead := BlastStep(game, snapshot[i], E, i, dead, H, L);
      }
      WithoutAgree(E, dead, Slain(E));
      WithoutDistinct(E, dead);
      WithoutSubset(E, dead);
    }

    /** Progress of an explosion over the snapshot E of the game's enemies: the first i have
        lost their blast damage (L) from their health before the explosion (H), the slain among
        them form `dead`, and the game's list is E without the dead. */
    ghost predicate Blasted(game: Game, E: seq<Enemy>, i: int, dead: set<Enemy>, H: seq<int>, L: seq<int>)
      reads this, game, game.player, set e | e in E
    {
      && 0 <= i <= |E| && |H| == |E| && |L| == |E| && Distinct(E)
      && (forall j :: 0 <= j < |E| ==> E[j].game == game && H[j] > 0)
      && (forall j :: 0 <= j < |E| ==> L[j] == BlastLoss(E[j], game.player.armorPiercing))
      && (forall j :: i <= j < |E| ==> E[j] !in dead)
      && (forall j :: 0 <= j < |E| ==> E[j].health == H[j] - if j < i then L[j] else 0)
      && (forall j :: 0 <= j < i ==> (E[j] in dead <==> E[j].health <= 0))
      && game.enemies == Without(E, dead)
    }

    /** One turn of the damage loop: the enemy at position i of the snapshot takes the
        explosion damage if it is within the radius. */
    method BlastStep(game: Game, enemy: Enemy, ghost E: seq<Enemy>, ghost i: int, ghost dead: set<Enemy>,
                     ghost H: seq<int>, ghost L: seq<int>) returns (ghost slain: set<Enemy>)
      requires Blasted(game, E, i, dead, H, L) && i < |E| && enemy == E[i]
      modifies enemy`health, game`enemies
      ensures Blasted(game, E, i + 1, slain, H, L)
    {
      slain := dead;
      if InBlast(enemy) {
        assert forall j :: 0 <= j < |E| && j != i ==> E[j] != enemy;
        slain := BlastOne(game, enemy, E, dead);
        assert enemy.health == H[i] - L[i];
        assert forall j :: 0 <= j < |E| && j != i ==> E[j].health == old(E[j].health);
        assert forall j :: 0 <= j < |E| ==> L[j] == BlastLoss(E[j], game.player.armorPiercing);
      } else {
        assert L[i] == 0;
      }
    }
  }

  /** One enemy caught in an explosion: `enemy.take_damage(EXPLOSION_DAMAGE)`, with the set of
      enemies slain so far by this explosion, whose removal from E gives the game's list. */
  method BlastOne(game: Game, enemy: Enemy, ghost E: seq<Enemy>, ghost dead: set<Enemy>)
    returns (ghost slain: set<Enemy>)
    requires Distinct(E) && enemy in E && enemy !in dead
    requires enemy.game == game && game.enemies == Without(E, dead)
    modifies enemy`health, game`enemies
    ensures enemy.health == old(enemy.health) - Effective(EXPLOSION_DAMAGE, enemy.armor, game.player.armorPiercing)
    ensures slain == if enemy.health <= 0 then dead + {enemy} else dead
    ensures game.enemies == Without(E, slain)
  {
    WithoutKeeps(E, dead, enemy);
    RemoveFromFiltered(E, dead, enemy);
    var _ := enemy.TakeDamage(EXPLOSION_DAMAGE);
    slain := if enemy.health <= 0 then dead + {enemy} else dead;
  }

  /** An enemy's position, facing and knockback progress: what one update changes. */
  datatype Motion = Motion(x: real, y: real, facingLeft: bool, kbRemaining: int)

  class Enemy {
    /** Back-reference to the owning game: for the armour-piercing flag and for removal on death. */
    const game: Game
    const tier: Tier
    const maxHealth: int
    const speed: real
    /** Flat armour; absent (0) except on armoured enemies. */
    const armor: int
    var x: real
    var y: real
    var health: int
    var facingLeft: bool
    var kbRemaining: int
    var kbDx: real
    var kbDy: real

    /** Enemy.__init__ followed by the tier's subclass constructor. */
    constructor (game: Game, tier: Tier, x0: real, y0: real)
      ensures this.game == game && this.tier == tier && x == x0 && y == y0
      ensures health == maxHealth == TierStats(tier).health
      ensures speed == TierStats(tier).speed && armor == TierStats(tier).armor
      ensures !facingLeft && kbRemaining == 0 && kbDx == 0.0 && kbDy == 0.0
    {
      this.game := game;
      this.tier := tier;
      var stats := TierStats(tier);
      maxHealth := stats.health;
      speed := stats.speed;
      armor := stats.armor;
      x, y := x0, y0;
      health := stats.health;
      facingLeft := false;
      kbRemaining := 0;
      kbDx, kbDy := 0.0, 0.0;
    }

    function State(): Motion
      reads this
    {
      Motion(x, y, facingLeft, kbRemaining)
    }

    /** Pursuit speed: the boss moves at 1.2 times its speed. */
    function PursuitSpeed(): real
    {
      speed * TierStats(tier).pursuitFactor
    }

    /** Where one update takes this enemy: while knockback distance remains it moves one step
        along the knockback direction and ignores the player; otherwise it pursues the player
        and leaves the knockback alone. */
    function Next(px: real, py: real, unit: Normalizer): (m: Motion)
      reads this
      ensures kbRemaining > 0 ==>
        var step := kbRemaining - m.kbRemaining;
        && step == Knockback.Step(kbRemaining) && m.kbRemaining >= 0
        && m.x == x + kbDx * step as real && m.y == y + kbDy * step as real
        && m.facingLeft == (kbDx < 0.0)
      ensures kbRemaining <= 0 ==>
        var dx, dy := px - x, py - y;
        && m.kbRemaining == kbRemaining
        && (dx == 0.0 && dy == 0.0 ==> m.x == x && m.y == y)
        && (dx != 0.0 || dy != 0.0 ==>
              m.x == x + unit(dx, dy).0 * PursuitSpeed() && m.y == y + unit(dx, dy).1 * PursuitSpeed())
        && m.facingLeft == if tier == Boss then facingLeft else dx < 0.0
    {
      if kbRemaining > 0 then
        var step := Knockback.Step(kbRemaining);
        Motion(x + kbDx * step as real, y + kbDy * step as real, kbDx < 0.0, kbRemaining - step)
      else
        var dx, dy := px - x, py - y;
        var moved := if dx != 0.0 || dy != 0.0
                     then (x + unit(dx, dy).0 * PursuitSpeed(), y + unit(dx, dy).1 * PursuitSpeed())
                     else (x, y);
        Motion(moved.0, moved.1, if tier == Boss then facingLeft else dx < 0.0, kbRemaining)
    }

    /** Enemy.take_damage: armour-mitigated damage, health not clamped; at zero or below the
        enemy removes itself from the game's list. When it is no longer in that list the
        removal raises (ValueError): `raised`, with the health already lowered. */
    method TakeDamage(amount: int) returns (raised: bool)
      modifies this`health, game`enemies
      ensures health == old(health) - Effective(amount, armor, game.player.armorPiercing)
      ensures raised <==> health <= 0 && this !in old(game.enemies)
      ensures game.enemies == if health <= 0 && !raised then Remove(old(game.enemies), this) else old(game.enemies)
    {
      var actualDamage;
      if game.player.armorPiercing {
        actualDamage := amount;
      } else {
        actualDamage := if amount - armor > 0 then amount - armor else 0;
      }
      health := health - actualDamage;
      raised := false;
      if health <= 0 {
        if this !in game.enemies {
          return true;
        }
        Die();
      }
    }

    /** Enemy.die: `game.enemies.remove(self)`. */
    method Die()
      requires this in game.enemies
      modifies game`enemies
      ensures game.enemies == Remove(old(game.enemies), this)
    {
      game.enemies := Remove(game.enemies, this);
    }

    /** Enemy.update: knockback while distance remains, pursuit otherwise. */
    method Update(player: Player, unit: Normalizer)
      modifies this`x, this`y, this`facingLeft, this`kbRemaining
      ensures State() == old(Next(player.x as real, player.y as real, unit))
    {
      if kbRemaining > 0 {
        ApplyKnockback();
      } else {
        MoveTowardPlayer(player, unit);
      }
    }

    /** Enemy.move_toward_player, and BossEnemy's override (1.2 times the speed, no turning). */
    method MoveTowardPlayer(player: Player, unit: Normalizer)
      modifies this`x, this`y, this`facingLeft
      ensures var dx, dy := player.x as real - old(x), player.y as real - old(y);
        && (dx == 0.0 && dy == 0.0 ==> x == old(x) && y == old(y))
        && (dx != 0.0 || dy != 0.0 ==>
              x == old(x) + unit(dx, dy).0 * PursuitSpeed() && y == old(y) + unit(dx, dy).1 * PursuitSpeed())
        && facingLeft == if tier == Boss then old(facingLeft) else dx < 0.0
    {
      var dx := player.x as real - x;
      var dy := player.y as real - y;
      if dx != 0.0 || dy != 0.0 {
        var u := unit(dx, dy);
        x := x + u.0 * PursuitSpeed();
        y := y + u.1 * PursuitSpeed();
      }
      if tier != Boss {
        facingLeft := dx < 0.0;
      }
    }

    /** Enemy.apply_knockback: consume min(ENEMY_KNOCKBACK_SPEED, remaining) of the distance. */
    method ApplyKnockback()
      modifies this`x, this`y, this`facingLeft, this`kbRemaining
      ensures var step := Knockback.Step(old(kbRemaining));
        && kbRemaining == old(kbRemaining) - step
        && x == old(x) + kbDx * step as real && y == old(y) + kbDy * step as real
      ensures facingLeft == (kbDx < 0.0)
    {
      var step := if ENEMY_KNOCKBACK_SPEED < kbRemaining then ENEMY_KNOCKBACK_SPEED else kbRemaining;
      kbRemaining := kbRemaining - step;
      x := x + kbDx * step as real;
      y := y + kbDy * step as real;
      facingLeft := kbDx < 0.0;
    }

    /** Enemy.set_knockback: away from (px, py) over dist; nothing happens at (px, py) itself. */
    method SetKnockback(px: real, py: real, dist: int, unit: Normalizer)
      modifies this`kbDx, this`kbDy, this`kbRemaining
      ensures (x != px || y != py) ==> (kbDx, kbDy) == unit(x - px, y - py) && kbRemaining == dist
      ensures (x == px && y == py) ==> kbDx == old(kbDx) && kbDy == old(kbDy) && kbRemaining == old(kbRemaining)
    {
      var dx := x - px;
      var dy := y - py;
      if dx != 0.0 || dy != 0.0 {
        var u := unit(dx, dy);
        kbDx := u.0;
        kbDy := u.1;
        kbRemaining := dist;
      }
    }

    /** The knockback direction and the distance still to travel. */
    function Knock(): (real, real, int)
      reads this`kbDx, this`kbDy, this`kbRemaining
    {
      (kbDx, kbDy, kbRemaining)
    }

    /** The knockback set_knockback(px, py, dist) leaves: away from (px, py) over dist, or the
        current one when the enemy stands exactly on (px, py). */
    function Recoil(px: real, py: real, dist: int, unit: Normalizer): (real, real, int)
      reads this
    {
      if x != px || y != py then (unit(x - px, y - py).0, unit(x - px, y - py).1, dist) else Knock()
    }

    /** b is the k-th shockwave bullet: a normal bullet of size 15 leaving the boss at
        45 * k degrees and shockwave speed. */
    predicate ShockBullet(b: Bullet, k: int, polar: Polar)
      reads this`x, this`y, b
    {
      && b.kind == Normal && b.size == SHOCKWAVE_SIZE && b.x == x && b.y == y
      && b.vx == polar(45 * k).0 * SHOCKWAVE_SPEED as real && b.vy == polar(45 * k).1 * SHOCKWAVE_SPEED as real
      && b.target == null && !b.exploded
    }

    /** BossEnemy.create_shockwave: eight new bullets of size 15 leave the boss at 0, 45, ..., 315
        degrees and join the player's bullet list; nothing else changes. */
    method CreateShockwave(player: Player, polar: Polar)
      requires tier == Boss
      modifies player`bullets
      ensures |player.bullets| == |old(player.bullets)| + 8
      ensures player.bullets[..|old(player.bullets)|] == old(player.bullets)
      ensures fresh(player.bullets[|old(player.bullets)|..])
      ensures forall j :: |old(player.bullets)| <= j < |player.bullets| ==>
        ShockBullet(player.bullets[j], j - |old(player.bullets)|, polar)
      ensures Distinct(old(player.bullets)) ==> Distinct(player.bullets)
    {
      var angles := Range(0, 360, 45);
      ShockwaveAngles();
      ghost var B0 := player.bullets;
      for i := 0 to |angles|
        invariant Shocked(player, B0, i, polar)
        invariant fresh(player.bullets[|B0|..])
      {
        ghost var fired := player.bullets[|B0|..];
        var b := ShockOne(player, angles[i], B0, i, polar);
        assert player.bullets[|B0|..] == fired + [b];
      }
    }

    /** The first i shockwave bullets have been appended to the list B0 the player held before,
        and the list is free of repeats whenever B0 was. */
    ghost predicate Shocked(player: Player, B0: seq<Bullet>, i: int, polar: Polar)
      reads this`x, this`y, player, set b | b in player.bullets
    {
      && 0 <= i && |player.bullets| == |B0| + i && player.bullets[..|B0|] == B0
      && (forall j :: |B0| <= j < |player.bullets| ==> ShockBullet(player.bullets[j], j - |B0|, polar))
      && (Distinct(B0) ==> Distinct(player.bullets))
    }

    /** One turn of the shockwave loop: the bullet at `angle` = 45 * i degrees. */
    method ShockOne(player: Player, angle: int, ghost B0: seq<Bullet>, ghost i: int, polar: Polar)
      returns (b: Bullet)
      requires Shocked(player, B0, i, polar) && angle == 45 * i
      modifies player`bullets
      ensures Shocked(player, B0, i + 1, polar)
      ensures player.bullets == old(player.bullets) + [b] && fresh(b)
    {
      var d := polar(angle);
      b := new Bullet(x, y, d.0 * SHOCKWAVE_SPEED as real, d.1 * SHOCKWAVE_SPEED as real, SHOCKWAVE_SIZE, Normal);
      if Distinct(player.bullets) {
        AppendDistinct(player.bullets, b);
      }
      player.bullets := player.bullets + [b];
      assert ShockBullet(b, i, polar);
    }
  }

  /** What the world supplies to one call of Game.update: the arrow keys held, the geometry
      oracle, the rectangle overlap tests of this tick (player-enemy, bullet-enemy,
      player-coin), the spawner's random choices (tier, side, offset along the side) and the
      random draws of the upgrade sample. */
  datatype Tick = Tick(keys: Keys, unit: Normalizer, touches: Enemy -> bool, hits: Bullet -> Enemy -> bool,
                       pickup: Coin -> bool, tier: Tier, side: Side, along: int, draws: seq<nat>)
  {
    /** The random choices lie in the ranges the source draws them from. */
    predicate WellFormed()
    {
      && 0 <= along <= (if side == Top || side == Bottom then WIDTH else HEIGHT)
      && UPGRADE_CHOICES <= |draws|
    }
  }

  /** What one frame of the main loop receives: its events, the aiming oracle for shots fired
      by them, and what its update (if any) needs. */
  datatype FrameInput = FrameInput(events: seq<Event>, aim: Aim, tick: Tick)

  /** A currency drop; its float physics and animation are not modelled, only where it lies. */
  class Coin {
    const x: real
    const y: real

    constructor (x0: real, y0: real)
      ensures x == x0 && y == y0
    {
      x, y := x0, y0;
    }
  }

  /** The player's animation state. */
  datatype Posture = Idle | Running

  class Player {
    var x: int
    var y: int
    var state: Posture
    var facingLeft: bool
    var health: int
    var maxHealth: int
    var xp: int
    var level: int
    const bulletSpeed: int
    const bulletSize: int
    /** Bullets per volley; nothing in the game changes it from 1. */
    const bulletCount: int
    var shootCooldown: int
    /** Ticks since the last volley (counts up to the cooldown). */
    var shootTimer: int
    /** Every live bullet: the player's own volleys and any boss shockwave. */
    var bullets: seq<Bullet>
    /** The homing and explosive bullets, tracked for explosion cleanup. */
    var specialBullets: seq<Bullet>
    var bulletType: BulletType
    var armorPiercing: bool

    /** The invariant the game keeps about the player between ticks. */
    ghost predicate Valid()
      reads this`x, this`y, this`health, this`maxHealth, this`xp, this`level, this`shootCooldown,
            this`shootTimer, this`bullets, this`specialBullets
    {
      Vitals() && Arsenal(bullets, specialBullets)
    }

    /** The player stands in the arena, health lies in [0, max health], and the counters are in
        range. */
    ghost predicate Vitals()
      reads this`x, this`y, this`health, this`maxHealth, this`xp, this`level, this`shootCooldown, this`shootTimer
    {
      && 0 <= x <= WIDTH && 0 <= y <= HEIGHT
      && 0 <= health <= maxHealth && 0 <= xp && 1 <= level
      && 1 <= bulletCount && 1 <= shootCooldown && 0 <= shootTimer
    }

    /** Player.__init__: five health, level 1, one normal bullet per volley, cooldown 20. */
    constructor (x0: int, y0: int)
      requires 0 <= x0 <= WIDTH && 0 <= y0 <= HEIGHT
      ensures Valid()
      ensures x == x0 && y == y0 && state == Idle && !facingLeft
      ensures health == maxHealth == PLAYER_HEALTH && xp == 0 && level == 1
      ensures bulletSpeed == BULLET_SPEED && bulletSize == BULLET_SIZE && bulletCount == 1
      ensures shootCooldown == SHOOT_COOLDOWN && shootTimer == 0
      ensures bullets == [] && specialBullets == [] && bulletType == Normal && !armorPiercing
    {
      x, y := x0, y0;
      state, facingLeft := Idle, false;
      health, maxHealth := PLAYER_HEALTH, PLAYER_HEALTH;
      xp, level := 0, 1;
      bulletSpeed, bulletSize, bulletCount := BULLET_SPEED, BULLET_SIZE, 1;
      shootCooldown, shootTimer := SHOOT_COOLDOWN, 0;
      bullets, specialBullets := [], [];
      bulletType, armorPiercing := Normal, false;
    }

    function Loadout(): Loadout
      reads this
    {
      Progression.Loadout(bulletType, armorPiercing, shootCooldown, maxHealth, health)
    }

    /** Player.handle_input: move by the held keys and clamp to the arena; run while moving;
        face the way of horizontal motion, keeping the old facing when there is none. */
    method HandleInput(keys: Keys)
      requires Valid()
      modifies this`x, this`y, this`state, this`facingLeft
      ensures Valid()
      ensures (x, y) == Move(old(x), old(y), keys)
      ensures state == if Velocity(keys, PLAYER_SPEED) == (0, 0) then Idle else Running
      ensures facingLeft == if Velocity(keys, PLAYER_SPEED).0 < 0 then true
                            else if Velocity(keys, PLAYER_SPEED).0 > 0 then false
                            else old(facingLeft)
    {
      var velX, velY := 0, 0;
      if keys.left {
        velX := velX - PLAYER_SPEED;
      }
      if keys.right {
        velX := velX + PLAYER_SPEED;
      }
      if keys.up {
        velY := velY - PLAYER_SPEED;
      }
      if keys.down {
        velY := velY + PLAYER_SPEED;
      }
      x := Clamp(x + velX, 0, WIDTH);
      y := Clamp(y + velY, 0, HEIGHT);
      state := if velX != 0 || velY != 0 then Running else Idle;
      if velX < 0 {
        facingLeft := true;
      } else if velX > 0 {
        facingLeft := false;
      }
    }

    /** Player.update without the animation: every bullet flies (see Bullet.Next) and is dropped
        from both lists once outside the arena; then every spent explosive is dropped from both
        lists; then the shot timer counts up toward the cooldown. `pruned` names the dropped
        bullets. */
    method Update(enemies: seq<Enemy>, unit: Normalizer) returns (ghost pruned: set<Bullet>)
      requires Valid()
      modifies this`bullets, this`specialBullets, this`shootTimer
      modifies (set b | b in bullets)`x, (set b | b in bullets)`y, (set b | b in bullets)`vx,
               (set b | b in bullets)`vy, (set b | b in bullets)`target
      ensures Valid()
      ensures forall b :: b in old(bullets) ==> b.State() == old(b.Next(enemies, unit))
      ensures forall b :: b in pruned <==>
        (b in old(bullets) && !b.InArena()) || (b in old(specialBullets) && b.Spent())
      ensures bullets == Without(old(bullets), pruned)
      ensures specialBullets == Without(old(specialBullets), pruned)
      ensures shootTimer == if old(shootTimer) < shootCooldown then old(shootTimer) + 1 else old(shootTimer)
    {
      pruned := Prune(enemies, unit);
      if shootTimer < shootCooldown {
        shootTimer := shootTimer + 1;
      }
    }

    /** The two bullet loops of Player.update: every bullet flies, then the bullets that left
        the arena and the spent explosives leave both lists. */
    method Prune(enemies: seq<Enemy>, unit: Normalizer) returns (ghost pruned: set<Bullet>)
      requires Arsenal(bullets, specialBullets)
      modifies this`bullets, this`specialBullets
      modifies (set b | b in bullets)`x, (set b | b in bullets)`y, (set b | b in bullets)`vx,
               (set b | b in bullets)`vy, (set b | b in bullets)`target
      ensures Arsenal(bullets, specialBullets)
      ensures forall b :: b in old(bullets) ==> b.State() == old(b.Next(enemies, unit))
      ensures forall b :: b in pruned <==>
        (b in old(bullets) && !b.InArena()) || (b in old(specialBullets) && b.Spent())
      ensures bullets == Without(old(bullets), pruned)
      ensures specialBullets == Without(old(specialBullets), pruned)
    {
      ghost var S, T := bullets, specialBullets;
      ghost var gone := FlyAll(enemies, unit);
      ghost var spent := SweepSpent(S, T, gone);
      pruned := gone + spent;
      PrunedExactly(S, T, gone, spent);
      FilteringKeepsBullets(S, T, pruned);
    }

    /** The first loop of Player.update, over a snapshot of the bullet list. */
    method FlyAll(enemies: seq<Enemy>, unit: Normalizer) returns (ghost gone: set<Bullet>)
      requires Distinct(bullets) && Distinct(specialBullets)
      modifies this`bullets, this`specialBullets
      modifies (set b | b in bullets)`x, (set b | b in bullets)`y, (set b | b in bullets)`vx,
               (set b | b in bullets)`vy, (set b | b in bullets)`target
      ensures forall b :: b in old(bullets) ==> b.State() == old(b.Next(enemies, unit))
      ensures forall b :: b in gone <==> b in old(bullets) && !b.InArena()
      ensures bullets == Without(old(bullets), gone)
      ensures specialBullets == Without(old(specialBullets), gone)
    {
      ghost var S, T := bullets, specialBullets;
      ghost var F := Nexts(S, enemies, unit);
      gone := {};
      WithoutNothing(S, gone);
      WithoutNothing(T, gone);
      var snapshot := bullets;
      for i := 0 to |snapshot|
        invariant Flown(S, T, F, i, gone, enemies, unit)
      {
        gone := FlyStep(snapshot[i], S, T, F, i, gone, enemies, unit);
      }
      forall b | b in S
        ensures b.State() == old(b.Next(enemies, unit)) && (b in gone <==> !b.InArena())
      {
        var j :| 0 <= j < |S| && S[j] == b;
      }
    }

    /** The second loop of Player.update, over a snapshot of the special list: spent
        explosives leave both lists. S and T are the lists before the first loop. */
    method SweepSpent(ghost S: seq<Bullet>, ghost T: seq<Bullet>, ghost gone: set<Bullet>)
      returns (ghost spent: set<Bullet>)
      requires Distinct(S) && Distinct(T)
      requires bullets == Without(S, gone) && specialBullets == Without(T, gone)
      modifies this`bullets, this`specialBullets
      ensures forall b :: b in spent <==> b in old(specialBullets) && b.Spent()
      ensures bullets == Without(S, gone + spent) && specialBullets == Without(T, gone + spent)
    {
      ghost var U := specialBullets;
      spent := {};
      var specials := specialBullets;
      assert gone + spent == gone;
      for i := 0 to |specials|
        invariant Swept(S, T, U, i, gone, spent)
      {
        spent := SweepStep(specials[i], S, T, U, i, gone, spent);
      }
      forall b | b in U
        ensures b in spent <==> b.Spent()
      {
        var j :| 0 <= j < |U| && U[j] == b;
      }
    }

    /** Progress of the flight loop over the snapshot S of the bullet list (T: the special
        list before the loop, F: each bullet's next flight state): the first i bullets have
        flown, those that left the arena form `gone`, and both lists are filtered by it. */
    ghost predicate Flown(S: seq<Bullet>, T: seq<Bullet>, F: seq<Flight>, i: int, gone: set<Bullet>,
                          enemies: seq<Enemy>, unit: Normalizer)
      reads this`bullets, this`specialBullets, set b | b in S, set e | e in enemies
    {
      Traced(S, F, i, enemies, unit) && Culled(S, T, F, i, gone)
    }

    /** The bullets of S before position i are in their next flight state; the others have not moved. */
    ghost predicate Traced(S: seq<Bullet>, F: seq<Flight>, i: int, enemies: seq<Enemy>, unit: Normalizer)
      reads set b | b in S, set e | e in enemies
    {
      && 0 <= i <= |S| && |F| == |S| && Distinct(S)
      && (forall j :: 0 <= j < i ==> S[j].State() == F[j])
      && (forall j :: i <= j < |S| ==> S[j].Next(enemies, unit) == F[j])
    }

    /** Of the first i bullets of S, exactly those whose flight ended outside the arena
        form `gone`, and both lists are the snapshots filtered by `gone`. */
    ghost predicate Culled(S: seq<Bullet>, T: seq<Bullet>, F: seq<Flight>, i: int, gone: set<Bullet>)
      reads this`bullets, this`specialBullets
    {
      && 0 <= i <= |S| && |F| == |S| && Distinct(S) && Distinct(T)
      && (forall j :: i <= j < |S| ==> S[j] !in gone)
      && (forall j :: 0 <= j < i ==> (S[j] in gone <==> !Inside(F[j].x, F[j].y)))
      && (forall b :: b in gone ==> b in S)
      && bullets == Without(S, gone) && specialBullets == Without(T, gone)
    }

    /** One turn of the flight loop, for the bullet at position i of the snapshot. */
    method FlyStep(bullet: Bullet, ghost S: seq<Bullet>, ghost T: seq<Bullet>, ghost F: seq<Flight>,
                   ghost i: int, ghost gone: set<Bullet>, enemies: seq<Enemy>, unit: Normalizer)
      returns (ghost gone': set<Bullet>)
      requires Flown(S, T, F, i, gone, enemies, unit) && i < |S| && bullet == S[i]
      modifies this`bullets, this`specialBullets
      modifies bullet`x, bullet`y, bullet`vx, bullet`vy, bullet`target
      ensures Flown(S, T, F, i + 1, gone', enemies, unit)
    {
      FlyOne(bullet, S, F, i, enemies, unit);
      gone' := PruneOne(bullet, S, T, F, i, gone);
    }

    /** The bullet at position i of the snapshot flies. */
    method FlyOne(bullet: Bullet, ghost S: seq<Bullet>, ghost F: seq<Flight>, ghost i: int,
                  enemies: seq<Enemy>, unit: Normalizer)
      requires Traced(S, F, i, enemies, unit) && i < |S| && bullet == S[i]
      modifies bullet`x, bullet`y, bullet`vx, bullet`vy, bullet`target
      ensures Traced(S, F, i + 1, enemies, unit)
    {
      assert forall j :: 0 <= j < |S| && j != i ==> S[j] != bullet;
      bullet.Fly(enemies, unit);
      assert bullet.State() == F[i];
      assert forall j :: 0 <= j < i ==> S[j].State() == F[j];
      assert forall j :: i < j < |S| ==> S[j].Next(enemies, unit) == F[j];
    }

    /** The bullet at position i of the snapshot, having flown to F[i], leaves both lists
        when it is outside the arena. */
    method PruneOne(bullet: Bullet, ghost S: seq<Bullet>, ghost T: seq<Bullet>, ghost F: seq<Flight>,
                    ghost i: int, ghost gone: set<Bullet>)
      returns (ghost gone': set<Bullet>)
      requires Culled(S, T, F, i, gone) && i < |S| && bullet == S[i] && bullet.State() == F[i]
      modifies this`bullets, this`specialBullets
      ensures Culled(S, T, F, i + 1, gone')
    {
      gone' := gone;
      if !bullet.InArena() {
        WithoutKeeps(S, gone, bullet);
        RemoveFromFiltered(S, gone, bullet);
        RemoveFromFiltered(T, gone, bullet);
        if bullet in bullets {
          bullets := Remove(bullets, bullet);
        }
        if bullet in specialBullets {
          specialBullets := Remove(specialBullets, bullet);
        }
        gone' := gone + {bullet};
      }
    }

    /** Progress of the cleanup loop over the snapshot U of the special list: the spent
        explosives among its first i bullets form `spent`, and both lists are filtered by the
        bullets gone in the flight loop and by those. */
    ghost predicate Swept(S: seq<Bullet>, T: seq<Bullet>, U: seq<Bullet>, i: int, gone: set<Bullet>,
                          spent: set<Bullet>)
      reads this, set b | b in U
    {
      && 0 <= i <= |U| && Distinct(S) && Distinct(T) && U == Without(T, gone)
      && (forall j :: i <= j < |U| ==> U[j] !in spent)
      && (forall j :: 0 <= j < i ==> (U[j] in spent <==> U[j].Spent()))
      && (forall b :: b in spent ==> b in U)
      && bullets == Without(S, gone + spent) && specialBullets == Without(T, gone + spent)
    }

    /** One turn of the cleanup loop, for the bullet at position i of the snapshot. */
    method SweepStep(bullet: Bullet, ghost S: seq<Bullet>, ghost T: seq<Bullet>, ghost U: seq<Bullet>,
                     ghost i: int, ghost gone: set<Bullet>, ghost spent: set<Bullet>)
      returns (ghost spent': set<Bullet>)
      requires Swept(S, T, U, i, gone, spent) && i < |U| && bullet == U[i]
      modifies this`bullets, this`specialBullets
      ensures Swept(S, T, U, i + 1, gone, spent')
    {
      spent' := spent;
      if bullet.kind == Explosive && bullet.exploded {
        WithoutDistinct(T, gone);
        assert forall j :: 0 <= j < |U| && j != i ==> U[j] != bullet;
        WithoutSubset(T, gone);
        WithoutKeeps(T, gone + spent, bullet);
        RemoveFromFiltered(S, gone + spent, bullet);
        RemoveFromFiltered(T, gone + spent, bullet);
        if bullet in bullets {
          bullets := Remove(bullets, bullet);
        }
        specialBullets := Remove(specialBullets, bullet);
        spent' := spent + {bullet};
        assert gone + spent' == (gone + spent) + {bullet};
      }
    }

    /** Ties the two loops' bookkeeping to the bullets the update drops: those of the bullet
        list that left the arena, and the spent explosives of the special list. */
    lemma PrunedExactly(S: seq<Bullet>, T: seq<Bullet>, gone: set<Bullet>, spent: set<Bullet>)
      requires forall b :: b in gone <==> b in S && !b.InArena()
      requires forall b :: b in spent <==> b in Without(T, gone) && b.Spent()
      ensures forall b :: b in gone + spent <==> (b in S && !b.InArena()) || (b in T && b.Spent())
    {
      WithoutSubset(T, gone);
      forall b | b in T && b.Spent() && b !in gone
        ensures b in spent
      {
        WithoutKeeps(T, gone, b);
      }
    }

    /** b is the k-th bullet of a volley aimed along (dx, dy): it starts at the player, moves
        at bullet speed in the direction turned ANGLE_SPREAD * SpreadOffset(k, bulletCount)
        degrees from the aim, and has the player's bullet size and type. */
    ghost predicate Fired(b: Bullet, k: int, dx: real, dy: real, aim: Aim)
      reads this`x, this`y, this`bulletType, b
    {
      var dir := aim(dx, dy, ANGLE_SPREAD as real * SpreadOffset(k, bulletCount));
      && b.x == x as real && b.y == y as real
      && b.vx == dir.0 * bulletSpeed as real && b.vy == dir.1 * bulletSpeed as real
      && b.size == bulletSize && b.kind == bulletType && b.target == null && !b.exploded
    }

    /** Player.shoot_toward_position: nothing happens while the shot timer is below the
        cooldown or when the target is the player's own position; otherwise a volley of
        bulletCount new bullets joins the bullet list (and the special list unless they are
        normal) and the timer restarts. */
    method ShootTowardPosition(tx: real, ty: real, aim: Aim)
      requires Valid()
      modifies this`bullets, this`specialBullets, this`shootTimer
      ensures Valid()
      ensures Shot(tx, ty, aim, old(shootTimer), old(bullets), old(specialBullets))
      ensures fresh(bullets[|old(bullets)|..])
    {
      if shootTimer < shootCooldown {
        return;
      }
      var dx := tx - x as real;
      var dy := ty - y as real;
      if dx == 0.0 && dy == 0.0 {
        return;
      }
      // The timer restarts once the volley is out; nothing reads it in between.
      assert !(old(shootTimer) < shootCooldown || (tx == x as real && ty == y as real));
      shootTimer := 0;
      FireVolley(dx, dy, aim);
    }

    /** What shoot_toward_position(tx, ty) leaves, starting from the shot timer timer0 and the
        lists B0 and S0: nothing changes while the timer is below the cooldown or when the
        point is the player's own position; otherwise a full volley along the offset to the
        point has been appended and the timer restarts. */
    ghost predicate Shot(tx: real, ty: real, aim: Aim, timer0: int, B0: seq<Bullet>, S0: seq<Bullet>)
      reads this`x, this`y, this`shootCooldown, this`shootTimer, this`bullets, this`specialBullets,
            this`bulletType, set b | b in bullets
    {
      if timer0 < shootCooldown || (tx == x as real && ty == y as real) then
        bullets == B0 && specialBullets == S0 && shootTimer == timer0
      else
        shootTimer == 0 && Volleyed(B0, S0, bulletCount, tx - x as real, ty - y as real, aim)
    }

    /** The volley itself: bulletCount bullets fanned around the direction (dx, dy). */
    method FireVolley(dx: real, dy: real, aim: Aim)
      requires Valid()
      modifies this`bullets, this`specialBullets
      ensures Valid() && Volleyed(old(bullets), old(specialBullets), bulletCount, dx, dy, aim)
      ensures fresh(bullets[|old(bullets)|..])
    {
      ghost var B0, S0 := bullets, specialBullets;
      for i := 0 to bulletCount
        invariant Arsenal(bullets, specialBullets) && Volleyed(B0, S0, i, dx, dy, aim)
        invariant fresh(bullets[|B0|..])
      {
        ghost var fired := bullets[|B0|..];
        var bullet := FireOne(i, dx, dy, aim, B0, S0);
        assert bullets[|B0|..] == fired + [bullet];
      }
    }

    /** The first i bullets of a volley aimed along (dx, dy) have been fired on top of the
        lists B0 and S0 the player held before it. */
    ghost predicate Volleyed(B0: seq<Bullet>, S0: seq<Bullet>, i: int, dx: real, dy: real, aim: Aim)
      reads this`x, this`y, this`bullets, this`specialBullets, this`bulletType, set b | b in bullets
    {
      && 0 <= i && |bullets| == |B0| + i && bullets[..|B0|] == B0
      && AllFired(bullets[|B0|..], dx, dy, aim)
      && specialBullets == S0 + if bulletType == Normal then [] else bullets[|B0|..]
    }

    /** One pass of the volley loop: the i-th bullet is created and appended. */
    method FireOne(i: int, dx: real, dy: real, aim: Aim, ghost B0: seq<Bullet>, ghost S0: seq<Bullet>)
        returns (bullet: Bullet)
      requires 0 <= i < bulletCount && Volleyed(B0, S0, i, dx, dy, aim) && Arsenal(bullets, specialBullets)
      modifies this`bullets, this`specialBullets
      ensures Volleyed(B0, S0, i + 1, dx, dy, aim) && Arsenal(bullets, specialBullets)
      ensures bullets == old(bullets) + [bullet] && fresh(bullet)
    {
      var dir := aim(dx, dy, ANGLE_SPREAD as real * SpreadOffset(i, bulletCount));
      bullet := new Bullet(x as real, y as real, dir.0 * bulletSpeed as real, dir.1 * bulletSpeed as real,
                           bulletSize, bulletType);
      ghost var before := bullets;
      FiredAppend(before[|B0|..], bullet, dx, dy, aim);
      Load(bullet);
      assert bullets[|B0|..] == before[|B0|..] + [bullet];
      assert bullets[..|B0|] == B0;
    }

    /** Bullet k of s left as the k-th bullet of the volley. */
    ghost predicate AllFired(s: seq<Bullet>, dx: real, dy: real, aim: Aim)
      reads this`x, this`y, this`bulletType, set b | b in s
    {
      forall k :: 0 <= k < |s| ==> Fired(s[k], k, dx, dy, aim)
    }

    lemma FiredAppend(s: seq<Bullet>, b: Bullet, dx: real, dy: real, aim: Aim)
      requires AllFired(s, dx, dy, aim) && Fired(b, |s|, dx, dy, aim)
      ensures AllFired(s + [b], dx, dy, aim)
    {
    }

    /** A new bullet joins the list, and the special list too unless it is a plain one. */
    method Load(bullet: Bullet)
      requires Arsenal(bullets, specialBullets) && bullet !in bullets && bullet !in specialBullets
      modifies this`bullets, this`specialBullets
      ensures Arsenal(bullets, specialBullets)
      ensures bullets == old(bullets) + [bullet]
      ensures specialBullets == old(specialBullets) + if bullet.kind == Normal then [] else [bullet]
    {
      AppendDistinct(bullets, bullet);
      if bullet.kind != Normal {
        AppendDistinct(specialBullets, bullet);
        specialBullets := specialBullets + [bullet];
      }
      bullets := bullets + [bullet];
    }

    /** `player.bullets.remove(bullet)`, done by the game when the bullet hits. */
    method Discard(bullet: Bullet)
      requires Valid() && bullet in bullets
      modifies this`bullets
      ensures Valid()
      ensures bullets == Remove(old(bullets), bullet)
    {
      RemoveIsWithout(bullets, bullet);
      WithoutDistinct(bullets, {bullet});
      WithoutSubset(bullets, {bullet});
      bullets := Remove(bullets, bullet);
    }

    /** Player.take_damage: health drops by the amount, never below zero. */
    method TakeDamage(amount: int)
      modifies this`health
      ensures health >= 0
      ensures old(health) - amount >= 0 ==> health == old(health) - amount
      ensures old(health) - amount < 0 ==> health == 0
      ensures amount >= 0 ==> health <= old(health) || health == 0
    {
      health := if health - amount > 0 then health - amount else 0;
    }

    /** Player.add_xp. */
    method AddXp(amount: int)
      modifies this`xp
      ensures xp == old(xp) + amount
    {
      xp := xp + amount;
    }

    /** Player.heal: health rises by the amount, never above the maximum. */
    method Heal(amount: int)
      modifies this`health
      ensures health <= maxHealth
      ensures old(health) + amount <= maxHealth ==> health == old(health) + amount
      ensures old(health) + amount > maxHealth ==> health == maxHealth
      ensures amount >= 0 && old(health) <= maxHealth ==> old(health) <= health
    {
      health := if health + amount < maxHealth then health + amount else maxHealth;
    }
  }

  class Game {
    var running: bool
    var gameOver: bool
    var player: Player
    var enemies: seq<Enemy>
    var enemySpawnTimer: int
    /** Set to 1 and never read. */
    var enemiesPerSpawn: int
    var coins: seq<Coin>
    var inLevelUpMenu: bool
    var upgradeOptions: seq<Upgrade>

    /** The invariant kept between ticks: a valid player, the enemy roster and the session
        flags below. */
    ghost predicate Valid()
      reads this`player, this`enemies, this`coins, this`enemySpawnTimer, this`inLevelUpMenu,
            this`upgradeOptions, this`gameOver
      reads player`x, player`y, player`health, player`maxHealth, player`xp, player`level,
            player`shootCooldown, player`shootTimer, player`bullets, player`specialBullets
      reads set e | e in enemies
    {
      player.Valid() && Roster() && Session()
    }

    /** Every enemy in the list is alive, appears once and belongs to this game. */
    ghost predicate Roster()
      reads this`enemies, set e | e in enemies
    {
      && Distinct(enemies)
      && (forall i :: 0 <= i < |enemies| ==> enemies[i].game == this && enemies[i].health > 0)
    }

    /** Coins appear once; the spawn timer is below the interval; the menu shows three distinct
        upgrades and never over the game-over screen; the game is over only at zero health. */
    ghost predicate Session()
      reads this`coins, this`enemySpawnTimer, this`inLevelUpMenu, this`upgradeOptions, this`gameOver,
            this`player, player`health
    {
      && Distinct(coins)
      && 0 <= enemySpawnTimer < SPAWN_INTERVAL
      && (inLevelUpMenu ==> Sample(upgradeOptions, UPGRADE_CHOICES) && !gameOver)
      && (gameOver ==> player.health == 0)
    }

    /** Game.__init__ (which runs reset_game) without the window, fonts and background. */
    constructor ()
      ensures Valid() && fresh(player)
      ensures running && !gameOver && !inLevelUpMenu && upgradeOptions == []
      ensures enemies == [] && coins == [] && enemySpawnTimer == 0 && enemiesPerSpawn == 1
      ensures player.x == WIDTH / 2 && player.y == HEIGHT / 2 && player.health == PLAYER_HEALTH
    {
      running := true;
      gameOver := false;
      enemies := [];
      enemySpawnTimer := 0;
      enemiesPerSpawn := 1;
      coins := [];
      player := new Player(WIDTH / 2, HEIGHT / 2);
      inLevelUpMenu := false;
      upgradeOptions := [];
    }

    /** Game.reset_game: a fresh player at the centre, no enemies or coins, timer and game-over
        flag cleared. The level-up menu flag and options are left as they were. */
    method ResetGame()
      requires !inLevelUpMenu || Sample(upgradeOptions, UPGRADE_CHOICES)
      modifies this`player, this`enemies, this`enemySpawnTimer, this`enemiesPerSpawn, this`coins, this`gameOver
      ensures Valid() && fresh(player)
      ensures player.x == WIDTH / 2 && player.y == HEIGHT / 2 && player.health == PLAYER_HEALTH
      ensures player.xp == 0 && player.level == 1 && player.Loadout() == Progression.Loadout(Normal, false, SHOOT_COOLDOWN, PLAYER_HEALTH, PLAYER_HEALTH)
      ensures player.bullets == [] && player.specialBullets == []
      ensures enemies == [] && coins == [] && enemySpawnTimer == 0 && enemiesPerSpawn == 1 && !gameOver
    {
      player := new Player(WIDTH / 2, HEIGHT / 2);
      enemies := [];
      enemySpawnTimer := 0;
      enemiesPerSpawn := 1;
      coins := [];
      gameOver := false;
    }

    /** Game.find_nearest_enemy: none when there are no enemies, otherwise the first enemy at
        the least distance from the player. */
    method FindNearestEnemy() returns (nearest: Enemy?)
      ensures nearest == null <==> |enemies| == 0
      ensures nearest != null ==>
        nearest == enemies[Nearest(Positions(enemies), Pos(player.x as real, player.y as real))]
    {
      nearest := ClosestTo(enemies, Pos(player.x as real, player.y as real));
    }

    /** The enemy loop of Game.update: every enemy moves one step (see Enemy.Next) toward the
        player or along its knockback; the list itself is untouched. */
    method MoveEnemies(unit: Normalizer)
      requires Valid()
      modifies (set e | e in enemies)`x, (set e | e in enemies)`y,
               (set e | e in enemies)`facingLeft, (set e | e in enemies)`kbRemaining
      ensures Valid()
      ensures forall e :: e in enemies ==> e.State() == old(e.Next(player.x as real, player.y as real, unit))
    {
      var px, py := player.x as real, player.y as real;
      ghost var N := Destinations(enemies, px, py, unit);
      for i := 0 to |enemies|
        invariant Moved(enemies, i, px, py, unit, N)
      {
        MoveOne(player, enemies[i], enemies, i, unit, N);
      }
    }

    /** Where one update takes each enemy of a list, in order. */
    ghost function Destinations(E: seq<Enemy>, px: real, py: real, unit: Normalizer): (N: seq<Motion>)
      reads set e | e in E
      ensures |N| == |E|
      ensures forall j :: 0 <= j < |E| ==> N[j] == E[j].Next(px, py, unit)
    {
      if E == [] then [] else [E[0].Next(px, py, unit)] + Destinations(E[1..], px, py, unit)
    }

    /** Progress of the enemy loop: the first i enemies have reached their destinations N,
        the others are still where N was computed from. */
    ghost predicate Moved(E: seq<Enemy>, i: int, px: real, py: real, unit: Normalizer, N: seq<Motion>)
      reads set e | e in E
    {
      && 0 <= i <= |E| && |N| == |E| && Distinct(E)
      && (forall j :: 0 <= j < i ==> E[j].State() == N[j])
      && (forall j :: i <= j < |E| ==> E[j].Next(px, py, unit) == N[j])
    }

    /** One turn of the enemy loop. */
    method MoveOne(player: Player, enemy: Enemy, ghost E: seq<Enemy>, ghost i: int, unit: Normalizer,
                   ghost N: seq<Motion>)
      requires Moved(E, i, player.x as real, player.y as real, unit, N) && i < |E| && enemy == E[i]
      modifies enemy`x, enemy`y, enemy`facingLeft, enemy`kbRemaining
      ensures Moved(E, i + 1, player.x as real, player.y as real, unit, N)
    {
      assert forall j :: 0 <= j < |E| && j != i ==> E[j] != enemy;
      enemy.Update(player, unit);
    }

    /** Game.check_player_enemy_collisions: when any enemy touches the player, the player loses
        one health (never below zero) and every enemy is pushed PUSHBACK_DISTANCE away from
        the player; otherwise nothing changes. `touches` is the rectangle overlap test. */
    method CheckPlayerEnemyCollisions(touches: Enemy -> bool, unit: Normalizer) returns (collided: bool)
      requires Valid()
      modifies player`health, (set e | e in enemies)`kbDx, (set e | e in enemies)`kbDy,
               (set e | e in enemies)`kbRemaining
      ensures Valid()
      ensures collided <==> exists e :: e in enemies && touches(e)
      ensures player.health == if collided then Clamp(old(player.health) - CONTACT_DAMAGE, 0, old(player.health))
                               else old(player.health)
      ensures forall e :: e in enemies ==>
        e.Knock() == if collided then old(e.Recoil(player.x as real, player.y as real, PUSHBACK_DISTANCE, unit))
                     else old(e.Knock())
    {
      collided := false;
      var i := 0;
      while i < |enemies|
        invariant 0 <= i <= |enemies|
        invariant forall j :: 0 <= j < i ==> !touches(enemies[j])
      {
        if touches(enemies[i]) {
          collided := true;
          break;
        }
        i := i + 1;
      }
      if collided {
        player.TakeDamage(CONTACT_DAMAGE);
        PushAllBack(enemies, player.x as real, player.y as real, unit);
      }
    }

    /** The knockback loop of check_player_enemy_collisions. */
    static method PushAllBack(E: seq<Enemy>, px: real, py: real, unit: Normalizer)
      requires Distinct(E)
      modifies (set e | e in E)`kbDx, (set e | e in E)`kbDy, (set e | e in E)`kbRemaining
      ensures forall e :: e in E ==> e.Knock() == old(e.Recoil(px, py, PUSHBACK_DISTANCE, unit))
    {
      ghost var R := Recoils(E, px, py, unit);
      for k := 0 to |E|
        invariant PushedBack(E, k, px, py, unit, R)
      {
        PushOne(E[k], E, k, px, py, unit, R);
      }
    }

    /** The knockback set_knockback(px, py, PUSHBACK_DISTANCE) gives each enemy of a list. */
    static ghost function Recoils(E: seq<Enemy>, px: real, py: real, unit: Normalizer): (R: seq<(real, real, int)>)
      reads set e | e in E
      ensures |R| == |E|
      ensures forall j :: 0 <= j < |E| ==> R[j] == E[j].Recoil(px, py, PUSHBACK_DISTANCE, unit)
    {
      if E == [] then [] else [E[0].Recoil(px, py, PUSHBACK_DISTANCE, unit)] + Recoils(E[1..], px, py, unit)
    }

    /** Progress of the knockback loop: the first i enemies have their new knockback R, the
        others are still where R was computed from. */
    static ghost predicate PushedBack(E: seq<Enemy>, i: int, px: real, py: real, unit: Normalizer, R: seq<(real, real, int)>)
      reads set e | e in E
    {
      && 0 <= i <= |E| && |R| == |E| && Distinct(E)
      && (forall j :: 0 <= j < i ==> E[j].Knock() == R[j])
      && (forall j :: i <= j < |E| ==> E[j].Recoil(px, py, PUSHBACK_DISTANCE, unit) == R[j])
    }

    /** One turn of the knockback loop. */
    static method PushOne(enemy: Enemy, ghost E: seq<Enemy>, ghost i: int, px: real, py: real, unit: Normalizer,
                   ghost R: seq<(real, real, int)>)
      requires PushedBack(E, i, px, py, unit, R) && i < |E| && enemy == E[i]
      modifies enemy`kbDx, enemy`kbDy, enemy`kbRemaining
      ensures PushedBack(E, i + 1, px, py, unit, R)
    {
      assert forall j :: 0 <= j < |E| && j != i ==> E[j] != enemy;
      enemy.SetKnockback(px, py, PUSHBACK_DISTANCE, unit);
    }

    /** The body of the inner loop of Game.check_bullet_enemy_collisions, once the bullet
        overlaps `target`: the bullet leaves the bullet list, an explosive that has not gone
        off explodes, then the target takes HIT_DAMAGE. The hit cannot drop a coin (take_damage
        returns nothing). When the explosion has already killed the target, that take_damage
        raises: `crashed`. Either way the list ends up without exactly its slain enemies. */
    method Strike(bullet: Bullet, target: Enemy) returns (crashed: bool)
      requires Valid() && target in enemies
      modifies player`bullets, bullet`exploded, this`enemies, (set e | e in enemies)`health
      ensures Valid()
      ensures player.bullets ==
        if bullet in old(player.bullets) then Remove(old(player.bullets), bullet) else old(player.bullets)
      ensures bullet.exploded == (old(bullet.exploded) || bullet.kind == Explosive)
      ensures var blast := bullet.kind == Explosive && !old(bullet.exploded);
        forall e :: e in old(enemies) ==>
          e.health == old(e.health) - (if blast then bullet.BlastLoss(e, player.armorPiercing) else 0)
                                    - (if e == target then Effective(HIT_DAMAGE, e.armor, player.armorPiercing) else 0)
      ensures crashed <==> bullet.kind == Explosive && !old(bullet.exploded) &&
                           old(target.health) - bullet.BlastLoss(target, player.armorPiercing) <= 0
      ensures enemies == Without(old(enemies), Slain(old(enemies)))
    {
      if bullet in player.bullets {
        player.Discard(bullet);
      }
      crashed := Impact(bullet, target);
    }

    /** What the struck enemies suffer: an unexploded explosive explodes, then the target takes
        HIT_DAMAGE; `crashed` when the explosion has already killed the target. */
    method Impact(bullet: Bullet, target: Enemy) returns (crashed: bool)
      requires Roster() && target in enemies
      modifies bullet`exploded, this`enemies, (set e | e in enemies)`health
      ensures Roster()
      ensures bullet.exploded == (old(bullet.exploded) || bullet.kind == Explosive)
      ensures var blast := bullet.kind == Explosive && !old(bullet.exploded);
        forall e :: e in old(enemies) ==>
          e.health == old(e.health) - (if blast then bullet.BlastLoss(e, player.armorPiercing) else 0)
                                    - (if e == target then Effective(HIT_DAMAGE, e.armor, player.armorPiercing) else 0)
      ensures crashed <==> bullet.kind == Explosive && !old(bullet.exploded) &&
                           old(target.health) - bullet.BlastLoss(target, player.armorPiercing) <= 0
      ensures enemies == Without(old(enemies), Slain(old(enemies)))
    {
      ghost var E := enemies;
      ghost var D := Detonate(bullet);
      label exploded:
      assert target in E;
      crashed := HitTarget(target, E, D);
      forall e | e in E
        ensures e.health == old@exploded(e.health) - if e == target then Effective(HIT_DAMAGE, e.armor, player.armorPiercing) else 0
      {
      }
    }

    /** An explosive bullet that has not gone off yet explodes; D is the set of enemies the
        explosion killed (none when there is no explosion). */
    method Detonate(bullet: Bullet) returns (ghost D: set<Enemy>)
      requires Distinct(enemies) && forall e :: e in enemies ==> e.game == this && e.health > 0
      modifies bullet`exploded, this`enemies, (set e | e in enemies)`health
      ensures bullet.exploded == (old(bullet.exploded) || bullet.kind == Explosive)
      ensures var blast := bullet.kind == Explosive && !old(bullet.exploded);
        forall e :: e in old(enemies) ==>
          e.health == old(e.health) - if blast then bullet.BlastLoss(e, player.armorPiercing) else 0
      ensures enemies == Without(old(enemies), D)
      ensures forall e :: e in old(enemies) ==> e.game == this && (e in D <==> e.health <= 0)
    {
      if bullet.kind == Explosive && !bullet.exploded {
        ghost var E := enemies;
        bullet.Explode(this);
        D := Slain(E);
      } else {
        D := {};
        WithoutNothing(enemies, D);
      }
    }

    /** `target.take_damage(HIT_DAMAGE)` after the optional explosion: E is the list before the
        explosion and D the enemies the explosion killed, which are no longer in it. */
    method HitTarget(target: Enemy, ghost E: seq<Enemy>, ghost D: set<Enemy>) returns (crashed: bool)
      requires target in E && Distinct(E)
      requires enemies == Without(E, D)
      requires forall e :: e in E ==> e.game == this && (e in D <==> e.health <= 0)
      modifies target`health, this`enemies
      ensures target.health == old(target.health) - Effective(HIT_DAMAGE, target.armor, player.armorPiercing)
      ensures crashed <==> target in D
      ensures enemies == Without(E, Slain(E))
      ensures Roster()
    {
      if target !in D {
        WithoutKeeps(E, D, target);
      }
      RemoveFromFiltered(E, D, target);
      crashed := target.TakeDamage(HIT_DAMAGE);
      ghost var dead := if target.health <= 0 then D + {target} else D;
      assert forall i :: 0 <= i < |E| ==> (E[i] in dead <==> E[i] in Slain(E));
      WithoutAgree(E, dead, Slain(E));
      WithoutDistinct(E, dead);
      WithoutSubset(E, dead);
    }

    /** One turn of the outer loop of Game.check_bullet_enemy_collisions: the bullet strikes
        the first enemy of the list it overlaps (see Strike), if any. `hits(b)(e)` is the
        rectangle overlap test. */
    method ResolveBullet(bullet: Bullet, hits: Bullet -> Enemy -> bool) returns (crashed: bool, target: Enemy?)
      requires Valid()
      modifies player`bullets, bullet`exploded, this`enemies, (set e | e in enemies)`health
      ensures Valid()
      ensures target == null <==> forall e :: e in old(enemies) ==> !hits(bullet)(e)
      ensures target != null ==> target == old(enemies)[FirstWhere(old(enemies), hits(bullet))]
      ensures target == null ==> !crashed && player.bullets == old(player.bullets) && enemies == old(enemies)
      ensures target == null ==> bullet.exploded == old(bullet.exploded)
      ensures target != null ==>
        player.bullets == if bullet in old(player.bullets) then Remove(old(player.bullets), bullet) else old(player.bullets)
      ensures target != null ==> bullet.exploded == (old(bullet.exploded) || bullet.kind == Explosive)
      ensures crashed <==> target != null && bullet.kind == Explosive && !old(bullet.exploded) &&
                           old(target.health) - bullet.BlastLoss(target, player.armorPiercing) <= 0
      ensures target == null ==> forall e :: e in old(enemies) ==> e.health == old(e.health)
      ensures target != null ==> var blast := bullet.kind == Explosive && !old(bullet.exploded);
        forall e :: e in old(enemies) ==>
          e.health == old(e.health) - (if blast then bullet.BlastLoss(e, player.armorPiercing) else 0)
                                    - (if e == target then Effective(HIT_DAMAGE, e.armor, player.armorPiercing) else 0)
      ensures forall e :: e in old(enemies) ==> e.health <= old(e.health)
      ensures enemies == Without(old(enemies), Slain(old(enemies)))
    {
      var k := 0;
      while k < |enemies| && !hits(bullet)(enemies[k])
        invariant 0 <= k <= |enemies|
        invariant forall j :: 0 <= j < k ==> !hits(bullet)(enemies[j])
      {
        k := k + 1;
      }
      assert k == FirstWhere(enemies, hits(bullet));
      if k == |enemies| {
        WithoutNothing(enemies, Slain(enemies));
        return false, null;
      }
      target := enemies[k];
      crashed := Strike(bullet, target);
    }

    /** Game.check_bullet_enemy_collisions: each bullet of a snapshot of the player's bullet
        list, in order, strikes the first enemy it overlaps (see ResolveBullet); a strike that
        raises ends the pass (`crashed`), and only an explosive bullet can cause one. Afterwards
        the enemy list has lost exactly its slain enemies, no enemy has gained health, and the
        bullet list has lost exactly the bullets that struck. */
    method CheckBulletEnemyCollisions(hits: Bullet -> Enemy -> bool) returns (crashed: bool, ghost struck: set<Bullet>)
      requires Valid()
      modifies player`bullets, (set b | b in player.bullets)`exploded, this`enemies, (set e | e in enemies)`health
      ensures Valid()
      ensures enemies == Without(old(enemies), Slain(old(enemies)))
      ensures forall e :: e in old(enemies) ==> e.health <= old(e.health)
      ensures forall b :: b in struck ==> b in old(player.bullets)
      ensures player.bullets == Without(old(player.bullets), struck)
      ensures crashed ==> exists b :: b in old(player.bullets) && b.kind == Explosive
    {
      ghost var E, H := enemies, Healths(enemies);
      ghost var dead: set<Enemy> := {};
      struck := {};
      WithoutNothing(E, dead);
      WithoutNothing(player.bullets, struck);
      var snapshot := player.bullets;
      crashed := false;
      var i := 0;
      while i < |snapshot| && !crashed
        invariant Resolved(snapshot, i, E, H, dead, struck)
        invariant crashed ==> exists j :: 0 <= j < i && snapshot[j].kind == Explosive
      {
        crashed, dead, struck := ResolveStep(snapshot[i], hits, snapshot, i, E, H, dead, struck);
        i := i + 1;
      }
      WithoutAgree(E, dead, Slain(E));
    }

    /** Progress of the bullet pass over the snapshot B of the bullet list and E of the enemy
        list, with their healths H: the game is valid, the enemies whose health is gone are
        exactly `dead` and have left the list, no health has risen, and the bullets that struck
        are among the first i and have left the bullet list. */
    ghost predicate Resolved(B: seq<Bullet>, i: int, E: seq<Enemy>, H: seq<int>, dead: set<Enemy>, struck: set<Bullet>)
      reads this, player, set e | e in E
    {
      && 0 <= i <= |B| && Distinct(B) && |H| == |E| && Distinct(E)
      && enemies == Without(E, dead)
      && (forall e :: e in enemies ==> e in E)
      && Valid()
      && player.bullets == Without(B, struck)
      && (forall j :: i <= j < |B| ==> B[j] !in struck)
      && (forall b :: b in struck ==> b in B)
      && (forall j :: 0 <= j < |E| ==> E[j].game == this && (E[j] in dead <==> E[j].health <= 0) && E[j].health <= H[j])
    }

    /** One turn of the bullet pass. */
    method ResolveStep(bullet: Bullet, hits: Bullet -> Enemy -> bool, ghost B: seq<Bullet>, ghost i: int,
                       ghost E: seq<Enemy>, ghost H: seq<int>, ghost dead: set<Enemy>, ghost struck: set<Bullet>)
      returns (crashed: bool, ghost dead': set<Enemy>, ghost struck': set<Bullet>)
      requires Resolved(B, i, E, H, dead, struck) && i < |B| && bullet == B[i]
      modifies player`bullets, bullet`exploded, this`enemies, (set e | e in E)`health
      ensures Resolved(B, i + 1, E, H, dead', struck')
      ensures crashed ==> bullet.kind == Explosive
    {
      ghost var L := enemies;
      WithoutKeeps(B, struck, bullet);
      var target;
      crashed, target := ResolveBullet(bullet, hits);
      ghost var S := Slain(L);
      WithoutTwice(E, dead, S);
      dead' := dead + S;
      if target != null {
        RemoveFromFiltered(B, struck, bullet);
        struck' := struck + {bullet};
      } else {
        struck' := struck;
      }
      SlainJoin(E, dead);
      WithoutSubset(E, dead');
    }

    /** Game.check_player_coin_collisions: every coin the player overlaps (`pickup`) gives one
        XP and is removed; the others stay, in order. */
    method CheckPlayerCoinCollisions(pickup: Coin -> bool)
      requires Valid()
      modifies player`xp, this`coins
      ensures Valid()
      ensures player.xp == old(player.xp) + |Select(old(coins), pickup)|
      ensures coins == Without(old(coins), set c | c in old(coins) && pickup(c))
      ensures player.xp - old(player.xp) + |coins| == |old(coins)|
    {
      var collected := CollectCoins(pickup);
      DropCoins(collected, pickup);
      SelectWithoutCount(old(coins), pickup, set c | c in old(coins) && pickup(c));
    }

    /** The first loop of check_player_coin_collisions: one XP per overlapping coin. */
    method CollectCoins(pickup: Coin -> bool) returns (collected: seq<Coin>)
      requires player.Valid()
      modifies player`xp
      ensures collected == Select(coins, pickup)
      ensures player.xp == old(player.xp) + |collected| && player.Valid()
    {
      collected := [];
      for i := 0 to |coins|
        invariant collected == Select(coins[..i], pickup)
        invariant player.xp == old(player.xp) + |collected| && player.Valid()
      {
        var coin := coins[i];
        SelectSnoc(coins[..i], pickup, coin);
        assert coins[..i + 1] == coins[..i] + [coin];
        if pickup(coin) {
          collected := collected + [coin];
          player.AddXp(1);
        }
      }
      assert coins[..|coins|] == coins;
    }

    /** The second loop of check_player_coin_collisions: the collected coins leave the list. */
    method DropCoins(collected: seq<Coin>, pickup: Coin -> bool)
      requires Distinct(coins) && collected == Select(coins, pickup)
      modifies this`coins
      ensures coins == Without(old(coins), set c | c in old(coins) && pickup(c))
      ensures Distinct(coins)
    {
      ghost var C := coins;
      ghost var removed: set<Coin> := {};
      WithoutNothing(C, removed);
      var remaining := coins;
      for j := 0 to |collected|
        invariant remaining == Without(C, removed)
        invariant forall x :: x in removed <==> x in collected[..j]
      {
        var c := collected[j];
        RemoveFromFiltered(C, removed, c);
        if c in remaining {
          remaining := Remove(remaining, c);
        }
        removed := removed + {c};
        PrefixGrows(collected, j);
      }
      coins := remaining;
      assert collected[..|collected|] == collected;
      ghost var gone := set c | c in C && pickup(c);
      forall k | 0 <= k < |C|
        ensures C[k] in removed <==> C[k] in gone
      {
        if pickup(C[k]) {
          SelectKeeps(C, pickup, C[k]);
        }
      }
      WithoutAgree(C, removed, gone);
      WithoutDistinct(C, gone);
    }

    /** Game.spawn_enemies as intended (see Schedule.SpawnAsWritten for the code as written):
        the timer counts up, and on reaching SPAWN_INTERVAL it restarts and one full-health
        enemy of the chosen tier joins the list at the chosen point just outside the arena.
        The tier, the side and the offset along it are the random choices, made by the caller. */
    method SpawnEnemies(tier: Tier, side: Side, along: int) returns (spawned: Enemy?)
      requires Valid()
      requires 0 <= along <= if side == Top || side == Bottom then WIDTH else HEIGHT
      modifies this`enemySpawnTimer, this`enemies
      ensures Valid()
      ensures (enemySpawnTimer, spawned != null) == SpawnTick(old(enemySpawnTimer))
      ensures spawned == null ==> enemies == old(enemies)
      ensures spawned != null ==>
        && fresh(spawned) && enemies == old(enemies) + [spawned]
        && spawned.tier == tier && spawned.health == TierStats(tier).health
        && spawned.x == SpawnPoint(side, along).0 as real && spawned.y == SpawnPoint(side, along).1 as real
        && !Inside(spawned.x, spawned.y)
    {
      enemySpawnTimer := enemySpawnTimer + 1;
      if enemySpawnTimer < SPAWN_INTERVAL {
        return null;
      }
      enemySpawnTimer := 0;
      var p := SpawnPoint(side, along);
      spawned := new Enemy(this, tier, p.0 as real, p.1 as real);
      AppendDistinct(enemies, spawned);
      enemies := enemies + [spawned];
    }

    /** Game.check_for_level_up: at level*level*5 XP the player gains one level (XP is kept)
        and the menu opens on three distinct upgrades drawn from the catalogue; below it
        nothing changes. */
    method CheckForLevelUp(draws: seq<nat>)
      requires Valid() && !gameOver && UPGRADE_CHOICES <= |draws|
      modifies player`level, this`upgradeOptions, this`inLevelUpMenu
      ensures Valid()
      ensures (player.level, inLevelUpMenu) ==
        if LevelCheck(player.xp, old(player.level)).1 then LevelCheck(player.xp, old(player.level))
        else (old(player.level), old(inLevelUpMenu))
      ensures inLevelUpMenu && !old(inLevelUpMenu) ==> Sample(upgradeOptions, UPGRADE_CHOICES)
      ensures !LevelCheck(player.xp, old(player.level)).1 ==> upgradeOptions == old(upgradeOptions)
    {
      if player.xp >= XpThreshold(player.level) {
        player.level := player.level + 1;
        upgradeOptions := PickRandomUpgrades(UPGRADE_CHOICES, draws);
        inLevelUpMenu := true;
      }
    }

    /** Game.apply_upgrade: the chosen upgrade changes the player's loadout as Upgraded says,
        and the player stays valid. It is only reached from the level-up menu, which never
        shows over the game-over screen. */
    method ApplyUpgrade(u: Upgrade)
      requires Valid() && !gameOver
      modifies player`bulletType, player`armorPiercing, player`shootCooldown, player`maxHealth, player`health
      ensures Valid()
      ensures player.Loadout() == Upgraded(old(player.Loadout()), u)
    {
      UpgradeKeepsBounds(player.Loadout(), u);
      match u
      case HomingBullets =>
        player.bulletType := Homing;
      case ExplosiveRounds =>
        player.bulletType := Explosive;
      case ArmorPiercing =>
        player.armorPiercing := true;
      case RapidFire =>
        player.shootCooldown := if TruncHalf(player.shootCooldown) > 1 then TruncHalf(player.shootCooldown) else 1;
      case HealthBoost =>
        player.maxHealth := player.maxHealth + 2;
        player.health := player.health + 2;
    }

    /** Game.handle_events for one event: carries out the action Dispatch chooses. Only a
        restart replaces the player or touches the enemies, coins and game-over flag; only a
        choice closes the menu; no event opens it. */
    method HandleEvent(ev: Event, aim: Aim)
      requires Valid()
      modifies this`running, this`inLevelUpMenu, this`player, this`enemies, this`enemySpawnTimer,
               this`enemiesPerSpawn, this`coins, this`gameOver
      modifies player`bulletType, player`armorPiercing, player`shootCooldown, player`maxHealth, player`health,
               player`bullets, player`specialBullets, player`shootTimer
      ensures Valid()
      ensures var a := Dispatch(ev, old(inLevelUpMenu), old(gameOver), |old(upgradeOptions)|);
        && running == (old(running) && a != Stop)
        && upgradeOptions == old(upgradeOptions)
        && inLevelUpMenu == (old(inLevelUpMenu) && !a.Choose?)
        && (a.Choose? ==> player.Loadout() == Upgraded(old(player.Loadout()), upgradeOptions[a.index]))
        && (a == Restart ==> fresh(player) && !gameOver && enemies == [] && coins == [] && enemySpawnTimer == 0
                             && player.xp == 0 && player.level == 1 && player.health == PLAYER_HEALTH
                             && player.bullets == [])
        && (a != Restart ==> player == old(player) && gameOver == old(gameOver) && enemies == old(enemies)
                             && coins == old(coins) && enemySpawnTimer == old(enemySpawnTimer))
        && (!a.Choose? && a != Restart ==> player.Loadout() == old(player.Loadout()))
      ensures var a := Dispatch(ev, old(inLevelUpMenu), old(gameOver), |old(upgradeOptions)|);
        && (a.ShootAt? || a == ShootNearest ==>
              |player.bullets| >= |old(player.bullets)| && player.bullets[..|old(player.bullets)|] == old(player.bullets)
              && forall b :: b in player.bullets[|old(player.bullets)|..] ==> fresh(b))
        && (a == Stop || a == Ignore || a.Choose? ==>
              player.bullets == old(player.bullets) && player.shootTimer == old(player.shootTimer)
              && player.specialBullets == old(player.specialBullets))
      ensures var a := Dispatch(ev, old(inLevelUpMenu), old(gameOver), |old(upgradeOptions)|);
        a.ShootAt? ==>
          player.Shot(a.x as real, a.y as real, aim, old(player.shootTimer), old(player.bullets), old(player.specialBullets))
      ensures var a := Dispatch(ev, old(inLevelUpMenu), old(gameOver), |old(upgradeOptions)|);
        a == ShootNearest && enemies == [] ==>
          player.bullets == old(player.bullets) && player.shootTimer == old(player.shootTimer)
          && player.specialBullets == old(player.specialBullets)
      ensures var a := Dispatch(ev, old(inLevelUpMenu), old(gameOver), |old(upgradeOptions)|);
        a == ShootNearest && enemies != [] ==>
          var n := old(enemies[Nearest(Positions(enemies), Pos(player.x as real, player.y as real))]);
          player.Shot(n.x, n.y, aim, old(player.shootTimer), old(player.bullets), old(player.specialBullets))
    {
      var action := Dispatch(ev, inLevelUpMenu, gameOver, |upgradeOptions|);
      if action.ShootAt? || action == ShootNearest {
        Shoot(action, aim);
      } else {
        Act(action);
      }
    }

    /** The two shooting actions: a click fires toward the mouse, Space toward the nearest enemy. */
    method Shoot(a: Action, aim: Aim)
      requires Valid() && (a.ShootAt? || a == ShootNearest)
      modifies player`bullets, player`specialBullets, player`shootTimer
      ensures Valid()
      ensures |player.bullets| >= |old(player.bullets)| && player.bullets[..|old(player.bullets)|] == old(player.bullets)
      ensures forall b :: b in player.bullets[|old(player.bullets)|..] ==> fresh(b)
      ensures a.ShootAt? ==>
        player.Shot(a.x as real, a.y as real, aim, old(player.shootTimer), old(player.bullets), old(player.specialBullets))
      ensures a == ShootNearest && enemies == [] ==>
        player.bullets == old(player.bullets) && player.shootTimer == old(player.shootTimer)
        && player.specialBullets == old(player.specialBullets)
      ensures a == ShootNearest && enemies != [] ==>
        var n := old(enemies[Nearest(Positions(enemies), Pos(player.x as real, player.y as real))]);
        player.Shot(n.x, n.y, aim, old(player.shootTimer), old(player.bullets), old(player.specialBullets))
    {
      if a.ShootAt? {
        Fire(a.x as real, a.y as real, aim);
      } else {
        ShootAtNearest(aim);
      }
    }

    /** The actions that do not shoot: quitting, a menu choice, a restart, or nothing. */
    method Act(a: Action)
      requires Valid() && !a.ShootAt? && a != ShootNearest
      requires a.Choose? ==> inLevelUpMenu && a.index < |upgradeOptions|
      modifies this`running, this`inLevelUpMenu, this`player, this`enemies, this`enemySpawnTimer,
               this`enemiesPerSpawn, this`coins, this`gameOver
      modifies player`bulletType, player`armorPiercing, player`shootCooldown, player`maxHealth, player`health
      ensures Valid()
      ensures running == (old(running) && a != Stop)
      ensures inLevelUpMenu == (old(inLevelUpMenu) && !a.Choose?)
      ensures a.Choose? ==> player.Loadout() == Upgraded(old(player.Loadout()), upgradeOptions[a.index])
      ensures a == Restart ==> fresh(player) && !gameOver && enemies == [] && coins == [] && enemySpawnTimer == 0
                               && player.xp == 0 && player.level == 1 && player.health == PLAYER_HEALTH
                               && player.bullets == []
      ensures a != Restart ==> player == old(player) && gameOver == old(gameOver) && enemies == old(enemies)
                               && coins == old(coins) && enemySpawnTimer == old(enemySpawnTimer)
      ensures !a.Choose? && a != Restart ==> player.Loadout() == old(player.Loadout())
    {
      match a
      case Stop =>
        running := false;
      case Choose(i) =>
        PickUpgrade(i);
      case Restart =>
        ResetGame();
      case Ignore =>
    }

    /** A menu choice: the index-th offered upgrade is applied and the menu closes. */
    method PickUpgrade(index: nat)
      requires Valid() && inLevelUpMenu && index < |upgradeOptions|
      modifies this`inLevelUpMenu
      modifies player`bulletType, player`armorPiercing, player`shootCooldown, player`maxHealth, player`health
      ensures Valid() && !inLevelUpMenu
      ensures player.Loadout() == Upgraded(old(player.Loadout()), upgradeOptions[index])
    {
      ApplyUpgrade(upgradeOptions[index]);
      inLevelUpMenu := false;
    }

    /** Space during play: the player shoots toward the nearest enemy, if there is one. */
    method ShootAtNearest(aim: Aim)
      requires Valid()
      modifies player`bullets, player`specialBullets, player`shootTimer
      ensures Valid()
      ensures enemies == [] ==>
        player.bullets == old(player.bullets) && player.specialBullets == old(player.specialBullets) &&
        player.shootTimer == old(player.shootTimer)
      ensures enemies != [] ==>
        var n := old(enemies[Nearest(Positions(enemies), Pos(player.x as real, player.y as real))]);
        player.Shot(n.x, n.y, aim, old(player.shootTimer), old(player.bullets), old(player.specialBullets))
      ensures |player.bullets| >= |old(player.bullets)| && player.bullets[..|old(player.bullets)|] == old(player.bullets)
      ensures forall b :: b in player.bullets[|old(player.bullets)|..] ==> fresh(b)
    {
      var nearest := FindNearestEnemy();
      if nearest != null {
        Fire(nearest.x, nearest.y, aim);
      }
    }

    /** The player shoots toward (tx, ty) (Player.shoot_toward_position); the game stays valid
        and the bullet list only gains new bullets at its end. */
    method Fire(tx: real, ty: real, aim: Aim)
      requires Valid()
      modifies player`bullets, player`specialBullets, player`shootTimer
      ensures Valid()
      ensures player.Shot(tx, ty, aim, old(player.shootTimer), old(player.bullets), old(player.specialBullets))
      ensures |player.bullets| >= |old(player.bullets)| && player.bullets[..|old(player.bullets)|] == old(player.bullets)
      ensures forall b :: b in player.bullets[|old(player.bullets)|..] ==> fresh(b)
    {
      player.ShootTowardPosition(tx, ty, aim);
    }

    /** Game.update: the player moves and updates its bullets, the enemies move, the three
        collision passes run; when the player has no health left the game is over and the tick
        ends, otherwise the spawner and the level-up check run. A crash in the bullet pass ends
        the tick where it happens, and only an explosive bullet can cause one. */
    method Update(t: Tick) returns (crashed: bool)
      requires Valid() && !gameOver && !inLevelUpMenu && t.WellFormed()
      modifies this`enemies, this`coins, this`gameOver, this`enemySpawnTimer, this`upgradeOptions, this`inLevelUpMenu
      modifies player`x, player`y, player`state, player`facingLeft, player`bullets, player`specialBullets,
               player`shootTimer, player`health, player`xp, player`level
      modifies (set b | b in player.bullets)`x, (set b | b in player.bullets)`y, (set b | b in player.bullets)`vx,
               (set b | b in player.bullets)`vy, (set b | b in player.bullets)`target, (set b | b in player.bullets)`exploded
      modifies (set e | e in enemies)`x, (set e | e in enemies)`y, (set e | e in enemies)`facingLeft,
               (set e | e in enemies)`kbRemaining, (set e | e in enemies)`kbDx, (set e | e in enemies)`kbDy,
               (set e | e in enemies)`health
      ensures Valid()
      ensures crashed ==> exists b :: b in old(player.bullets) && b.kind == Explosive
      ensures crashed ==> !gameOver
      ensures !crashed ==> (gameOver <==> player.health <= 0)
      ensures crashed || gameOver ==> player.level == old(player.level) && !inLevelUpMenu
      ensures !crashed && !gameOver ==> (player.level, inLevelUpMenu) == LevelCheck(player.xp, old(player.level))
      ensures player.xp >= old(player.xp)
      ensures forall e :: e in enemies ==> e in old(enemies) || fresh(e)
      ensures forall b :: b in player.bullets ==> b in old(player.bullets)
      ensures crashed || gameOver ==> enemySpawnTimer == old(enemySpawnTimer)
      ensures !crashed && !gameOver ==> enemySpawnTimer == SpawnTick(old(enemySpawnTimer)).0
      ensures forall e :: e in enemies && e !in old(enemies) ==>
        && !crashed && !gameOver && SpawnTick(old(enemySpawnTimer)).1
        && e == enemies[|enemies| - 1] && e.tier == t.tier
    {
      Advance(t);
      crashed := BulletPass(t.hits);
      if crashed {
        return;
      }
      Settle(t);
    }

    /** The bullet-enemy pass of Game.update, seen from outside: enemies and bullets are only
        removed, and only an explosive bullet can crash it. */
    method BulletPass(hits: Bullet -> Enemy -> bool) returns (crashed: bool)
      requires Valid()
      modifies player`bullets, (set b | b in player.bullets)`exploded, this`enemies, (set e | e in enemies)`health
      ensures Valid()
      ensures forall e :: e in enemies ==> e in old(enemies)
      ensures forall b :: b in player.bullets ==> b in old(player.bullets)
      ensures crashed ==> exists b :: b in old(player.bullets) && b.kind == Explosive
    {
      ghost var E, B := enemies, player.bullets;
      ghost var struck;
      crashed, struck := CheckBulletEnemyCollisions(hits);
      WithoutSubset(E, Slain(E));
      WithoutSubset(B, struck);
    }

    /** The first half of Game.update: the player moves and updates its bullets, the enemies
        move, and the player-enemy collision pass runs. XP, level, enemy list and flags are
        untouched, and the bullet list only loses bullets. */
    method Advance(t: Tick)
      requires Valid()
      modifies player`x, player`y, player`state, player`facingLeft, player`bullets, player`specialBullets,
               player`shootTimer, player`health
      modifies (set b | b in player.bullets)`x, (set b | b in player.bullets)`y, (set b | b in player.bullets)`vx,
               (set b | b in player.bullets)`vy, (set b | b in player.bullets)`target
      modifies (set e | e in enemies)`x, (set e | e in enemies)`y, (set e | e in enemies)`facingLeft,
               (set e | e in enemies)`kbRemaining, (set e | e in enemies)`kbDx, (set e | e in enemies)`kbDy
      ensures Valid()
      ensures forall b :: b in player.bullets ==> b in old(player.bullets)
      ensures (player.x, player.y) == Move(old(player.x), old(player.y), t.keys)
      ensures player.shootTimer == if old(player.shootTimer) < player.shootCooldown then old(player.shootTimer) + 1
                                   else old(player.shootTimer)
      ensures enemies == old(enemies)
      ensures player.health == if exists e :: e in enemies && t.touches(e)
                               then Clamp(old(player.health) - CONTACT_DAMAGE, 0, old(player.health))
                               else old(player.health)
    {
      AdvancePlayer(t);
      MoveEnemies(t.unit);
      var _ := CheckPlayerEnemyCollisions(t.touches, t.unit);
    }

    /** The player's part of Game.update: it moves with the held keys, then updates its bullets. */
    method AdvancePlayer(t: Tick)
      requires Valid()
      modifies player`x, player`y, player`state, player`facingLeft, player`bullets, player`specialBullets,
               player`shootTimer
      modifies (set b | b in player.bullets)`x, (set b | b in player.bullets)`y, (set b | b in player.bullets)`vx,
               (set b | b in player.bullets)`vy, (set b | b in player.bullets)`target
      ensures Valid()
      ensures forall b :: b in player.bullets ==> b in old(player.bullets)
      ensures (player.x, player.y) == Move(old(player.x), old(player.y), t.keys)
      ensures player.shootTimer == if old(player.shootTimer) < player.shootCooldown then old(player.shootTimer) + 1
                                   else old(player.shootTimer)
    {
      player.HandleInput(t.keys);
      ghost var B := player.bullets;
      ghost var pruned := player.Update(enemies, t.unit);
      WithoutSubset(B, pruned);
    }

    /** The second half of Game.update, after a bullet pass that did not crash: coins are
        collected; a player without health ends the game; otherwise the spawner and the
        level-up check run. */
    method Settle(t: Tick)
      requires Valid() && !gameOver && !inLevelUpMenu && t.WellFormed()
      modifies this`enemies, this`coins, this`gameOver, this`enemySpawnTimer, this`upgradeOptions, this`inLevelUpMenu
      modifies player`xp, player`level
      ensures Valid()
      ensures gameOver <==> player.health <= 0
      ensures gameOver ==> player.level == old(player.level) && !inLevelUpMenu
      ensures !gameOver ==> (player.level, inLevelUpMenu) == LevelCheck(player.xp, old(player.level))
      ensures player.xp >= old(player.xp)
      ensures forall e :: e in enemies ==> e in old(enemies) || fresh(e)
      ensures gameOver ==> enemySpawnTimer == old(enemySpawnTimer) && enemies == old(enemies)
      ensures !gameOver ==> enemySpawnTimer == SpawnTick(old(enemySpawnTimer)).0
      ensures !gameOver && !SpawnTick(old(enemySpawnTimer)).1 ==> enemies == old(enemies)
      ensures !gameOver && SpawnTick(old(enemySpawnTimer)).1 ==>
        && |enemies| == |old(enemies)| + 1 && enemies[..|old(enemies)|] == old(enemies)
        && fresh(enemies[|old(enemies)|]) && enemies[|old(enemies)|].tier == t.tier
      ensures forall e :: e in enemies && e !in old(enemies) ==>
        && !gameOver && SpawnTick(old(enemySpawnTimer)).1
        && e == enemies[|enemies| - 1] && e.tier == t.tier
    {
      CheckPlayerCoinCollisions(t.pickup);
      if player.health <= 0 {
        gameOver := true;
        return;
      }
      var _ := SpawnEnemies(t.tier, t.side, t.along);
      CheckForLevelUp(t.draws);
    }

    /** Game.handle_events: the events of one frame, in order (see HandleEvent). A Quit
        anywhere stops the game; no event ends the game or opens the menu; the player is
        replaced only by a fresh one, and bullets and enemies only come from before or are new. */
    method HandleEvents(events: seq<Event>, aim: Aim)
      requires Valid()
      modifies this`running, this`inLevelUpMenu, this`player, this`enemies, this`enemySpawnTimer,
               this`enemiesPerSpawn, this`coins, this`gameOver
      modifies player`bulletType, player`armorPiercing, player`shootCooldown, player`maxHealth, player`health,
               player`bullets, player`specialBullets, player`shootTimer
      ensures Valid()
      ensures (exists i :: 0 <= i < |events| && events[i] == Quit) ==> !running
      ensures !old(running) ==> !running
      ensures gameOver ==> old(gameOver)
      ensures inLevelUpMenu ==> old(inLevelUpMenu)
      ensures player == old(player) || fresh(player)
      ensures forall b :: b in player.bullets ==> b in old(player.bullets) || fresh(b)
      ensures forall e :: e in enemies ==> e in old(enemies)
      ensures old(inLevelUpMenu) && (forall i :: 0 <= i < |events| ==> !Picks(events[i], |old(upgradeOptions)|)) ==> inLevelUpMenu
      ensures old(gameOver) && (forall i :: 0 <= i < |events| ==> events[i] != KeyDown(KeyR)) ==> gameOver
      ensures gameOver || inLevelUpMenu ==>
        player == old(player) && enemies == old(enemies) && coins == old(coins) && enemySpawnTimer == old(enemySpawnTimer)
    {
      for i := 0 to |events|
        invariant Valid()
        invariant (exists j :: 0 <= j < i && events[j] == Quit) ==> !running
        invariant !old(running) ==> !running
        invariant gameOver ==> old(gameOver)
        invariant inLevelUpMenu ==> old(inLevelUpMenu)
        invariant player == old(player) || fresh(player)
        invariant forall b :: b in player.bullets ==> b in old(player.bullets) || fresh(b)
        invariant forall e :: e in enemies ==> e in old(enemies)
        invariant old(inLevelUpMenu) && (forall j :: 0 <= j < i ==> !Picks(events[j], |old(upgradeOptions)|)) ==> inLevelUpMenu
        invariant old(gameOver) && (forall j :: 0 <= j < i ==> events[j] != KeyDown(KeyR)) ==> gameOver
        invariant gameOver || inLevelUpMenu ==>
          player == old(player) && enemies == old(enemies) && coins == old(coins) && enemySpawnTimer == old(enemySpawnTimer)
      {
        HandleOne(events[i], aim);
      }
    }

    /** One turn of the event loop: what a single event can change. */
    method HandleOne(ev: Event, aim: Aim)
      requires Valid()
      modifies this`running, this`inLevelUpMenu, this`player, this`enemies, this`enemySpawnTimer,
               this`enemiesPerSpawn, this`coins, this`gameOver
      modifies player`bulletType, player`armorPiercing, player`shootCooldown, player`maxHealth, player`health,
               player`bullets, player`specialBullets, player`shootTimer
      ensures Valid()
      ensures ev == Quit ==> !running
      ensures !old(running) ==> !running
      ensures gameOver ==> old(gameOver)
      ensures inLevelUpMenu ==> old(inLevelUpMenu)
      ensures player == old(player) || fresh(player)
      ensures forall b :: b in player.bullets ==> b in old(player.bullets) || fresh(b)
      ensures forall e :: e in enemies ==> e in old(enemies)
      ensures old(inLevelUpMenu) && !Picks(ev, |upgradeOptions|) ==> inLevelUpMenu
      ensures old(gameOver) && ev != KeyDown(KeyR) ==> gameOver
      ensures gameOver || inLevelUpMenu ==>
        player == old(player) && enemies == old(enemies) && coins == old(coins) && enemySpawnTimer == old(enemySpawnTimer)
    {
      ghost var before := player.bullets;
      HandleEvent(ev, aim);
      forall b | b in player.bullets
        ensures b in before || fresh(b)
      {
        if player.bullets != [] && |player.bullets| >= |before| && player.bullets[..|before|] == before {
          var k :| 0 <= k < |player.bullets| && player.bullets[k] == b;
          if k >= |before| {
            assert b in player.bullets[|before|..];
          }
        }
      }
    }

    /** One pass of the loop of Game.run, without the clock and the drawing: the frame's events
        are handled, then update runs unless the level-up menu is open or the game is over.
        The game ends only for a player without health, and a crash can only come from an
        update. */
    method Frame(f: FrameInput) returns (crashed: bool, ghost ticked: bool)
      requires Valid() && f.tick.WellFormed()
      modifies this`running, this`inLevelUpMenu, this`player, this`enemies, this`enemySpawnTimer,
               this`enemiesPerSpawn, this`coins, this`gameOver, this`upgradeOptions
      modifies player`x, player`y, player`state, player`facingLeft, player`bullets, player`specialBullets,
               player`shootTimer, player`health, player`xp, player`level, player`bulletType,
               player`armorPiercing, player`shootCooldown, player`maxHealth
      modifies (set b | b in player.bullets)`x, (set b | b in player.bullets)`y, (set b | b in player.bullets)`vx,
               (set b | b in player.bullets)`vy, (set b | b in player.bullets)`target, (set b | b in player.bullets)`exploded
      modifies (set e | e in enemies)`x, (set e | e in enemies)`y, (set e | e in enemies)`facingLeft,
               (set e | e in enemies)`kbRemaining, (set e | e in enemies)`kbDx, (set e | e in enemies)`kbDy,
               (set e | e in enemies)`health
      ensures Valid()
      ensures !old(running) ==> !running
      ensures crashed ==> !inLevelUpMenu && !gameOver
      ensures player == old(player) || fresh(player)
      ensures forall b :: b in player.bullets ==> b in old(player.bullets) || fresh(b)
      ensures forall e :: e in enemies ==> e in old(enemies) || fresh(e)
      ensures !old(inLevelUpMenu) && !old(gameOver) ==> ticked
      ensures old(inLevelUpMenu) && (forall i :: 0 <= i < |f.events| ==> !Picks(f.events[i], |old(upgradeOptions)|)) ==> !ticked
      ensures old(gameOver) && (forall i :: 0 <= i < |f.events| ==> f.events[i] != KeyDown(KeyR)) ==> !ticked
      ensures !ticked ==> !crashed && (inLevelUpMenu || gameOver)
      ensures !ticked ==>
        && player == old(player) && enemies == old(enemies) && coins == old(coins)
        && enemySpawnTimer == old(enemySpawnTimer) && player.xp == old(player.xp) && player.level == old(player.level)
        && player.x == old(player.x) && player.y == old(player.y)
        && forall e :: e in enemies ==> e.x == old(e.x) && e.y == old(e.y) && e.health == old(e.health)
    {
      HandleEvents(f.events, f.aim);
      if inLevelUpMenu || gameOver {
        assert player.x == old(player.x) && player.y == old(player.y)
               && player.xp == old(player.xp) && player.level == old(player.level);
        assert forall e :: e in enemies ==> e.x == old(e.x) && e.y == old(e.y) && e.health == old(e.health);
        return false, false;
      }
      crashed := Update(f.tick);
      ticked := true;
    }

    /** Game.run over a finite list of frames: frames are played while the game is running and
        nothing has crashed. `played` frames were played; the run stops early only because the
        game was quit or crashed. */
    method Run(frames: seq<FrameInput>) returns (crashed: bool, played: nat)
      requires Valid() && forall i :: 0 <= i < |frames| ==> frames[i].tick.WellFormed()
      modifies this`running, this`inLevelUpMenu, this`player, this`enemies, this`enemySpawnTimer,
               this`enemiesPerSpawn, this`coins, this`gameOver, this`upgradeOptions
      modifies player`x, player`y, player`state, player`facingLeft, player`bullets, player`specialBullets,
               player`shootTimer, player`health, player`xp, player`level, player`bulletType,
               player`armorPiercing, player`shootCooldown, player`maxHealth
      modifies (set b | b in player.bullets)`x, (set b | b in player.bullets)`y, (set b | b in player.bullets)`vx,
               (set b | b in player.bullets)`vy, (set b | b in player.bullets)`target, (set b | b in player.bullets)`exploded
      modifies (set e | e in enemies)`x, (set e | e in enemies)`y, (set e | e in enemies)`facingLeft,
               (set e | e in enemies)`kbRemaining, (set e | e in enemies)`kbDx, (set e | e in enemies)`kbDy,
               (set e | e in enemies)`health
      ensures Valid()
      ensures played <= |frames|
      ensures played < |frames| ==> crashed || !running
      ensures !old(running) ==> played == 0 && !crashed
      ensures crashed ==> played > 0 && !gameOver
    {
      crashed, played := false, 0;
      while running && !crashed && played < |frames|
        invariant Valid() && played <= |frames|
        invariant !old(running) ==> !running && played == 0 && !crashed
        invariant crashed ==> played > 0 && !gameOver
        invariant player == old(player) || fresh(player)
        invariant forall b :: b in player.bullets ==> b in old(player.bullets) || fresh(b)
        invariant forall e :: e in enemies ==> e in old(enemies) || fresh(e)
        decreases |frames| - played
      {
        ghost var ticked;
        crashed, ticked := Frame(frames[played]);
        played := played + 1;
      }
    }
  }
}
