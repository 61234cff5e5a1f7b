/** Experience, levels and the upgrade catalogue (game.py, check_for_level_up,
    pick_random_upgrades and apply_upgrade). */
module Progression {
  import opened Config
  import opened Seqs

  /** The player's bullet kind: "normal", "homing" or "explosive". */
  datatype BulletType = Normal | Homing | Explosive

  /** The five entries of the upgrade catalogue. */
  datatype Upgrade = HomingBullets | ExplosiveRounds | ArmorPiercing | RapidFire | HealthBoost

  const Catalog: seq<Upgrade> := [HomingBullets, ExplosiveRounds, ArmorPiercing, RapidFire, HealthBoost]

  /** The catalogue lists every upgrade exactly once. */
  lemma CatalogComplete(u: Upgrade)
    ensures u in Catalog && |Catalog| == 5 && Distinct(Catalog)
  {
  }

  /** A legal result of sampling `num` upgrades without replacement. */
  predicate Sample(options: seq<Upgrade>, num: int)
  {
    |options| == num && Distinct(options) && forall i :: 0 <= i < |options| ==> options[i] in Catalog
  }

  /** Game.pick_random_upgrades (random.sample): num upgrades of the catalogue drawn without
      replacement; draws[i] stands for the random choice of the i-th draw, taken modulo the
      number of upgrades still in the pool. Asking for more than the catalogue holds raises in
      the source and is excluded here. */
  method PickRandomUpgrades(num: int, draws: seq<nat>) returns (options: seq<Upgrade>)
    requires 0 <= num <= |Catalog| && num <= |draws|
    ensures Sample(options, num)
    ensures num > 0 ==> options[0] == Catalog[draws[0] % |Catalog|]
  {
    var pool := Catalog;
    options := [];
    for i := 0 to num
      invariant |options| == i && |pool| == |Catalog| - i
      invariant Distinct(options) && Distinct(pool)
      invariant forall j :: 0 <= j < |options| ==> options[j] in Catalog && options[j] !in pool
      invariant forall j :: 0 <= j < |pool| ==> pool[j] in Catalog
      invariant i == 0 ==> pool == Catalog
      invariant i > 0 ==> options[0] == Catalog[draws[0] % |Catalog|]
    {
      var k := draws[i] % |pool|;
      var picked := pool[k];
      options := options + [picked];
      pool := pool[..k] + pool[k + 1..];
    }
  }

  /** XP needed to leave a level. */
  function XpThreshold(level: int): int
  {
    level * level * 5
  }

  /** The level after the level-up check and whether the upgrade menu opens.
      XP is compared, never spent. */
  function LevelCheck(xp: int, level: int): (r: (int, bool))
    ensures r.1 <==> xp >= XpThreshold(level)
    ensures r.0 == if r.1 then level + 1 else level
  {
    if xp >= level * level * 5 then (level + 1, true) else (level, false)
  }

  /** A fresh player (level 1, no XP) who picks up 5 XP reaches the first threshold. */
  lemma FirstLevelUp()
    ensures LevelCheck(0 + 5, 1) == (2, true)
    ensures LevelCheck(0 + 4, 1) == (1, false)
  {
  }

  /** Python's `int(c * 0.5)`: half, truncated toward zero. */
  function TruncHalf(c: int): int
  {
    if c >= 0 then c / 2 else -((-c) / 2)
  }

  /** The cooldown after "Rapid Fire": half of it, but at least one tick. */
  function HalvedCooldown(c: int): (r: int)
    ensures r >= 1
    ensures c >= 2 ==> 2 * r <= c < 2 * r + 2
    ensures c <= 3 ==> r == 1
  {
    if TruncHalf(c) > 1 then TruncHalf(c) else 1
  }

  /** The cooldown after choosing "Rapid Fire" n times. */
  function RapidFireTimes(c: int, n: nat): int
    decreases n
  {
    if n == 0 then c else RapidFireTimes(HalvedCooldown(c), n - 1)
  }

  /** Repeated "Rapid Fire" never raises the cooldown and never takes it below one tick. */
  lemma {:induction false} RapidFireFloor(c: int, n: nat)
    requires c >= 1
    ensures 1 <= RapidFireTimes(c, n) <= c
    decreases n
  {
    if n > 0 {
      RapidFireFloor(HalvedCooldown(c), n - 1);
    }
  }

  /** From the starting cooldown of 20 ticks, four picks reach the floor of one tick. */
  lemma RapidFireFromStart()
    ensures RapidFireTimes(SHOOT_COOLDOWN, 3) == 2 && RapidFireTimes(SHOOT_COOLDOWN, 4) == 1
  {
    assert HalvedCooldown(20) == 10 && HalvedCooldown(10) == 5 && HalvedCooldown(5) == 2 && HalvedCooldown(2) == 1;
    assert RapidFireTimes(2, 0) == 2 && RapidFireTimes(1, 0) == 1;
    assert RapidFireTimes(5, 1) == 2 && RapidFireTimes(2, 1) == 1;
    assert RapidFireTimes(10, 2) == 2 && RapidFireTimes(5, 2) == 1;
  }

  /** The player fields an upgrade can change. */
  datatype Loadout = Loadout(bulletType: BulletType, armorPiercing: bool, shootCooldown: int,
                             maxHealth: int, health: int)

  /** The effect of one upgrade: it changes only the field(s) its name selects. */
  function Upgraded(l: Loadout, u: Upgrade): Loadout
  {
    match u
    case HomingBullets => l.(bulletType := Homing)
    case ExplosiveRounds => l.(bulletType := Explosive)
    case ArmorPiercing => l.(armorPiercing := true)
    case RapidFire => l.(shootCooldown := HalvedCooldown(l.shootCooldown))
    case HealthBoost => l.(maxHealth := l.maxHealth + 2, health := l.health + 2)
  }

  /** Each upgrade changes only the field its name selects: a field that differs afterwards
      names the upgrade that was chosen, and the chosen upgrade does set its field. */
  lemma UpgradeTouchesOnlyItsField(l: Loadout, u: Upgrade)
    ensures var r := Upgraded(l, u); r.bulletType != l.bulletType ==> u == HomingBullets || u == ExplosiveRounds
    ensures var r := Upgraded(l, u); r.armorPiercing != l.armorPiercing ==> u == ArmorPiercing
    ensures var r := Upgraded(l, u); r.shootCooldown != l.shootCooldown ==> u == RapidFire
    ensures var r := Upgraded(l, u); r.maxHealth != l.maxHealth || r.health != l.health ==> u == HealthBoost
    ensures var r := Upgraded(l, u);
      && (u == HomingBullets ==> r.bulletType == Homing)
      && (u == ExplosiveRounds ==> r.bulletType == Explosive)
      && (u == ArmorPiercing ==> r.armorPiercing)
      && (u == RapidFire && l.shootCooldown >= 2 ==> r.shootCooldown < l.shootCooldown)
      && (u == HealthBoost ==> r.maxHealth == l.maxHealth + 2 && r.health == l.health + 2)
  {
  }

  /** An upgrade keeps the player's health within [0, max health] and the cooldown at least one. */
  lemma UpgradeKeepsBounds(l: Loadout, u: Upgrade)
    requires 0 <= l.health <= l.maxHealth && l.shootCooldown >= 1
    ensures var r := Upgraded(l, u); 0 <= r.health <= r.maxHealth && r.shootCooldown >= 1
    ensures var r := Upgraded(l, u); r.maxHealth - r.health == l.maxHealth - l.health
  {
  }
}
