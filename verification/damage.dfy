/** Enemy tiers and armour-mitigated damage (enemy.py). */
module Damage {
  import opened Config

  datatype Tier = Regular | Flying | Armored | Boss

  /** Starting stats of a tier: health (= max health), pursuit speed, flat armour,
      the factor the boss applies to its speed when pursuing, and whether pursuit turns the sprite. */
  datatype Stats = Stats(health: int, speed: real, armor: int, pursuitFactor: real, facesTarget: bool)

  /** The subclass constructors of Enemy, FlyingEnemy, ArmoredEnemy and BossEnemy. */
  function TierStats(t: Tier): (s: Stats)
    ensures s.health >= 1 && s.speed > 0.0 && s.pursuitFactor >= 1.0
    ensures s.armor >= 0 && (s.armor > 0 <==> t == Armored)
    ensures s.facesTarget <==> t != Boss
    ensures s.pursuitFactor != 1.0 <==> t == Boss
    ensures t == Flying ==> s.speed == 1.5 * DEFAULT_ENEMY_SPEED
    ensures t != Boss ==> s.health <= 3 && s.speed * s.pursuitFactor <= 1.5
    ensures t == Boss ==> s.health == 10 && s.speed * s.pursuitFactor == 2.4
    ensures t == Regular ==> s.health == 1 && s.speed == DEFAULT_ENEMY_SPEED
    ensures t == Flying ==> s.health == 2
    ensures t == Armored ==> s.health == 3 && s.armor == 2 && s.speed == DEFAULT_ENEMY_SPEED
  {
    match t
    case Regular => Stats(1, DEFAULT_ENEMY_SPEED, 0, 1.0, true)
    case Flying => Stats(2, DEFAULT_ENEMY_SPEED * 1.5, 0, 1.0, true)
    case Armored => Stats(3, DEFAULT_ENEMY_SPEED, 2, 1.0, true)
    case Boss => Stats(10, 2.0, 0, 1.2, false)
  }

  /** Damage actually taken: the full amount when the player's bullets pierce armour,
      otherwise the amount less the armour, never below zero. */
  function Effective(amount: int, armor: int, piercing: bool): (d: int)
    ensures piercing ==> d == amount
    ensures !piercing ==> d >= 0
    ensures !piercing && amount >= 0 && armor >= 0 ==> d <= amount
    ensures !piercing && armor >= amount ==> d == 0
    ensures !piercing && 0 <= armor <= amount ==> d == amount - armor
  {
    if piercing then amount else if amount - armor > 0 then amount - armor else 0
  }

  /** An armoured enemy takes nothing from a bullet hit or an explosion unless the
      player has armour piercing, in which case it takes the full amount. */
  lemma ArmoredShrugsOff(amount: int, piercing: bool)
    requires amount == HIT_DAMAGE || amount == EXPLOSION_DAMAGE
    ensures Effective(amount, TierStats(Armored).armor, piercing) == if piercing then amount else 0
  {
  }
}
