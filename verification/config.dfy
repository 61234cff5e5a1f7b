/** Tuning constants of the game (app.py, and the literals the core files use). */
module Config {
  /** Arena size in pixels. */
  const WIDTH: int := 1200
  const HEIGHT: int := 700
  const FPS: int := 60

  const PLAYER_SPEED: int := 3
  const DEFAULT_ENEMY_SPEED: real := 1.0
  const SPAWN_MARGIN: int := 50

  /** Distance an enemy is pushed away on contact, and how much of it is consumed per tick. */
  const PUSHBACK_DISTANCE: int := 80
  const ENEMY_KNOCKBACK_SPEED: int := 5

  /** Player start values. */
  const PLAYER_HEALTH: int := 5
  const BULLET_SPEED: int := 10
  const BULLET_SIZE: int := 10
  const SHOOT_COOLDOWN: int := 20
  const ANGLE_SPREAD: int := 10

  /** Ticks between two spawns, and options offered at a level-up. */
  const SPAWN_INTERVAL: int := 60
  const UPGRADE_CHOICES: int := 3

  /** Damage dealt by a bullet hit, by an explosion, and to the player on contact. */
  const HIT_DAMAGE: int := 1
  const EXPLOSION_DAMAGE: int := 2
  const CONTACT_DAMAGE: int := 1
  const EXPLOSION_RADIUS: int := 50
  const HOMING_STRENGTH: real := 0.1

  /** Boss shockwave: bullet speed and size. */
  const SHOCKWAVE_SPEED: int := 5
  const SHOCKWAVE_SIZE: int := 15
}
