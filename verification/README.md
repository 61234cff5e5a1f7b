# Combat and progression core of a top-down survival shooter

This Dafny project models the rules of a small pygame survival shooter. The player walks a
1200 x 700 arena and fires volleys of bullets. Enemies of four tiers chase the player and are
pushed back on contact. Bullets and explosions wear enemies down, and collected coins give
experience. At each level threshold the game pauses on a menu offering three upgrades. Rendering,
sprites, sound and float geometry are left out. What remains is the game's integer and list state,
and the order in which a tick changes it.

Modules:

- `Config` — the numeric constants of `app.py` and the literals the core files use.
- `Seqs` — identity-based list operations on `seq`:
  - `Remove` is Python's `list.remove`;
  - `Without` keeps the elements outside a set, in order;
  - `Select` keeps those a predicate accepts;
  - `FirstWhere` finds the first match;
  - lemmas relating them.
- `Input` — the four arrow keys, the events the game reacts to, the level-up menu's key-to-index
  rule, and `Dispatch`, the decision table of `Game.handle_events`.
- `Arena` — player movement: velocity from the keys, then a clamp to the arena.
- `Damage` — the tier table of the enemy subclasses, and armour-mitigated damage.
- `Knockback` — the knockback distance consumed `min(5, remaining)` per enemy update.
- `Volley` — the spread offsets of a volley, and the shockwave's angle range.
- `Targeting` — the earliest-nearest rule of a strict `<` minimum scan.
- `Progression` — the level threshold, the 5-entry upgrade catalogue, sampling without
  replacement, and the effect of each upgrade.
- `Schedule` — the enemy spawn timer, the spawn point, and the spawner as the code is written.
- `Shooter` — the mutable entities as classes: `Bullet`, `Enemy`, `Coin`, `Player` and `Game`.
  They share one module because an enemy holds a back-reference to its game.

Lists the source mutates in place are `seq` fields that the methods reassign. Loops that scan a
snapshot while removing from the live list are `for`/`while` loops. Each loop is proved against
a specification function or predicate of the old state. The geometry is supplied by the caller:

- `Normalizer` divides an offset by its `math.sqrt` length;
- `Aim` stands for the `atan2`/`cos`/`sin` of a volley, and `Polar` for those of a shockwave angle;
- the `touches`, `hits` and `pickup` predicates are `Rect.colliderect`;
- the random draws (enemy tier, spawn side and offset, upgrade sample) are parameters of a `Tick`.

Behaviour of the code as written, kept in the model:

- **Explosive double hit.**
  - An unexploded explosive bullet explodes before the struck enemy takes its 1 point of hit damage.
  - When the explosion has already killed that enemy, `take_damage(1)` calls `die` a second time,
    and `list.remove` raises.
  - `Enemy.TakeDamage` returns `raised` in that case. `Game.Strike` and the methods above it return
    it as `crashed`, which ends the tick and the run.
- **Coins are never dropped.** `Enemy.take_damage` returns nothing, so the coin-drop branch of the
  bullet pass (game.py:323-326) never runs. Accordingly, none of the bullet-pass methods has `coins`
  in its `modifies` clause.
- **Homing bullets stay in the special list after a hit.** A homing bullet removed from
  `player.bullets` by a hit stays in `special_bullets`. No loop removes it from there, because only
  spent explosives and bullets still in `player.bullets` are pruned.
- **Clicks shoot at game over.** A left click shoots at the mouse even on the game-over screen;
  only Space is gated by `game_over`.
- **`enemies_per_spawn` is dead.** It is set to 1 and never read.

## Model

| member | source | states |
|---|---|---|
| Arena.Clamp | player.py:50-51 | the result lies in [lo, hi], equals v when v is already inside, and the nearer bound otherwise |
| Arena.Velocity | player.py:37-46 | each pressed key adds plus or minus speed on its axis; opposite keys cancel |
| Arena.Move | player.py:48-51 | the new position is inside [0, WIDTH] x [0, HEIGHT], and on each axis it is the old one plus the velocity whenever that stays inside (diagonals are not normalised) |
| Arena.WalkStaysInArena | player.py:48-51 | from inside the arena, any number of ticks with any keys keeps the player inside |
| Arena.PinnedInCorner | player.py:48-51 | holding left and up in the corner (0, 0) leaves the player there for ever |
| Damage.TierStats | enemy.py:113-141 | health 1/2/3/10 by tier; only armoured enemies have armour, and theirs is 2; regular and armoured enemies move at the default speed; a flying enemy has 1.5 times the default speed; the boss pursues at 2 x 1.2 and alone does not turn toward the player |
| Damage.Effective | enemy.py:30-35 | with armour piercing the full amount is dealt; otherwise amount minus armour, never negative and never more than the amount |
| Damage.ArmoredShrugsOff | enemy.py:119-123 | an armoured enemy takes 0 from both the 1-point hit and the 2-point explosion unless the player pierces armour |
| Knockback.Step | enemy.py:72 | min(5, remaining): a positive remaining distance is consumed in a positive step of at most 5 that never overshoots, and a remainder of at most 5 is consumed at once |
| Knockback.Conserved | enemy.py:70-79 | over any number of updates the remaining distance stays non-negative, and travelled plus remaining equals the distance set |
| Knockback.ExhaustedAfterTicks | enemy.py:45-49 | the knockback reaches 0 exactly after ceil(d / 5) updates, and pursuit resumes then |
| Knockback.PushbackLastsSixteenTicks | app.py:22-23 | the contact pushback of 80 at speed 5 lasts exactly 16 updates and covers all 80 |
| Volley.OffsetsMirror | player.py:133-136 | offset(i) = -offset(n-1-i): the volley is symmetric about the aim |
| Volley.VolleyCentred | player.py:133-137 | the n offsets of a volley sum to zero |
| Volley.Range | enemy.py:145 | Python's range with a positive step: element i is start + i * step, every element is below stop, and the next one would not be |
| Volley.ShockwaveAngles | enemy.py:145 | the shockwave angles are exactly 0, 45, ..., 315: eight of them |
| Targeting.Nearest | bullet.py:30-40 | the index a strict-< scan keeps: nothing is strictly closer by squared distance, and every earlier position is strictly farther |
| Input.MenuIndex | game.py:99-102 | only keys 1-3 select, and only an index below the number of options; the index is key - 1 |
| Input.Dispatch | game.py:94-120 | one event's action, each as an if-and-only-if: Quit always stops; in the menu only a valid 1-3 key chooses; at game over R restarts and Escape stops; during play Space shoots at the nearest enemy; button 1 shoots at the mouse outside the menu |
| Progression.CatalogComplete | game.py:341-347 | the catalogue has 5 distinct entries and lists every upgrade |
| Progression.PickRandomUpgrades | game.py:340-348 | the result is num distinct catalogue entries (a sample without replacement); the first is the catalogue entry the first draw selects |
| Progression.LevelCheck | game.py:46-51 | the level rises by exactly 1, and the menu opens, iff XP >= level * level * 5; XP is compared, never spent |
| Progression.FirstLevelUp | game.py:46-51 | a level-1 player levels up at 5 XP and not at 4 |
| Progression.HalvedCooldown | game.py:358-359 | "Rapid Fire" halves the cooldown (truncated) but never below 1; a cooldown of 3 or less becomes 1 |
| Progression.RapidFireFloor | game.py:358-359 | repeated "Rapid Fire" keeps the cooldown between 1 and its start value |
| Progression.RapidFireFromStart | game.py:358-359 | from the initial cooldown of 20, three picks give 2 and four give 1 |
| Progression.UpgradeTouchesOnlyItsField | game.py:350-362 | a field that differs after an upgrade names the chosen upgrade, and each upgrade sets its own field (type, piercing, shorter cooldown, +2 max health and health) |
| Progression.UpgradeKeepsBounds | game.py:350-362 | every upgrade keeps 0 <= health <= max health and cooldown >= 1, and leaves max health - health unchanged |
| Schedule.SpawnTick | game.py:211-214 | the timer counts up; reaching 60 spawns and resets it to 0; a timer in [0, 60) stays in [0, 60) |
| Schedule.Quiet | game.py:211-214 | ticks that do not reach the interval only count up and spawn nothing |
| Schedule.OneSpawnPerInterval | game.py:211-214 | 60 consecutive ticks from any legal timer spawn exactly once and return the timer to where it was; from 0 the spawn falls on the 60th tick |
| Schedule.SpawnPoint | game.py:241-253 | a spawned enemy appears SPAWN_MARGIN outside the chosen edge, at the drawn offset along it, never inside the arena |
| Schedule.SpawnAsWritten | game.py:211-225 | as written, the call raises exactly when the timer reaches the interval, and otherwise counts up like the intended timer |
| Schedule.QuietAsWritten | game.py:211-225 | before the interval is reached, the as-written spawner agrees with the intended timer |
| Schedule.SixtiethCallRaises | game.py:211-225 | from a fresh timer, 59 calls pass and the 60th raises, where the intended timer spawns its first enemy |
| Shooter.ClosestTo | game.py:296-307 | the minimum scan returns none iff the list is empty, else the earliest nearest enemy (Targeting.Nearest) |
| Shooter.Bullet.constructor | bullet.py:5-10 | a bullet starts at the given position and velocity, untargeted and unexploded |
| Shooter.Bullet.Advance | bullet.py:16-19 | the position advances by exactly the velocity, once |
| Shooter.Bullet.FindTarget | bullet.py:30-40 | none iff there are no enemies, else the earliest enemy at least squared distance |
| Shooter.Bullet.Retargeted | bullet.py:43-45 | the target after a homing update is in the list: the current one whenever that is still listed, otherwise the earliest of the enemies nearest the bullet |
| Shooter.Bullet.NextMeaning | bullet.py:42-55 | a bullet moves by its new velocity; only a homing bullet with enemies about changes course, toward a listed target, and the nudge is skipped at distance 0 |
| Shooter.Bullet.Home | bullet.py:42-55 | HomingBullet.update with enemies present leaves the bullet in the state NextMeaning describes |
| Shooter.Bullet.Fly | player.py:66-70 | each bullet of Player.update runs the homing or the plain update as NextMeaning describes |
| Shooter.Bullet.BlastLoss | bullet.py:66-70 | an explosion takes nothing outside radius 50 and, inside it, exactly take_damage(2) after armour: 2 when the player pierces armour, 2 minus the armour up to 2, and 0 from armour of 2 or more |
| Shooter.Bullet.Explode | bullet.py:63-71 | the first call deals the explosion damage to exactly the enemies within the radius and drops exactly the slain from the list; later calls change nothing; the flag is set |
| Shooter.Bullet.Blast | bullet.py:66-70 | the loop over a snapshot damages every enemy within the radius (no enemy is skipped when another dies) and removes exactly the slain |
| Shooter.BlastOne | bullet.py:69-70 | one enemy takes the armour-mitigated explosion damage and leaves the list iff it is slain |
| Shooter.Enemy.constructor | enemy.py:7-28 | an enemy starts with its tier's health, speed and armour, facing right, with no knockback |
| Shooter.Enemy.Next | enemy.py:45-79 | while knockback remains the enemy steps along it (a step of Knockback.Step, min(5, remaining), so remaining stays >= 0) and ignores the player; otherwise it pursues and leaves the knockback alone |
| Shooter.Enemy.TakeDamage | enemy.py:30-39 | health drops by the effective damage without a clamp; at 0 or below the enemy leaves the list, and removal raises iff it is no longer listed |
| Shooter.Enemy.Die | enemy.py:41-43 | the enemy's first occurrence leaves the game's list |
| Shooter.Enemy.Update | enemy.py:45-49 | one update reaches the state Enemy.Next gives: knockback while distance remains, pursuit otherwise |
| Shooter.Enemy.MoveTowardPlayer | enemy.py:57-68 | the enemy moves its pursuit speed along the unit vector to the player (not at all at distance 0); it turns to face the player unless it is the boss (enemy.py:131-141) |
| Shooter.Enemy.ApplyKnockback | enemy.py:70-79 | remaining drops by min(5, remaining), and the position moves that far along the knockback direction |
| Shooter.Enemy.SetKnockback | enemy.py:103-111 | away from (px, py) with remaining := dist, except exactly at (px, py), where nothing changes |
| Shooter.Enemy.CreateShockwave | enemy.py:143-149 | exactly 8 new size-15 bullets at angles 0, 45, ..., 315 join the end of the player's list; the rest of the list is unchanged |
| Shooter.Player.constructor | player.py:7-33 | five health, level 1, no XP, one normal bullet per volley, cooldown 20, empty bullet lists |
| Shooter.Player.HandleInput | player.py:35-62 | the position is Arena.Move of the keys; state is running iff the velocity is nonzero; facing changes only with horizontal motion |
| Shooter.Player.Update | player.py:64-99 | every bullet flies once; exactly the bullets that left the arena and the spent explosives leave both lists, others keep their order; the shot timer counts up only below the cooldown |
| Shooter.Player.Prune | player.py:66-84 | every bullet flies once; exactly the bullets that left the arena and the spent explosives leave both lists, the rest keep their order; the special list holds no normal bullet and every explosive of the bullet list |
| Shooter.Player.FlyAll | player.py:66-77 | the first loop drops from both lists exactly the bullets whose new position is outside the arena |
| Shooter.Player.SweepSpent | player.py:80-84 | the second loop drops from both lists exactly the exploded explosives of the special list |
| Shooter.Player.PrunedExactly | player.py:72-84 | the two loops together drop exactly the out-of-arena bullets and the spent explosives |
| Shooter.Player.ShootTowardPosition | player.py:121-152 | Shot: no change while cooling down or at the player's own position; otherwise exactly bullet_count new bullets at the spread angles join the bullet list (and the special list unless normal), and the timer resets |
| Shooter.Player.FireVolley | player.py:135-150 | bullet_count new bullets, the k-th at the k-th spread angle, are appended after the old list; the special list grows by the same bullets unless they are normal; the player stays valid |
| Shooter.Player.FireOne | player.py:135-150 | one new bullet of the player's type leaves at the i-th spread angle and joins the end of the list |
| Shooter.Player.Load | player.py:141-150 | the new bullet ends both lists when it is special and only the bullet list when it is normal; no bullet is listed twice |
| Shooter.Player.Discard | game.py:313-314 | the struck bullet's first occurrence leaves the bullet list, and the player stays valid |
| Shooter.Player.TakeDamage | player.py:118-119 | health drops by the amount but never below 0 |
| Shooter.Player.AddXp | player.py:160-161 | XP rises by exactly the amount |
| Shooter.Player.Heal | player.py:163-164 | health rises by the amount but never above the maximum |
| Shooter.Game.constructor | game.py:13-42 | a running game, not over, menu closed, no enemies or coins, timer 0, a fresh player at the centre |
| Shooter.Game.ResetGame | game.py:59-66 | a fresh player at the centre with the initial loadout, no enemies, coins or bullets, timer 0, game not over |
| Shooter.Game.FindNearestEnemy | game.py:296-307 | none iff there are no enemies, else the earliest enemy nearest the player |
| Shooter.Game.MoveEnemies | game.py:126-127 | every enemy reaches the state Enemy.Next gives, and the list is unchanged |
| Shooter.Game.CheckPlayerEnemyCollisions | game.py:267-278 | collided iff some enemy touches; then the player loses exactly 1 health (never below 0) however many touch, and every enemy is knocked back from the player; otherwise nothing changes |
| Shooter.Game.PushAllBack | game.py:276-278 | every enemy of the list gets the knockback set_knockback gives it |
| Shooter.Game.Strike | game.py:313-326 | the bullet leaves the list if present; an unexploded explosive explodes first; the target takes the hit; crashed iff the explosion already killed the target; exactly the slain leave the list |
| Shooter.Game.Impact | game.py:316-326 | an unexploded explosive explodes and blasts every enemy; the target then takes the hit damage after armor; crashed iff the blast already killed the target; exactly the slain leave the list |
| Shooter.Game.Detonate | game.py:316-318 | only an unexploded explosive explodes; the slain leave the list |
| Shooter.Game.HitTarget | game.py:320-326 | the target takes 1 point of armour-mitigated damage; crashed iff the explosion already killed it; the list keeps exactly the living |
| Shooter.Game.ResolveBullet | game.py:311-327 | the bullet strikes the first overlapping enemy in list order or nothing; with no hit nothing changes, every health included; with a hit, an unexploded explosive first takes its blast loss from every enemy, then the target alone loses take_damage(1) after armour; the bullet leaves the list; exactly the slain leave the enemy list |
| Shooter.Game.CheckBulletEnemyCollisions | game.py:309-327 | the enemy list loses exactly its slain enemies and the bullet list exactly the bullets that struck; no health rises; only an explosive bullet can crash the pass |
| Shooter.Game.BulletPass | game.py:309-327 | after the bullet pass the enemies and bullets are ones from before, and only an explosive bullet can crash it |
| Shooter.Game.CheckPlayerCoinCollisions | game.py:329-338 | XP rises by exactly the number of overlapping coins; exactly those are removed and the rest keep their order |
| Shooter.Game.CollectCoins | game.py:330-334 | the first loop collects the overlapping coins in order, giving one XP each |
| Shooter.Game.DropCoins | game.py:336-338 | the second loop removes exactly the collected coins |
| Shooter.Game.SpawnEnemies | game.py:211-262 | the timer follows SpawnTick, and a spawn appends exactly one fresh full-health enemy of the drawn tier at SpawnPoint |
| Shooter.Game.CheckForLevelUp | game.py:44-57 | the level and menu flag follow LevelCheck; a newly opened menu offers three distinct catalogue upgrades; below the threshold nothing changes |
| Shooter.Game.ApplyUpgrade | game.py:350-362 | the player's loadout becomes Upgraded of the old loadout, and the player stays valid |
| Shooter.Game.HandleEvent | game.py:94-120 | performs Dispatch's action: only Quit or Escape at game over stops; only a valid choice closes the menu and applies that option; only R at game over resets; every other action keeps the loadout; quitting, choosing and ignoring leave the bullets, the special list and the shot timer alone; a click is a Shot toward the mouse; Space with no enemy changes nothing and otherwise is a Shot toward the earliest nearest enemy |
| Shooter.Game.Shoot | game.py:112-120 | a click is a Shot toward the mouse; Space with no enemy changes nothing, otherwise a Shot toward the earliest nearest enemy; old bullets stay in front |
| Shooter.Game.Act | game.py:95-111 | Quit or Escape stops; a choice applies its upgrade and closes the menu; R resets; the loadout changes only by a choice or a reset |
| Shooter.Game.PickUpgrade | game.py:100-105 | the chosen offered upgrade is applied to the loadout and the menu closes |
| Shooter.Game.ShootAtNearest | game.py:114-117 | with no enemies nothing changes; otherwise the player makes the Shot toward the enemy Targeting.Nearest picks from the player's position (the earliest nearest) |
| Shooter.Game.Fire | player.py:154-158 | a shot toward a point is exactly the Shot of Player.ShootTowardPosition; the game stays valid and only new bullets are appended |
| Shooter.Game.HandleEvents | game.py:94-120 | over a frame's events: a Quit stops the game; no event ends the game or opens the menu; the menu stays open unless some event is a 1-3 key of an offered upgrade, and the game stays over unless some event is R; while the menu is open or the game over at the end, the player, enemies, coins and spawn timer are those from before; bullets and enemies come from before or are new |
| Shooter.Game.HandleOne | game.py:95-120 | one event: a Quit stops the game; no event ends the game or opens the menu; only a key that picks an offered upgrade closes the menu, and only R ends the game-over screen; with the menu open or the game over afterwards, player, enemies, coins and spawn timer are unchanged |
| Shooter.Game.Update | game.py:122-138 | a tick ends the game iff health is 0; a game-over tick or a crash leaves the spawn timer and level alone and adds no enemy; otherwise the timer follows SpawnTick and the level and menu follow LevelCheck; the only enemy a tick can add is the last of the list, of the drawn tier, on a spawning tick; XP never drops; a crash comes only from an explosive bullet |
| Shooter.Game.Advance | game.py:123-129 | the player is at Arena.Move of the keys, the shot timer counts up below the cooldown, the enemy list is unchanged, the player loses the contact damage iff some enemy touches; the game stays valid and bullets are only removed |
| Shooter.Game.AdvancePlayer | game.py:123-124 | the player is at Arena.Move of the keys, the shot timer counts up below the cooldown, bullets are only removed |
| Shooter.Game.Settle | game.py:131-138 | after coins, the game is over iff health is 0, and then the timer, the enemy list and the level are untouched; otherwise the timer follows SpawnTick, a spawning tick appends exactly one fresh enemy of the drawn tier, and the level and menu follow LevelCheck |
| Shooter.Game.Frame | game.py:81-90 | update runs (ticked) whenever the frame starts in play, and never when it starts in the menu with no picking key or at game over with no R; a frame without update crashes nothing and leaves the player, its position, XP and level, the enemies with their positions and health, coins and spawn timer as they were; a stopped game stays stopped |
| Shooter.Game.Run | game.py:80-92 | frames are played while running and not crashed; stopping early means a quit or a crash; a stopped game plays nothing |

## Left out

- Rendering and assets: `draw`, `draw_upgrade_menu`, `draw_game_over_screen`,
  `create_random_background`, `animate`, the animation timers and frame indices, the sprite resize in
  `Enemy.update`, `rect.center` updates, and all of `app.py` except its numeric constants. These are
  pygame surface calls with no effect on the rules.
- `coin.py`: its gravity, friction, bounce and animation are float physics and image handling. A coin
  is only a position, and the player-coin overlap is the `pickup` predicate.
- Float geometry: `math.sqrt`, `atan2`, `cos`, `sin`, `radians` and `Rect.colliderect` are caller-supplied
  functions (`Normalizer`, `Aim`, `Polar`, and the overlap predicates). Enemy and bullet coordinates are
  exact `real`s, not IEEE doubles. The explosion radius test compares squared distances, which is
  exact for reals.
- Randomness: `random.choices`, `random.choice`, `random.randint` and `random.sample` are parameters.
  These are the tier, side and offset of a spawn, and the draws of the upgrade sample. The
  probabilities of the enemy-type draw (50/30/15/5) are not modelled.
- The asset selection of `spawn_enemies` (game.py:227-238, 255-256) is not modelled. Its keys do not
  match the loaded assets, and the constructor's sprite lookup is not part of this model.
- Input and timing: `pygame.event.get`, `pygame.key.get_pressed`, `Clock.tick`, display setup and
  `pygame.quit`. The keys are four booleans, and events are the `Input.Event` type.
- Shooter.Game.Run: the endless `while self.running` loop is modelled over a finite list of frames. An
  exception that ends the Python program is the `crashed` result, which stops the run.
- Shooter.Game.Fire: `shoot_toward_mouse` and `shoot_toward_enemy` are folded into it. The mouse
  position and the enemy's position are passed as the target point.
- Progression.PickRandomUpgrades: requires `num <= 5`, since `random.sample` raises for a larger sample.
  The game only asks for 3. The draws stand for the random choices, and their distribution is not
  modelled.
- Shooter.Game.ApplyUpgrade: requires that the game is not over. It is only reached from the level-up
  menu, which never shows over the game-over screen.
- Shooter.Player.HandleInput: requires the player invariant, which the game keeps between ticks.
- Shooter.Game.Update: its contract states the flags, level, XP, spawn timer and list membership
  after a tick. The per-entity effects (movement, bullet flight, knockback, damage) are stated by the
  members it calls, not repeated in its own contract.
- Shooter.Game.Advance: does not restate how each bullet and enemy moves or how the enemies are
  knocked back. Those are the contracts of `Player.Update`, `Game.MoveEnemies` and
  `Game.CheckPlayerEnemyCollisions`, which it calls in order.
- Shooter.Game.HandleEvents: states what a whole frame's events can and cannot do. The effect of
  each event is stated by `Game.HandleEvent`.
- Shooter.Game.Frame: states the gating and what a frame without update leaves unchanged. What a
  frame with update does is stated by `Game.Update`, and what its events do by `Game.HandleEvents`.
- Shooter.Game.HandleOne: states what one event can and cannot do to the flags and lists, which the
  event loop needs. The exact effect of each event is the contract of `Game.HandleEvent`.
- Shooter.Game.CheckBulletEnemyCollisions: does not pair each bullet with the enemy it struck across
  the whole pass. That pairing is stated per bullet by `Game.ResolveBullet`.

## Findings

| source | as written | input that shows it | evidently intended | confidence | as-written member | corrected member |
|---|---|---|---|---|---|---|
| game.py:225 | the weighted draw of an enemy class is unpacked into two names, but `random.choices(...)[0]` is a single class, so the unpacking raises TypeError | the 60th call of `spawn_enemies` from a fresh game, when the timer first reaches the interval | every 60 ticks, one enemy of a randomly drawn tier spawns just outside the arena | not executed; high | Schedule.SixtiethCallRaises | Shooter.Game.SpawnEnemies |
