/** What the core receives from the input layer: the four arrow keys and discrete events. */
module Input {

  datatype Option<T> = None | Some(value: T)

  /** The arrow keys held down during one tick (`pygame.key.get_pressed`). */
  datatype Keys = Keys(left: bool, right: bool, up: bool, down: bool)

  /** Keys that produce a KEYDOWN event; `Digit(n)` is the key `K_n`. */
  datatype Key = Digit(n: int) | KeyR | KeyEscape | KeySpace | OtherKey

  /** The events the game reacts to; mouse positions are screen pixels. */
  datatype Event =
    | Quit
    | KeyDown(key: Key)
    | MouseDown(button: int, mx: int, my: int)
    | OtherEvent

  /** The upgrade index a key selects in the level-up menu holding `count` options:
      only K_1, K_2 and K_3 are looked at, and an index past the end is ignored. */
  function MenuIndex(key: Key, count: int): (r: Option<nat>)
    ensures r.Some? <==> key.Digit? && 1 <= key.n <= 3 && key.n - 1 < count
    ensures r.Some? ==> r.value < count && r.value <= 2 && r.value == key.n - 1
  {
    if key.Digit? && key.n in {1, 2, 3} then
      var index := key.n - 1;
      if 0 <= index < count then Some(index) else None
    else None
  }

  /** A key press that selects one of `count` offered upgrades in the level-up menu. */
  predicate Picks(ev: Event, count: int)
  {
    ev.KeyDown? && MenuIndex(ev.key, count).Some?
  }

  /** What Game.handle_events does with one event. */
  datatype Action =
    | Stop                  // leave the main loop
    | Choose(index: nat)    // apply the index-th offered upgrade and close the menu
    | Restart               // reset_game
    | ShootNearest          // shoot toward the nearest enemy, if any
    | ShootAt(x: int, y: int)  // shoot toward the mouse position
    | Ignore

  /** Game.handle_events for one event: Quit always stops; in the level-up menu only the
      keys 1-3 of an offered upgrade do anything; at the game-over screen R restarts and
      Escape stops; during play Space shoots at the nearest enemy; a left click shoots at the
      mouse whether or not the game is over. */
  function Dispatch(ev: Event, inMenu: bool, gameOver: bool, count: int): (a: Action)
    ensures a == Stop <==> ev == Quit || (!inMenu && gameOver && ev == KeyDown(KeyEscape))
    ensures a.Choose? <==> inMenu && Picks(ev, count)
    ensures a.Choose? ==> a.index < count && Some(a.index) == MenuIndex(ev.key, count)
    ensures a == Restart <==> !inMenu && gameOver && ev == KeyDown(KeyR)
    ensures a == ShootNearest <==> !inMenu && !gameOver && ev == KeyDown(KeySpace)
    ensures a.ShootAt? <==> !inMenu && ev.MouseDown? && ev.button == 1
    ensures a.ShootAt? ==> a.x == ev.mx && a.y == ev.my
  {
    if ev == Quit then Stop
    else if inMenu then
      if ev.KeyDown? && MenuIndex(ev.key, count).Some? then Choose(MenuIndex(ev.key, count).value) else Ignore
    else match ev
      case KeyDown(key) =>
        if gameOver then
          if key == KeyR then Restart else if key == KeyEscape then Stop else Ignore
        else if key == KeySpace then ShootNearest
        else Ignore
      case MouseDown(button, mx, my) => if button == 1 then ShootAt(mx, my) else Ignore
      case _ => Ignore
  }
}
