/**
 * The pair of range buttons that step a value down (left button) or up
 * (right button) while the left mouse button is held on them, at most once
 * every 125 ticks.
 *
 * The last-click tick, kept in a `static` variable by the client, is part of
 * the state here; the mouse state, the mouse position, the textures' sizes
 * and the tick counter are parameters.
 */
module RangeButtons {
  import opened CInt

  /** `SDL_BUTTON(1)`: the mouse-state mask with only the left button held. */
  const LeftMask: int := 1
  /** Ticks that must pass between two steps. */
  const Debounce: int := 125

  /** The value being adjusted and the tick of the last step (0 before the first). */
  datatype State = State(val: int, ticks: Uint32)

  /** Where the buttons are drawn and how large their textures are. */
  datatype Layout = Layout(x: int, y: int, offH: int, leftW: int, rightW: int)

  /** The mouse: its button mask and position. */
  datatype Mouse = Mouse(state: int, mx: int, my: int)

  /** The pointer is strictly inside the buttons' rows, and only the left button is held. */
  predicate Held(l: Layout, m: Mouse) {
    m.my > l.y && m.my < l.y + l.offH && m.state == LeftMask
  }

  /** A step is allowed: there has been no step yet, or more than 125 ticks have passed since the last. */
  predicate Ready(s: State, now: Uint32) {
    s.ticks == 0 || Sub32(now, s.ticks) > Debounce
  }

  /** The pointer is strictly inside the left button, both vertical edges excluded. */
  predicate OnLeft(l: Layout, m: Mouse) {
    m.mx > l.x && m.mx < l.x + l.leftW
  }

  /** The pointer is strictly inside the right button, both vertical edges excluded. */
  predicate OnRight(l: Layout, m: Mouse) {
    m.mx > l.x + l.leftW && m.mx < l.x + l.leftW + l.rightW
  }

  /**
   * `range_buttons_show` at tick `now`: the new state and the return value.
   * A held click on the left button lowers the value by `advance`, one on
   * the right button raises it; either records the tick and returns 1.
   * Otherwise nothing changes and 0 is returned.
   */
  function Show(s: State, l: Layout, m: Mouse, advance: int, now: Uint32): (r: (State, int))
    ensures r.1 == 1 <==> Held(l, m) && Ready(s, now) && (OnLeft(l, m) || OnRight(l, m))
    ensures r.1 == 0 || r.1 == 1
    ensures r.1 == 0 ==> r.0 == s
    ensures r.1 == 1 ==> r.0.ticks == now
    ensures r.1 == 1 && OnLeft(l, m) ==> r.0.val == s.val - advance
    ensures r.1 == 1 && !OnLeft(l, m) ==> r.0.val == s.val + advance
  {
    if Held(l, m) && Ready(s, now) then
      if OnLeft(l, m) then (State(s.val - advance, now), 1)
      else if OnRight(l, m) then (State(s.val + advance, now), 1)
      else (s, 0)
    else (s, 0)
  }

  /** The two buttons never overlap: no position is strictly inside both. */
  lemma ButtonsDisjoint(l: Layout, m: Mouse)
    ensures !(OnLeft(l, m) && OnRight(l, m))
  {
  }

  /**
   * The boundary pixels do nothing: the left edge, the seam between the
   * buttons, the right edge, and the top and bottom rows.
   */
  lemma EdgesDoNothing(s: State, l: Layout, m: Mouse, advance: int, now: Uint32)
    requires l.leftW >= 0 && l.rightW >= 0
    requires m.mx == l.x || m.mx == l.x + l.leftW || m.mx == l.x + l.leftW + l.rightW
             || m.my == l.y || m.my == l.y + l.offH
    ensures Show(s, l, m, advance, now) == (s, 0)
  {
  }

  /**
   * After a step at tick `t` (other than tick 0), nothing happens for the
   * next 125 ticks, however the mouse is held.
   */
  lemma DebounceHolds(s: State, l: Layout, m: Mouse, advance: int, t: Uint32, m2: Mouse, now: Uint32)
    requires Show(s, l, m, advance, t).1 == 1
    requires t != 0 && Sub32(now, t) <= Debounce
    ensures Show(Show(s, l, m, advance, t).0, l, m2, advance, now) == (Show(s, l, m, advance, t).0, 0)
  {
  }

  /**
   * A step taken at tick 0 is recorded as 0, which reads as "no step yet":
   * the next frame may step again at once.
   */
  lemma StepAtTickZeroIsForgotten(s: State, l: Layout, m: Mouse, advance: int)
    requires Show(s, l, m, advance, 0).1 == 1
    ensures Show(Show(s, l, m, advance, 0).0, l, m, advance, 0).1 == 1
  {
  }

  /** A step down followed, after the debounce, by a step up restores the value. */
  lemma DownThenUp(s: State, l: Layout, left: Mouse, right: Mouse, advance: int, t1: Uint32, t2: Uint32)
    requires Held(l, left) && OnLeft(l, left) && Held(l, right) && OnRight(l, right)
    requires Ready(s, t1) && Sub32(t2, t1) > Debounce
    ensures var s1 := Show(s, l, left, advance, t1).0;
            Show(s1, l, right, advance, t2).0 == State(s.val, t2)
  {
  }
}
