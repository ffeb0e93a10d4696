/**
 * The toolkit button: which texture it shows, the half-open hit test
 * against that texture (in the parent's coordinates), how mouse events move
 * it between idle, hovered and pressed, how it forgets hover and press when
 * the pointer leaves, and the auto-repeat of a held button.
 *
 * Textures are reduced to their sizes, the tick counter and the mouse state
 * are parameters, and the repeat callback is reduced to whether one is set
 * and whether it fired.
 */
module Button {
  import opened CInt
  import opened Maybe

  /** `SDL_BUTTON_LEFT`; also the mouse-state mask with only the left button held. */
  const LeftButton: int := 1
  /** Ticks a click must be held before the first repeat. */
  const FirstRepeatTicks: int := 750
  /** Ticks between later repeats. */
  const RepeatTicks: int := 150

  /** The size of a texture. */
  datatype Size = Size(w: int, h: int)

  datatype Button = Button(
    x: int, y: int,
    /** The parent's offset, subtracted from mouse positions. */
    px: int, py: int,
    texture: Size,
    textureOver: Option<Size>,
    texturePressed: Option<Size>,
    mouseOver: bool,
    pressed: bool,
    pressedForced: bool,
    disabled: bool,
    pressedTicks: Uint32,
    hoverTicks: Uint32,
    pressedRepeatTicks: Uint32,
    hasRepeatFunc: bool,
    redraw: bool)

  /**
   * `button_create`: at the origin, with no parent offset, the given
   * textures, and neither hovered, pressed, forced nor disabled.
   */
  function Create(texture: Size, over: Option<Size>, pressed: Option<Size>): (b: Button)
    ensures b.texture == texture && b.textureOver == over && b.texturePressed == pressed
    ensures b.x == 0 && b.y == 0 && b.px == 0 && b.py == 0
    ensures !b.mouseOver && !b.pressed && !b.pressedForced && !b.disabled && !b.hasRepeatFunc && !b.redraw
    ensures b.pressedTicks == 0 && b.hoverTicks == 0 && b.pressedRepeatTicks == 0
  {
    Button(0, 0, 0, 0, texture, over, pressed, false, false, false, false, 0, 0, 0, false, false)
  }

  // ---------------------------------------------------------------------
  // Texture and hit test
  // ---------------------------------------------------------------------

  datatype TextureKind = NormalTexture | OverTexture | PressedTexture

  /**
   * `button_determine_texture`: the pressed texture while pressed, if there
   * is one; otherwise the hover texture while hovered, if there is one;
   * otherwise the normal texture.
   */
  function DetermineTexture(b: Button): (k: TextureKind)
    ensures k == PressedTexture <==> b.pressed && b.texturePressed.Some?
    ensures k == OverTexture <==> !(b.pressed && b.texturePressed.Some?) && b.mouseOver && b.textureOver.Some?
  {
    if b.pressed && b.texturePressed.Some? then PressedTexture
    else if b.mouseOver && b.textureOver.Some? then OverTexture
    else NormalTexture
  }

  /** The size of the texture of kind `k`; only ever asked for one that exists. */
  function TextureSize(b: Button, k: TextureKind): Size
    requires k == OverTexture ==> b.textureOver.Some?
    requires k == PressedTexture ==> b.texturePressed.Some?
  {
    match k
    case NormalTexture => b.texture
    case OverTexture => b.textureOver.value
    case PressedTexture => b.texturePressed.value
  }

  /** The size of the texture the button is drawn with. */
  function ShownSize(b: Button): Size {
    TextureSize(b, DetermineTexture(b))
  }

  /** Pressing outranks hovering, and a missing texture falls back to the next one. */
  lemma TexturePriority(b: Button)
    ensures b.pressed && b.texturePressed.Some? ==> ShownSize(b) == b.texturePressed.value
    ensures !b.pressed && b.mouseOver && b.textureOver.Some? ==> ShownSize(b) == b.textureOver.value
    ensures !b.mouseOver && !b.pressed ==> ShownSize(b) == b.texture
    ensures b.texturePressed.None? && b.textureOver.None? ==> ShownSize(b) == b.texture
  {
  }

  /**
   * `BUTTON_MOUSE_OVER`: the mouse position, less the parent offset, lies in
   * the texture's rectangle, left and top edges included, right and bottom
   * edges excluded.
   */
  predicate MouseOver(b: Button, mx: int, my: int, t: Size) {
    mx - b.px >= b.x && mx - b.px < b.x + t.w && my - b.py >= b.y && my - b.py < b.y + t.h
  }

  /**
   * The hit test covers exactly the `w` by `h` pixels starting at the
   * button's corner in window coordinates, `(px + x, py + y)`.
   */
  lemma MouseOverRectangle(b: Button, t: Size, mx: int, my: int)
    ensures MouseOver(b, mx, my, t) <==>
              b.px + b.x <= mx < b.px + b.x + t.w && b.py + b.y <= my < b.py + b.y + t.h
    ensures MouseOver(b, b.px + b.x, b.py + b.y, t) <==> t.w > 0 && t.h > 0
    ensures !MouseOver(b, b.px + b.x + t.w, my, t) && !MouseOver(b, mx, b.py + b.y + t.h, t)
  {
  }

  /** `BUTTON_CHECK_TOOLTIP`: hovered and not pressed. */
  predicate CheckTooltip(b: Button) {
    b.mouseOver && !b.pressed
  }

  // ---------------------------------------------------------------------
  // Events
  // ---------------------------------------------------------------------

  datatype Event =
    | MouseDown(button: int, x: int, y: int)
    | MouseUp(x: int, y: int)
    | MouseMotion(x: int, y: int)
    | OtherEvent

  predicate IsMouse(ev: Event) {
    !ev.OtherEvent?
  }

  /**
   * Whether a click or motion event lands on the button. The texture is
   * chosen after the hover flag has been cleared, so the test uses the
   * pressed texture while pressed (if there is one) and otherwise the
   * normal one, never the hover texture.
   */
  predicate Hits(b: Button, ev: Event)
    requires IsMouse(ev)
  {
    MouseOver(b, ev.x, ev.y, ShownSize(b.(mouseOver := false)))
  }

  /** The hover texture plays no part in the hit test of events. */
  lemma HitsIgnoresHoverTexture(b: Button, ev: Event, over: Option<Size>)
    requires IsMouse(ev)
    ensures Hits(b.(textureOver := over), ev) == Hits(b, ev)
    ensures !b.pressed ==> (Hits(b, ev) <==> MouseOver(b, ev.x, ev.y, b.texture))
  {
  }

  /** A click that presses the button: left, inside, on an enabled button. */
  predicate Presses(b: Button, ev: Event) {
    ev.MouseDown? && ev.button == LeftButton && !b.disabled && Hits(b, ev)
  }

  /**
   * `button_event` at tick `now`: the new button and the return value, 1
   * exactly when the event presses the button.
   *
   * Non-mouse events change nothing. A button-up releases the button and
   * asks for a redraw. Any other mouse event first clears the hover flag; a
   * disabled button stops there. A left click inside presses the button,
   * schedules the first repeat and asks for a redraw. Any other event
   * inside hovers the button, restarting the hover clock only if it was
   * not already hovered; a redraw is asked for when the hover flag changed.
   */
  function HandleEvent(b: Button, ev: Event, now: Uint32): (r: (Button, int))
    ensures r.1 == 1 <==> Presses(b, ev)
    ensures r.1 == 0 || r.1 == 1
    ensures !IsMouse(ev) ==> r.0 == b
    ensures ev.MouseUp? ==> r.0 == b.(pressed := false, redraw := true)
    ensures IsMouse(ev) && !ev.MouseUp? && b.disabled ==> r.0 == b.(mouseOver := false)
    ensures Presses(b, ev) ==>
              r.0 == b.(mouseOver := false, pressed := true, pressedTicks := now,
                        pressedRepeatTicks := FirstRepeatTicks, redraw := true)
    ensures IsMouse(ev) && !ev.MouseUp? && !b.disabled && !Presses(b, ev) ==>
              && r.0.mouseOver == Hits(b, ev)
              && r.0.hoverTicks == (if r.0.mouseOver && !b.mouseOver then now else b.hoverTicks)
              && r.0.redraw == (b.redraw || r.0.mouseOver != b.mouseOver)
              && r.0 == b.(mouseOver := r.0.mouseOver, hoverTicks := r.0.hoverTicks, redraw := r.0.redraw)
  {
    if !IsMouse(ev) then (b, 0)
    else if ev.MouseUp? then (b.(pressed := false, redraw := true), 0)
    else
      var wasOver := b.mouseOver;
      var cleared := b.(mouseOver := false);
      if b.disabled then (cleared, 0)
      else if MouseOver(cleared, ev.x, ev.y, ShownSize(cleared)) then
        if ev.MouseDown? && ev.button == LeftButton then
          (cleared.(pressed := true, pressedTicks := now, pressedRepeatTicks := FirstRepeatTicks, redraw := true), 1)
        else
          var hovered := cleared.(mouseOver := true, hoverTicks := if !wasOver then now else b.hoverTicks);
          (hovered.(redraw := hovered.redraw || wasOver != true), 0)
      else
        (cleared.(redraw := cleared.redraw || wasOver != false), 0)
  }

  /**
   * Hovering: the first motion into an enabled, unpressed button starts
   * the hover clock and allows a tooltip; a second motion inside keeps the
   * clock where it was and asks for no new redraw.
   */
  lemma HoverKeepsClock(b: Button, x1: int, y1: int, t1: Uint32, x2: int, y2: int, t2: Uint32)
    requires !b.disabled && !b.mouseOver && !b.pressed
    requires Hits(b, MouseMotion(x1, y1))
    ensures var b1 := HandleEvent(b, MouseMotion(x1, y1), t1).0;
            && b1.hoverTicks == t1 && b1.redraw && CheckTooltip(b1)
            && (Hits(b1, MouseMotion(x2, y2)) ==>
                  var b2 := HandleEvent(b1.(redraw := false), MouseMotion(x2, y2), t2).0;
                  b2.hoverTicks == t1 && !b2.redraw && CheckTooltip(b2))
  {
  }

  /** A press hides the tooltip, and releasing the mouse anywhere releases the button. */
  lemma PressThenRelease(b: Button, ev: Event, now: Uint32, ux: int, uy: int, later: Uint32)
    requires Presses(b, ev)
    ensures var b1 := HandleEvent(b, ev, now).0;
            && b1.pressed && !CheckTooltip(b1)
            && !HandleEvent(b1, MouseUp(ux, uy), later).0.pressed
  {
  }

  // ---------------------------------------------------------------------
  // Redraw check and repeat
  // ---------------------------------------------------------------------

  /**
   * `button_need_redraw` with mouse state `state` at (`mx`, `my`), tested
   * against the normal texture: the hover flag is dropped once the pointer
   * is outside, and an unforced press is dropped once the pointer is
   * outside or the buttons held are not exactly the left one. Returns the
   * new button and whether either flag was dropped.
   */
  function NeedRedraw(b: Button, state: int, mx: int, my: int): (r: (Button, bool))
    ensures var inside := MouseOver(b, mx, my, b.texture);
            && r.0.mouseOver == (b.mouseOver && inside)
            && r.0.pressed == (b.pressed && (b.pressedForced || (inside && state == LeftButton)))
            && r.0 == b.(mouseOver := r.0.mouseOver, pressed := r.0.pressed)
            && (r.1 <==> r.0 != b)
  {
    if b.mouseOver || b.pressed then
      var mover := MouseOver(b, mx, my, b.texture);
      var b1 := if b.mouseOver && !mover then b.(mouseOver := false) else b;
      var dropPress := b.pressed && !b.pressedForced && (!mover || state != LeftButton);
      var b2 := if dropPress then b1.(pressed := false) else b1;
      (b2, (b.mouseOver && !mover) || dropPress)
    else
      (b, false)
  }

  /**
   * A new button is idle: it shows its normal texture, offers no tooltip,
   * and needs no redraw wherever the mouse is and whatever its buttons are.
   */
  lemma CreateIsIdle(texture: Size, over: Option<Size>, pressed: Option<Size>, state: int, mx: int, my: int)
    ensures var b := Create(texture, over, pressed);
            && DetermineTexture(b) == NormalTexture && ShownSize(b) == texture
            && !CheckTooltip(b)
            && NeedRedraw(b, state, mx, my) == (b, false)
  {
  }

  /**
   * The state part of `button_show` at tick `now`: the redraw check, a
   * forced press, and the repeat: while pressed, once more than the
   * scheduled ticks have passed since the last press or repeat, the repeat
   * callback fires, the clock restarts and later repeats come every 150
   * ticks. Returns the new button and whether the callback fired. The
   * redraw flag is cleared.
   */
  function Show(b: Button, state: int, mx: int, my: int, now: Uint32): (r: (Button, bool))
    ensures var c := NeedRedraw(b, state, mx, my).0;
            var pressed := c.pressed || b.pressedForced;
            && (r.1 <==> b.hasRepeatFunc && pressed && Sub32(now, b.pressedTicks) > b.pressedRepeatTicks)
            && r.0.pressed == pressed && r.0.mouseOver == c.mouseOver && !r.0.redraw
            && (r.1 ==> r.0.pressedTicks == now && r.0.pressedRepeatTicks == RepeatTicks)
            && (!r.1 ==> r.0.pressedTicks == b.pressedTicks && r.0.pressedRepeatTicks == b.pressedRepeatTicks)
    ensures r.0 == b.(mouseOver := r.0.mouseOver, pressed := r.0.pressed, pressedTicks := r.0.pressedTicks,
                      pressedRepeatTicks := r.0.pressedRepeatTicks, redraw := false)
  {
    var c := NeedRedraw(b, state, mx, my).0;
    var c1 := if c.pressedForced then c.(pressed := true) else c;
    var fire := c1.hasRepeatFunc && c1.pressed && Sub32(now, c1.pressedTicks) > c1.pressedRepeatTicks;
    var c2 := if fire then c1.(pressedTicks := now, pressedRepeatTicks := RepeatTicks) else c1;
    (c2.(redraw := false), fire)
  }

  /**
   * The repeat schedule: after a click at `t0` on a button with a repeat
   * callback, held down with the pointer inside, the callback first fires
   * once more than 750 ticks have passed; after firing at `t1` it fires
   * again once more than 150 further ticks have passed.
   */
  lemma RepeatSchedule(b: Button, ev: Event, t0: Uint32, now: Uint32, t1: Uint32)
    requires Presses(b, ev) && b.hasRepeatFunc
    requires MouseOver(b, ev.x, ev.y, b.texture)
    ensures var b1 := HandleEvent(b, ev, t0).0;
            var s := Show(b1, LeftButton, ev.x, ev.y, now);
            && (s.1 <==> Sub32(now, t0) > FirstRepeatTicks)
            && (s.1 ==> (Show(s.0, LeftButton, ev.x, ev.y, t1).1 <==> Sub32(t1, now) > RepeatTicks))
  {
  }

  /** Letting go of the left button, or leaving the button, ends an unforced press without a repeat. */
  lemma ReleaseStopsRepeat(b: Button, state: int, mx: int, my: int, now: Uint32)
    requires b.pressed && !b.pressedForced
    requires state != LeftButton || !MouseOver(b, mx, my, b.texture)
    ensures !Show(b, state, mx, my, now).1 && !Show(b, state, mx, my, now).0.pressed
  {
  }
}
