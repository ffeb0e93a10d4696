/**
 * Keyboard and drag bookkeeping of the input loop: the per-scancode key
 * table updated on key down and key up, the auto-repeat pass run after the
 * events of a frame, the drag threshold and drag redraw tracking, and the
 * synthetic key press.
 *
 * Mouse positions are given already mapped to the logical render size;
 * `LastTick` and the modifier state are parameters.
 */
module Event {
  import opened CInt

  /** `SDL_NUM_SCANCODES`: the size of the key table. */
  const NumScancodes: nat := 512
  /** `SDL_SCANCODE_NUMLOCKCLEAR`: the first scancode treated as a modifier. */
  const NumLockClear: nat := 83
  /** `KEY_REPEAT_TIME`: how quickly a held key repeats. */
  const KeyRepeatTime: nat := 35
  /** `KEY_REPEAT_TIME_INIT`: ticks before a held key starts repeating. */
  const KeyRepeatTimeInit: nat := 175

  /** `KEY_IS_MODIFIER`. */
  predicate IsModifier(key: nat) {
    key >= NumLockClear
  }

  /** One entry of the key table. */
  datatype KeyState = KeyState(pressed: bool, time: Uint32, repeated: bool)

  predicate ValidKeys(keys: seq<KeyState>) {
    |keys| == NumScancodes
  }

  // ---------------------------------------------------------------------
  // Key down and key up
  // ---------------------------------------------------------------------

  /**
   * A key-down event: a key that was up becomes pressed, not repeated, with
   * its repeat time `KEY_REPEAT_TIME_INIT` ticks ahead; a key already held
   * keeps its entry, and scancodes outside the table are ignored.
   */
  function KeyDown(keys: seq<KeyState>, scancode: nat, lastTick: Uint32): (r: seq<KeyState>)
    requires ValidKeys(keys)
    ensures ValidKeys(r)
    ensures forall k :: 0 <= k < NumScancodes && k != scancode ==> r[k] == keys[k]
    ensures scancode < NumScancodes ==> r[scancode].pressed
    ensures scancode < NumScancodes && !keys[scancode].pressed ==>
              !r[scancode].repeated && Sub32(r[scancode].time, lastTick) == KeyRepeatTimeInit
    ensures scancode >= NumScancodes || keys[scancode].pressed ==> r == keys
  {
    if scancode < NumScancodes && !keys[scancode].pressed then
      keys[scancode := KeyState(true, Add32(lastTick, KeyRepeatTimeInit), false)]
    else
      keys
  }

  /** A key-up event releases the key and touches nothing else. */
  function KeyUp(keys: seq<KeyState>, scancode: nat): (r: seq<KeyState>)
    requires ValidKeys(keys)
    ensures ValidKeys(r)
    ensures forall k :: 0 <= k < NumScancodes && k != scancode ==> r[k] == keys[k]
    ensures scancode < NumScancodes ==>
              !r[scancode].pressed && r[scancode].time == keys[scancode].time
              && r[scancode].repeated == keys[scancode].repeated
    ensures scancode >= NumScancodes ==> r == keys
  {
    if scancode < NumScancodes then keys[scancode := keys[scancode].(pressed := false)] else keys
  }

  /** Holding a key down: further key-down events for it change nothing. */
  lemma KeyDownWhileHeld(keys: seq<KeyState>, scancode: nat, t1: Uint32, t2: Uint32)
    requires ValidKeys(keys)
    ensures KeyDown(KeyDown(keys, scancode, t1), scancode, t2) == KeyDown(keys, scancode, t1)
  {
  }

  /** Releasing a key and pressing it again restarts its repeat delay from the new tick. */
  lemma KeyUpDownRestarts(keys: seq<KeyState>, scancode: nat, t: Uint32)
    requires ValidKeys(keys) && scancode < NumScancodes
    ensures KeyDown(KeyUp(keys, scancode), scancode, t)[scancode]
            == KeyState(true, Add32(t, KeyRepeatTimeInit), false)
  {
  }

  // ---------------------------------------------------------------------
  // Auto-repeat
  // ---------------------------------------------------------------------

  /** The repeat test, with the `uint32_t` sum `time + KEY_REPEAT_TIME - 5`. */
  predicate Due(key: KeyState, lastTick: Uint32) {
    key.pressed && Add32(key.time, KeyRepeatTime - 5) < lastTick
  }

  /** Whether the repeat pass fires scancode `k`. */
  predicate Fires(keys: seq<KeyState>, k: nat, lastTick: Uint32)
    requires ValidKeys(keys)
  {
    k < NumScancodes && !IsModifier(k) && Due(keys[k], lastTick)
  }

  /** The entry of a key that has just repeated. */
  function Repeated(lastTick: Uint32): KeyState {
    KeyState(true, Add32(lastTick, KeyRepeatTime - 5), true)
  }

  /**
   * The auto-repeat pass over the whole key table. Every pressed
   * non-modifier key whose repeat time has passed is marked repeated with
   * its next repeat time set from `lastTick`, and one key-down is pushed
   * for it (`pushed` lists the scancodes, in table order; each carries the
   * current modifier state). Every other entry is left as it was.
   */
  method AutoRepeat(keys: seq<KeyState>, lastTick: Uint32) returns (r: seq<KeyState>, pushed: seq<nat>)
    requires ValidKeys(keys)
    ensures ValidKeys(r)
    ensures forall k :: 0 <= k < NumScancodes ==>
              r[k] == if Fires(keys, k, lastTick) then Repeated(lastTick) else keys[k]
    ensures forall k: nat :: k in pushed <==> Fires(keys, k, lastTick)
    ensures forall i, j :: 0 <= i < j < |pushed| ==> pushed[i] < pushed[j]
  {
    r := keys;
    pushed := [];
    var key: nat := 0;
    while key < NumScancodes
      invariant key <= NumScancodes
      invariant ValidKeys(r)
      invariant forall k :: 0 <= k < NumScancodes ==>
                  r[k] == if k < key && Fires(keys, k, lastTick) then Repeated(lastTick) else keys[k]
      invariant forall k: nat :: k in pushed <==> k < key && Fires(keys, k, lastTick)
      invariant forall i, j :: 0 <= i < j < |pushed| ==> pushed[i] < pushed[j]
      invariant forall i :: 0 <= i < |pushed| ==> pushed[i] < key
    {
      if IsModifier(key) {
        key := key + 1;
        continue;
      }
      if r[key].pressed && Add32(r[key].time, KeyRepeatTime - 5) < lastTick {
        r := r[key := Repeated(lastTick)];
        pushed := pushed + [key];
      }
      key := key + 1;
    }
  }

  /**
   * A freshly pressed key first repeats once more than 205 ticks have
   * passed: the initial delay plus the repeat test's own margin (assuming
   * the tick counter does not wrap in between).
   */
  lemma FirstRepeatDelay(keys: seq<KeyState>, scancode: nat, pressedAt: Uint32, now: Uint32)
    requires ValidKeys(keys) && scancode < NumLockClear && !keys[scancode].pressed
    requires pressedAt + KeyRepeatTimeInit + KeyRepeatTime - 5 < Two32
    ensures Fires(KeyDown(keys, scancode, pressedAt), scancode, now)
            <==> now > pressedAt + KeyRepeatTimeInit + KeyRepeatTime - 5
  {
    var k := KeyDown(keys, scancode, pressedAt)[scancode];
    assert k.time == pressedAt + KeyRepeatTimeInit;
  }

  /**
   * After repeating, a key is not due again within the same tick, nor until
   * more than 60 ticks have passed, as long as the counter does not wrap.
   */
  lemma RepeatInterval(lastTick: Uint32, now: Uint32)
    requires lastTick + 2 * (KeyRepeatTime - 5) < Two32
    ensures Due(Repeated(lastTick), now) <==> now > lastTick + 2 * (KeyRepeatTime - 5)
  {
  }

  /**
   * Within 60 ticks of the counter wrapping, the repeat time wraps to a
   * small value and a held key is due again on the very same tick.
   */
  lemma RepeatEveryFrameNearWrap(lastTick: Uint32)
    requires lastTick >= Two32 - 2 * (KeyRepeatTime - 5)
    ensures Due(Repeated(lastTick), lastTick)
  {
  }

  // ---------------------------------------------------------------------
  // Dragging
  // ---------------------------------------------------------------------

  /**
   * The drag state: the dragged object's tag (0 when nothing is dragged),
   * where the drag started, the position last seen by the redraw check, and
   * whether a drop callback is installed.
   */
  datatype Drag = Drag(tag: int, startX: int, startY: int, oldX: int, oldY: int, callback: bool)

  /** `event_dragging_check`: a drag is in progress and the pointer has moved at least 3 pixels along some axis. */
  predicate DraggingCheck(d: Drag, mx: int, my: int) {
    d.tag != 0 && !(Abs(d.startX - mx) < 3 && Abs(d.startY - my) < 3)
  }

  /** `event_dragging_start`: remember the tag and start, forget the last position and the callback. */
  function DraggingStart(d: Drag, tag: int, mx: int, my: int): (r: Drag)
    ensures r.tag == tag && r.startX == mx && r.startY == my
    ensures r.oldX == -1 && r.oldY == -1 && !r.callback
  {
    Drag(tag, mx, my, -1, -1, false)
  }

  /** `event_dragging_stop`: the drag ends; nothing else about it is forgotten. */
  function DraggingStop(d: Drag): (r: Drag)
    ensures r.tag == 0 && r.startX == d.startX && r.startY == d.startY
    ensures r == d.(tag := 0)
  {
    d.(tag := 0)
  }

  /** The drag threshold: a started drag counts only once the pointer leaves the 5 by 5 square around its start. */
  lemma DragThreshold(d: Drag, tag: int, sx: int, sy: int, mx: int, my: int)
    ensures DraggingCheck(DraggingStart(d, tag, sx, sy), mx, my)
            <==> tag != 0 && (mx <= sx - 3 || mx >= sx + 3 || my <= sy - 3 || my >= sy + 3)
    ensures !DraggingCheck(DraggingStop(d), mx, my)
  {
  }

  /**
   * `event_dragging_need_redraw`: while a drag counts, report whether the
   * pointer moved since the last call, recording the new position when it
   * did. Returns the answer and the new state.
   */
  function DraggingNeedRedraw(d: Drag, mx: int, my: int): (r: (bool, Drag))
    ensures r.0 <==> DraggingCheck(d, mx, my) && (mx != d.oldX || my != d.oldY)
    ensures r.0 ==> r.1 == d.(oldX := mx, oldY := my)
    ensures !r.0 ==> r.1 == d
  {
    if !DraggingCheck(d, mx, my) then (false, d)
    else if mx != d.oldX || my != d.oldY then (true, d.(oldX := mx, oldY := my))
    else (false, d)
  }

  /**
   * Asking twice with the pointer in the same place redraws at most once;
   * and the first ask after a drag starts redraws as soon as the drag counts.
   */
  lemma NeedRedrawOnce(d: Drag, mx: int, my: int, tag: int, sx: int, sy: int)
    ensures !DraggingNeedRedraw(DraggingNeedRedraw(d, mx, my).1, mx, my).0
    ensures (mx, my) != (-1, -1) ==>
              DraggingNeedRedraw(DraggingStart(d, tag, sx, sy), mx, my).0
              == DraggingCheck(DraggingStart(d, tag, sx, sy), mx, my)
  {
  }

  // ---------------------------------------------------------------------
  // Synthetic key presses
  // ---------------------------------------------------------------------

  /** A pushed keyboard event: key down or up, the key and the modifier state. */
  datatype KeyEvent = KeyEvent(down: bool, key: int, mod: int)

  /** `event_push_key_once`: a key-down followed by a key-up of the same key and modifiers. */
  function PushKeyOnce(key: int, mod: int): (evs: seq<KeyEvent>)
    ensures |evs| == 2 && evs[0].down && !evs[1].down
    ensures forall i :: 0 <= i < |evs| ==> evs[i].key == key && evs[i].mod == mod
  {
    [KeyEvent(true, key, mod), KeyEvent(false, key, mod)]
  }

  /**
   * The pushed events passing through the event loop's key table.
   * `event_push_key` sets the key and modifiers but never the scancode, and
   * the table is indexed by scancode, so the entry the events reach is the
   * parameter `scancode`.
   */
  function ApplyPushed(keys: seq<KeyState>, evs: seq<KeyEvent>, scancode: nat, lastTick: Uint32): (r: seq<KeyState>)
    requires ValidKeys(keys)
    ensures ValidKeys(r)
    decreases |evs|
  {
    if |evs| == 0 then keys
    else
      var next := if evs[0].down then KeyDown(keys, scancode, lastTick) else KeyUp(keys, scancode);
      ApplyPushed(next, evs[1..], scancode, lastTick)
  }

  /**
   * A synthetic press leaves the entry it reaches released, restarts that
   * entry's repeat delay when the key was up, and leaves every other entry
   * of the key table as it was.
   */
  lemma PushKeyOnceReleases(keys: seq<KeyState>, key: int, mod: int, scancode: nat, lastTick: Uint32)
    requires ValidKeys(keys)
    ensures var r := ApplyPushed(keys, PushKeyOnce(key, mod), scancode, lastTick);
            && (forall k :: 0 <= k < NumScancodes && k != scancode ==> r[k] == keys[k])
            && (scancode >= NumScancodes ==> r == keys)
            && (scancode < NumScancodes && keys[scancode].pressed ==> r[scancode] == keys[scancode].(pressed := false))
            && (scancode < NumScancodes && !keys[scancode].pressed ==>
                  r[scancode] == KeyState(false, Add32(lastTick, KeyRepeatTimeInit), false))
  {
    var evs := PushKeyOnce(key, mod);
    var down := KeyDown(keys, scancode, lastTick);
    assert ApplyPushed(keys, evs, scancode, lastTick) == ApplyPushed(down, evs[1..], scancode, lastTick);
    assert evs[1..][1..] == [];
    assert ApplyPushed(down, evs[1..], scancode, lastTick) == KeyUp(down, scancode);
  }
}
