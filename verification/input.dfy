/**
 * The chat input widget: Enter sends what was typed as a command, either
 * as typed (a line starting with '/') or after the widget's prepended text
 * (for example "/say "); Escape closes the widget.
 *
 * The markup escaping, the key bindings consulted by the quick get/drop
 * shortcut and the text field's own key handling are parameters.
 */
module Input {
  import opened CInt
  import opened Maybe

  /** The longest text the field accepts. */
  const InputMax: int := 250
  /** Ticks after the widget opens during which the quick shortcut is ignored. */
  const QuickDelay: int := 125

  datatype Widget = Widget(
    show: bool,
    /** Put in front of anything typed that does not start with '/'. */
    prependText: string,
    /** The text typed so far, and the most it may hold. */
    text: string,
    max: int,
    /** When the widget was shown. */
    showedTicks: Uint32)

  /**
   * `widget_input_init`: an empty field limited to 250 characters. The
   * prepended text is set when the widget is opened; it starts empty here.
   * Whether the widget is shown belongs to the widget framework, which is
   * not part of this model, so the contract says nothing about `show`.
   */
  function Init(): (w: Widget)
    ensures w.max == InputMax && w.text == ""
  {
    Widget(false, "", "", InputMax, 0)
  }

  /**
   * `widget_input_handle_enter`: the widget closes; a non-empty text is
   * sent as a command, escaped, after the prepended text unless the text
   * starts with '/'. Returns the new widget and the command sent, if any.
   */
  function HandleEnter(w: Widget, escape: string -> string): (r: (Widget, Option<string>))
    ensures r.0 == w.(show := false)
    ensures r.1.None? <==> w.text == ""
    ensures w.text != "" && w.text[0] == '/' ==> r.1 == Some(escape(w.text))
    ensures w.text != "" && w.text[0] != '/' ==> r.1 == Some(w.prependText + escape(w.text))
  {
    var hidden := w.(show := false);
    if w.text == "" then (hidden, None)
    else if w.text[0] != '/' then (hidden, Some(w.prependText + escape(w.text)))
    else (hidden, Some(escape(w.text)))
  }

  /** The keys the widget tells apart. */
  datatype Key = Enter | Escape | Tab | OtherKey

  /** What the handlers outside this widget answer for a key press. */
  datatype Env = Env(
    /** The key is bound to the "?GET" / "?DROP" command. */
    matchesGet: bool,
    matchesDrop: bool,
    /** The text field handled the key. */
    textInputHandles: bool,
    escape: string -> string)

  /**
   * The quick shortcut: while picking up ("/gettag ") or dropping
   * ("/droptag "), the get or drop key itself confirms, once the widget has
   * been open for more than 125 ticks.
   */
  predicate Quick(w: Widget, now: Uint32, env: Env) {
    && Sub32(now, w.showedTicks) > QuickDelay
    && (("/gettag " <= w.prependText && env.matchesGet) || ("/droptag " <= w.prependText && env.matchesDrop))
  }

  /**
   * `widget_event` for a key-down `key` (or any other event when
   * `keyDown` is false) at tick `now`: the new widget, the command sent,
   * and whether the event was consumed (1) or not (0).
   */
  function HandleEvent(w: Widget, keyDown: bool, key: Key, now: Uint32, env: Env): (r: (Widget, Option<string>, int))
    ensures !(w.show && keyDown) ==> r == (w, None, 0)
    ensures w.show && keyDown && (Quick(w, now, env) || key == Enter) ==>
              (r.0, r.1) == HandleEnter(w, env.escape)
    ensures w.show && keyDown && Quick(w, now, env) ==> r.2 == 1
    ensures w.show && keyDown && !Quick(w, now, env) && key == Enter ==> r.2 == (if env.textInputHandles then 1 else 0)
    ensures w.show && keyDown && key == Escape ==> !r.0.show && r.2 == 1
    ensures w.show && keyDown && !Quick(w, now, env) && key == Tab ==> r == (w, None, 1)
    ensures w.show && keyDown && !Quick(w, now, env) && key == OtherKey ==>
              r == (w, None, if env.textInputHandles then 1 else 0)
    ensures r.1.Some? ==> !r.0.show
    ensures r.2 == 0 || r.2 == 1
  {
    if !(w.show && keyDown) then (w, None, 0)
    else if Quick(w, now, env) then
      var e := HandleEnter(w, env.escape);
      (e.0, e.1, 1)
    else
      var e := if key == Enter then HandleEnter(w, env.escape) else (w, None);
      if key == Escape then (e.0.(show := false), e.1, 1)
      else if key == Tab then (e.0, e.1, 1)
      else if env.textInputHandles then (e.0, e.1, 1)
      else (e.0, e.1, 0)
  }

  /**
   * A freshly initialised widget, once shown, sends nothing on Enter: its
   * field is empty, so Enter only closes it.
   */
  lemma InitSendsNothing(now: Uint32, env: Env)
    ensures var r := HandleEvent(Init().(show := true), true, Enter, now, env);
            r.1 == None && !r.0.show && r.0.text == ""
  {
  }

  /** Escape closes an open widget, consumes the key and sends nothing. */
  lemma EscapeCloses(w: Widget, now: Uint32, env: Env)
    requires w.show && !Quick(w, now, env)
    ensures HandleEvent(w, true, Escape, now, env) == (w.(show := false), None, 1)
  {
  }

  /**
   * A line is sent at most once: after Enter the widget is closed, and a
   * closed widget ignores every further key.
   */
  lemma SentOnce(w: Widget, now: Uint32, env: Env, key: Key, later: Uint32, env2: Env)
    requires w.show
    ensures var r := HandleEvent(w, true, Enter, now, env);
            HandleEvent(r.0, true, key, later, env2) == (r.0, None, 0)
  {
  }

  /**
   * With the escaping the identity, the command is recoverable from what
   * was sent: a slash line is sent as typed, any other line is the prepended
   * text followed by the line.
   */
  lemma SentCommandCarriesText(w: Widget, now: Uint32, env: Env)
    requires w.show && w.text != ""
    requires forall s :: env.escape(s) == s
    ensures var sent := HandleEvent(w, true, Enter, now, env).1;
            && sent.Some?
            && (w.text[0] == '/' ==> sent.value == w.text)
            && (w.text[0] != '/' ==> w.prependText <= sent.value && sent.value[|w.prependText|..] == w.text)
  {
  }
}
