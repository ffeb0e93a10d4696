/**
 * The frames-per-second widget's accounting: every main-loop iteration
 * counts one frame (and one real frame when something was drawn); once a
 * second the counts become the displayed figures and start again from zero.
 *
 * All five fields are `uint32_t`. The tick counter is a parameter. The
 * window test is modelled twice: as written, with the `uint32_t`
 * subtraction `ticks - 1000`, and corrected, comparing the ticks elapsed.
 */
module Fps {
  import opened CInt

  /** Ticks in one accounting window. */
  const Window: int := 1000

  datatype Fps = Fps(
    /** When the figures were last taken. */
    lasttime: Uint32,
    /** The displayed figures. */
    current: Uint32,
    currentReal: Uint32,
    /** Counts since `lasttime`. */
    frames: Uint32,
    framesReal: Uint32)

  /** `widget_fps_init` at tick `now`: all counts zero, the window starting now. */
  function Init(now: Uint32): (f: Fps)
    ensures f.lasttime == now
    ensures f.current == 0 && f.currentReal == 0 && f.frames == 0 && f.framesReal == 0
  {
    Fps(now, 0, 0, 0, 0)
  }

  /** The window test as written: `lasttime < ticks - 1000` with a `uint32_t` subtraction. */
  predicate WindowOverAsWritten(lasttime: Uint32, ticks: Uint32) {
    lasttime < Sub32(ticks, Window)
  }

  /** The window test as intended: more than 1000 ticks have passed since `lasttime`. */
  predicate WindowOver(lasttime: Uint32, ticks: Uint32) {
    Sub32(ticks, lasttime) > Window
  }

  /** Counting one iteration; `draw` is 1 when the frame was drawn, else 0. */
  function Count(f: Fps, draw: int): (c: Fps)
    ensures c.frames == Add32(f.frames, 1) && c.framesReal == Add32(f.framesReal, draw)
    ensures c.lasttime == f.lasttime && c.current == f.current && c.currentReal == f.currentReal
  {
    f.(frames := Add32(f.frames, 1), framesReal := Add32(f.framesReal, draw))
  }

  /**
   * Closing the window at `ticks`: the counts become the displayed figures
   * and restart from zero. Returns the new state and whether the figures
   * changed, which is when the widget asks for a redraw.
   */
  function Rollover(c: Fps, ticks: Uint32): (r: (Fps, bool))
    ensures r.0 == Fps(ticks, c.frames, c.framesReal, 0, 0)
    ensures r.1 <==> r.0.current != c.current || r.0.currentReal != c.currentReal
  {
    (Fps(ticks, c.frames, c.framesReal, 0, 0), c.current != c.frames || c.currentReal != c.framesReal)
  }

  /**
   * `widget_background` as written: count the iteration, then roll over
   * when the written test says the window is over. Returns the new state
   * and whether a redraw is asked for.
   */
  function BackgroundAsWritten(f: Fps, draw: int, ticks: Uint32): (r: (Fps, bool))
    ensures r.1 ==> WindowOverAsWritten(f.lasttime, ticks)
    ensures !WindowOverAsWritten(f.lasttime, ticks) ==> r.0 == Count(f, draw)
    ensures WindowOverAsWritten(f.lasttime, ticks) ==> r == Rollover(Count(f, draw), ticks)
    ensures WindowOverAsWritten(f.lasttime, ticks) ==>
              && r.0.lasttime == ticks && r.0.frames == 0 && r.0.framesReal == 0
              && r.0.current == Add32(f.frames, 1) && r.0.currentReal == Add32(f.framesReal, draw)
    ensures r.1 <==> r.0.current != f.current || r.0.currentReal != f.currentReal
  {
    var c := Count(f, draw);
    if WindowOverAsWritten(f.lasttime, ticks) then Rollover(c, ticks) else (c, false)
  }

  /**
   * In the first second of the tick counter, `ticks - 1000` wraps to a huge
   * value and the written test rolls over on every call: five ticks after
   * the widget starts, the displayed figure is already reset to the single
   * frame just counted.
   */
  lemma RollsOverWithinFirstSecond()
    ensures var f := BackgroundAsWritten(Init(5), 1, 10).0;
            f.lasttime == 10 && f.current == 1 && f.frames == 0
    ensures !WindowOver(5, 10)
  {
  }

  /** The written test fires for any `lasttime` below `ticks` while `ticks` is under 1000. */
  lemma AsWrittenEarlyRollover(lasttime: Uint32, ticks: Uint32)
    requires lasttime <= ticks < Window
    ensures WindowOverAsWritten(lasttime, ticks) && !WindowOver(lasttime, ticks)
  {
  }

  /**
   * `widget_background` with the window test corrected. The figures change
   * only on a rollover, and the widget asks for a redraw only when they do.
   */
  function Background(f: Fps, draw: int, ticks: Uint32): (r: (Fps, bool))
    ensures !WindowOver(f.lasttime, ticks) ==> r.0 == Count(f, draw) && !r.1
    ensures WindowOver(f.lasttime, ticks) ==>
              && r.0.lasttime == ticks && r.0.frames == 0 && r.0.framesReal == 0
              && r.0.current == Add32(f.frames, 1) && r.0.currentReal == Add32(f.framesReal, draw)
    ensures r.1 <==> r.0.current != f.current || r.0.currentReal != f.currentReal
  {
    var c := Count(f, draw);
    if WindowOver(f.lasttime, ticks) then Rollover(c, ticks) else (c, false)
  }

  /** Away from the counter's start and its wrap, the written test and the corrected one agree. */
  lemma TestsAgreeInsideRange(lasttime: Uint32, ticks: Uint32)
    requires Window <= ticks && lasttime <= ticks
    ensures WindowOverAsWritten(lasttime, ticks) == WindowOver(lasttime, ticks)
  {
  }

  /** One main-loop iteration: whether a frame was drawn (1 or 0) and the tick. */
  datatype Call = Call(draw: int, ticks: Uint32)

  /** Running the corrected accounting over a sequence of iterations. */
  function Run(f: Fps, calls: seq<Call>): Fps
    decreases |calls|
  {
    if |calls| == 0 then f
    else Run(Background(f, calls[0].draw, calls[0].ticks).0, calls[1..])
  }

  /** Every iteration reports drawn (1) or not drawn (0). */
  predicate DrawFlags(calls: seq<Call>) {
    |calls| == 0 || ((calls[0].draw == 0 || calls[0].draw == 1) && DrawFlags(calls[1..]))
  }

  /** The number of drawn frames. */
  function Drawn(calls: seq<Call>): (n: int)
    ensures DrawFlags(calls) ==> 0 <= n <= |calls|
  {
    if |calls| == 0 then 0 else calls[0].draw + Drawn(calls[1..])
  }

  /** No iteration of `calls` closes the window started at `lasttime`. */
  predicate InWindow(lasttime: Uint32, calls: seq<Call>) {
    forall i :: 0 <= i < |calls| ==> !WindowOver(lasttime, calls[i].ticks)
  }

  /**
   * Inside one window the accounting counts every iteration and every
   * drawn frame and leaves the displayed figures alone (as long as the
   * counts stay below 2^32).
   */
  lemma {:induction false} RunCountsFrames(f: Fps, calls: seq<Call>)
    requires InWindow(f.lasttime, calls) && DrawFlags(calls)
    requires f.frames + |calls| < Two32 && f.framesReal + |calls| < Two32
    ensures var g := Run(f, calls);
            && g.lasttime == f.lasttime && g.current == f.current && g.currentReal == f.currentReal
            && g.frames == f.frames + |calls|
            && g.framesReal == f.framesReal + Drawn(calls)
    decreases |calls|
  {
    if |calls| > 0 {
      RunStep(f, calls);
      RunCountsFrames(Count(f, calls[0].draw), calls[1..]);
    }
  }

  /** The first iteration of a run inside the window only counts. */
  lemma RunStep(f: Fps, calls: seq<Call>)
    requires |calls| > 0 && InWindow(f.lasttime, calls)
    ensures Run(f, calls) == Run(Count(f, calls[0].draw), calls[1..])
    ensures InWindow(f.lasttime, calls[1..])
  {
    assert !WindowOver(f.lasttime, calls[0].ticks);
    assert forall i :: 0 <= i < |calls[1..]| ==> calls[1..][i] == calls[i + 1];
  }

  /**
   * The displayed figure is the window's count: starting from a fresh
   * window, iterating inside it and then closing it shows the number of
   * iterations, closing one included, and the number of drawn frames.
   */
  lemma ShowsWindowCount(now: Uint32, calls: seq<Call>, last: Call)
    requires InWindow(now, calls) && WindowOver(now, last.ticks)
    requires DrawFlags(calls) && (last.draw == 0 || last.draw == 1)
    requires |calls| + 1 < Two32
    ensures var g := Background(Run(Init(now), calls), last.draw, last.ticks).0;
            g.current == |calls| + 1 && g.currentReal == Drawn(calls) + last.draw
  {
    RunCountsFrames(Init(now), calls);
  }
}
