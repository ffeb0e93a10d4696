/**
 * The progress dots: five dots of which one is lit and moves one step to
 * the right every 275 ticks, wrapping back to the first, until the
 * operation is done and all five are lit.
 *
 * The tick counter is a parameter and the dot textures are reduced to
 * their width.
 */
module Progress {
  import opened CInt

  /** `PROGRESS_DOTS_NUM`. */
  const DotsNum: nat := 5
  /** `PROGRESS_DOTS_SPACING`: pixels between two dots. */
  const DotsSpacing: int := 2
  /** `PROGRESS_DOTS_TICKS`: ticks between two steps of the lit dot. */
  const DotsTicks: int := 275

  /** The indicator: when the dot last moved, which dot is lit (a `uint8_t`), and whether it is done. */
  datatype Dots = Dots(ticks: Uint32, dot: int, done: bool)

  predicate IsUint8(n: int) {
    0 <= n < 256
  }

  /** `progress_dots_create` at tick `now`: the first dot lit, not done. */
  function Create(now: Uint32): (p: Dots)
    ensures p.dot == 0 && !p.done && p.ticks == now
  {
    Dots(now, 0, false)
  }

  /** Whether dot `i` is drawn lit: it is the current dot, or the indicator is done. */
  predicate Lit(p: Dots, i: int) {
    p.dot == i || p.done
  }

  /** The lit state of the five dots, left to right. */
  function Lights(p: Dots): (ls: seq<bool>)
    ensures |ls| == DotsNum
    ensures forall i :: 0 <= i < DotsNum ==> ls[i] == Lit(p, i)
  {
    seq(DotsNum, i requires 0 <= i < DotsNum => Lit(p, i))
  }

  /** While not done, exactly the current dot is lit; once done, all are. */
  lemma OneDotLit(p: Dots)
    requires 0 <= p.dot < DotsNum
    ensures p.done ==> forall i :: 0 <= i < DotsNum ==> Lights(p)[i]
    ensures !p.done ==> Lights(p)[p.dot] && forall i :: 0 <= i < DotsNum && i != p.dot ==> !Lights(p)[i]
  {
  }

  /** The next dot after `d`: one to the right in `uint8_t` arithmetic, back to the first past the last. */
  function NextDot(d: int): (n: int)
    requires IsUint8(d)
    ensures 0 <= n < DotsNum
    ensures 0 <= d < DotsNum ==> n == (d + 1) % DotsNum
    ensures d + 1 < DotsNum ==> n == d + 1
  {
    var n := (d + 1) % 256;
    if n >= DotsNum then 0 else n
  }

  /**
   * The state part of `progress_dots_show` at tick `now`: when not done and
   * more than 275 ticks have passed since the last step, the next dot is
   * lit and the step time is reset; otherwise nothing changes.
   */
  function Show(p: Dots, now: Uint32): (r: Dots)
    requires IsUint8(p.dot)
    ensures r.done == p.done
    ensures r != p ==> !p.done && Sub32(now, p.ticks) > DotsTicks
    ensures !p.done && Sub32(now, p.ticks) > DotsTicks ==> r == Dots(now, NextDot(p.dot), p.done)
    ensures !p.done && Sub32(now, p.ticks) > DotsTicks && 0 <= p.dot < DotsNum ==> r.dot == (p.dot + 1) % DotsNum
    ensures 0 <= p.dot < DotsNum ==> 0 <= r.dot < DotsNum
  {
    if !p.done && Sub32(now, p.ticks) > DotsTicks then Dots(now, NextDot(p.dot), p.done)
    else p
  }

  /** Once done, the dots never move. */
  lemma DoneIsFrozen(p: Dots, now: Uint32)
    requires IsUint8(p.dot) && p.done
    ensures Show(p, now) == p
  {
  }

  /** Stepping the lit dot `k` times from the first dot. */
  function Steps(d: int, k: nat): (n: int)
    requires 0 <= d < DotsNum
    ensures 0 <= n < DotsNum
  {
    if k == 0 then d else NextDot(Steps(d, k - 1))
  }

  /** The lit dot moves one to the right per step, wrapping: after `k` steps it is `(d + k) mod 5`. */
  lemma {:induction false} StepsCycle(d: int, k: nat)
    requires 0 <= d < DotsNum
    ensures Steps(d, k) == (d + k) % DotsNum
  {
    if k > 0 {
      StepsCycle(d, k - 1);
      SuccessorMod(d + k - 1);
    }
  }

  /** Stepping a dot index taken modulo 5 agrees with stepping the unreduced count. */
  lemma SuccessorMod(n: nat)
    ensures ((n % DotsNum) + 1) % DotsNum == (n + 1) % DotsNum
  {
  }

  /**
   * A new indicator lights only the first dot, and stepping it `k` times
   * lights dot `k mod 5`.
   */
  lemma CreateCycles(now: Uint32, k: nat)
    ensures Lights(Create(now)) == [true, false, false, false, false]
    ensures Steps(Create(now).dot, k) == k % DotsNum
  {
    StepsCycle(Create(now).dot, k);
  }

  /** Where dot `i` is drawn, relative to the indicator's left edge, for dots `w` pixels wide. */
  function DotX(i: int, w: int): int {
    (w + DotsSpacing) * i
  }

  /** `progress_dots_width` for dots `w` pixels wide: from the first dot's left edge to the last dot's right edge. */
  function Width(w: int): (width: int)
    ensures width == DotX(DotsNum - 1, w) + w
  {
    (w + DotsSpacing) * DotsNum - DotsSpacing
  }

  /** Neighbouring dots are exactly the spacing apart. */
  lemma DotsSpaced(i: int, w: int)
    ensures DotX(i + 1, w) - (DotX(i, w) + w) == DotsSpacing
  {
  }
}
