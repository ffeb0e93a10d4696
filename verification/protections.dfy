/**
 * The protections widget: the protection values come in groups of five;
 * each group is drawn in one of four boxes laid out two by two inside the
 * widget, and each value is coloured by its band.
 *
 * Drawing is reduced to what is drawn where: for each group its box and,
 * for each of its five values, the protection slot it shows and the colour.
 * Group and protection names and the text markup are left out.
 */
module Protections {
  import opened CInt

  /** Padding around the boxes, between the columns and between the rows. */
  const PadBorder: int := 10
  const PadXBox: int := 10
  const PadYBox: int := 5
  /** Values per group. */
  const GroupSize: nat := 5
  /** Boxes the widget has room for (`SDL_Rect box[4]`). */
  const Boxes: nat := 4

  datatype Color = Gray | Red | Orange | White

  /** The protection colour: gray for none, red for a weakness, orange at 100 or more, white between. */
  function ColorOf(v: int): (c: Color)
    ensures c == Gray <==> v == 0
    ensures c == Red <==> v < 0
    ensures c == Orange <==> v >= 100
    ensures c == White <==> 0 < v < 100
  {
    if v == 0 then Gray else if v < 0 then Red else if v >= 100 then Orange else White
  }

  /** The bands in increasing order of protection. */
  function Rank(c: Color): int {
    match c
    case Red => 0
    case Gray => 1
    case White => 2
    case Orange => 3
  }

  /** More protection never gives a lower band. */
  lemma ColorMonotone(v1: int, v2: int)
    requires v1 <= v2
    ensures Rank(ColorOf(v1)) <= Rank(ColorOf(v2))
  {
  }

  datatype Rect = Rect(x: int, y: int, w: int, h: int)

  /** Box `i` of a widget `w` by `h`: half the room left by the padding, in column `i % 2`, row `i / 2`. */
  function Box(i: nat, w: int, h: int): (b: Rect)
    ensures b.w == TruncDiv(w - 2 * PadBorder - PadXBox, 2) && b.h == TruncDiv(h - 2 * PadBorder - PadYBox, 2)
  {
    var bw := TruncDiv(w - 2 * PadBorder - PadXBox, 2);
    var bh := TruncDiv(h - 2 * PadBorder - PadYBox, 2);
    Rect(PadBorder + (bw + PadXBox) * (i % 2), PadBorder + (bh + PadYBox) * (i / 2), bw, bh)
  }

  /** The corner of box `i` < 4: the left column or the right, the top row or the bottom. */
  lemma BoxCorner(i: nat, w: int, h: int)
    requires i < Boxes
    ensures var b := Box(i, w, h);
            && b.x == (if i % 2 == 0 then PadBorder else PadBorder + b.w + PadXBox)
            && b.y == (if i < 2 then PadBorder else PadBorder + b.h + PadYBox)
  {
  }

  /**
   * In a widget large enough for the padding, the four boxes lie inside the
   * widget, at least 10 pixels from its edges, and do not overlap: boxes
   * in one row are 10 pixels apart, rows are 5 pixels apart.
   */
  lemma BoxesFit(i: nat, k: nat, w: int, h: int)
    requires i < Boxes && k < Boxes && i != k
    requires w >= 2 * PadBorder + PadXBox && h >= 2 * PadBorder + PadYBox
    ensures var b := Box(i, w, h);
            b.x >= PadBorder && b.y >= PadBorder && b.x + b.w <= w - PadBorder && b.y + b.h <= h - PadBorder
    ensures var b := Box(i, w, h); var c := Box(k, w, h);
            b.x + b.w + PadXBox <= c.x || c.x + c.w + PadXBox <= b.x
            || b.y + b.h + PadYBox <= c.y || c.y + c.h + PadYBox <= b.y
  {
    TruncDivOfNonNegative(w - 2 * PadBorder - PadXBox, 2);
    TruncDivOfNonNegative(h - 2 * PadBorder - PadYBox, 2);
    BoxCorner(i, w, h);
    BoxCorner(k, w, h);
  }

  /** One drawn value: the protection slot it shows, its colour and the value. */
  datatype Line = Line(slot: nat, color: Color, value: int)

  /** One drawn group: its box and its five values. */
  datatype Group = Group(box: Rect, lines: seq<Line>)

  /** The number of whole groups in `prot`. */
  function Groups(prot: seq<int>): nat {
    |prot| / GroupSize
  }

  /** The five lines of group `i`. */
  function GroupLines(prot: seq<int>, i: nat): (ls: seq<Line>)
    requires i < Groups(prot)
    ensures |ls| == GroupSize
    ensures forall j :: 0 <= j < GroupSize ==> ls[j].slot == i * GroupSize + j
  {
    seq(GroupSize, j requires 0 <= j < GroupSize =>
      var k := i * GroupSize + j;
      Line(k, ColorOf(prot[k]), prot[k]))
  }

  /**
   * `widget_draw` of the protections widget: nothing unless a redraw is
   * due; otherwise one group per five values, each in its box. The widget
   * has four boxes, so at most four groups are supported.
   */
  function Draw(redraw: bool, prot: seq<int>, w: int, h: int): (gs: seq<Group>)
    requires Groups(prot) <= Boxes
    ensures !redraw ==> gs == []
    ensures redraw ==> |gs| == Groups(prot)
    ensures forall i :: 0 <= i < |gs| ==> gs[i].box == Box(i, w, h) && |gs[i].lines| == GroupSize
    ensures forall i, j :: 0 <= i < |gs| && 0 <= j < GroupSize ==>
              gs[i].lines[j].value == prot[i * GroupSize + j]
              && gs[i].lines[j].color == ColorOf(prot[i * GroupSize + j])
  {
    if !redraw then []
    else seq(Groups(prot), i requires 0 <= i < Groups(prot) => Group(Box(i, w, h), GroupLines(prot, i)))
  }

  /**
   * Every whole group's slots are drawn exactly once: slot `k` is line
   * `k % 5` of group `k / 5`, and no other line shows it.
   */
  lemma SlotsDrawnOnce(prot: seq<int>, w: int, h: int, k: nat)
    requires Groups(prot) <= Boxes
    requires k < Groups(prot) * GroupSize
    ensures var gs := Draw(true, prot, w, h);
            && k / GroupSize < |gs| && gs[k / GroupSize].lines[k % GroupSize].slot == k
            && forall i, j :: 0 <= i < |gs| && 0 <= j < GroupSize && gs[i].lines[j].slot == k ==>
                 i == k / GroupSize && j == k % GroupSize
  {
    var gs := Draw(true, prot, w, h);
    assert k / GroupSize < Groups(prot);
    forall i, j | 0 <= i < |gs| && 0 <= j < GroupSize && gs[i].lines[j].slot == k
      ensures i == k / GroupSize && j == k % GroupSize
    {
      assert k == i * GroupSize + j;
    }
  }
}
