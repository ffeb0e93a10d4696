/**
 * Movement: the direction from the player to a clicked map tile, the table
 * that turns the keypad directions 1..9 into the server's direction codes,
 * and the move, clear and fire packets built from them.
 *
 * Keypad directions are laid out as on a numeric keypad: 7 8 9 on top
 * (north), 4 5 6 in the middle, 1 2 3 at the bottom; 5 is the player's own
 * tile.
 */
module Move {
  import opened CInt
  import opened Maybe

  // ---------------------------------------------------------------------
  // Keypad directions
  // ---------------------------------------------------------------------

  predicate IsKeypadDir(d: int) {
    1 <= d <= 9
  }

  /** The east-west part of a keypad direction: -1 west, 0 none, 1 east. */
  function DirX(d: int): int
    requires IsKeypadDir(d)
  {
    (d - 1) % 3 - 1
  }

  /** The north-south part of a keypad direction: -1 south, 0 none, 1 north. */
  function DirY(d: int): int
    requires IsKeypadDir(d)
  {
    (d - 1) / 3 - 1
  }

  /** The keypad direction seen in a mirror: east and west swap. */
  function MirrorDir(d: int): (m: int)
    requires IsKeypadDir(d)
    ensures IsKeypadDir(m) && DirX(m) == -DirX(d) && DirY(m) == DirY(d)
  {
    if DirX(d) == -1 then d + 2 else if DirX(d) == 1 then d - 2 else d
  }

  // ---------------------------------------------------------------------
  // dir_from_tile_coords
  // ---------------------------------------------------------------------

  /**
   * The slope measure of an offset (`x` west, `y` north of the player):
   * `x * 100 / y` with C division, and `-300 * x` on the player's row.
   */
  function Slope(x: int, y: int): int {
    if y == 0 then -300 * x else TruncDiv(x * 100, y)
  }

  /** The five sectors of the northern half-plane, east to west. */
  function NorthSector(q: int): int {
    if q < -242 then 6 else if q < -41 then 9 else if q < 41 then 8 else if q < 242 then 7 else 4
  }

  /** The five sectors of the southern half-plane (and the row), west to east. */
  function SouthSector(q: int): int {
    if q < -242 then 4 else if q < -41 then 1 else if q < 41 then 2 else if q < 242 then 3 else 6
  }

  /** The direction of a tile at offset (`x` west, `y` north) from the player. */
  function DirFromOffset(x: int, y: int): (d: int)
    ensures IsKeypadDir(d)
  {
    if x == 0 && y == 0 then 5
    else
      var q := Slope(x, y);
      if y > 0 then NorthSector(q) else SouthSector(q)
  }

  /** The player's tile: the middle of a map of the configured size. */
  function PlayerTile(mapSize: int): int {
    TruncDiv(mapSize, 2)
  }

  /**
   * `dir_from_tile_coords`: the keypad direction (1..9) from the player's
   * tile to tile (`tx`, `ty`); 5 exactly for the player's own tile.
   */
  function DirFromTile(tx: int, ty: int, mapWidth: int, mapHeight: int): (d: int)
    ensures IsKeypadDir(d)
    ensures d == 5 <==> tx == PlayerTile(mapWidth) && ty == PlayerTile(mapHeight)
  {
    var px := PlayerTile(mapWidth);
    var py := PlayerTile(mapHeight);
    if tx == px && ty == py then 5
    else
      var d := DirFromOffset(-(tx - px), -(ty - py));
      OffsetNotPlayer(-(tx - px), -(ty - py));
      d
  }

  /** Off the player's tile the direction is never 5. */
  lemma OffsetNotPlayer(x: int, y: int)
    requires x != 0 || y != 0
    ensures DirFromOffset(x, y) != 5
  {
  }

  /** On the player's row, a tile to the west is direction 4 and one to the east is 6. */
  lemma RowDirections(x: int)
    requires x != 0
    ensures DirFromOffset(x, 0) == (if x > 0 then 4 else 6)
  {
  }

  /** In the player's column, a tile above is direction 8 and one below is 2. */
  lemma ColumnDirections(y: int)
    requires y != 0
    ensures DirFromOffset(0, y) == (if y > 0 then 8 else 2)
  {
    assert Slope(0, y) == 0;
  }

  /**
   * The direction never points away from the tile: a tile to the north gives
   * no southern direction (1, 2, 3), one to the south no northern one
   * (7, 8, 9), and likewise east and west.
   */
  lemma NeverPointsAway(x: int, y: int)
    ensures var d := DirFromOffset(x, y);
            && (y > 0 ==> DirY(d) >= 0) && (y < 0 ==> DirY(d) <= 0)
            && (x > 0 ==> DirX(d) <= 0) && (x < 0 ==> DirX(d) >= 0)
  {
    if y != 0 {
      SlopeSign(x, y);
    }
  }

  /** The slope of an offset has the sign of `x / y`. */
  lemma SlopeSign(x: int, y: int)
    requires y != 0
    ensures (x > 0) == (y > 0) ==> Slope(x, y) >= 0
    ensures x != 0 && (x > 0) != (y > 0) ==> Slope(x, y) <= 0
  {
    var a := x * 100;
    if x > 0 { assert a > 0; } else if x < 0 { assert a < 0; }
    TruncDivSign(a, y);
  }

  /** The slope thresholds, where a tile lies exactly on a sector boundary. */
  predicate OnBoundary(q: int) {
    q == 41 || q == -41 || q == 242 || q == -242
  }

  /**
   * Mirroring a tile east-west mirrors its direction, except for the tiles
   * lying exactly on a sector boundary, which the strict comparisons assign
   * to the sector on one fixed side.
   */
  lemma MirrorSymmetry(x: int, y: int)
    requires !OnBoundary(Slope(x, y))
    ensures DirFromOffset(-x, y) == MirrorDir(DirFromOffset(x, y))
  {
    if y != 0 {
      assert -x * 100 == -(x * 100);
      TruncDivNegate(x * 100, y);
    }
  }

  // ---------------------------------------------------------------------
  // directions_fire
  // ---------------------------------------------------------------------

  /** `directions_fire`: keypad direction `d` is sent as entry `d - 1`. */
  const FireTable: seq<int> := [6, 5, 4, 7, 0, 3, 8, 1, 2]

  /**
   * The server's direction code for a compass step: 0 for none, otherwise
   * 1 for north and counting clockwise to 8 for north-west.
   */
  function Compass(dx: int, dy: int): (code: int)
    requires -1 <= dx <= 1 && -1 <= dy <= 1
    ensures 0 <= code <= 8 && (code == 0 <==> dx == 0 && dy == 0)
  {
    if dx == 0 && dy == 0 then 0
    else if dx == 0 then (if dy > 0 then 1 else 5)
    else if dx > 0 then 3 - dy
    else 7 + dy
  }

  /** The table sends each keypad direction as the compass code of the step it stands for. */
  lemma FireTableIsCompass(d: int)
    requires IsKeypadDir(d)
    ensures FireTable[d - 1] == Compass(DirX(d), DirY(d))
  {
  }

  /** The keypad direction a server direction code came from. */
  function KeypadOf(code: int): (d: int)
    requires 0 <= code <= 8
    ensures IsKeypadDir(d)
  {
    [5, 8, 9, 6, 3, 2, 1, 4, 7][code]
  }

  /** The table is a permutation of 0..8: `KeypadOf` undoes it and it undoes `KeypadOf`. */
  lemma FireTablePermutation()
    ensures |FireTable| == 9
    ensures forall d :: IsKeypadDir(d) ==> 0 <= FireTable[d - 1] <= 8 && KeypadOf(FireTable[d - 1]) == d
    ensures forall code :: 0 <= code <= 8 ==> FireTable[KeypadOf(code) - 1] == code
    ensures FireTable[5 - 1] == 0
  {
  }

  // ---------------------------------------------------------------------
  // move_keys and client_send_fire
  // ---------------------------------------------------------------------

  datatype Command = CmdFire | CmdClear | CmdMove

  /** A packet field: one byte or a 32-bit word. */
  datatype Field = U8(b: int) | U32(w: int)

  datatype Packet = Packet(cmd: Command, fields: seq<Field>)

  /** `client_send_fire`: the direction code, then the target's tag when there is one. */
  function FirePacket(num: int, tag: int): (p: Packet)
    requires IsKeypadDir(num)
    ensures p.cmd == CmdFire && |p.fields| >= 1 && p.fields[0] == U8(FireTable[num - 1])
    ensures |p.fields| == 2 <==> tag != 0
    ensures tag != 0 ==> p.fields[1] == U32(tag)
  {
    Packet(CmdFire, [U8(FireTable[num - 1])] + (if tag != 0 then [U32(tag)] else []))
  }

  /**
   * Whether `move_keys(num)` looks `num` up in `directions_fire`: always in
   * fire mode, and otherwise for every key but 5 (stop) and 0 (no direction).
   */
  predicate ReadsFireTable(num: int, fireOn: bool) {
    fireOn || (num != 5 && num != 0)
  }

  /**
   * `move_keys`: in fire mode the direction is fired (without a target);
   * otherwise 5 stops and any other keypad direction moves, running or not,
   * with 0 meaning "no direction". When the key is looked up in
   * `directions_fire` but is not a keypad direction, the C code reads
   * outside the table; the model sends nothing for that case (`None`).
   */
  function MoveKeys(num: int, fireOn: bool, runOn: bool): (r: Option<Packet>)
    ensures r.None? <==> ReadsFireTable(num, fireOn) && !IsKeypadDir(num)
    ensures r.Some? && fireOn ==> r.value == FirePacket(num, 0)
    ensures r.Some? && !fireOn && num == 5 ==> r.value == Packet(CmdClear, [])
    ensures r.Some? && !fireOn && num != 5 ==>
              r.value.cmd == CmdMove && |r.value.fields| == 2 && r.value.fields[1] == U8(if runOn then 1 else 0)
  {
    if ReadsFireTable(num, fireOn) && !IsKeypadDir(num) then None
    else if fireOn then Some(FirePacket(num, 0))
    else if num == 5 then Some(Packet(CmdClear, []))
    else Some(Packet(CmdMove, [U8(if num != 0 then FireTable[num - 1] else 0), U8(if runOn then 1 else 0)]))
  }

  /**
   * The packets identify their key: the direction byte of a move or fire
   * packet leads back to the keypad direction pressed (0 back to none), and
   * a fire packet without a tag is exactly what fire mode sends.
   */
  lemma MoveKeysDecode(num: int, fireOn: bool, runOn: bool)
    ensures var r := MoveKeys(num, fireOn, runOn);
            r.Some? ==>
            && (r.value.cmd == CmdMove ==>
                  && (num == 0 <==> r.value.fields[0].b == 0)
                  && (num != 0 ==> KeypadOf(r.value.fields[0].b) == num))
            && (r.value.cmd == CmdFire ==> KeypadOf(r.value.fields[0].b) == num && |r.value.fields| == 1)
  {
    FireTablePermutation();
  }

  /**
   * Key 0 is guarded only outside fire mode: moving with no direction sends
   * code 0, while firing with no direction has no table entry to send.
   */
  lemma NoDirectionGuardedOnlyForMove(runOn: bool)
    ensures MoveKeys(0, false, runOn) == Some(Packet(CmdMove, [U8(0), U8(if runOn then 1 else 0)]))
    ensures MoveKeys(0, true, runOn).None?
  {
  }
}
