/** The 64x32 monochrome display, `display: [bool; 2048]`, row-major, and the
    sprite blit of `draw_at` (Dxyn). */
module Screen {
  import opened Bits

  /** The display buffer: 32 rows of 64 cells. */
  type Frame = s: seq<bool> | |s| == 2048 witness seq(2048, _ => false)

  /** The cell of row `row`, column `col`: `64 * row + col`, computed over `int`.
      The source computes this product in `u8` arithmetic (see
      `DisplayIndexAsWritten`); this is the index it evidently intends. */
  function DisplayIndex(row: nat, col: nat): (k: nat)
    requires row < 32 && col < 64
    ensures k < 2048
    ensures k / 64 == row && k % 64 == col
  {
    64 * row + col
  }

  /** The display index as the source computes it, with `display_row`,
      `display_column` and the product all `u8`: a release build wraps modulo
      256 (a debug build panics instead as soon as `64 * row` exceeds 255). */
  function DisplayIndexAsWritten(row: byte, col: byte): (k: byte)
    ensures k == (64 * row as int + col) % 0x100
  {
    (64 * row as int + col) % 0x100
  }

  /** From row 4 on, the as-written index wraps back into the first four rows:
      the pixel at row 4, column 0 lands on the cell of row 0, column 0. */
  lemma DisplayIndexAsWrittenAliases()
    ensures DisplayIndexAsWritten(4, 0) == DisplayIndexAsWritten(0, 0)
    ensures DisplayIndex(4, 0) != DisplayIndex(0, 0)
  {
  }

  /** The intended index never aliases: distinct on-screen cells have distinct indices. */
  lemma DisplayIndexInjective(r1: nat, c1: nat, r2: nat, c2: nat)
    requires r1 < 32 && c1 < 64 && r2 < 32 && c2 < 64
    requires DisplayIndex(r1, c1) == DisplayIndex(r2, c2)
    ensures r1 == r2 && c1 == c2
  {
  }

  /** Whether cell `k` has been visited by a draw at (x0, y0) once sprite rows
      [0, rows) are done and the first `cols` columns of row `rows`. Rows past 31
      and columns past 63 have no cell, so a sprite is clipped, never wrapped. */
  predicate Visited(k: int, x0: int, y0: int, rows: int, cols: int)
  {
    var r := k / 64 - y0;
    var c := k % 64 - x0;
    0 <= r && 0 <= c < 8 && (r < rows || (r == rows && c < cols))
  }

  /** The display part way through a draw: each visited cell holds its old value
      XOR the sprite bit for it, every other cell its old value. The sprite's
      bit `j` counted from the least significant bit is column `x0 + j`. */
  function Drawn(d: Frame, sprite: seq<byte>, x0: nat, y0: nat, rows: nat, cols: nat): (r: Frame)
    requires rows < |sprite| || (rows == |sprite| && cols == 0)
  {
    seq(2048, k requires 0 <= k < 2048 =>
      if Visited(k, x0, y0, rows, cols) then d[k] != Bit(sprite[k / 64 - y0], k % 64 - x0) else d[k])
  }

  /** `after` is `before` with `sprite` XOR-drawn at (x0, y0): a cell covered
      by the sprite flips where the sprite's bit is set, every other cell (the
      clipped part included) is unchanged. */
  predicate SpriteDrawn(before: Frame, after: Frame, sprite: seq<byte>, x0: nat, y0: nat)
  {
    forall row, col :: 0 <= row < 32 && 0 <= col < 64 ==>
      after[DisplayIndex(row, col)] ==
        if y0 <= row < y0 + |sprite| && x0 <= col < x0 + 8
        then before[DisplayIndex(row, col)] != Bit(sprite[row - y0], col - x0)
        else before[DisplayIndex(row, col)]
  }

  /** The display after drawing all of `sprite` at (x0, y0). */
  function Blit(d: Frame, sprite: seq<byte>, x0: nat, y0: nat): (r: Frame)
    ensures SpriteDrawn(d, r, sprite, x0, y0)
  {
    Drawn(d, sprite, x0, y0, |sprite|, 0)
  }

  /** The collision bit of one pixel: `(old_cell & sprite_bit) as u8`. */
  function PixelCollision(d: Frame, sprite: seq<byte>, x0: nat, y0: nat, i: nat, j: nat): (f: byte)
    requires i < |sprite| && y0 + i < 32 && x0 + j < 64
    ensures f == 1 <==> d[DisplayIndex(y0 + i, x0 + j)] && Bit(sprite[i], j)
    ensures f <= 1
  {
    if d[DisplayIndex(y0 + i, x0 + j)] && Bit(sprite[i], j) then 1 else 0
  }

  function Min(a: int, b: int): int
  {
    if a <= b then a else b
  }

  /** The value `draw_at` leaves in VF. The source resets VF to 0 and then
      OVERWRITES it at every visited pixel, so it ends as the collision bit of the
      last pixel visited: the last visible column of the last visible row. */
  function LastCollision(d: Frame, sprite: seq<byte>, x0: nat, y0: nat): (f: byte)
    requires x0 < 64 && y0 < 32
    ensures f <= 1
  {
    if |sprite| == 0 then 0
    else PixelCollision(d, sprite, x0, y0, Min(|sprite|, 32 - y0) - 1, Min(8, 64 - x0) - 1)
  }

  /** Finishing a row: once the visible columns of row `i` are done, so is the row. */
  lemma RowDone(d: Frame, sprite: seq<byte>, x0: nat, y0: nat, i: nat, j: nat)
    requires i < |sprite| && x0 < 64 && j <= 8
    requires j == 8 || x0 + j >= 64
    ensures Drawn(d, sprite, x0, y0, i, j) == Drawn(d, sprite, x0, y0, i + 1, 0)
  {
  }

  /** Clipping at the bottom: once row `y0 + i` is past the last row, the rest of
      the sprite changes nothing. */
  lemma BottomClipped(d: Frame, sprite: seq<byte>, x0: nat, y0: nat, i: nat)
    requires i <= |sprite| && y0 + i >= 32
    ensures Drawn(d, sprite, x0, y0, i, 0) == Blit(d, sprite, x0, y0)
  {
  }

  /** One more pixel: visiting cell (y0 + i, x0 + j) flips it and nothing else. */
  lemma PixelStep(d: Frame, sprite: seq<byte>, x0: nat, y0: nat, i: nat, j: nat)
    requires i < |sprite| && j < 8 && y0 + i < 32 && x0 + j < 64
    ensures var k := DisplayIndex(y0 + i, x0 + j);
      Drawn(d, sprite, x0, y0, i, j + 1) ==
        Drawn(d, sprite, x0, y0, i, j)[k := d[k] != Bit(sprite[i], j)]
    ensures Drawn(d, sprite, x0, y0, i, j)[DisplayIndex(y0 + i, x0 + j)] == d[DisplayIndex(y0 + i, x0 + j)]
  {
  }

  /** XOR drawing is an involution: drawing the same sprite twice at the same place
      restores the display. */
  lemma BlitTwice(d: Frame, sprite: seq<byte>, x0: nat, y0: nat)
    ensures Blit(Blit(d, sprite, x0, y0), sprite, x0, y0) == d
  {
  }

  /** What the second of two identical draws leaves in VF: 1 exactly when the
      last visited pixel's sprite bit is set and that cell was dark before the
      first draw, so it need not be 1 even when every other pixel collided. */
  lemma SecondDrawCollision(d: Frame, sprite: seq<byte>, x0: nat, y0: nat)
    requires x0 < 64 && y0 < 32 && |sprite| > 0
    ensures var i, j := Min(|sprite|, 32 - y0) - 1, Min(8, 64 - x0) - 1;
      LastCollision(Blit(d, sprite, x0, y0), sprite, x0, y0) == 1 <==>
        Bit(sprite[i], j) && !d[DisplayIndex(y0 + i, x0 + j)]
  {
  }

  /** A collision that the as-written flag forgets: a one-pixel sprite (0x01)
      drawn at (0, 0) over a lit top-left cell turns that cell off, yet VF ends 0
      because the last pixel visited, column 7, did not collide. */
  lemma CollisionOverwritten()
    ensures var d: Frame := seq(2048, k => k == 0);
      Blit(d, [1], 0, 0)[0] == false && LastCollision(d, [1], 0, 0) == 0
  {
  }
}
