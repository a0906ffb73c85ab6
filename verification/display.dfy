/** DXYN: drawing a sprite into the framebuffer by XOR, with collision reporting in VF. */
module Display {
  import opened Bits
  import opened Wrappers
  import opened Chip8
  import Memory

  const VF: nat := 15

  /** `0x80 >> col`: the bit of a sprite byte that covers column `col` of the sprite. */
  function SpriteMask(col: nat): u8
    requires col < 8
  {
    [0x80, 0x40, 0x20, 0x10, 0x08, 0x04, 0x02, 0x01][col]
  }

  /** Masking a sprite byte tests bit `7 - col`: the most significant bit is the leftmost pixel. */
  lemma SpriteMaskBit(b: u8, col: nat)
    requires col < 8
    ensures And8(b, SpriteMask(col)) != 0 <==> Bit(b, 7 - col)
  {
    assert SpriteMask(col) == Pow2(7 - col) by {
      if col == 0 { assert Pow2(7) == 0x80; }
      else if col == 1 { assert Pow2(6) == 0x40; }
      else if col == 2 { assert Pow2(5) == 0x20; }
      else if col == 3 { assert Pow2(4) == 0x10; }
      else if col == 4 { assert Pow2(3) == 0x08; }
      else if col == 5 { assert Pow2(2) == 0x04; }
      else if col == 6 { assert Pow2(1) == 0x02; }
      else { assert Pow2(0) == 0x01; }
    }
    AndPow2(b, 7 - col);
  }

  /** Writing one cell changes exactly the pixel at that position. */
  lemma PixelUpdate(fb: Screen, col: nat, row: nat, v: u8)
    requires col < FRAMEBUFFER_WIDTH && row < FRAMEBUFFER_HEIGHT
    ensures forall c: nat, rr: nat :: c < FRAMEBUFFER_WIDTH && rr < FRAMEBUFFER_HEIGHT ==>
              Pixel(fb[row * FRAMEBUFFER_WIDTH + col := v], c, rr) == if c == col && rr == row then v else Pixel(fb, c, rr)
  {
    var fb' := fb[row * FRAMEBUFFER_WIDTH + col := v];
    forall c: nat, rr: nat | c < FRAMEBUFFER_WIDTH && rr < FRAMEBUFFER_HEIGHT
      ensures Pixel(fb', c, rr) == if c == col && rr == row then v else Pixel(fb, c, rr)
    {
      if rr < row {
        assert rr * FRAMEBUFFER_WIDTH + c < (rr + 1) * FRAMEBUFFER_WIDTH <= row * FRAMEBUFFER_WIDTH;
      } else if rr > row {
        assert row * FRAMEBUFFER_WIDTH + col < (row + 1) * FRAMEBUFFER_WIDTH <= rr * FRAMEBUFFER_WIDTH;
      }
    }
  }

  /** Some covered pixel at or right of column `x0 + col` of row `yPos` is on. */
  predicate RowCollides(fb: Screen, b: u8, x0: nat, yPos: nat, col: nat)
    requires yPos < FRAMEBUFFER_HEIGHT
  {
    exists c: nat :: x0 + col <= c < FRAMEBUFFER_WIDTH && Covers(b, x0, c) && Pixel(fb, c, yPos) == 1
  }

  /** Peeling the leftmost candidate column off a row collision: the rest of the row is read
      in `fb'`, which agrees with `fb` right of that column. */
  lemma RowCollidesStep(fb: Screen, fb': Screen, b: u8, x0: nat, yPos: nat, col: nat)
    requires yPos < FRAMEBUFFER_HEIGHT && x0 + col < FRAMEBUFFER_WIDTH
    requires forall c: nat :: x0 + col < c < FRAMEBUFFER_WIDTH ==> Pixel(fb', c, yPos) == Pixel(fb, c, yPos)
    ensures RowCollides(fb, b, x0, yPos, col) <==>
              (Covers(b, x0, x0 + col) && Pixel(fb, x0 + col, yPos) == 1) || RowCollides(fb', b, x0, yPos, col + 1)
  {
    if RowCollides(fb, b, x0, yPos, col) {
      var c: nat :| x0 + col <= c < FRAMEBUFFER_WIDTH && Covers(b, x0, c) && Pixel(fb, c, yPos) == 1;
      if c > x0 + col {
        assert Pixel(fb', c, yPos) == 1;
      }
    }
    if RowCollides(fb', b, x0, yPos, col + 1) {
      var c: nat :| x0 + col + 1 <= c < FRAMEBUFFER_WIDTH && Covers(b, x0, c) && Pixel(fb', c, yPos) == 1;
      assert Pixel(fb, c, yPos) == 1;
    }
  }

  /** Whether the sprite byte `b`, drawn with its left edge at `x0`, covers column `c`. */
  predicate Covers(b: u8, x0: nat, c: nat)
  {
    x0 <= c < x0 + 8 && Bit(b, 7 - (c - x0))
  }

  /** Columns `col..7` of one sprite row: each covered on-screen pixel of row `yPos` is flipped,
      columns past the right edge are clipped, and the flag becomes set when a flipped pixel
      was on. */
  function DrawRow(fb: Screen, b: u8, x0: nat, yPos: nat, col: nat, hit: bool): (r: (Screen, bool))
    requires x0 < FRAMEBUFFER_WIDTH && yPos < FRAMEBUFFER_HEIGHT && col <= 8
    ensures forall c: nat, rr: nat :: c < FRAMEBUFFER_WIDTH && rr < FRAMEBUFFER_HEIGHT ==>
              Pixel(r.0, c, rr) == if rr == yPos && x0 + col <= c && Covers(b, x0, c)
                                   then Xor8(Pixel(fb, c, rr), 1) else Pixel(fb, c, rr)
    ensures r.1 <==> hit || RowCollides(fb, b, x0, yPos, col)
    decreases 8 - col
  {
    if col == 8 then (fb, hit)
    else if x0 + col >= FRAMEBUFFER_WIDTH then DrawRow(fb, b, x0, yPos, col + 1, hit)
    else
      SpriteMaskBit(b, col);
      if And8(b, SpriteMask(col)) != 0 then
        var index := yPos * FRAMEBUFFER_WIDTH + (x0 + col);
        PixelUpdate(fb, x0 + col, yPos, Xor8(fb[index], 1));
        RowCollidesStep(fb, fb[index := Xor8(fb[index], 1)], b, x0, yPos, col);
        DrawRow(fb[index := Xor8(fb[index], 1)], b, x0, yPos, col + 1, hit || fb[index] == 1)
      else
        RowCollidesStep(fb, fb, b, x0, yPos, col);
        DrawRow(fb, b, x0, yPos, col + 1, hit)
  }

  /** How many rows of an `n`-row sprite whose top is row `y0` are on screen: rows below the
      bottom edge are clipped, not wrapped. */
  function Visible(y0: nat, n: nat): (v: nat)
    requires y0 < FRAMEBUFFER_HEIGHT
    ensures v <= n && y0 + v <= FRAMEBUFFER_HEIGHT
    ensures v < n ==> y0 + v == FRAMEBUFFER_HEIGHT
  {
    if y0 + n <= FRAMEBUFFER_HEIGHT then n else FRAMEBUFFER_HEIGHT - y0
  }

  /** The row at which drawing from `row` on stops: the first row whose sprite byte lies past
      the end of memory, or the visible height when there is none. */
  function Reach(i: nat, y0: nat, n: nat, row: nat): (h: nat)
    requires y0 < FRAMEBUFFER_HEIGHT && row <= Visible(y0, n)
    ensures row <= h <= Visible(y0, n)
    ensures h > row ==> i + h <= Memory.RAM_SIZE
    ensures h < Visible(y0, n) ==> i + h >= Memory.RAM_SIZE
  {
    if i + row >= Memory.RAM_SIZE then row
    else if i + Visible(y0, n) <= Memory.RAM_SIZE then Visible(y0, n)
    else Memory.RAM_SIZE - i
  }

  /** Pixel (`c`, `rr`) is covered by sprite rows `lo..hi`, read from memory at I, when the
      sprite's top-left corner is at (`x0`, `y0`). */
  predicate Lit(m: Machine, x0: nat, y0: nat, lo: nat, hi: nat, c: nat, rr: nat)
  {
    && y0 + lo <= rr < y0 + hi
    && m.i + (rr - y0) < Memory.RAM_SIZE
    && Covers(m.memory[m.i + (rr - y0)], x0, c)
  }

  /** Some pixel covered by sprite rows `lo..hi` is on. */
  predicate Collides(m: Machine, x0: nat, y0: nat, lo: nat, hi: nat)
  {
    exists c: nat, rr: nat :: c < FRAMEBUFFER_WIDTH && rr < FRAMEBUFFER_HEIGHT
      && Lit(m, x0, y0, lo, hi, c, rr) && Pixel(m.framebuffer, c, rr) == 1
  }

  /** Peeling the top row off a sprite collision. `m'` is `m` after that row was drawn, so it
      agrees with `m` on memory, I and every other row. */
  lemma CollidesStep(m: Machine, m': Machine, x0: nat, y0: nat, row: nat, hi: nat)
    requires y0 + row < FRAMEBUFFER_HEIGHT && row < hi && m.i + row < Memory.RAM_SIZE
    requires m'.memory == m.memory && m'.i == m.i
    requires forall c: nat, rr: nat :: c < FRAMEBUFFER_WIDTH && rr < FRAMEBUFFER_HEIGHT && rr != y0 + row ==>
               Pixel(m'.framebuffer, c, rr) == Pixel(m.framebuffer, c, rr)
    ensures Collides(m, x0, y0, row, hi) <==>
              RowCollides(m.framebuffer, m.memory[m.i + row], x0, y0 + row, 0) || Collides(m', x0, y0, row + 1, hi)
  {
    var b := m.memory[m.i + row];
    if Collides(m, x0, y0, row, hi) {
      var c: nat, rr: nat :| c < FRAMEBUFFER_WIDTH && rr < FRAMEBUFFER_HEIGHT
        && Lit(m, x0, y0, row, hi, c, rr) && Pixel(m.framebuffer, c, rr) == 1;
      if rr == y0 + row {
        assert x0 + 0 <= c < FRAMEBUFFER_WIDTH && Covers(b, x0, c) && Pixel(m.framebuffer, c, y0 + row) == 1;
      } else {
        assert Lit(m', x0, y0, row + 1, hi, c, rr) && Pixel(m'.framebuffer, c, rr) == 1;
      }
    }
    if RowCollides(m.framebuffer, b, x0, y0 + row, 0) {
      var c: nat :| x0 <= c < FRAMEBUFFER_WIDTH && Covers(b, x0, c) && Pixel(m.framebuffer, c, y0 + row) == 1;
      assert Lit(m, x0, y0, row, hi, c, y0 + row);
    }
    if Collides(m', x0, y0, row + 1, hi) {
      var c: nat, rr: nat :| c < FRAMEBUFFER_WIDTH && rr < FRAMEBUFFER_HEIGHT
        && Lit(m', x0, y0, row + 1, hi, c, rr) && Pixel(m'.framebuffer, c, rr) == 1;
      assert Lit(m, x0, y0, row, hi, c, rr) && Pixel(m.framebuffer, c, rr) == 1;
    }
  }

  /** The sprite rows from `row` on. Each visible row reads its byte at I + row and draws it;
      a byte past the end of memory stops the draw with IndexError, keeping the rows already
      drawn and the collision flag as it stands. VF is set when a row collides, and the
      display-updated flag only when every row was drawn. */
  function DrawRows(m: Machine, x0: nat, y0: nat, n: nat, row: nat): (r: Exec)
    requires x0 < FRAMEBUFFER_WIDTH && y0 < FRAMEBUFFER_HEIGHT && row <= Visible(y0, n)
    ensures r.Fail? <==> row < Visible(y0, n) && m.i + Visible(y0, n) > Memory.RAM_SIZE
    ensures r.Fail? ==> r.error == IndexError((m.i + Reach(m.i, y0, n, row)) % 0x1_0000)
    ensures r.machine == m.(framebuffer := r.machine.framebuffer, registers := r.machine.registers,
                            displayUpdated := r.machine.displayUpdated)
    ensures r.machine.displayUpdated == (r.Done? || m.displayUpdated)
    ensures RegistersKept(m, r.machine, {VF})
    decreases n - row
  {
    if row == n || y0 + row >= FRAMEBUFFER_HEIGHT then Done(m.(displayUpdated := true))
    else match Memory.ReadByte(m.memory, m.i + row)
      case None => Fail(m, IndexError((m.i + row) % 0x1_0000))
      case Some(_) => DrawRows(AfterRow(m, x0, y0, row), x0, y0, n, row + 1)
  }

  /** The state drawing row `row` leads to, when that row is visible and its byte readable. */
  function AfterRow(m: Machine, x0: nat, y0: nat, row: nat): (m': Machine)
    requires x0 < FRAMEBUFFER_WIDTH && y0 + row < FRAMEBUFFER_HEIGHT && m.i + row < Memory.RAM_SIZE
    ensures m'.memory == m.memory && m'.i == m.i
    ensures forall c: nat, rr: nat :: c < FRAMEBUFFER_WIDTH && rr < FRAMEBUFFER_HEIGHT ==>
              Pixel(m'.framebuffer, c, rr) == if rr == y0 + row && Covers(m.memory[m.i + row], x0, c)
                                              then Xor8(Pixel(m.framebuffer, c, rr), 1) else Pixel(m.framebuffer, c, rr)
    ensures m'.registers[VF] == if RowCollides(m.framebuffer, m.memory[m.i + row], x0, y0 + row, 0) then 1 else m.registers[VF]
  {
    var drawn := DrawRow(m.framebuffer, m.memory[m.i + row], x0, y0 + row, 0, false);
    m.(framebuffer := drawn.0, registers := if drawn.1 then m.registers[VF := 1] else m.registers)
  }

  lemma DrawRowsUnfold(m: Machine, x0: nat, y0: nat, n: nat, row: nat)
    requires x0 < FRAMEBUFFER_WIDTH && y0 + row < FRAMEBUFFER_HEIGHT && row < n && m.i + row < Memory.RAM_SIZE
    ensures row + 1 <= Visible(y0, n)
    ensures DrawRows(m, x0, y0, n, row) == DrawRows(AfterRow(m, x0, y0, row), x0, y0, n, row + 1)
    ensures Reach(m.i, y0, n, row + 1) == Reach(m.i, y0, n, row)
  {
  }

  /** `CollidesStep` for the state drawing row `row` leads to. */
  lemma AfterRowCollides(m: Machine, x0: nat, y0: nat, row: nat, hi: nat)
    requires x0 < FRAMEBUFFER_WIDTH && y0 + row < FRAMEBUFFER_HEIGHT && m.i + row < Memory.RAM_SIZE && row < hi
    ensures Collides(m, x0, y0, row, hi) <==>
              RowCollides(m.framebuffer, m.memory[m.i + row], x0, y0 + row, 0)
              || Collides(AfterRow(m, x0, y0, row), x0, y0, row + 1, hi)
  {
    CollidesStep(m, AfterRow(m, x0, y0, row), x0, y0, row, hi);
  }

  /** The collision flag after rows `row..` when row `row` is not drawn. */
  lemma DrawRowsFlagBase(m: Machine, x0: nat, y0: nat, n: nat, row: nat)
    requires x0 < FRAMEBUFFER_WIDTH && y0 < FRAMEBUFFER_HEIGHT && row <= Visible(y0, n)
    requires row == n || y0 + row >= FRAMEBUFFER_HEIGHT || m.i + row >= Memory.RAM_SIZE
    ensures DrawRows(m, x0, y0, n, row).machine.registers[VF] ==
              if Collides(m, x0, y0, row, Reach(m.i, y0, n, row)) then 1 else m.registers[VF]
  {
    assert Reach(m.i, y0, n, row) == row;
    assert !Collides(m, x0, y0, row, row);
  }

  /** The collision flag after rows `row..`, from the flag after rows `row + 1..` drawn on the
      state row `row` leads to. */
  lemma DrawRowsFlagStep(m: Machine, x0: nat, y0: nat, n: nat, row: nat)
    requires x0 < FRAMEBUFFER_WIDTH && y0 + row < FRAMEBUFFER_HEIGHT && row < n && m.i + row < Memory.RAM_SIZE
    requires var m' := AfterRow(m, x0, y0, row);
             row + 1 <= Visible(y0, n) &&
             DrawRows(m', x0, y0, n, row + 1).machine.registers[VF] ==
               if Collides(m', x0, y0, row + 1, Reach(m.i, y0, n, row + 1)) then 1 else m'.registers[VF]
    ensures row <= Visible(y0, n)
    ensures DrawRows(m, x0, y0, n, row).machine.registers[VF] ==
              if Collides(m, x0, y0, row, Reach(m.i, y0, n, row)) then 1 else m.registers[VF]
  {
    DrawRowsUnfold(m, x0, y0, n, row);
    AfterRowCollides(m, x0, y0, row, Reach(m.i, y0, n, row));
  }

  /** Drawing rows `row..` sets VF exactly when a pixel they cover was on. */
  lemma {:induction false} DrawRowsFlag(m: Machine, x0: nat, y0: nat, n: nat, row: nat)
    requires x0 < FRAMEBUFFER_WIDTH && y0 < FRAMEBUFFER_HEIGHT && row <= Visible(y0, n)
    ensures DrawRows(m, x0, y0, n, row).machine.registers[VF] ==
              if Collides(m, x0, y0, row, Reach(m.i, y0, n, row)) then 1 else m.registers[VF]
    decreases n - row
  {
    if row == n || y0 + row >= FRAMEBUFFER_HEIGHT || m.i + row >= Memory.RAM_SIZE {
      DrawRowsFlagBase(m, x0, y0, n, row);
    } else {
      DrawRowsUnfold(m, x0, y0, n, row);
      DrawRowsFlag(AfterRow(m, x0, y0, row), x0, y0, n, row + 1);
      DrawRowsFlagStep(m, x0, y0, n, row);
    }
  }

  /** `fb` is the framebuffer of `m` with exactly the pixels covered by sprite rows `lo..hi`
      flipped. */
  predicate FlippedRows(m: Machine, fb: Screen, x0: nat, y0: nat, lo: nat, hi: nat)
  {
    forall c: nat, rr: nat :: c < FRAMEBUFFER_WIDTH && rr < FRAMEBUFFER_HEIGHT ==>
      Pixel(fb, c, rr) == if Lit(m, x0, y0, lo, hi, c, rr) then Xor8(Pixel(m.framebuffer, c, rr), 1)
                          else Pixel(m.framebuffer, c, rr)
  }

  /** Flipping row `row` and then rows `row + 1..hi` flips rows `row..hi`. */
  lemma FlippedRowsStep(m: Machine, x0: nat, y0: nat, row: nat, hi: nat, fb: Screen)
    requires x0 < FRAMEBUFFER_WIDTH && y0 + row < FRAMEBUFFER_HEIGHT && m.i + row < Memory.RAM_SIZE && row < hi
    requires FlippedRows(AfterRow(m, x0, y0, row), fb, x0, y0, row + 1, hi)
    ensures FlippedRows(m, fb, x0, y0, row, hi)
  {
    var m' := AfterRow(m, x0, y0, row);
    forall c: nat, rr: nat | c < FRAMEBUFFER_WIDTH && rr < FRAMEBUFFER_HEIGHT
      ensures Pixel(fb, c, rr) == if Lit(m, x0, y0, row, hi, c, rr) then Xor8(Pixel(m.framebuffer, c, rr), 1)
                                  else Pixel(m.framebuffer, c, rr)
    {
      if rr == y0 + row {
        assert !Lit(m', x0, y0, row + 1, hi, c, rr);
      } else {
        assert Lit(m, x0, y0, row, hi, c, rr) <==> Lit(m', x0, y0, row + 1, hi, c, rr);
      }
    }
  }

  /** Drawing rows `row..` flips exactly the pixels they cover. */
  lemma {:induction false} DrawRowsPixels(m: Machine, x0: nat, y0: nat, n: nat, row: nat)
    requires x0 < FRAMEBUFFER_WIDTH && y0 < FRAMEBUFFER_HEIGHT && row <= Visible(y0, n)
    ensures FlippedRows(m, DrawRows(m, x0, y0, n, row).machine.framebuffer, x0, y0, row, Reach(m.i, y0, n, row))
    decreases n - row
  {
    var hi := Reach(m.i, y0, n, row);
    if row == n || y0 + row >= FRAMEBUFFER_HEIGHT || m.i + row >= Memory.RAM_SIZE {
      assert DrawRows(m, x0, y0, n, row).machine.framebuffer == m.framebuffer;
      assert hi == row;
    } else {
      DrawRowsUnfold(m, x0, y0, n, row);
      DrawRowsPixels(AfterRow(m, x0, y0, row), x0, y0, n, row + 1);
      FlippedRowsStep(m, x0, y0, row, hi, DrawRows(m, x0, y0, n, row).machine.framebuffer);
    }
  }

  /** The column and row of the sprite's top-left corner: Vx and Vy wrap around the screen. */
  function Origin(m: Machine, x: nat, y: nat): (o: (nat, nat))
    requires x < BANK_SIZE && y < BANK_SIZE
    ensures o.0 < FRAMEBUFFER_WIDTH && o.1 < FRAMEBUFFER_HEIGHT
    ensures m.registers[x] == o.0 || m.registers[x] == o.0 + FRAMEBUFFER_WIDTH
            || m.registers[x] == o.0 + 2 * FRAMEBUFFER_WIDTH || m.registers[x] == o.0 + 3 * FRAMEBUFFER_WIDTH
    ensures exists k: nat :: k < 8 && m.registers[y] == o.1 + k * FRAMEBUFFER_HEIGHT
  {
    var o := (m.registers[x] % FRAMEBUFFER_WIDTH, m.registers[y] % FRAMEBUFFER_HEIGHT);
    assert m.registers[y] == o.1 + (m.registers[y] / FRAMEBUFFER_HEIGHT) * FRAMEBUFFER_HEIGHT;
    o
  }

  /** The sprite depends on memory, I and the framebuffer only. */
  lemma SpriteReadsMemory(m: Machine, m': Machine, x0: nat, y0: nat, lo: nat, hi: nat, fb: Screen)
    requires m'.memory == m.memory && m'.i == m.i && m'.framebuffer == m.framebuffer
    ensures Collides(m, x0, y0, lo, hi) <==> Collides(m', x0, y0, lo, hi)
    ensures FlippedRows(m, fb, x0, y0, lo, hi) <==> FlippedRows(m', fb, x0, y0, lo, hi)
  {
    assert forall c: nat, rr: nat :: Lit(m, x0, y0, lo, hi, c, rr) <==> Lit(m', x0, y0, lo, hi, c, rr);
  }

  /** DXYN: draws the `n`-byte sprite at I with its top-left corner at (Vx mod 64, Vy mod 32).
      Rows below the screen and columns right of it are clipped. A sprite row whose byte lies
      past memory stops the draw with IndexError at that address, after the rows above it were
      drawn. What happens to the pixels and VF is stated by `DrawSpriteEffect`. */
  function DrawSprite(m: Machine, x: nat, y: nat, n: u8): (r: Exec)
    ensures x >= BANK_SIZE ==> r == Fail(m, InvalidRegister(x))
    ensures x < BANK_SIZE && y >= BANK_SIZE ==> r == Fail(m, InvalidRegister(y))
    ensures x < BANK_SIZE && y < BANK_SIZE ==>
              && (r.Fail? <==> 0 < Visible(Origin(m, x, y).1, n) && m.i + Visible(Origin(m, x, y).1, n) > Memory.RAM_SIZE)
              && (r.Fail? ==> r.error == IndexError(if m.i >= Memory.RAM_SIZE then m.i else Memory.RAM_SIZE))
              && r.machine == m.(framebuffer := r.machine.framebuffer, registers := r.machine.registers,
                                 displayUpdated := r.Done? || m.displayUpdated)
              && RegistersKept(m, r.machine, {VF})
  {
    if x >= BANK_SIZE then Fail(m, InvalidRegister(x))
    else if y >= BANK_SIZE then Fail(m, InvalidRegister(y))
    else
      var o := Origin(m, x, y);
      DrawRows(m.(registers := m.registers[VF := 0]), o.0, o.1, n, 0)
  }

  /** The pixels and VF after a draw with valid register operands: exactly the pixels covered
      by the rows that were drawn are flipped, and VF is 1 exactly when one of them was on. On
      success every visible row was drawn. */
  lemma DrawSpriteEffect(m: Machine, x: nat, y: nat, n: u8)
    requires x < BANK_SIZE && y < BANK_SIZE
    ensures var r := DrawSprite(m, x, y, n);
            var o := Origin(m, x, y);
            var drawn := Reach(m.i, o.1, n, 0);
            && (r.Done? ==> drawn == Visible(o.1, n))
            && r.machine.registers[VF] == (if Collides(m, o.0, o.1, 0, drawn) then 1 else 0)
            && FlippedRows(m, r.machine.framebuffer, o.0, o.1, 0, drawn)
  {
    var o := Origin(m, x, y);
    var drawn := Reach(m.i, o.1, n, 0);
    var cleared := m.(registers := m.registers[VF := 0]);
    DrawRowsFlag(cleared, o.0, o.1, n, 0);
    DrawRowsPixels(cleared, o.0, o.1, n, 0);
    var r := DrawSprite(m, x, y, n);
    assert r == DrawRows(cleared, o.0, o.1, n, 0);
    SpriteReadsMemory(cleared, m, o.0, o.1, 0, drawn, r.machine.framebuffer);
  }

  /** Every cell of the framebuffer is the pixel at its column and row. */
  lemma CellIsPixel(fb: Screen, k: nat)
    requires k < |fb|
    ensures k % FRAMEBUFFER_WIDTH < FRAMEBUFFER_WIDTH && k / FRAMEBUFFER_WIDTH < FRAMEBUFFER_HEIGHT
    ensures fb[k] == Pixel(fb, k % FRAMEBUFFER_WIDTH, k / FRAMEBUFFER_WIDTH)
  {
  }

  /** Flipping a pixel that is 0 or 1 gives 1 or 0. */
  lemma FlipBinary(p: u8)
    requires p <= 1
    ensures Xor8(p, 1) == 1 - p
  {
    if p == 0 {
      assert Xor(0, 1) == 1;
    } else {
      assert Xor(1, 1) == 2 * Xor(0, 0) + 0;
    }
  }

  /** A draw keeps the machine valid: pixels stay 0 or 1, and the stack and keys are untouched. */
  lemma DrawKeepsValid(m: Machine, x: nat, y: nat, n: u8)
    requires Valid(m)
    ensures Valid(DrawSprite(m, x, y, n).machine)
  {
    if x < BANK_SIZE && y < BANK_SIZE {
      var r := DrawSprite(m, x, y, n);
      DrawSpriteEffect(m, x, y, n);
      var o := Origin(m, x, y);
      var drawn := Reach(m.i, o.1, n, 0);
      forall k | 0 <= k < |r.machine.framebuffer|
        ensures r.machine.framebuffer[k] <= 1
      {
        CellIsPixel(r.machine.framebuffer, k);
        CellIsPixel(m.framebuffer, k);
        FlipBinary(m.framebuffer[k]);
      }
    }
  }

  /** Drawing the same sprite twice at the same place restores the framebuffer, provided
      neither coordinate register is VF (which the first draw overwrites). */
  lemma DrawTwiceRestores(m: Machine, x: nat, y: nat, n: u8)
    requires Valid(m) && x < VF && y < VF
    requires DrawSprite(m, x, y, n).Done?
    ensures var m1 := DrawSprite(m, x, y, n).machine;
            DrawSprite(m1, x, y, n).Done? && DrawSprite(m1, x, y, n).machine.framebuffer == m.framebuffer
  {
    var m1 := DrawSprite(m, x, y, n).machine;
    var m2 := DrawSprite(m1, x, y, n).machine;
    DrawSpriteEffect(m, x, y, n);
    DrawSpriteEffect(m1, x, y, n);
    var o := Origin(m, x, y);
    assert Origin(m1, x, y) == o;
    var drawn := Reach(m.i, o.1, n, 0);
    forall k | 0 <= k < |m.framebuffer|
      ensures m2.framebuffer[k] == m.framebuffer[k]
    {
      CellIsPixel(m.framebuffer, k);
      CellIsPixel(m1.framebuffer, k);
      CellIsPixel(m2.framebuffer, k);
      var c, rr := k % FRAMEBUFFER_WIDTH, k / FRAMEBUFFER_WIDTH;
      FlipBinary(m.framebuffer[k]);
      FlipBinary(1 - m.framebuffer[k]);
      assert Lit(m1, o.0, o.1, 0, drawn, c, rr) <==> Lit(m, o.0, o.1, 0, drawn, c, rr);
    }
  }

  /** Some pixel covered by sprite rows `lo..hi` is off. */
  predicate TurnsOn(m: Machine, x0: nat, y0: nat, lo: nat, hi: nat)
  {
    exists c: nat, rr: nat :: c < FRAMEBUFFER_WIDTH && rr < FRAMEBUFFER_HEIGHT
      && Lit(m, x0, y0, lo, hi, c, rr) && Pixel(m.framebuffer, c, rr) == 0
  }

  /** After flipping the covered pixels of a 0/1 screen, a covered pixel is on exactly where
      it was off before. */
  lemma CollidesAfterFlip(m: Machine, m1: Machine, x0: nat, y0: nat, lo: nat, hi: nat)
    requires Valid(m) && m1.memory == m.memory && m1.i == m.i
    requires FlippedRows(m, m1.framebuffer, x0, y0, lo, hi)
    ensures Collides(m1, x0, y0, lo, hi) <==> TurnsOn(m, x0, y0, lo, hi)
  {
    if Collides(m1, x0, y0, lo, hi) {
      var c: nat, rr: nat :| c < FRAMEBUFFER_WIDTH && rr < FRAMEBUFFER_HEIGHT
        && Lit(m1, x0, y0, lo, hi, c, rr) && Pixel(m1.framebuffer, c, rr) == 1;
      CellIsPixel(m.framebuffer, rr * FRAMEBUFFER_WIDTH + c);
      FlipBinary(Pixel(m.framebuffer, c, rr));
      assert Lit(m, x0, y0, lo, hi, c, rr);
    }
    if TurnsOn(m, x0, y0, lo, hi) {
      var c: nat, rr: nat :| c < FRAMEBUFFER_WIDTH && rr < FRAMEBUFFER_HEIGHT
        && Lit(m, x0, y0, lo, hi, c, rr) && Pixel(m.framebuffer, c, rr) == 0;
      FlipBinary(0);
      assert Lit(m1, x0, y0, lo, hi, c, rr) && Pixel(m1.framebuffer, c, rr) == 1;
    }
  }

  /** Drawing a sprite again at the same place reports a collision exactly when the first
      draw turned some pixel on. */
  lemma SecondDrawCollides(m: Machine, x: nat, y: nat, n: u8)
    requires Valid(m) && x < VF && y < VF
    requires DrawSprite(m, x, y, n).Done?
    ensures var o := Origin(m, x, y);
            var m1 := DrawSprite(m, x, y, n).machine;
            DrawSprite(m1, x, y, n).machine.registers[VF] == 1 <==> TurnsOn(m, o.0, o.1, 0, Reach(m.i, o.1, n, 0))
  {
    var o := Origin(m, x, y);
    var drawn := Reach(m.i, o.1, n, 0);
    var m1 := DrawSprite(m, x, y, n).machine;
    DrawSpriteEffect(m, x, y, n);
    DrawSpriteEffect(m1, x, y, n);
    assert Origin(m1, x, y) == o;
    CollidesAfterFlip(m, m1, o.0, o.1, 0, drawn);
  }

  /** On a blank screen a draw never collides. */
  lemma BlankDrawNoCollision(m: Machine, x: nat, y: nat, n: u8)
    requires x < BANK_SIZE && y < BANK_SIZE
    requires forall k :: 0 <= k < |m.framebuffer| ==> m.framebuffer[k] == 0
    ensures DrawSprite(m, x, y, n).machine.registers[VF] == 0
  {
    var o := Origin(m, x, y);
    var drawn := Reach(m.i, o.1, n, 0);
    DrawSpriteEffect(m, x, y, n);
    if Collides(m, o.0, o.1, 0, drawn) {
      var c: nat, rr: nat :| c < FRAMEBUFFER_WIDTH && rr < FRAMEBUFFER_HEIGHT
        && Lit(m, o.0, o.1, 0, drawn, c, rr) && Pixel(m.framebuffer, c, rr) == 1;
      CellIsPixel(m.framebuffer, rr * FRAMEBUFFER_WIDTH + c);
    }
  }
}
