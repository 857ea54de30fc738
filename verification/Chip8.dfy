/** The CHIP-8 machine of applications_user/chip8/chip8.c as a function on machine states. */
module Chip8State {

  const MEM_SIZE: nat := 4096
  const REGS: nat := 16
  const STACK_SIZE: nat := 16
  const DISPLAY_W: nat := 64
  const DISPLAY_H: nat := 32
  const PIXELS: nat := 2048
  const KEYS: nat := 16
  const PROG_START: nat := 0x200
  const FONT_START: nat := 0x050
  const VF: nat := 15

  type byte = x: int | 0 <= x < 0x100
  type word = x: int | 0 <= x < 0x1_0000

  /** The C arrays have fixed sizes; Shaped says so. */
  datatype Cpu = Cpu(memory: seq<byte>, V: seq<byte>, I: word, pc: word, stack: seq<word>, sp: byte,
                     delay_timer: byte, sound_timer: byte, display: seq<byte>, keys: seq<bool>,
                     draw_flag: bool, waiting_for_key: bool, key_reg: byte, running: bool)
  {
    predicate Shaped() {
      |memory| == MEM_SIZE && |V| == REGS && |stack| == STACK_SIZE && |display| == PIXELS && |keys| == KEYS
      && key_reg < REGS
    }
  }

  // ---------------------------------------------------------------- operands

  function Opcode(high: int, low: int): word
    requires 0 <= high < 0x100 && 0 <= low < 0x100
  {
    high * 0x100 + low
  }

  function OpX(opcode: word): nat { opcode / 0x100 % 0x10 }

  function OpY(opcode: word): nat { opcode / 0x10 % 0x10 }

  function OpN(opcode: word): nat { opcode % 0x10 }

  function OpNN(opcode: word): byte { opcode % 0x100 }

  function OpNNN(opcode: word): nat { opcode % 0x1000 }

  function Or(a: byte, b: byte): byte { ((a as bv8) | (b as bv8)) as int }

  function And(a: byte, b: byte): byte { ((a as bv8) & (b as bv8)) as int }

  function Xor(a: byte, b: byte): byte { ((a as bv8) ^ (b as bv8)) as int }

  /** Bit `col` of a sprite row, the leftmost being bit 0. */
  function SpriteBit(sprite: byte, col: nat): bool
    requires col < 8
  {
    (sprite as bv8) & ((0x80 as bv8) >> col) != 0
  }

  // ---------------------------------------------------------------- drawing

  /** `pixel ^= 1`. */
  function Flip(pixel: byte): byte {
    if pixel % 2 == 0 then pixel + 1 else pixel - 1
  }

  /** Memory as the sprite loop reads it; what lies behind the array is up to the C compiler and
      comes in as `beyond`. */
  function Load(memory: seq<byte>, beyond: nat -> byte, a: nat): byte {
    if a < |memory| then memory[a] else beyond(a)
  }

  /** Pixel i is under a set bit of the n-row sprite at (xpos, ypos), clipped to the display. */
  predicate UnderSprite(sprite: nat -> byte, xpos: nat, ypos: nat, n: nat, i: nat) {
    var row, col := i / DISPLAY_W - ypos, i % DISPLAY_W - xpos;
    0 <= row < n && 0 <= col < 8 && SpriteBit(sprite(row), col)
  }

  /** The pointwise exclusive or of the display with the clipped sprite. */
  function Drawn(display: seq<byte>, sprite: nat -> byte, xpos: nat, ypos: nat, n: nat): (d: seq<byte>)
    ensures |d| == |display|
  {
    seq(|display|, i requires 0 <= i < |display| =>
      if UnderSprite(sprite, xpos, ypos, n, i) then Flip(display[i]) else display[i])
  }

  /** Some lit pixel is under the sprite. */
  ghost predicate Collides(display: seq<byte>, sprite: nat -> byte, xpos: nat, ypos: nat, n: nat) {
    exists i :: 0 <= i < |display| && UnderSprite(sprite, xpos, ypos, n, i) && display[i] != 0
  }

  function SpriteAt(memory: seq<byte>, beyond: nat -> byte, I: nat): (sprite: nat -> byte)
    ensures forall row: nat :: sprite(row) == Load(memory, beyond, I + row)
  {
    (row: nat) => Load(memory, beyond, I + row)
  }

  /** DRW Vx, Vy, n. */
  ghost function Draw(c: Cpu, x: nat, y: nat, n: nat, beyond: nat -> byte): Cpu
    requires c.Shaped() && x < REGS && y < REGS
  {
    var xpos, ypos, sprite := c.V[x] % DISPLAY_W, c.V[y] % DISPLAY_H, SpriteAt(c.memory, beyond, c.I);
    c.(display := Drawn(c.display, sprite, xpos, ypos, n),
       V := c.V[VF := if Collides(c.display, sprite, xpos, ypos, n) then 1 else 0],
       draw_flag := true)
  }

  lemma FlipTwice(p: byte)
    ensures Flip(Flip(p)) == p && Flip(p) != p
    ensures p <= 1 ==> Flip(p) <= 1
  {
  }

  /** On a display of zeros and ones, VF is 1 after a draw exactly when some lit pixel was turned off. */
  lemma CollisionIsPixelTurnedOff(c: Cpu, x: nat, y: nat, n: nat, beyond: nat -> byte)
    requires c.Shaped() && x < REGS && y < REGS && (forall i :: 0 <= i < PIXELS ==> c.display[i] <= 1)
    ensures var d := Draw(c, x, y, n, beyond);
            && d.V[VF] <= 1 && |d.display| == PIXELS
            && (d.V[VF] == 1 <==> exists i :: 0 <= i < PIXELS && c.display[i] == 1 && d.display[i] == 0)
  {
    var xpos, ypos, sprite := c.V[x] % DISPLAY_W, c.V[y] % DISPLAY_H, SpriteAt(c.memory, beyond, c.I);
    var d := Draw(c, x, y, n, beyond);
    forall i | 0 <= i < PIXELS
      ensures c.display[i] == 1 && d.display[i] == 0 <==> UnderSprite(sprite, xpos, ypos, n, i) && c.display[i] != 0
    {
      FlipTwice(c.display[i]);
    }
  }

  /** The sprite rows that are drawn at all, the others being clipped. */
  function DrawnRows(vy: byte, n: nat): nat {
    if vy % DISPLAY_H + n <= DISPLAY_H then n else DISPLAY_H - vy % DISPLAY_H
  }

  /** Two draws in a row restore the display.  What a row read from behind the memory array gives may
      differ between the two. */
  ghost predicate RestoresTwice(c: Cpu, x: nat, y: nat, n: nat, beyond: nat -> byte, beyond': nat -> byte)
    requires c.Shaped() && x < REGS && y < REGS
  {
    var once := Draw(c, x, y, n, beyond);
    once.Shaped() && Draw(once, x, y, n, beyond').display == c.display
  }

  /** Drawing the same sprite at the same place again restores the display, when neither operand is VF
      and every row that is drawn lies in memory. */
  lemma DrawTwiceRestores(c: Cpu, x: nat, y: nat, n: nat, beyond: nat -> byte, beyond': nat -> byte)
    requires c.Shaped() && x < VF && y < VF && c.I + DrawnRows(c.V[y], n) <= MEM_SIZE
    ensures RestoresTwice(c, x, y, n, beyond, beyond')
  {
    var xpos, ypos := c.V[x] % DISPLAY_W, c.V[y] % DISPLAY_H;
    var once := Draw(c, x, y, n, beyond);
    var twice := Draw(once, x, y, n, beyond');
    var first, second := SpriteAt(c.memory, beyond, c.I), SpriteAt(once.memory, beyond', once.I);
    forall i | 0 <= i < PIXELS ensures twice.display[i] == c.display[i] {
      var row := i / DISPLAY_W - ypos;
      if 0 <= row < n { assert first(row) == second(row); }
      assert UnderSprite(first, xpos, ypos, n, i) == UnderSprite(second, xpos, ypos, n, i);
      FlipTwice(c.display[i]);
    }
  }

  /** A sprite with the one bit 0x80, in the row at address `at`. */
  function OneBit(at: nat): (beyond: nat -> byte)
    ensures forall a: nat :: beyond(a) == if a == at then 0x80 else 0
  {
    (a: nat) => if a == at then 0x80 else 0
  }

  function Blank(): (beyond: nat -> byte)
    ensures forall a: nat :: beyond(a) == 0
  {
    (a: nat) => 0
  }

  /** The one-bit sprite covers exactly the pixel at its place. */
  lemma OneBitCovers(sprite: nat -> byte, row: nat, xpos: nat, ypos: nat, n: nat, i: nat)
    requires forall r: nat :: r < n ==> sprite(r) == if r == row then 0x80 else 0
    requires row < n && xpos < DISPLAY_W
    ensures UnderSprite(sprite, xpos, ypos, n, i) <==> i == (ypos + row) * DISPLAY_W + xpos
  {
    BitsOfOne();
    var r, col := i / DISPLAY_W - ypos, i % DISPLAY_W - xpos;
    if 0 <= r < n && 0 <= col < 8 {
      assert SpriteBit(sprite(r), col) <==> r == row && col == 0;
    }
    if i == (ypos + row) * DISPLAY_W + xpos {
      assert i / DISPLAY_W == ypos + row && i % DISPLAY_W == xpos;
    }
  }

  lemma BitsOfOne()
    ensures forall col: nat :: col < 8 ==> !SpriteBit(0, col) && (SpriteBit(0x80, col) <==> col == 0)
  {
    assert (0x80 as bv8) & ((0x80 as bv8) >> 0) != 0;
    assert (0x80 as bv8) & ((0x80 as bv8) >> 1) == 0 && (0x80 as bv8) & ((0x80 as bv8) >> 2) == 0;
    assert (0x80 as bv8) & ((0x80 as bv8) >> 3) == 0 && (0x80 as bv8) & ((0x80 as bv8) >> 4) == 0;
    assert (0x80 as bv8) & ((0x80 as bv8) >> 5) == 0 && (0x80 as bv8) & ((0x80 as bv8) >> 6) == 0;
    assert (0x80 as bv8) & ((0x80 as bv8) >> 7) == 0;
  }

  /** The machine c with an empty memory but for one 0x80 at I, and one pixel lit or none. */
  ghost function OneBitMachine(c: Cpu, lit: nat): (e: Cpu)
    requires c.Shaped()
    ensures e.Shaped() && e.V == c.V && e.I == c.I
  {
    c.(memory := seq(MEM_SIZE, a => if a == c.I then 0x80 else 0), display := seq(PIXELS, i => if i == lit then 1 else 0))
  }

  /** The pixel a draw starts at. */
  function Place(V: seq<byte>, x: nat, y: nat): (at: nat)
    requires |V| == REGS && x < REGS && y < REGS
    ensures at < PIXELS
  {
    V[y] % DISPLAY_H * DISPLAY_W + V[x] % DISPLAY_W
  }

  /** Such a machine draws one pixel, and VF says whether it was lit. */
  lemma DrawsOnePixel(c: Cpu, x: nat, y: nat, n: nat) returns (d: Cpu, at: nat)
    requires c.Shaped() && x < REGS && y < REGS && 0 < n
    requires c.memory == seq(MEM_SIZE, a => if a == c.I then 0x80 else 0)
    ensures d == Draw(c, x, y, n, OneBit(c.I)) && d.Shaped() && d.I == c.I && d.memory == c.memory
    ensures at == Place(c.V, x, y) && d.V == c.V[VF := if c.display[at] != 0 then 1 else 0]
    ensures d.display == c.display[at := Flip(c.display[at])]
  {
    var xpos, ypos, sprite := c.V[x] % DISPLAY_W, c.V[y] % DISPLAY_H, SpriteAt(c.memory, OneBit(c.I), c.I);
    d, at := Draw(c, x, y, n, OneBit(c.I)), Place(c.V, x, y);
    forall i | 0 <= i < PIXELS ensures UnderSprite(sprite, xpos, ypos, n, i) <==> i == at {
      OneBitCovers(sprite, 0, xpos, ypos, n, i);
    }
    assert Collides(c.display, sprite, xpos, ypos, n) <==> c.display[at] != 0;
  }

  /** VF set to 0 or 1 can move a draw that has VF as an operand. */
  lemma PlaceMoves(V: seq<byte>, x: nat, y: nat)
    requires |V| == REGS && x < REGS && y < REGS && (x == VF || y == VF)
    ensures var flag := if (if x == VF then V[x] % DISPLAY_W else V[y] % DISPLAY_H) == 0 then 1 else 0;
            Place(V[VF := flag], x, y) != Place(V, x, y)
  {
  }

  /** With VF as an operand the first draw moves the second one: VF is then its collision flag, and
      whether the first draw collides can be chosen so that it differs from the old position. */
  lemma DrawsElsewhere(c: Cpu, x: nat, y: nat, n: nat) returns (e: Cpu)
    requires c.Shaped() && x < REGS && y < REGS && 0 < n < 16 && (x == VF || y == VF)
    ensures e.Shaped() && e.V == c.V && e.I == c.I && !RestoresTwice(e, x, y, n, OneBit(c.I), OneBit(c.I))
  {
    PlaceMoves(c.V, x, y);
    var collide := (if x == VF then c.V[x] % DISPLAY_W else c.V[y] % DISPLAY_H) == 0;
    e := OneBitMachine(c, if collide then Place(c.V, x, y) else PIXELS);
    var once, at := DrawsOnePixel(e, x, y, n);
    var twice, at' := DrawsOnePixel(once, x, y, n);
    assert at' != at;
    FlipTwice(e.display[at]);
    NotRestored(e, x, y, n, OneBit(c.I), OneBit(c.I), once, twice, at);
  }

  lemma NotRestored(e: Cpu, x: nat, y: nat, n: nat, beyond: nat -> byte, beyond': nat -> byte,
                    once: Cpu, twice: Cpu, at: nat)
    requires e.Shaped() && x < REGS && y < REGS && once == Draw(e, x, y, n, beyond) && once.Shaped()
    requires twice == Draw(once, x, y, n, beyond') && at < PIXELS == |twice.display| && twice.display[at] != e.display[at]
    ensures !RestoresTwice(e, x, y, n, beyond, beyond')
  {
  }

  /** When the last row drawn lies behind memory, what is read there may light a pixel in one of the
      draws only. */
  lemma DrawsWhatLiesBeyond(c: Cpu, x: nat, y: nat, n: nat) returns (e: Cpu, beyond': nat -> byte)
    requires c.Shaped() && x < VF && y < VF && 0 < n < 16 && c.I + DrawnRows(c.V[y], n) > MEM_SIZE
    ensures e.Shaped() && e.V == c.V && e.I == c.I && !RestoresTwice(e, x, y, n, Blank(), beyond')
  {
    var xpos, ypos, row := c.V[x] % DISPLAY_W, c.V[y] % DISPLAY_H, DrawnRows(c.V[y], n) - 1;
    var at := (ypos + row) * DISPLAY_W + xpos;
    e := c.(memory := seq(MEM_SIZE, a => 0));
    beyond' := OneBit(c.I + row);
    var nothing, second := SpriteAt(e.memory, Blank(), e.I), SpriteAt(e.memory, beyond', e.I);
    BitsOfOne();
    var once := Draw(e, x, y, n, Blank());
    assert once.display[at] == e.display[at] by { assert forall r: nat :: nothing(r) == 0; }
    OneBitCovers(second, row, xpos, ypos, n, at);
    FlipTwice(once.display[at]);
    assert Draw(once, x, y, n, beyond').display[at] == Flip(once.display[at]);
  }

  /** DRW with operands x and y is its own inverse, whatever is in memory and on the display. */
  ghost predicate AlwaysRestores(V: seq<byte>, I: word, x: nat, y: nat, n: nat)
    requires x < REGS && y < REGS
  {
    forall c: Cpu, beyond: nat -> byte, beyond': nat -> byte :: c.Shaped() && c.V == V && c.I == I ==>
      RestoresTwice(c, x, y, n, beyond, beyond')
  }

  /** Exactly when two draws restore the display: nothing is drawn at all, or neither operand is VF,
      which the first draw overwrites before the second reads it, and every row drawn lies in memory. */
  lemma DrawTwiceExactly(c: Cpu, x: nat, y: nat, n: nat)
    requires c.Shaped() && x < REGS && y < REGS && n < 16
    ensures AlwaysRestores(c.V, c.I, x, y, n) <==>
            n == 0 || (x < VF && y < VF && c.I + DrawnRows(c.V[y], n) <= MEM_SIZE)
  {
    if n == 0 || (x < VF && y < VF && c.I + DrawnRows(c.V[y], n) <= MEM_SIZE) {
      forall m: Cpu, beyond: nat -> byte, beyond': nat -> byte | m.Shaped() && m.V == c.V && m.I == c.I
        ensures RestoresTwice(m, x, y, n, beyond, beyond')
      {
        if n > 0 { DrawTwiceRestores(m, x, y, n, beyond, beyond'); }
      }
    } else if x == VF || y == VF {
      var e := DrawsElsewhere(c, x, y, n);
    } else {
      var e, beyond' := DrawsWhatLiesBeyond(c, x, y, n);
    }
  }

  /** What lies behind memory in the Chip8 structure: first of all the registers. */
  function Behind(V: seq<byte>): nat -> byte {
    (a: nat) => if MEM_SIZE <= a < MEM_SIZE + |V| then V[a - MEM_SIZE] else 0
  }

  /** A concrete input: at I = 4097 the rows are V1 to V15.  The first draw collides in row 0, so row 14
      reads VF as 1 and lights a pixel of row 14; the second does not, and reads 0 there. */
  lemma RegistersAsSprite(c: Cpu)
    requires c.Shaped() && c.I == 4097 && c.V == seq(REGS, i => if i == 1 then 0x80 else 0)
    requires c.display == seq(PIXELS, i => if i == 0 then 1 else 0)
    ensures Draw(c, 0, 0, 15, Behind(c.V[VF := 1])).V == c.V[VF := 1]
    ensures var once := Draw(c, 0, 0, 15, Behind(c.V[VF := 1]));
            && once.Shaped() && Draw(once, 0, 0, 15, Behind(c.V)).V == c.V
            && Draw(once, 0, 0, 15, Behind(c.V)).display != c.display
  {
    BitsOfOne();
    var s1, s2 := SpriteAt(c.memory, Behind(c.V[VF := 1]), c.I), SpriteAt(c.memory, Behind(c.V), c.I);
    var once := Draw(c, 0, 0, 15, Behind(c.V[VF := 1]));
    assert s1(0) == 0x80 && s1(14) == 1 && s2(14) == 0;
    assert UnderSprite(s1, 0, 0, 15, 0);
    assert SpriteBit(1, 7) by { assert (1 as bv8) & ((0x80 as bv8) >> 7) != 0; }
    var at := 14 * DISPLAY_W + 7;
    assert UnderSprite(s1, 0, 0, 15, at) && !UnderSprite(s2, 0, 0, 15, at);
    assert once.display[at] == 1;
    assert forall i :: 0 <= i < PIXELS && UnderSprite(s2, 0, 0, 15, i) ==> i == 0 by {
      forall r: nat | r < 15 ensures s2(r) == if r == 0 then 0x80 else 0 {}
      forall i | 0 <= i < PIXELS ensures UnderSprite(s2, 0, 0, 15, i) <==> i == 0 { OneBitCovers(s2, 0, 0, 0, 15, i); }
    }
    assert once.display[0] == 0;
    assert Draw(once, 0, 0, 15, Behind(c.V)).display[at] == 1;
  }

  // ---------------------------------------------------------------- instructions

  /** A skip: the next instruction is passed over. */
  function Skip(c: Cpu, taken: bool): Cpu
    requires c.pc <= 0xFFFD
  {
    if taken then c.(pc := c.pc + 2) else c
  }

  function Call(c: Cpu, target: nat): Cpu
    requires c.Shaped() && target < 0x1000
  {
    if c.sp < STACK_SIZE then c.(stack := c.stack[c.sp := c.pc], sp := c.sp + 1, pc := target) else c.(pc := target)
  }

  function Return(c: Cpu): Cpu
    requires c.Shaped() && c.sp <= STACK_SIZE
  {
    if c.sp > 0 then c.(sp := c.sp - 1, pc := c.stack[c.sp - 1]) else c
  }

  /** A return undoes a call exactly when the call found room on the stack: with a full stack the
      call jumps without leaving a way back. */
  lemma ReturnUndoesCall(c: Cpu, target: nat)
    requires c.Shaped() && c.sp <= STACK_SIZE && target < 0x1000
    ensures var back := Return(Call(c, target));
            back.sp == c.sp && back.pc == c.pc <==> c.sp < STACK_SIZE
    ensures c.sp < STACK_SIZE ==> Return(Call(c, target)) == c.(stack := c.stack[c.sp := c.pc])
  {
  }

  /** The register-to-register instructions 8xyn. */
  function Arithmetic(V: seq<byte>, x: nat, y: nat, n: nat): (V': seq<byte>)
    requires |V| == REGS && x < REGS && y < REGS
    ensures |V'| == REGS
  {
    var a: int, b: int := V[x], V[y];
    match n
    case 0x0 => V[x := b]
    case 0x1 => V[x := Or(a, b)][VF := 0]
    case 0x2 => V[x := And(a, b)][VF := 0]
    case 0x3 => V[x := Xor(a, b)][VF := 0]
    case 0x4 => V[x := (a + b) % 0x100][VF := if a + b > 0xFF then 1 else 0]
    case 0x5 => V[x := (a - b) % 0x100][VF := if a >= b then 1 else 0]
    case 0x6 => V[x := a / 2][VF := a % 2]
    case 0x7 => V[x := (b - a) % 0x100][VF := if b >= a then 1 else 0]
    case 0xE => V[x := a * 2 % 0x100][VF := a / 0x80]
    case _ => V
  }

  lemma WrapsOnce(v: int)
    requires -0x100 <= v < 0x200
    ensures v % 0x100 == if v < 0 then v + 0x100 else if v >= 0x100 then v - 0x100 else v
  {
  }

  /** For a register other than VF, result and flag together are the exact sum: VF is the carry. */
  lemma AddIsExact(V: seq<byte>, x: nat, y: nat, a: int, b: int)
    requires |V| == REGS && x < VF && y < REGS && V[x] == a && V[y] == b
    ensures var r := Arithmetic(V, x, y, 0x4);
            var result: int, carry: int := r[x], r[VF];
            r == V[x := result][VF := carry] && result + 0x100 * carry == a + b && carry <= 1
  {
    WrapsOnce(a + b);
  }

  /** Likewise for both subtractions: VF is 1 when nothing was borrowed. */
  lemma SubtractIsExact(V: seq<byte>, x: nat, y: nat, a: int, b: int)
    requires |V| == REGS && x < VF && y < REGS && V[x] == a && V[y] == b
    ensures var r := Arithmetic(V, x, y, 0x5);
            var result: int, noBorrow: int := r[x], r[VF];
            r == V[x := result][VF := noBorrow] && result == a - b + 0x100 * (1 - noBorrow) && noBorrow <= 1
    ensures var r := Arithmetic(V, x, y, 0x7);
            var result: int, noBorrow: int := r[x], r[VF];
            r == V[x := result][VF := noBorrow] && result == b - a + 0x100 * (1 - noBorrow) && noBorrow <= 1
  {
    WrapsOnce(a - b);
    WrapsOnce(b - a);
  }

  /** And for both shifts: VF is the bit shifted out. */
  lemma ShiftIsExact(V: seq<byte>, x: nat, y: nat, a: int)
    requires |V| == REGS && x < VF && y < REGS && V[x] == a
    ensures var r := Arithmetic(V, x, y, 0x6);
            var result: int, out: int := r[x], r[VF];
            r == V[x := result][VF := out] && 2 * result + out == a && out <= 1
    ensures var r := Arithmetic(V, x, y, 0xE);
            var result: int, out: int := r[x], r[VF];
            r == V[x := result][VF := out] && result + 0x100 * out == 2 * a && out <= 1
  {
    WrapsOnce(a * 2);
  }

  /** Fx55: registers V0..Vx into memory from I, up to its end. */
  function Store(memory: seq<byte>, V: seq<byte>, I: nat, x: nat): (m: seq<byte>)
    requires x < |V|
    ensures |m| == |memory|
  {
    seq(|memory|, a requires 0 <= a < |memory| => if I <= a <= I + x then V[a - I] else memory[a])
  }

  /** Fx65: memory from I into V0..Vx, up to its end. */
  function Fetch(memory: seq<byte>, V: seq<byte>, I: nat, x: nat): (V': seq<byte>)
    ensures |V'| == |V|
  {
    seq(|V|, i requires 0 <= i < |V| => if i <= x && I + i < |memory| then memory[I + i] else V[i])
  }

  /** Storing registers and fetching them back is the identity when the block fits in memory. */
  lemma StoreThenFetch(memory: seq<byte>, V: seq<byte>, W: seq<byte>, I: nat, x: nat)
    requires x < |V| == |W| && I + x < |memory|
    ensures Fetch(Store(memory, V, I, x), W, I, x) == V[..x + 1] + W[x + 1..]
  {
  }

  function Miscellaneous(c: Cpu, x: nat, nn: byte): (c': Cpu)
    requires c.Shaped() && x < REGS
    ensures c'.Shaped()
  {
    match nn
    case 0x07 => c.(V := c.V[x := c.delay_timer])
    case 0x0A => c.(waiting_for_key := true, key_reg := x)
    case 0x15 => c.(delay_timer := c.V[x])
    case 0x18 => c.(sound_timer := c.V[x])
    case 0x1E => c.(I := (c.I + c.V[x]) % 0x1_0000)
    case 0x29 => c.(I := FONT_START + c.V[x] % 0x10 * 5)
    case 0x33 =>
      if c.I + 2 < MEM_SIZE then
        c.(memory := c.memory[c.I := c.V[x] / 100][c.I + 1 := c.V[x] / 10 % 10][c.I + 2 := c.V[x] % 10])
      else c
    case 0x55 => c.(memory := Store(c.memory, c.V, c.I, x))
    case 0x65 => c.(V := Fetch(c.memory, c.V, c.I, x))
    case _ => c
  }

  /** memory with the three decimal digits of v from I on, and nothing else changed. */
  ghost predicate HasDigits(m: seq<int>, memory: seq<int>, I: nat, v: int)
    requires |m| == |memory| && I + 2 < |m|
  {
    && 100 * m[I] + 10 * m[I + 1] + m[I + 2] == v && m[I] < 10 && m[I + 1] < 10 && m[I + 2] < 10
    && forall a :: 0 <= a < |m| && !(I <= a < I + 3) ==> m[a] == memory[a]
  }

  /** Fx33 writes the three decimal digits of a register, and nothing else; near the end of memory it
      writes nothing. */
  lemma DigitsOfRegister(c: Cpu, x: nat)
    requires c.Shaped() && x < REGS
    ensures var m := Miscellaneous(c, x, 0x33).memory;
            && |m| == MEM_SIZE
            && if c.I + 2 < MEM_SIZE then HasDigits(m, c.memory, c.I, c.V[x]) else m == c.memory
  {
  }

  /** One instruction, the program counter already past it. */
  ghost function Execute(c: Cpu, opcode: word, random: nat, beyond: nat -> byte): (c': Cpu)
    requires c.Shaped() && c.sp <= STACK_SIZE && c.pc <= MEM_SIZE
    ensures c'.Shaped()
  {
    var x, y, n, nn, nnn := OpX(opcode), OpY(opcode), OpN(opcode), OpNN(opcode), OpNNN(opcode);
    match opcode / 0x1000
    case 0x0 =>
      if opcode == 0x00E0 then c.(display := seq(PIXELS, i => 0), draw_flag := true)
      else if opcode == 0x00EE then Return(c)
      else c
    case 0x1 => c.(pc := nnn)
    case 0x2 => Call(c, nnn)
    case 0x3 => Skip(c, c.V[x] == nn)
    case 0x4 => Skip(c, c.V[x] != nn)
    case 0x5 => Skip(c, c.V[x] == c.V[y])
    case 0x6 => c.(V := c.V[x := nn])
    case 0x7 => c.(V := c.V[x := (c.V[x] + nn) % 0x100])
    case 0x8 => c.(V := Arithmetic(c.V, x, y, n))
    case 0x9 => Skip(c, c.V[x] != c.V[y])
    case 0xA => c.(I := nnn)
    case 0xB => c.(pc := nnn + c.V[0])
    case 0xC => c.(V := c.V[x := And(random % 0x100, nn)])
    case 0xD => Draw(c, x, y, n, beyond)
    case 0xE =>
      var pressed := c.V[x] < KEYS && c.keys[c.V[x]];
      if nn == 0x9E then Skip(c, pressed) else if nn == 0xA1 then Skip(c, !pressed) else c
    case _ => Miscellaneous(c, x, nn)
  }

  /** The lowest pressed key, KEYS when none is. */
  function FirstKey(keys: seq<bool>): (k: nat)
    ensures k <= |keys| && (k < |keys| ==> keys[k]) && forall j :: 0 <= j < k ==> !keys[j]
  {
    if keys == [] || keys[0] then 0 else 1 + FirstKey(keys[1..])
  }

  /** c8_cycle. */
  ghost function Cycle(c: Cpu, random: nat, beyond: nat -> byte): (c': Cpu)
    requires c.Shaped() && c.sp <= STACK_SIZE
    ensures c'.Shaped()
  {
    if !c.running then c
    else if c.waiting_for_key then
      var k := FirstKey(c.keys);
      if k < KEYS then c.(V := c.V[c.key_reg := k], waiting_for_key := false) else c
    else if c.pc >= MEM_SIZE - 1 then c.(running := false)
    else Execute(c.(pc := c.pc + 2), Opcode(c.memory[c.pc], c.memory[c.pc + 1]), random, beyond)
  }

  /** c8_tick_timers. */
  function TickTimers(c: Cpu): Cpu {
    c.(delay_timer := if c.delay_timer > 0 then c.delay_timer - 1 else 0,
       sound_timer := if c.sound_timer > 0 then c.sound_timer - 1 else 0)
  }

  /** k calls of c8_tick_timers. */
  function TickTimersBy(c: Cpu, k: nat): Cpu
    decreases k
  {
    if k == 0 then c else TickTimersBy(TickTimers(c), k - 1)
  }

  /** k ticks take k off both timers, but never below zero, and touch nothing else. */
  lemma {:induction false} TimersCountDown(c: Cpu, k: nat)
    ensures TickTimersBy(c, k) == c.(delay_timer := if c.delay_timer > k then c.delay_timer - k else 0,
                                     sound_timer := if c.sound_timer > k then c.sound_timer - k else 0)
    decreases k
  {
    if k > 0 { TimersCountDown(TickTimers(c), k - 1); }
  }

  // ---------------------------------------------------------------- runs

  /** What every run from c8_reset keeps: pixels are 0 or 1, the stack pointer is in range, and the
      program counter and every return address are at most 4350 = 0xFFF + 0xFF. */
  ghost predicate Inv(c: Cpu) {
    && c.Shaped() && c.sp <= STACK_SIZE && c.pc <= 4350
    && PixelsOk(c.display) && StackOk(c.stack)
  }

  ghost predicate PixelsOk(display: seq<byte>) {
    forall i :: 0 <= i < |display| ==> display[i] <= 1
  }

  ghost predicate StackOk(stack: seq<word>) {
    forall i :: 0 <= i < |stack| ==> stack[i] <= 4350
  }

  /** c8_reset, with the built-in font. */
  function Reset(font: seq<byte>): (c: Cpu)
    requires |font| == 80
    ensures c.Shaped()
  {
    Cpu(seq(MEM_SIZE, a => if FONT_START <= a < FONT_START + 80 then font[a - FONT_START] else 0),
        seq(REGS, i => 0), 0, PROG_START, seq(STACK_SIZE, i => 0), 0, 0, 0,
        seq(PIXELS, i => 0), seq(KEYS, i => false), true, false, 0, false)
  }

  /** c8_load_rom, once the file is read: as much of it as fits is copied behind the font. */
  function LoadRom(font: seq<byte>, rom: seq<byte>): (c: Cpu)
    requires |font| == 80
    ensures c.Shaped()
  {
    var c := Reset(font);
    c.(memory := seq(MEM_SIZE, a requires 0 <= a < MEM_SIZE =>
                   if PROG_START <= a < PROG_START + |rom| then rom[a - PROG_START] else c.memory[a]),
       running := rom != [])
  }

  datatype Event =
    | CycleEvent(random: nat, beyond: nat -> byte)
    | TimerEvent
    | KeysEvent(keys: seq<bool>)
    | RomEvent(font: seq<byte>, rom: seq<byte>)

  ghost function Step(c: Cpu, e: Event): Cpu
    requires Inv(c)
  {
    match e
    case CycleEvent(random, beyond) => Cycle(c, random, beyond)
    case TimerEvent => TickTimers(c)
    case KeysEvent(keys) => if |keys| == KEYS then c.(keys := keys) else c
    case RomEvent(font, rom) => if |font| == 80 then LoadRom(font, rom) else c
  }

  lemma DrawKeepsPixels(display: seq<byte>, sprite: nat -> byte, xpos: nat, ypos: nat, n: nat)
    requires PixelsOk(display)
    ensures PixelsOk(Drawn(display, sprite, xpos, ypos, n))
  {
    forall i | 0 <= i < |display| ensures Drawn(display, sprite, xpos, ypos, n)[i] <= 1 {
      FlipTwice(display[i]);
    }
  }

  lemma ExecuteKeepsPixels(c: Cpu, opcode: word, random: nat, beyond: nat -> byte)
    requires Inv(c) && c.pc <= MEM_SIZE
    ensures PixelsOk(Execute(c, opcode, random, beyond).display)
  {
    if opcode / 0x1000 == 0xD {
      var x, y, n := OpX(opcode), OpY(opcode), OpN(opcode);
      DrawKeepsPixels(c.display, SpriteAt(c.memory, beyond, c.I), c.V[x] % DISPLAY_W, c.V[y] % DISPLAY_H, n);
    } else if opcode == 0x00E0 {
    } else {
      assert Execute(c, opcode, random, beyond).display == c.display;
    }
  }

  lemma ExecuteKeepsControl(c: Cpu, opcode: word, random: nat, beyond: nat -> byte)
    requires Inv(c) && c.pc <= MEM_SIZE
    ensures var c' := Execute(c, opcode, random, beyond);
            c'.sp <= STACK_SIZE && c'.pc <= 4350 && StackOk(c'.stack)
  {
    var c' := Execute(c, opcode, random, beyond);
    if opcode / 0x1000 == 0x2 {
      assert StackOk(Call(c, OpNNN(opcode)).stack);
    } else if opcode / 0x1000 <= 0xE {
      OrdinaryControl(c, opcode, random, beyond);
    } else {
      MiscellaneousControl(c, OpX(opcode), OpNN(opcode));
    }
  }

  lemma MiscellaneousControl(c: Cpu, x: nat, nn: byte)
    requires c.Shaped() && x < REGS
    ensures var c' := Miscellaneous(c, x, nn); c'.sp == c.sp && c'.pc == c.pc && c'.stack == c.stack
  {
  }

  lemma OrdinaryControl(c: Cpu, opcode: word, random: nat, beyond: nat -> byte)
    requires Inv(c) && c.pc <= MEM_SIZE && opcode / 0x1000 <= 0xE && opcode / 0x1000 != 0x2
    ensures var c' := Execute(c, opcode, random, beyond);
            c'.sp <= c.sp && c'.pc <= 4350 && c'.stack == c.stack
  {
  }

  lemma ExecuteKeeps(c: Cpu, opcode: word, random: nat, beyond: nat -> byte) returns (c': Cpu)
    requires Inv(c) && c.pc <= MEM_SIZE
    ensures c' == Execute(c, opcode, random, beyond) && Inv(c')
  {
    c' := Execute(c, opcode, random, beyond);
    ExecuteKeepsPixels(c, opcode, random, beyond);
    ExecuteKeepsControl(c, opcode, random, beyond);
  }

  lemma CycleKeeps(c: Cpu, random: nat, beyond: nat -> byte)
    requires Inv(c)
    ensures Inv(Cycle(c, random, beyond))
  {
    if c.running && !c.waiting_for_key && c.pc < MEM_SIZE - 1 {
      var next := ExecuteKeeps(c.(pc := c.pc + 2), Opcode(c.memory[c.pc], c.memory[c.pc + 1]), random, beyond);
      assert Cycle(c, random, beyond) == next;
    }
  }

  lemma LoadRomKeeps(font: seq<byte>, rom: seq<byte>)
    requires |font| == 80
    ensures Inv(LoadRom(font, rom))
  {
  }

  lemma StepKeeps(c: Cpu, e: Event)
    requires Inv(c)
    ensures Inv(Step(c, e))
  {
    match e
    case CycleEvent(random, beyond) => CycleKeeps(c, random, beyond);
    case RomEvent(font, rom) => if |font| == 80 { LoadRomKeeps(font, rom); }
    case _ =>
  }

  ghost predicate Reaches(c: Cpu, events: seq<Event>, c': Cpu)
    requires Inv(c)
    decreases |events|
  {
    if events == [] then c == c'
    else
      StepKeeps(c, events[0]);
      Reaches(Step(c, events[0]), events[1..], c')
  }

  /** Whatever program is in memory, whatever keys and random numbers come in. */
  lemma {:induction false} EveryRunKeepsInv(c: Cpu, events: seq<Event>, c': Cpu)
    requires Inv(c) && Reaches(c, events, c')
    ensures Inv(c')
    decreases |events|
  {
    if events != [] {
      StepKeeps(c, events[0]);
      EveryRunKeepsInv(Step(c, events[0]), events[1..], c');
    }
  }

  /** From c8_reset on, whatever is loaded and executed: pixels stay 0 or 1, the stack pointer within the
      stack and the program counter at most 4350. */
  lemma EveryRunFromReset(font: seq<byte>, events: seq<Event>, c: Cpu)
    requires |font| == 80
    ensures Inv(Reset(font))
    ensures Reaches(Reset(font), events, c) ==>
              && c.sp <= STACK_SIZE && c.pc <= 4350 && |c.display| == PIXELS
              && forall i :: 0 <= i < PIXELS ==> c.display[i] == 0 || c.display[i] == 1
  {
    if Reaches(Reset(font), events, c) { EveryRunKeepsInv(Reset(font), events, c); }
  }

  /** The machine runs the one-instruction program CALL 0x200 at 0x200, k calls deep. */
  ghost predicate Calling(c: Cpu, k: nat) {
    && Inv(c) && c.running && !c.waiting_for_key && c.pc == PROG_START && c.sp == k
    && c.memory[PROG_START] == 0x22 && c.memory[PROG_START + 1] == 0x00
  }

  lemma CallsDeeper(c: Cpu, k: nat, beyond: nat -> byte)
    requires Calling(c, k)
    ensures Calling(Cycle(c, 0, beyond), if k < STACK_SIZE then k + 1 else k)
  {
    CycleKeeps(c, 0, beyond);
    assert Cycle(c, 0, beyond) == Call(c.(pc := PROG_START + 2), PROG_START);
  }

  lemma {:induction false} CallsUntilFull(c: Cpu, k: nat, beyond: nat -> byte) returns (events: seq<Event>, full: Cpu)
    requires Calling(c, k) && k <= STACK_SIZE
    ensures Reaches(c, events, full) && Calling(full, STACK_SIZE)
    decreases STACK_SIZE - k
  {
    if k == STACK_SIZE {
      events, full := [], c;
    } else {
      CallsDeeper(c, k, beyond);
      var rest;
      rest, full := CallsUntilFull(Cycle(c, 0, beyond), k + 1, beyond);
      events := [CycleEvent(0, beyond)] + rest;
      assert events[1..] == rest;
    }
  }

  /** A full stack is reached from reset, so the calls that a return does not undo do occur. */
  lemma FullStackIsReachable(font: seq<byte>, beyond: nat -> byte) returns (events: seq<Event>, c: Cpu)
    requires |font| == 80
    ensures Inv(Reset(font)) && Reaches(Reset(font), events, c) && c.sp == STACK_SIZE
    ensures c.Shaped() && Return(Call(c, PROG_START)).sp != c.sp
  {
    var loaded := LoadRom(font, [0x22, 0x00]);
    LoadRomKeeps(font, [0x22, 0x00]);
    var rest;
    rest, c := CallsUntilFull(loaded, 0, beyond);
    events := [RomEvent(font, [0x22, 0x00])] + rest;
    assert events[1..] == rest;
  }
}

/** The emulator core: the Chip8 structure and the functions that update it in place. */
module Chip8 {
  import opened Chip8State

  class Machine {
    const memory: array<byte>
    const V: array<byte>
    const stack: array<word>
    const display: array<byte>
    const keys: array<bool>
    var I: word
    var pc: word
    var sp: byte
    var delay_timer: byte
    var sound_timer: byte
    var draw_flag: bool
    var waiting_for_key: bool
    var key_reg: byte
    var running: bool

    ghost predicate Valid()
      reads this
    {
      && memory.Length == MEM_SIZE && V.Length == REGS && stack.Length == STACK_SIZE && display.Length == PIXELS
      && keys.Length == KEYS && key_reg < REGS && sp <= STACK_SIZE
      && memory != V && memory != display && V != display
    }

    ghost function View(): (c: Cpu)
      requires Valid()
      reads this, memory, V, stack, display, keys
      ensures c.Shaped()
    {
      Cpu(memory[..], V[..], I, pc, stack[..], sp, delay_timer, sound_timer, display[..], keys[..],
          draw_flag, waiting_for_key, key_reg, running)
    }

    /** c8_reset on a new structure, with the built-in font. */
    constructor (font: seq<byte>)
      requires |font| == 80
      ensures Valid() && Inv(View()) && fresh(memory) && fresh(V) && fresh(stack) && fresh(display) && fresh(keys)
      ensures View() == Reset(font)
    {
      memory := new byte[MEM_SIZE](a => if FONT_START <= a < FONT_START + 80 then font[a - FONT_START] else 0);
      V := new byte[REGS](i => 0);
      stack := new word[STACK_SIZE](i => 0);
      display := new byte[PIXELS](i => 0);
      keys := new bool[KEYS](i => false);
      I, pc, sp, delay_timer, sound_timer := 0, PROG_START, 0, 0, 0;
      draw_flag, waiting_for_key, key_reg, running := true, false, 0, false;
    }

    /** One sprite row: the inner loop of DRW. */
    method DrawRow(sprite: byte, xpos: nat, y: nat, ghost s: nat -> byte, ghost ypos: nat, ghost n: nat, ghost d0: seq<byte>)
      requires Valid() && xpos < DISPLAY_W && ypos <= y < DISPLAY_H && y - ypos < n && sprite == s(y - ypos)
      requires |d0| == PIXELS && Progress(display[..], V[VF], d0, s, xpos, ypos, n, y * DISPLAY_W)
      modifies display, V
      ensures Progress(display[..], V[VF], d0, s, xpos, ypos, n, (y + 1) * DISPLAY_W)
      ensures V[..] == old(V[..])[VF := V[VF]]
    {
      assert V[..] == V[..][VF := V[VF]];
      var col := 0;
      RowStart(display[..], V[VF], d0, s, xpos, ypos, n, y);
      while col < 8
        invariant col <= 8 && V[..] == old(V[..])[VF := V[VF]]
        invariant xpos + col <= DISPLAY_W
        invariant Progress(display[..], V[VF], d0, s, xpos, ypos, n, y * DISPLAY_W + xpos + col)
      {
        if xpos + col >= DISPLAY_W { break; }
        ghost var before, vf := display[..], V[VF];
        var idx := y * DISPLAY_W + (xpos + col);
        if SpriteBit(sprite, col) {
          if display[idx] != 0 {
            V[VF] := 1;
          }
          display[idx] := Flip(display[idx]);
        }
        PixelDone(before, vf, display[..], V[VF], d0, s, xpos, ypos, n, y, col);
        col := col + 1;
      }
      RowEnd(display[..], V[VF], d0, s, xpos, ypos, n, y, col);
    }

    /** DRW: the two nested loops. */
    method Draw(x: nat, y: nat, n: nat, beyond: nat -> byte)
      requires Valid() && x < REGS && y < REGS && n < 16
      modifies this`draw_flag, display, V
      ensures Valid() && View() == Chip8State.Draw(old(View()), x, y, n, beyond)
    {
      var xpos: nat, ypos: nat := V[x] % DISPLAY_W, V[y] % DISPLAY_H;
      ghost var m := memory[..];
      ghost var d0, V0, s := display[..], V[..], SpriteAt(m, beyond, I);
      V[VF] := 0;
      var row := 0;
      DrawStart(d0, s, xpos, ypos, n);
      while row < n
        invariant row <= n && ypos + row <= DISPLAY_H
        invariant V[..] == V0[VF := V[VF]] && memory[..] == m
        invariant Progress(display[..], V[VF], d0, s, xpos, ypos, n, (ypos + row) * DISPLAY_W)
      {
        if ypos + row >= DISPLAY_H { break; }
        var a := I + row;
        var sprite := if a < MEM_SIZE then memory[a] else beyond(a);
        assert s(row) == Load(m, beyond, a);
        DrawRow(sprite, xpos, ypos + row, s, ypos, n, d0);
        row := row + 1;
      }
      DrawEnd(display[..], V[VF], d0, s, xpos, ypos, n, ypos + row);
      draw_flag := true;
    }

    /** RET and CALL. */
    method Return()
      requires Valid()
      modifies this`sp, this`pc
      ensures Valid() && View() == Chip8State.Return(old(View()))
    {
      if sp > 0 {
        sp := sp - 1;
        pc := stack[sp];
      }
    }

    method Call(target: nat)
      requires Valid() && target < 0x1000
      modifies this`sp, this`pc, stack
      ensures Valid() && View() == Chip8State.Call(old(View()), target)
    {
      if sp < STACK_SIZE {
        stack[sp] := pc;
        sp := sp + 1;
      }
      pc := target;
    }

    /** The instructions 8xyn, each flag computed before the register is overwritten. */
    method Arithmetic(x: nat, y: nat, n: nat)
      requires Valid() && x < REGS && y < REGS
      modifies V
      ensures V[..] == Chip8State.Arithmetic(old(V[..]), x, y, n)
    {
      var a: int, b: int := V[x], V[y];
      match n
      case 0x0 => V[x] := V[y];
      case 0x1 => V[x] := Or(V[x], V[y]); V[VF] := 0;
      case 0x2 => V[x] := And(V[x], V[y]); V[VF] := 0;
      case 0x3 => V[x] := Xor(V[x], V[y]); V[VF] := 0;
      case 0x4 =>
        var sum := a + b;
        V[x] := sum % 0x100;
        V[VF] := if sum > 0xFF then 1 else 0;
      case 0x5 =>
        var flag := if V[x] >= V[y] then 1 else 0;
        V[x] := (a - b) % 0x100;
        V[VF] := flag;
      case 0x6 =>
        var flag := V[x] % 2;
        V[x] := V[x] / 2;
        V[VF] := flag;
      case 0x7 =>
        var flag := if V[y] >= V[x] then 1 else 0;
        V[x] := (b - a) % 0x100;
        V[VF] := flag;
      case 0xE =>
        var flag := V[x] / 0x80;
        V[x] := a * 2 % 0x100;
        V[VF] := flag;
      case _ =>
    }

    /** The loop of Fx55. */
    method Store(x: nat)
      requires Valid() && x < REGS
      modifies memory
      ensures memory[..] == Chip8State.Store(old(memory[..]), V[..], I, x)
    {
      var i := 0;
      while i <= x && I + i < MEM_SIZE
        invariant i <= x + 1 && (i > 0 ==> I + i <= MEM_SIZE)
        invariant forall a :: 0 <= a < MEM_SIZE ==> memory[a] == if I <= a < I + i then V[a - I] else old(memory[a])
      {
        memory[I + i] := V[i];
        i := i + 1;
      }
    }

    /** The loop of Fx65. */
    method Fetch(x: nat)
      requires Valid() && x < REGS
      modifies V
      ensures V[..] == Chip8State.Fetch(memory[..], old(V[..]), I, x)
    {
      var i := 0;
      while i <= x && I + i < MEM_SIZE
        invariant i <= x + 1 && (i > 0 ==> I + i <= MEM_SIZE)
        invariant forall j :: 0 <= j < REGS ==> V[j] == if j < i then memory[I + j] else old(V[j])
      {
        V[i] := memory[I + i];
        i := i + 1;
      }
    }

    method Miscellaneous(x: nat, nn: byte)
      requires Valid() && x < REGS
      modifies this`waiting_for_key, this`key_reg, this`delay_timer, this`sound_timer, this`I, V, memory
      ensures Valid() && View() == Chip8State.Miscellaneous(old(View()), x, nn)
    {
      match nn
      case 0x07 => V[x] := delay_timer;
      case 0x0A => waiting_for_key, key_reg := true, x;
      case 0x15 => delay_timer := V[x];
      case 0x18 => sound_timer := V[x];
      case 0x1E => I := (I + V[x]) % 0x1_0000;
      case 0x29 => I := FONT_START + V[x] % 0x10 * 5;
      case 0x33 =>
        if I + 2 < MEM_SIZE {
          memory[I] := V[x] / 100;
          memory[I + 1] := V[x] / 10 % 10;
          memory[I + 2] := V[x] % 10;
        }
      case 0x55 => Store(x);
      case 0x65 => Fetch(x);
      case _ =>
    }

    /** CLS. */
    method Clear()
      requires Valid()
      modifies this`draw_flag, display
      ensures display[..] == seq(PIXELS, i => 0) && draw_flag
    {
      forall i | 0 <= i < display.Length { display[i] := 0; }
      draw_flag := true;
    }

    method SkipIf(taken: bool)
      requires Valid() && pc <= 0xFFFD
      modifies this`pc
      ensures View() == Skip(old(View()), taken)
    {
      if taken { pc := pc + 2; }
    }

    method SetRegister(x: nat, value: byte)
      requires Valid() && x < REGS
      modifies V
      ensures V[..] == old(V[..])[x := value]
    {
      V[x] := value;
    }

    /** The skipping instructions of the switch. */
    method ExecuteSkip(opcode: word, ghost random: nat, ghost beyond: nat -> byte)
      requires Valid() && pc <= MEM_SIZE && opcode / 0x1000 in {0x3, 0x4, 0x5, 0x9, 0xE}
      modifies this`pc
      ensures Valid() && View() == Chip8State.Execute(old(View()), opcode, random, beyond)
    {
      var x, y, nn := OpX(opcode), OpY(opcode), OpNN(opcode);
      match opcode / 0x1000
      case 0x3 => SkipIf(V[x] == nn);
      case 0x4 => SkipIf(V[x] != nn);
      case 0x5 => SkipIf(V[x] == V[y]);
      case 0x9 => SkipIf(V[x] != V[y]);
      case _ =>
        if nn == 0x9E {
          SkipIf(V[x] < KEYS && keys[V[x]]);
        } else if nn == 0xA1 {
          SkipIf(V[x] >= KEYS || !keys[V[x]]);
        }
    }

    /** The instructions that load and compute registers. */
    method ExecuteLoad(opcode: word, random: nat, ghost beyond: nat -> byte)
      requires Valid() && pc <= MEM_SIZE && opcode / 0x1000 in {0x6, 0x7, 0x8, 0xA, 0xC}
      modifies this`I, V
      ensures Valid() && View() == Chip8State.Execute(old(View()), opcode, random, beyond)
    {
      var x, nn := OpX(opcode), OpNN(opcode);
      match opcode / 0x1000
      case 0x6 => SetRegister(x, nn);
      case 0x7 =>
        var sum: int := V[x];
        SetRegister(x, (sum + nn) % 0x100);
      case 0x8 => Arithmetic(x, OpY(opcode), OpN(opcode));
      case 0xA => I := OpNNN(opcode);
      case _ => SetRegister(x, And(random % 0x100, nn));
    }

    /** The switch of c8_cycle. */
    method Execute(opcode: word, random: nat, beyond: nat -> byte)
      requires Valid() && pc <= MEM_SIZE
      modifies this, V, memory, stack, display
      ensures Valid() && View() == Chip8State.Execute(old(View()), opcode, random, beyond)
    {
      match opcode / 0x1000
      case 0x0 => if opcode == 0x00E0 { Clear(); } else if opcode == 0x00EE { Return(); }
      case 0x1 => pc := OpNNN(opcode);
      case 0x2 => Call(OpNNN(opcode));
      case 0xB => pc := OpNNN(opcode) + V[0];
      case 0xD => Draw(OpX(opcode), OpY(opcode), OpN(opcode), beyond);
      case 0xF => Miscellaneous(OpX(opcode), OpNN(opcode));
      case _ =>
        if opcode / 0x1000 in {0x3, 0x4, 0x5, 0x9, 0xE} {
          ExecuteSkip(opcode, random, beyond);
        } else {
          ExecuteLoad(opcode, random, beyond);
        }
    }

    /** The key-wait loop: the lowest pressed key is taken. */
    method WaitForKey()
      requires Valid()
      modifies this`waiting_for_key, V
      ensures var k := FirstKey(keys[..]);
              if k < KEYS then V[..] == old(V[..])[key_reg := k] && !waiting_for_key
              else V[..] == old(V[..]) && waiting_for_key == old(waiting_for_key)
    {
      var i := 0;
      while i < KEYS
        invariant i <= KEYS && V[..] == old(V[..]) && waiting_for_key == old(waiting_for_key)
        invariant forall j :: 0 <= j < i ==> !keys[j]
      {
        if keys[i] {
          V[key_reg] := i;
          waiting_for_key := false;
          return;
        }
        i := i + 1;
      }
    }

    /** c8_cycle: what one call does to the machine is Cycle, so it keeps Inv. */
    method RunCycle(random: nat, beyond: nat -> byte)
      requires Valid()
      modifies this, V, memory, stack, display
      ensures Valid() && View() == Cycle(old(View()), random, beyond)
      ensures old(Inv(View())) ==> Inv(View())
    {
      ghost var before := View();
      if running {
        if waiting_for_key {
          WaitForKey();
        } else if pc >= MEM_SIZE - 1 {
          running := false;
        } else {
          var opcode := Opcode(memory[pc], memory[pc + 1]);
          pc := pc + 2;
          Execute(opcode, random, beyond);
        }
      }
      if Inv(before) { CycleKeeps(before, random, beyond); }
    }

    /** c8_tick_timers. */
    method Tick()
      requires Valid()
      modifies this`delay_timer, this`sound_timer
      ensures View() == TickTimers(old(View()))
    {
      if delay_timer > 0 { delay_timer := delay_timer - 1; }
      if sound_timer > 0 { sound_timer := sound_timer - 1; }
    }
  }

  /** The display and VF when the sprite has been applied to the pixels before index `upto`. */
  ghost predicate Progress(d: seq<byte>, vf: byte, d0: seq<byte>, s: nat -> byte, xpos: nat, ypos: nat, n: nat, upto: int) {
    && |d| == |d0| == PIXELS
    && (forall i :: 0 <= i < PIXELS ==>
          d[i] == if i < upto && UnderSprite(s, xpos, ypos, n, i) then Flip(d0[i]) else d0[i])
    && vf == if HitBefore(d0, s, xpos, ypos, n, upto) then 1 else 0
  }

  ghost predicate HitBefore(d0: seq<byte>, s: nat -> byte, xpos: nat, ypos: nat, n: nat, upto: int) {
    exists i :: 0 <= i < upto && i < |d0| && UnderSprite(s, xpos, ypos, n, i) && d0[i] != 0
  }

  /** Pixels between two bounds that the sprite does not cover change nothing. */
  lemma SkipPixels(d: seq<byte>, vf: byte, d0: seq<byte>, s: nat -> byte, xpos: nat, ypos: nat, n: nat, from: int, to: int)
    requires Progress(d, vf, d0, s, xpos, ypos, n, from) && from <= to
    requires forall i :: 0 <= i < PIXELS && from <= i < to ==> !UnderSprite(s, xpos, ypos, n, i)
    ensures Progress(d, vf, d0, s, xpos, ypos, n, to)
  {
    assert HitBefore(d0, s, xpos, ypos, n, from) ==> HitBefore(d0, s, xpos, ypos, n, to);
  }

  lemma RowStart(d: seq<byte>, vf: byte, d0: seq<byte>, s: nat -> byte, xpos: nat, ypos: nat, n: nat, y: nat)
    requires Progress(d, vf, d0, s, xpos, ypos, n, y * DISPLAY_W) && xpos < DISPLAY_W
    ensures Progress(d, vf, d0, s, xpos, ypos, n, y * DISPLAY_W + xpos)
  {
    SkipPixels(d, vf, d0, s, xpos, ypos, n, y * DISPLAY_W, y * DISPLAY_W + xpos);
  }

  lemma RowEnd(d: seq<byte>, vf: byte, d0: seq<byte>, s: nat -> byte, xpos: nat, ypos: nat, n: nat, y: nat, col: nat)
    requires Progress(d, vf, d0, s, xpos, ypos, n, y * DISPLAY_W + xpos + col)
    requires xpos + col <= DISPLAY_W && (col == 8 || xpos + col == DISPLAY_W)
    ensures Progress(d, vf, d0, s, xpos, ypos, n, (y + 1) * DISPLAY_W)
  {
    SkipPixels(d, vf, d0, s, xpos, ypos, n, y * DISPLAY_W + xpos + col, (y + 1) * DISPLAY_W);
  }

  lemma PixelDone(d: seq<byte>, vf: byte, d': seq<byte>, vf': byte, d0: seq<byte>, s: nat -> byte,
                  xpos: nat, ypos: nat, n: nat, y: nat, col: nat)
    requires Progress(d, vf, d0, s, xpos, ypos, n, y * DISPLAY_W + xpos + col)
    requires xpos + col < DISPLAY_W && col < 8 && ypos <= y < DISPLAY_H && y - ypos < n
    requires var idx := y * DISPLAY_W + xpos + col;
             if SpriteBit(s(y - ypos), col) then
               d' == d[idx := Flip(d[idx])] && vf' == (if d[idx] != 0 then 1 else vf)
             else d' == d && vf' == vf
    ensures Progress(d', vf', d0, s, xpos, ypos, n, y * DISPLAY_W + xpos + col + 1)
  {
    var idx := y * DISPLAY_W + xpos + col;
    assert idx / DISPLAY_W == y && idx % DISPLAY_W == xpos + col;
    assert UnderSprite(s, xpos, ypos, n, idx) <==> SpriteBit(s(y - ypos), col);
    assert d[idx] == d0[idx];
    HitStep(d0, s, xpos, ypos, n, idx);
  }

  lemma HitStep(d0: seq<byte>, s: nat -> byte, xpos: nat, ypos: nat, n: nat, idx: nat)
    requires idx < |d0|
    ensures HitBefore(d0, s, xpos, ypos, n, idx + 1) <==>
            HitBefore(d0, s, xpos, ypos, n, idx) || (UnderSprite(s, xpos, ypos, n, idx) && d0[idx] != 0)
  {
  }

  lemma DrawStart(d0: seq<byte>, s: nat -> byte, xpos: nat, ypos: nat, n: nat)
    requires |d0| == PIXELS
    ensures Progress(d0, 0, d0, s, xpos, ypos, n, ypos * DISPLAY_W)
  {
    forall i | 0 <= i < PIXELS && i < ypos * DISPLAY_W ensures !UnderSprite(s, xpos, ypos, n, i) {}
  }

  lemma DrawEnd(d: seq<byte>, vf: byte, d0: seq<byte>, s: nat -> byte, xpos: nat, ypos: nat, n: nat, y: nat)
    requires Progress(d, vf, d0, s, xpos, ypos, n, y * DISPLAY_W) && (y == ypos + n || y == DISPLAY_H)
    ensures d == Drawn(d0, s, xpos, ypos, n)
    ensures vf == if Collides(d0, s, xpos, ypos, n) then 1 else 0
  {
    forall i | 0 <= i < PIXELS && y * DISPLAY_W <= i ensures !UnderSprite(s, xpos, ypos, n, i) {}
    if y * DISPLAY_W <= PIXELS { SkipPixels(d, vf, d0, s, xpos, ypos, n, y * DISPLAY_W, PIXELS); }
  }
}
