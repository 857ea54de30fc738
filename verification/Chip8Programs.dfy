/** What CHIP-8 instructions and short programs do, said of the machine before and after in the terms of the
    instruction set: opcodes by their digits, registers by their values, bytes by their bits. */
module Chip8Programs {
  import opened Chip8State

  // ---------------------------------------------------------------- bits of a byte

  function TwoTo(i: nat): (p: nat)
    ensures p > 0
  {
    if i == 0 then 1 else 2 * TwoTo(i - 1)
  }

  /** Bit i of v, counted from the lowest. */
  predicate Bit(v: nat, i: nat) { v / TwoTo(i) % 2 == 1 }

  function Mask(i: nat): bv8
    requires i < 8
  {
    if i == 0 then 1 else if i == 1 then 2 else if i == 2 then 4 else if i == 3 then 8
    else if i == 4 then 16 else if i == 5 then 32 else if i == 6 then 64 else 128
  }

  function Weight(set_: bool, weight: nat): nat { if set_ then weight else 0 }

  lemma ByteIsSum(b: bv8)
    ensures b as int == Weight(b & 1 != 0, 1) + Weight(b & 2 != 0, 2) + Weight(b & 4 != 0, 4) + Weight(b & 8 != 0, 8)
                        + Weight(b & 16 != 0, 16) + Weight(b & 32 != 0, 32) + Weight(b & 64 != 0, 64)
                        + Weight(b & 128 != 0, 128)
  {
  }

  /** The word with value v. */
  lemma {:induction false} WordOf(v: nat) returns (b: bv8)
    requires v < 256
    ensures b as int == v
  {
    if v == 0 {
      b := 0;
    } else {
      b := WordOf(v - 1);
      NextWord(b);
      b := b + 1;
    }
  }

  lemma NextWord(b: bv8)
    requires b as int < 255
    ensures (b + 1) as int == b as int + 1
  {
  }

  lemma WordAndBack(b: bv8)
    ensures (b as int) as bv8 == b
  {
  }

  lemma ByteAndBack(v: byte)
    ensures (v as bv8) as int == v
  {
    var b := WordOf(v);
    WordAndBack(b);
  }

  lemma OneBitOff(v: nat, b: bool, rest: nat)
    requires v == Weight(b, 1) + 2 * rest
    ensures (v % 2 == 1 <==> b) && v / 2 == rest
  {
  }

  lemma LowBits(v: nat, b0: bool, b1: bool, b2: bool, b3: bool, rest: nat)
    requires v == Weight(b0, 1) + Weight(b1, 2) + Weight(b2, 4) + Weight(b3, 8) + 16 * rest
    ensures (v % 2 == 1 <==> b0) && (v / 2 % 2 == 1 <==> b1) && (v / 4 % 2 == 1 <==> b2) && (v / 8 % 2 == 1 <==> b3)
    ensures v / 16 == rest
  {
    var r3 := Weight(b3, 1) + 2 * rest;
    var r2 := Weight(b2, 1) + 2 * r3;
    var r1 := Weight(b1, 1) + 2 * r2;
    OneBitOff(v, b0, r1);
    OneBitOff(r1, b1, r2);
    OneBitOff(r2, b2, r3);
    OneBitOff(r3, b3, rest);
    hide Weight;
    assert v / 4 == v / 2 / 2 && v / 8 == v / 4 / 2 && v / 16 == v / 8 / 2;
  }

  lemma SumHasBits(v: nat, b0: bool, b1: bool, b2: bool, b3: bool, b4: bool, b5: bool, b6: bool, b7: bool)
    requires v == Weight(b0, 1) + Weight(b1, 2) + Weight(b2, 4) + Weight(b3, 8) + Weight(b4, 16) + Weight(b5, 32)
                  + Weight(b6, 64) + Weight(b7, 128)
    ensures (v % 2 == 1 <==> b0) && (v / 2 % 2 == 1 <==> b1) && (v / 4 % 2 == 1 <==> b2) && (v / 8 % 2 == 1 <==> b3)
    ensures (v / 16 % 2 == 1 <==> b4) && (v / 32 % 2 == 1 <==> b5) && (v / 64 % 2 == 1 <==> b6) && (v / 128 % 2 == 1 <==> b7)
  {
    var high := Weight(b4, 1) + Weight(b5, 2) + Weight(b6, 4) + Weight(b7, 8);
    LowBits(v, b0, b1, b2, b3, high);
    LowBits(high, b4, b5, b6, b7, 0);
    hide Weight;
    assert v / 32 == v / 16 / 2 && v / 64 == v / 16 / 4 && v / 128 == v / 16 / 8;
  }

  lemma Powers()
    ensures TwoTo(0) == 1 && TwoTo(1) == 2 && TwoTo(2) == 4 && TwoTo(3) == 8
    ensures TwoTo(4) == 16 && TwoTo(5) == 32 && TwoTo(6) == 64 && TwoTo(7) == 128
  {
    assert TwoTo(3) == 8 && TwoTo(6) == 64;
  }

  lemma BitIsMasked(v: byte, i: nat)
    requires i < 8
    ensures Bit(v, i) <==> (v as bv8) & Mask(i) != 0
  {
    ByteAndBack(v);
    WordBits(v as bv8, v, i);
  }

  lemma WordBits(b: bv8, v: nat, i: nat)
    requires i < 8 && b as int == v
    ensures Bit(v, i) <==> b & Mask(i) != 0
  {
    ByteIsSum(b);
    SumHasBits(v, b & 1 != 0, b & 2 != 0, b & 4 != 0, b & 8 != 0, b & 16 != 0, b & 32 != 0, b & 64 != 0, b & 128 != 0);
    hide Weight;
    Powers();
  }

  lemma MaskedOr(a: bv8, b: bv8, m: bv8)
    ensures (a | b) & m != 0 <==> a & m != 0 || b & m != 0
  {
  }

  lemma MaskedAnd(a: bv8, b: bv8, i: nat)
    requires i < 8
    ensures (a & b) & Mask(i) != 0 <==> a & Mask(i) != 0 && b & Mask(i) != 0
  {
  }

  lemma MaskedXor(a: bv8, b: bv8, i: nat)
    requires i < 8
    ensures (a ^ b) & Mask(i) != 0 <==> (a & Mask(i) != 0) != (b & Mask(i) != 0)
  {
  }

  /** Or, and and xor act bit by bit. */
  lemma BitByBit(a: byte, b: byte, i: nat)
    requires i < 8
    ensures Bit(Or(a, b), i) <==> Bit(a, i) || Bit(b, i)
    ensures Bit(And(a, b), i) <==> Bit(a, i) && Bit(b, i)
    ensures Bit(Xor(a, b), i) <==> Bit(a, i) != Bit(b, i)
  {
    OrBits(a, b, i);
    AndBits(a, b, i);
    XorBits(a, b, i);
  }

  lemma OrWords(x: bv8, y: bv8, i: nat)
    requires i < 8
    ensures Bit((x | y) as int, i) <==> Bit(x as int, i) || Bit(y as int, i)
  {
    WordBits(x, x as int, i);
    WordBits(y, y as int, i);
    WordBits(x | y, (x | y) as int, i);
    hide Bit, Mask;
    MaskedOr(x, y, Mask(i));
  }

  lemma OrBits(a: byte, b: byte, i: nat)
    requires i < 8
    ensures Bit(Or(a, b), i) <==> Bit(a, i) || Bit(b, i)
  {
    ByteAndBack(a);
    ByteAndBack(b);
    OrWords(a as bv8, b as bv8, i);
    hide Bit;
  }

  lemma AndWords(x: bv8, y: bv8, i: nat)
    requires i < 8
    ensures Bit((x & y) as int, i) <==> Bit(x as int, i) && Bit(y as int, i)
  {
    WordBits(x, x as int, i);
    WordBits(y, y as int, i);
    WordBits(x & y, (x & y) as int, i);
    hide Bit, Mask;
    MaskedAnd(x, y, i);
  }

  lemma AndBits(a: byte, b: byte, i: nat)
    requires i < 8
    ensures Bit(And(a, b), i) <==> Bit(a, i) && Bit(b, i)
  {
    ByteAndBack(a);
    ByteAndBack(b);
    AndWords(a as bv8, b as bv8, i);
    hide Bit;
  }

  lemma XorWords(x: bv8, y: bv8, i: nat)
    requires i < 8
    ensures Bit((x ^ y) as int, i) <==> Bit(x as int, i) != Bit(y as int, i)
  {
    WordBits(x, x as int, i);
    WordBits(y, y as int, i);
    WordBits(x ^ y, (x ^ y) as int, i);
    hide Bit, Mask;
    MaskedXor(x, y, i);
  }

  lemma XorBits(a: byte, b: byte, i: nat)
    requires i < 8
    ensures Bit(Xor(a, b), i) <==> Bit(a, i) != Bit(b, i)
  {
    ByteAndBack(a);
    ByteAndBack(b);
    XorWords(a as bv8, b as bv8, i);
    hide Bit;
  }

  lemma ShiftedMask(col: nat)
    requires col < 8
    ensures (0x80 as bv8) >> col == Mask(7 - col)
  {
  }

  /** The columns of a sprite row from left to right are its bits from the highest to the lowest. */
  lemma SpriteColumns(sprite: byte, col: nat)
    requires col < 8
    ensures SpriteBit(sprite, col) <==> Bit(sprite, 7 - col)
  {
    BitIsMasked(sprite, 7 - col);
    ShiftedMask(col);
  }

  // ---------------------------------------------------------------- opcodes

  predicate Digit(d: nat) { d < 16 }

  /** The opcode written with these four hexadecimal digits. */
  function Op(d3: nat, d2: nat, d1: nat, d0: nat): word
    requires Digit(d3) && Digit(d2) && Digit(d1) && Digit(d0)
  {
    4096 * d3 + 256 * d2 + 16 * d1 + d0
  }

  lemma LastDigit(q: nat, d: nat)
    requires Digit(d)
    ensures (16 * q + d) / 16 == q && (16 * q + d) % 16 == d
  {
  }

  lemma OpIsSplit(d3: nat, d2: nat, d1: nat, d0: nat)
    requires Digit(d3) && Digit(d2) && Digit(d1) && Digit(d0)
    ensures var op := Op(d3, d2, d1, d0);
            op % 16 == d0 && op / 16 == 256 * d3 + 16 * d2 + d1 && op / 256 == 16 * d3 + d2 && op / 4096 == d3
  {
    var q2 := 16 * d3 + d2;
    var q1 := 16 * q2 + d1;
    LastDigit(q1, d0);
    LastDigit(q2, d1);
    LastDigit(d3, d2);
    var op := Op(d3, d2, d1, d0);
    assert op == 16 * q1 + d0;
    assert op / 256 == op / 16 / 16 && op / 4096 == op / 256 / 16;
  }

  lemma LastByte(op: nat, q: nat, r: nat)
    requires op == 256 * q + r && r < 256
    ensures op % 256 == r
  {
  }

  lemma LastThree(op: nat, q: nat, r: nat)
    requires op == 4096 * q + r && r < 4096
    ensures op % 4096 == r
  {
  }

  lemma OpIsRead(d3: nat, d2: nat, d1: nat, d0: nat)
    requires Digit(d3) && Digit(d2) && Digit(d1) && Digit(d0)
    ensures var op := Op(d3, d2, d1, d0);
            && op / 0x1000 == d3 && OpX(op) == d2 && OpY(op) == d1 && OpN(op) == d0
            && OpNN(op) == 16 * d1 + d0 && OpNNN(op) == 256 * d2 + 16 * d1 + d0
  {
    var op := Op(d3, d2, d1, d0);
    OpIsSplit(d3, d2, d1, d0);
    LastDigit(d3, d2);
    LastDigit(16 * d3 + d2, d1);
    LastByte(op, 16 * d3 + d2, 16 * d1 + d0);
    LastThree(op, d3, 256 * d2 + 16 * d1 + d0);
  }

  /** The machine can take another instruction. */
  ghost predicate Runs(c: Cpu) {
    c.Shaped() && c.sp <= 16 && c.pc < 4095 && c.running && !c.waiting_for_key
  }

  /** The opcode is at the program counter, high byte first. */
  ghost predicate At(c: Cpu, op: word)
    requires Runs(c)
  {
    c.memory[c.pc] == op / 256 && c.memory[c.pc + 1] == op % 256
  }

  /** One cycle: the opcode at the program counter is executed, the counter already past it. */
  lemma CycleExecutes(c: Cpu, op: word, random: nat, beyond: nat -> byte)
    requires Runs(c) && At(c, op)
    ensures Cycle(c, random, beyond) == Execute(c.(pc := c.pc + 2), op, random, beyond)
  {
    TwoBytes(op);
    hide Execute;
  }

  lemma TwoBytes(op: word)
    ensures Opcode(op / 256, op % 256) == op
  {
  }

  /** A machine that is not running, waits for a key none of which is pressed, or has run off the end of memory
      executes nothing; in the last case it stops. */
  lemma CycleHalts(c: Cpu, random: nat, beyond: nat -> byte)
    requires c.Shaped() && c.sp <= 16
    ensures !c.running ==> Cycle(c, random, beyond) == c
    ensures c.running && c.waiting_for_key && (forall k :: 0 <= k < 16 ==> !c.keys[k]) ==> Cycle(c, random, beyond) == c
    ensures c.running && !c.waiting_for_key && c.pc >= 4095 ==> Cycle(c, random, beyond) == c.(running := false)
  {
  }

  /** Fx0A waits for a key; the cycle in which the first keys are found pressed puts the lowest of them in Vx. */
  lemma WaitsForKey(c: Cpu, x: nat, keys: seq<bool>, k: nat, random: nat, beyond: nat -> byte)
    requires Runs(c) && x < 16 && At(c, Op(15, x, 0, 10))
    requires |keys| == 16 && k < 16 && keys[k] && forall j :: 0 <= j < k ==> !keys[j]
    ensures var waits := Cycle(c, random, beyond);
            && waits == c.(pc := c.pc + 2, waiting_for_key := true, key_reg := x)
            && Cycle(waits.(keys := keys), random, beyond)
               == c.(pc := c.pc + 2, key_reg := x, keys := keys, V := c.V[x := k])
  {
    OpIsRead(15, x, 0, 10);
    CycleExecutes(c, Op(15, x, 0, 10), random, beyond);
    FirstIs(keys, k);
  }

  lemma FirstIs(keys: seq<bool>, k: nat)
    requires k < |keys| && keys[k] && forall j :: 0 <= j < k ==> !keys[j]
    ensures FirstKey(keys) == k
  {
    var f := FirstKey(keys);
    assert f >= k && f <= k;
  }

  // ---------------------------------------------------------------- jumps and skips

  /** What an instruction does to machine c, program counter included. */
  ghost function Does(c: Cpu, op: word, random: nat, beyond: nat -> byte): Cpu
    requires Runs(c)
  {
    Execute(c.(pc := c.pc + 2), op, random, beyond)
  }

  ghost function Skips(c: Cpu): Cpu
    requires c.pc < 4095
  {
    c.(pc := c.pc + 4)
  }

  ghost function GoesOn(c: Cpu): Cpu
    requires c.pc < 4095
  {
    c.(pc := c.pc + 2)
  }

  /** Of 3xnn and 4xnn exactly one skips, the first when Vx is nn; of 5xy0 and 9xy0, the first when the registers
      are equal. */
  lemma OneOfTwoSkips(c: Cpu, x: nat, y: nat, n: nat, random: nat, beyond: nat -> byte)
    requires Runs(c) && x < 16 && y < 16 && n < 16
    ensures if c.V[x] == 16 * y + n
            then Does(c, Op(3, x, y, n), random, beyond) == Skips(c) && Does(c, Op(4, x, y, n), random, beyond) == GoesOn(c)
            else Does(c, Op(3, x, y, n), random, beyond) == GoesOn(c) && Does(c, Op(4, x, y, n), random, beyond) == Skips(c)
    ensures if c.V[x] == c.V[y]
            then Does(c, Op(5, x, y, 0), random, beyond) == Skips(c) && Does(c, Op(9, x, y, 0), random, beyond) == GoesOn(c)
            else Does(c, Op(5, x, y, 0), random, beyond) == GoesOn(c) && Does(c, Op(9, x, y, 0), random, beyond) == Skips(c)
  {
    OpIsRead(3, x, y, n);
    OpIsRead(4, x, y, n);
    OpIsRead(5, x, y, 0);
    OpIsRead(9, x, y, 0);
    hide Op, OpX, OpY, OpN, OpNN, OpNNN;
  }

  /** Of Ex9E and ExA1 exactly one skips, the first when Vx names a key that is pressed. */
  lemma OneOfTwoSkipsOnKey(c: Cpu, x: nat, random: nat, beyond: nat -> byte)
    requires Runs(c) && x < 16
    ensures if c.V[x] < 16 && c.keys[c.V[x]]
            then Does(c, Op(14, x, 9, 14), random, beyond) == Skips(c)
                 && Does(c, Op(14, x, 10, 1), random, beyond) == GoesOn(c)
            else Does(c, Op(14, x, 9, 14), random, beyond) == GoesOn(c)
                 && Does(c, Op(14, x, 10, 1), random, beyond) == Skips(c)
  {
    OpIsRead(14, x, 9, 14);
    OpIsRead(14, x, 10, 1);
    hide Op, OpX, OpY, OpN, OpNN, OpNNN;
  }

  /** 6xnn puts nn in Vx, so that 3xnn behind it always skips and 4xnn never does. */
  lemma LoadThenSkip(c: Cpu, x: nat, d1: nat, d0: nat, random: nat, beyond: nat -> byte)
    requires Runs(c) && x < 16 && d1 < 16 && d0 < 16 && c.pc < 4093
    ensures var loaded := Does(c, Op(6, x, d1, d0), random, beyond);
            && loaded == GoesOn(c).(V := c.V[x := 16 * d1 + d0])
            && Does(loaded, Op(3, x, d1, d0), random, beyond) == Skips(loaded)
            && Does(loaded, Op(4, x, d1, d0), random, beyond) == GoesOn(loaded)
  {
    OpIsRead(6, x, d1, d0);
    hide Op, OpX, OpY, OpN, OpNN, OpNNN;
    var loaded := GoesOn(c).(V := c.V[x := 16 * d1 + d0]);
    assert Does(c, Op(6, x, d1, d0), random, beyond) == loaded;
    hide Does, Op;
    OneOfTwoSkips(loaded, x, d1, d0, random, beyond);
  }

  /** 1nnn and Bnnn jump to the address in the opcode, the latter with V0 added, and Annn loads it. */
  lemma Addresses(c: Cpu, d2: nat, d1: nat, d0: nat, random: nat, beyond: nat -> byte)
    requires Runs(c) && d2 < 16 && d1 < 16 && d0 < 16
    ensures var nnn := 256 * d2 + 16 * d1 + d0;
            && Does(c, Op(1, d2, d1, d0), random, beyond) == c.(pc := nnn)
            && Does(c, Op(10, d2, d1, d0), random, beyond) == GoesOn(c).(I := nnn)
            && Does(c, Op(11, d2, d1, d0), random, beyond) == c.(pc := nnn + c.V[0])
  {
    OpIsRead(1, d2, d1, d0);
    OpIsRead(10, d2, d1, d0);
    OpIsRead(11, d2, d1, d0);
    hide Op, OpX, OpY, OpN, OpNN, OpNNN;
  }

  lemma CallGoes(c: Cpu, d2: nat, d1: nat, d0: nat, random: nat, beyond: nat -> byte)
    requires Runs(c) && d2 < 16 && d1 < 16 && d0 < 16
    ensures c.sp < 16 ==> Does(c, Op(2, d2, d1, d0), random, beyond)
                          == c.(pc := 256 * d2 + 16 * d1 + d0, sp := c.sp + 1, stack := c.stack[c.sp := c.pc + 2])
    ensures c.sp == 16 ==> Does(c, Op(2, d2, d1, d0), random, beyond) == c.(pc := 256 * d2 + 16 * d1 + d0)
  {
    OpIsRead(2, d2, d1, d0);
    var target := 256 * d2 + 16 * d1 + d0;
    hide Op, OpX, OpY, OpN, OpNN, OpNNN, Does;
    CallExecutes(c, Op(2, d2, d1, d0), target, random, beyond);
  }

  lemma CallExecutes(c: Cpu, op: word, target: nat, random: nat, beyond: nat -> byte)
    requires Runs(c) && op / 0x1000 == 2 && OpNNN(op) == target < 4096
    ensures c.sp < 16 ==> Does(c, op, random, beyond)
                          == c.(pc := target, sp := c.sp + 1, stack := c.stack[c.sp := c.pc + 2])
    ensures c.sp == 16 ==> Does(c, op, random, beyond) == c.(pc := target)
  {
    hide OpX, OpY, OpN, OpNN, OpNNN, Miscellaneous, Arithmetic, Draw;
  }

  lemma ReturnGoes(c: Cpu, random: nat, beyond: nat -> byte)
    requires Runs(c)
    ensures c.sp > 0 ==> Does(c, Op(0, 0, 14, 14), random, beyond) == c.(sp := c.sp - 1, pc := c.stack[c.sp - 1])
    ensures c.sp == 0 ==> Does(c, Op(0, 0, 14, 14), random, beyond) == GoesOn(c)
  {
    assert Op(0, 0, 14, 14) == 0x00EE;
    hide Op, Miscellaneous, Arithmetic, Draw, Call, OpX, OpY, OpN, OpNN, OpNNN;
  }

  /** 2nnn jumps to the address; with room on the stack, 00EE from anywhere behind it comes back to the
      instruction after the call, whatever has happened to the registers. */
  lemma CallThenReturn(c: Cpu, d2: nat, d1: nat, d0: nat, pc: word, V: seq<byte>, random: nat, beyond: nat -> byte)
    requires Runs(c) && d2 < 16 && d1 < 16 && d0 < 16 && c.sp < 16 && pc < 4095 && |V| == 16
    ensures var called := Does(c, Op(2, d2, d1, d0), random, beyond);
            && called.pc == 256 * d2 + 16 * d1 + d0 && Runs(called.(pc := pc, V := V))
            && Does(called.(pc := pc, V := V), Op(0, 0, 14, 14), random, beyond)
               == GoesOn(c).(V := V, stack := c.stack[c.sp := c.pc + 2])
  {
    CallGoes(c, d2, d1, d0, random, beyond);
    var called := c.(pc := 256 * d2 + 16 * d1 + d0, sp := c.sp + 1, stack := c.stack[c.sp := c.pc + 2]);
    hide Does, Op;
    ReturnGoes(called.(pc := pc, V := V), random, beyond);
  }

  // ---------------------------------------------------------------- registers

  lemma AddWraps(c: Cpu, op: word, x: nat, nn: byte, random: nat, beyond: nat -> byte)
    requires Runs(c) && op / 0x1000 == 7 && OpX(op) == x < 16 && OpNN(op) == nn
    ensures Does(c, op, random, beyond)
            == GoesOn(c).(V := c.V[x := if c.V[x] + nn < 256 then c.V[x] + nn else c.V[x] + nn - 256])
  {
    WrapsOnce(c.V[x] + nn);
    hide OpX, OpY, OpN, OpNN, OpNNN, Miscellaneous, Arithmetic, Draw;
  }

  /** 7xnn adds modulo 256 and leaves VF alone. */
  lemma AddImmediate(c: Cpu, x: nat, d1: nat, d0: nat, random: nat, beyond: nat -> byte)
    requires Runs(c) && x < 16 && d1 < 16 && d0 < 16
    ensures var nn, c' := 16 * d1 + d0, Does(c, Op(7, x, d1, d0), random, beyond);
            && |c'.V| == 16 && c' == GoesOn(c).(V := c.V[x := c'.V[x]])
            && c'.V[x] == if c.V[x] + nn < 256 then c.V[x] + nn else c.V[x] + nn - 256
  {
    OpIsRead(7, x, d1, d0);
    var nn := 16 * d1 + d0;
    hide Does, Op, OpX, OpNN;
    AddWraps(c, Op(7, x, d1, d0), x, nn, random, beyond);
  }

  /** 8xy0 copies Vy to Vx. */
  lemma CopyRegister(c: Cpu, x: nat, y: nat, random: nat, beyond: nat -> byte)
    requires Runs(c) && x < 16 && y < 16
    ensures Does(c, Op(8, x, y, 0), random, beyond) == GoesOn(c).(V := c.V[x := c.V[y]])
  {
    OpIsRead(8, x, y, 0);
    hide Op, OpX, OpY, OpN, OpNN, OpNNN;
  }

  /** 8xy1, 8xy2 and 8xy3 are or, and and xor, bit by bit, and clear VF. */
  lemma LogicIsBitwise(c: Cpu, x: nat, y: nat, i: nat, random: nat, beyond: nat -> byte)
    requires Runs(c) && x < 15 && y < 16 && i < 8
    ensures var r := Does(c, Op(8, x, y, 1), random, beyond);
            |r.V| == 16 && r == GoesOn(c).(V := c.V[x := r.V[x]][15 := 0])
            && (Bit(r.V[x], i) <==> Bit(c.V[x], i) || Bit(c.V[y], i))
    ensures var r := Does(c, Op(8, x, y, 2), random, beyond);
            |r.V| == 16 && r == GoesOn(c).(V := c.V[x := r.V[x]][15 := 0])
            && (Bit(r.V[x], i) <==> Bit(c.V[x], i) && Bit(c.V[y], i))
    ensures var r := Does(c, Op(8, x, y, 3), random, beyond);
            |r.V| == 16 && r == GoesOn(c).(V := c.V[x := r.V[x]][15 := 0])
            && (Bit(r.V[x], i) <==> Bit(c.V[x], i) != Bit(c.V[y], i))
  {
    OpIsRead(8, x, y, 1);
    OpIsRead(8, x, y, 2);
    OpIsRead(8, x, y, 3);
    hide Op, OpX, OpY, OpN, OpNN, OpNNN;
    BitByBit(c.V[x], c.V[y], i);
    hide Bit, Or, And, Xor;
  }

  /** 8xy3 with the same operands twice restores Vx, VF being 0 afterwards. */
  lemma XorTwiceRestores(c: Cpu, x: nat, y: nat, random: nat, beyond: nat -> byte)
    requires Runs(c) && x < 15 && y < 15 && x != y && c.pc < 4093
    ensures var once := Does(c, Op(8, x, y, 3), random, beyond);
            Runs(once) && Does(once, Op(8, x, y, 3), random, beyond) == c.(pc := c.pc + 4, V := c.V[15 := 0])
  {
    OpIsRead(8, x, y, 3);
    hide Op, OpX, OpY, OpN, OpNN, OpNNN;
    XorBack(c.V[x], c.V[y]);
    var once := GoesOn(c).(V := c.V[x := Xor(c.V[x], c.V[y])][15 := 0]);
    assert Does(c, Op(8, x, y, 3), random, beyond) == once;
    hide Op, Xor;
    assert once.V[x] == Xor(c.V[x], c.V[y]) && once.V[y] == c.V[y];
    assert once.V[x := c.V[x]][15 := 0] == c.V[15 := 0];
  }

  lemma XorWordsBack(a: bv8, b: bv8)
    ensures (a ^ b) ^ b == a
  {
  }

  lemma XorBack(a: byte, b: byte)
    ensures Xor(Xor(a, b), b) == a
  {
    ByteAndBack(a);
    XorWordsBack(a as bv8, b as bv8);
    WordAndBack((a as bv8) ^ (b as bv8));
  }

  /** Cxnn keeps of the random byte the bits that are set in nn. */
  lemma RandomIsMasked(c: Cpu, x: nat, d1: nat, d0: nat, i: nat, random: nat, beyond: nat -> byte)
    requires Runs(c) && x < 16 && d1 < 16 && d0 < 16 && i < 8
    ensures var c' := Does(c, Op(12, x, d1, d0), random, beyond);
            && |c'.V| == 16 && c' == GoesOn(c).(V := c.V[x := c'.V[x]])
            && (Bit(c'.V[x], i) <==> Bit(random % 256, i) && Bit(16 * d1 + d0, i))
  {
    OpIsRead(12, x, d1, d0);
    hide Op, OpX, OpY, OpN, OpNN, OpNNN;
    AndBits(random % 256, 16 * d1 + d0, i);
    hide Bit, And;
  }

  // ---------------------------------------------------------------- timers, memory and display

  lemma TimerIsSet(c: Cpu, x: nat, random: nat, beyond: nat -> byte)
    requires Runs(c) && x < 16
    ensures Does(c, Op(15, x, 1, 5), random, beyond) == GoesOn(c).(delay_timer := c.V[x])
  {
    OpIsRead(15, x, 1, 5);
    hide Op, OpX, OpY, OpN, OpNN, OpNNN;
  }

  lemma TimerIsRead(c: Cpu, x: nat, random: nat, beyond: nat -> byte)
    requires Runs(c) && x < 16
    ensures Does(c, Op(15, x, 0, 7), random, beyond) == GoesOn(c).(V := c.V[x := c.delay_timer])
  {
    OpIsRead(15, x, 0, 7);
    hide Op, OpX, OpY, OpN, OpNN, OpNNN;
  }

  /** Fx15 then Fy07 moves a register; k timer ticks in between count it down, to 0 at the lowest. */
  lemma TimerMovesRegister(c: Cpu, x: nat, y: nat, k: nat, random: nat, beyond: nat -> byte)
    requires Runs(c) && x < 16 && y < 16 && c.pc < 4093
    ensures var started := Does(c, Op(15, x, 1, 5), random, beyond);
            && started == GoesOn(c).(delay_timer := c.V[x])
            && var ticked := TickTimersBy(started, k);
            && Runs(ticked)
            && Does(ticked, Op(15, y, 0, 7), random, beyond)
               == GoesOn(ticked).(V := c.V[y := if c.V[x] > k then c.V[x] - k else 0])
  {
    var started := GoesOn(c).(delay_timer := c.V[x]);
    TimerIsSet(c, x, random, beyond);
    TimersCountDown(started, k);
    hide Does, Op, TickTimersBy;
    TimerIsRead(TickTimersBy(started, k), y, random, beyond);
  }

  /** Fx18 sets the sound timer. */
  lemma SoundIsSet(c: Cpu, x: nat, random: nat, beyond: nat -> byte)
    requires Runs(c) && x < 16
    ensures Does(c, Op(15, x, 1, 8), random, beyond) == GoesOn(c).(sound_timer := c.V[x])
  {
    OpIsRead(15, x, 1, 8);
    hide Op, OpX, OpY, OpN, OpNN, OpNNN;
  }

  /** Fxnn is the instruction nn of the last group. */
  lemma MiscellaneousInstruction(c: Cpu, x: nat, d1: nat, d0: nat, random: nat, beyond: nat -> byte)
    requires Runs(c) && x < 16 && d1 < 16 && d0 < 16
    ensures Does(c, Op(15, x, d1, d0), random, beyond) == Miscellaneous(GoesOn(c), x, 16 * d1 + d0)
  {
    OpIsRead(15, x, d1, d0);
    hide Op, OpX, OpY, OpN, OpNN, OpNNN, Miscellaneous;
  }

  /** Fx1E adds Vx to I modulo 65536 and leaves VF alone. */
  lemma AddToAddress(c: Cpu, x: nat, random: nat, beyond: nat -> byte)
    requires Runs(c) && x < 16
    ensures Does(c, Op(15, x, 1, 14), random, beyond)
            == GoesOn(c).(I := if c.I + c.V[x] < 65536 then c.I + c.V[x] else c.I + c.V[x] - 65536)
  {
    MiscellaneousInstruction(c, x, 1, 14, random, beyond);
    hide Does, Op;
  }

  /** A machine just reset, and one with a program: the font at 80, the program at 512, zeros elsewhere. */
  lemma MemoryAfterLoad(font: seq<byte>, rom: seq<byte>, a: nat)
    requires |font| == 80 && a < 4096
    ensures Reset(font).memory[a] == if 80 <= a < 160 then font[a - 80] else 0
    ensures LoadRom(font, rom).memory[a] ==
            if 80 <= a < 160 then font[a - 80] else if 512 <= a < 512 + |rom| then rom[a - 512] else 0
  {
  }

  lemma MachineAfterLoad(font: seq<byte>, rom: seq<byte>)
    requires |font| == 80
    ensures var c := LoadRom(font, rom);
            && |c.memory| == 4096 && c.V == seq(16, i => 0) && c.stack == seq(16, i => 0) && c.display == seq(2048, i => 0)
            && c.keys == seq(16, i => false) && c.I == 0 && c.pc == 512 && c.sp == 0
            && c.delay_timer == c.sound_timer == 0 && !c.waiting_for_key && c.draw_flag && (c.running <==> rom != [])
    ensures Reset(font) == LoadRom(font, [])
  {
  }

  /** Fx29 points I at the five bytes of the font that show the low digit of Vx. */
  lemma PointsAtGlyph(c: Cpu, font: seq<byte>, x: nat, i: nat, random: nat, beyond: nat -> byte)
    requires Runs(c) && x < 16 && i < 5 && |font| == 80
    requires forall a :: 80 <= a < 160 ==> c.memory[a] == font[a - 80]
    ensures var c' := Does(c, Op(15, x, 2, 9), random, beyond);
            && c' == GoesOn(c).(I := c'.I) && c'.I + i < |c'.memory|
            && c'.memory[c'.I + i] == font[5 * (c.V[x] % 16) + i]
  {
    MiscellaneousInstruction(c, x, 2, 9, random, beyond);
    hide Does, Op;
    var glyph := c.V[x] % 16;
    assert glyph < 16;
  }

  /** Fx33, Fx55 and Fx65 are the writing of digits, the store and the fetch of module Chip8State. */
  lemma MemoryInstructions(c: Cpu, x: nat, random: nat, beyond: nat -> byte)
    requires Runs(c) && x < 16
    ensures var c' := Does(c, Op(15, x, 3, 3), random, beyond);
            && |c'.memory| == 4096 && c' == GoesOn(c).(memory := c'.memory)
            && if c.I + 2 < 4096 then HasDigits(c'.memory, c.memory, c.I, c.V[x]) else c'.memory == c.memory
    ensures Does(c, Op(15, x, 5, 5), random, beyond) == GoesOn(c).(memory := Store(c.memory, c.V, c.I, x))
    ensures Does(c, Op(15, x, 6, 5), random, beyond) == GoesOn(c).(V := Fetch(c.memory, c.V, c.I, x))
  {
    OpIsRead(15, x, 3, 3);
    OpIsRead(15, x, 5, 5);
    OpIsRead(15, x, 6, 5);
    hide Op, OpX, OpY, OpN, OpNN, OpNNN;
    DigitsOfRegister(GoesOn(c), x);
    hide HasDigits, Store, Fetch;
  }

  /** What a store leaves in memory: V0 to Vx from I on, as far as memory goes, and nothing else. */
  lemma StoreWrites(memory: seq<byte>, V: seq<byte>, I: nat, x: nat, a: nat)
    requires x < |V| && a < |memory|
    ensures Store(memory, V, I, x)[a] == if I <= a <= I + x then V[a - I] else memory[a]
  {
  }

  /** 00E0 puts all pixels out and nothing else. */
  lemma ClearsScreen(c: Cpu, random: nat, beyond: nat -> byte)
    requires Runs(c)
    ensures Does(c, Op(0, 0, 14, 0), random, beyond) == GoesOn(c).(display := seq(2048, i => 0), draw_flag := true)
  {
    OpIsRead(0, 0, 14, 0);
    hide Op, OpX, OpY, OpN, OpNN, OpNNN;
  }

  /** Dxyn is the drawing of module Chip8State with the operands of its digits. */
  lemma DrawInstruction(c: Cpu, x: nat, y: nat, n: nat, random: nat, beyond: nat -> byte)
    requires Runs(c) && x < 16 && y < 16 && n < 16
    ensures Does(c, Op(13, x, y, n), random, beyond) == Draw(GoesOn(c), x, y, n, beyond)
  {
    OpIsRead(13, x, y, n);
    hide Op, OpX, OpY, OpN, OpNN, OpNNN;
    hide Draw;
  }

  /** 8xyn is the arithmetic of module Chip8State. */
  lemma ArithmeticInstruction(c: Cpu, x: nat, y: nat, n: nat, random: nat, beyond: nat -> byte)
    requires Runs(c) && x < 16 && y < 16 && n < 16
    ensures Does(c, Op(8, x, y, n), random, beyond) == GoesOn(c).(V := Arithmetic(c.V, x, y, n))
  {
    OpIsRead(8, x, y, n);
    hide Op, OpX, OpY, OpN, OpNN, OpNNN;
    hide Arithmetic;
  }

  /** Opcodes that name no instruction are passed over. */
  lemma UnknownIsPassedOver(c: Cpu, d2: nat, d1: nat, d0: nat, random: nat, beyond: nat -> byte)
    requires Runs(c) && d2 < 16 && d1 < 16 && d0 < 16
    ensures !(d2 == 0 && d1 == 14 && (d0 == 0 || d0 == 14)) ==> Does(c, Op(0, d2, d1, d0), random, beyond) == GoesOn(c)
    ensures 8 <= d0 && d0 != 14 ==> Does(c, Op(8, d2, d1, d0), random, beyond) == GoesOn(c)
    ensures !(d1 == 9 && d0 == 14) && !(d1 == 10 && d0 == 1) ==> Does(c, Op(14, d2, d1, d0), random, beyond) == GoesOn(c)
    ensures 16 * d1 + d0 !in {0x07, 0x0A, 0x15, 0x18, 0x1E, 0x29, 0x33, 0x55, 0x65} ==>
              Does(c, Op(15, d2, d1, d0), random, beyond) == GoesOn(c)
  {
    MiscellaneousInstruction(c, d2, d1, d0, random, beyond);
    if !(d2 == 0 && d1 == 14 && (d0 == 0 || d0 == 14)) { NoZeroInstruction(c, d2, d1, d0, random, beyond); }
    NoOtherInstruction(c, d2, d1, d0, random, beyond);
    hide Does, Op;
  }

  lemma NoZeroInstruction(c: Cpu, d2: nat, d1: nat, d0: nat, random: nat, beyond: nat -> byte)
    requires Runs(c) && d2 < 16 && d1 < 16 && d0 < 16 && !(d2 == 0 && d1 == 14 && (d0 == 0 || d0 == 14))
    ensures Does(c, Op(0, d2, d1, d0), random, beyond) == GoesOn(c)
  {
    OpIsRead(0, d2, d1, d0);
    assert Op(0, d2, d1, d0) == 256 * d2 + 16 * d1 + d0;
    assert Op(0, d2, d1, d0) != 0x00E0 && Op(0, d2, d1, d0) != 0x00EE;
    hide Op, OpX, OpY, OpN, OpNN, OpNNN;
  }

  lemma NoOtherInstruction(c: Cpu, d2: nat, d1: nat, d0: nat, random: nat, beyond: nat -> byte)
    requires Runs(c) && d2 < 16 && d1 < 16 && d0 < 16
    ensures 8 <= d0 && d0 != 14 ==> Does(c, Op(8, d2, d1, d0), random, beyond) == GoesOn(c)
    ensures !(d1 == 9 && d0 == 14) && !(d1 == 10 && d0 == 1) ==> Does(c, Op(14, d2, d1, d0), random, beyond) == GoesOn(c)
  {
    OpIsRead(8, d2, d1, d0);
    OpIsRead(14, d2, d1, d0);
    hide Op, OpX, OpY, OpN, OpNN, OpNNN;
  }

  /** A fetch reads V0 to Vx from I on, as far as memory goes, and leaves the other registers. */
  lemma FetchReads(memory: seq<byte>, V: seq<byte>, I: nat, x: nat, i: nat)
    requires i < |V|
    ensures Fetch(memory, V, I, x)[i] == if i <= x && I + i < |memory| then memory[I + i] else V[i]
  {
  }

  /** The pixel in column px and row py is flipped by a drawing exactly when it lies under one of the eight columns
      and n rows of the sprite and the sprite's bit there is set, the highest bit being the leftmost column. */
  lemma DrawFlipsPixel(c: Cpu, x: nat, y: nat, n: nat, px: nat, py: nat, beyond: nat -> byte)
    requires c.Shaped() && x < 16 && y < 16 && px < 64 && py < 32 && c.display[64 * py + px] <= 1
    ensures var col, row, was := px - c.V[x] % 64, py - c.V[y] % 32, c.display[64 * py + px];
            var flipped := 0 <= col < 8 && 0 <= row < n
                           && Bit(if c.I + row < 4096 then c.memory[c.I + row] else beyond(c.I + row), 7 - col);
            |Draw(c, x, y, n, beyond).display| == 2048
            && Draw(c, x, y, n, beyond).display[64 * py + px] == if flipped then 1 - was else was
  {
    var col, row, i := px - c.V[x] % 64, py - c.V[y] % 32, 64 * py + px;
    assert i / 64 == py && i % 64 == px;
    if 0 <= col < 8 && 0 <= row < n {
      SpriteColumns(if c.I + row < 4096 then c.memory[c.I + row] else beyond(c.I + row), col);
    }
    hide Bit, SpriteBit;
  }
}
