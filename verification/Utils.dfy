/** The arithmetic of shared/utils.c: faulting a word, faulting the bytes of an instruction,
    and stripping the Thumb bit of an address.  Words are naturals below 2^64 and bytes are
    naturals below 2^8, so wrap-around is written out. */
module Utils {
  const WORD: nat := 0x1_0000_0000_0000_0000

  datatype Option<+T> = None | Some(value: T)

  datatype Operation = NotSet | And | Or | Xor | Add | Skip | Set | Clear | Flip

  type Byte = b: nat | b < 256
  type Bytes = seq<Byte>

  /** An unsigned 64-bit decrement. */
  function Dec(x: nat): nat {
    if x == 0 then WORD - 1 else x - 1
  }

  // ----- bitwise operators on naturals -----

  datatype BitOp = AndBit | OrBit | XorBit

  function OneBit(op: BitOp, x: nat, y: nat): (b: nat)
    requires x < 2 && y < 2
    ensures b < 2
    ensures x == y == 0 ==> b == 0
  {
    match op
    case AndBit => if x == 1 && y == 1 then 1 else 0
    case OrBit => if x == 1 || y == 1 then 1 else 0
    case XorBit => if x == y then 0 else 1
  }

  function Bitwise(op: BitOp, x: nat, y: nat): nat
    decreases x + y
  {
    if x == 0 && y == 0 then 0
    else 2 * Bitwise(op, x / 2, y / 2) + OneBit(op, x % 2, y % 2)
  }

  /** x shifted left by n bits. */
  function Shl(x: nat, n: nat): nat {
    if n == 0 then x else 2 * Shl(x, n - 1)
  }

  lemma {:induction false} BitwiseUnfold(op: BitOp, x: nat, y: nat, a: nat, b: nat)
    requires a < 2 && b < 2
    ensures Bitwise(op, 2 * x + a, 2 * y + b) == 2 * Bitwise(op, x, y) + OneBit(op, a, b)
  {
    assert (2 * x + a) / 2 == x && (2 * x + a) % 2 == a;
    assert (2 * y + b) / 2 == y && (2 * y + b) % 2 == b;
  }

  lemma {:induction false} BitwiseZero(op: BitOp)
    ensures Bitwise(op, 0, 0) == 0
  {
  }

  lemma {:induction false} SplitStep(op: BitOp, x: nat, xs: nat, y: nat, ys: nat, rs: nat, a: nat, b: nat)
    requires a < 2 && b < 2
    requires Bitwise(op, x + xs, y + ys) == Bitwise(op, x, y) + rs
    ensures Bitwise(op, 2 * x + a + 2 * xs, 2 * y + b + 2 * ys) == Bitwise(op, 2 * x + a, 2 * y + b) + 2 * rs
  {
    BitwiseUnfold(op, x, y, a, b);
    BitwiseUnfold(op, x + xs, y + ys, a, b);
  }

  /** The low n bits of a bitwise result depend on the low n bits of the operands only, and the
      high bits on the high bits only. */
  lemma {:induction false} BitwiseSplits(op: BitOp, n: nat, x: nat, xs: nat, y: nat, ys: nat)
    requires x < Shl(1, n) && y < Shl(1, n)
    ensures Bitwise(op, x + Shl(xs, n), y + Shl(ys, n)) == Bitwise(op, x, y) + Shl(Bitwise(op, xs, ys), n)
  {
    hide Bitwise;
    if n == 0 {
      BitwiseZero(op);
    } else {
      BitwiseSplits(op, n - 1, x / 2, xs, y / 2, ys);
      SplitStep(op, x / 2, Shl(xs, n - 1), y / 2, Shl(ys, n - 1), Shl(Bitwise(op, xs, ys), n - 1), x % 2, y % 2);
    }
  }

  lemma {:induction false} BitwiseBound(op: BitOp, n: nat, x: nat, y: nat)
    requires x < Shl(1, n) && y < Shl(1, n)
    ensures Bitwise(op, x, y) < Shl(1, n)
  {
    if n > 0 {
      BitwiseBound(op, n - 1, x / 2, y / 2);
    }
  }

  lemma {:induction false} ShlByte(x: nat)
    ensures Shl(x, 8) == 256 * x
  {
    assert Shl(x, 2) == 2 * Shl(x, 1) == 4 * Shl(x, 0) == 4 * x;
    assert Shl(x, 5) == 2 * Shl(x, 4) == 4 * Shl(x, 3) == 8 * Shl(x, 2);
    assert Shl(x, 8) == 2 * Shl(x, 7) == 4 * Shl(x, 6) == 8 * Shl(x, 5);
  }

  // ----- faulting a word -----

  /** fault_reg.  An operation it does not know ends the process, which is None here. */
  function FaultReg(mask: nat, op: Operation, value: nat, size: nat): Option<nat> {
    match op
    case And => Some(Bitwise(AndBit, value, mask))
    case Or => Some(Bitwise(OrBit, value, mask))
    case Xor => Some(Bitwise(XorBit, value, mask))
    case Add => Some((value + mask) % WORD)
    case Skip => Some((value + size) % WORD)
    case Set => Some(mask)
    case NotSet => None
    case Clear => None
    case Flip => None
  }

  /** The operations fault_instruction accepts. */
  predicate FaultsBytes(op: Operation) {
    op.And? || op.Or? || op.Xor? || op.Add? || op.Set?
  }

  function FaultByte(mask: Byte, op: Operation, b: Byte): Byte
    requires FaultsBytes(op)
  {
    match op
    case And => BitwiseByte(AndBit, b, mask)
    case Or => BitwiseByte(OrBit, b, mask)
    case Xor => BitwiseByte(XorBit, b, mask)
    case Add => (b + mask) % 256
    case Set => mask
  }

  function BitwiseByte(op: BitOp, x: Byte, y: Byte): (r: Byte)
    ensures r == Bitwise(op, x, y)
  {
    ShlByte(1);
    BitwiseBound(op, 8, x, y);
    Bitwise(op, x, y)
  }

  /** The bytes fault_instruction leaves in its output buffer. */
  function FaultBytes(mask: nat, op: Operation, bytes: Bytes): (r: Bytes)
    requires FaultsBytes(op)
    ensures |r| == |bytes|
  {
    if bytes == [] then []
    else [FaultByte(mask % 256, op, bytes[0])] + FaultBytes(mask / 256, op, bytes[1..])
  }

  function LittleEndian(bytes: Bytes): nat {
    if bytes == [] then 0 else bytes[0] + 256 * LittleEndian(bytes[1..])
  }

  /** A word cut down to its n low bytes. */
  function Truncate(x: nat, n: nat): nat {
    if n == 0 then 0 else x % 256 + 256 * Truncate(x / 256, n - 1)
  }

  function Pow256(n: nat): (p: nat)
    ensures p > 0
  {
    if n == 0 then 1 else 256 * Pow256(n - 1)
  }

  lemma {:induction false} DivModUnique(x: int, d: int, q: int, r: int)
    requires d > 0 && 0 <= r < d && x == q * d + r
    ensures x / d == q && x % d == r
  {
    var e := x / d - q;
    assert e * d == r - x % d by { assert x == (x / d) * d + x % d; }
    if e != 0 {
      MulAtLeast(if e > 0 then e else -e, d);
    }
  }

  lemma {:induction false} MulAtLeast(a: int, d: int)
    requires a >= 1 && d > 0
    ensures a * d >= d
  {
  }

  lemma {:induction false} TruncateIsMod(x: nat, n: nat)
    ensures Truncate(x, n) == x % Pow256(n)
  {
    if n > 0 {
      TruncateIsMod(x / 256, n - 1);
      ModByParts(x, Pow256(n - 1));
    }
  }

  lemma {:induction false} ModByParts(x: nat, p: nat)
    requires p > 0
    ensures x % (256 * p) == x % 256 + 256 * ((x / 256) % p)
  {
    var q, r := (x / 256) / p, (x / 256) % p;
    assert x / 256 == q * p + r;
    assert 256 * (q * p) == q * (256 * p);
    DivModUnique(x, 256 * p, q, x % 256 + 256 * r);
  }

  // ----- byte-wise and word-wise faulting agree -----

  function WordBit(op: Operation): BitOp
    requires op.And? || op.Or? || op.Xor?
  {
    match op case And => AndBit case Or => OrBit case Xor => XorBit
  }

  lemma {:induction false} BitwiseByteAndRest(op: BitOp, x: Byte, xs: nat, y: Byte, ys: nat)
    ensures Bitwise(op, x + 256 * xs, y + 256 * ys) == Bitwise(op, x, y) + 256 * Bitwise(op, xs, ys)
  {
    ShlByte(1); ShlByte(xs); ShlByte(ys); ShlByte(Bitwise(op, xs, ys));
    BitwiseSplits(op, 8, x, xs, y, ys);
  }

  lemma {:induction false} FaultsOneByte(mask: nat, op: Operation, bytes: Bytes)
    requires bytes != [] && FaultsBytes(op)
    ensures LittleEndian(FaultBytes(mask, op, bytes))
         == FaultByte(mask % 256, op, bytes[0]) + 256 * LittleEndian(FaultBytes(mask / 256, op, bytes[1..]))
  {
    assert FaultBytes(mask, op, bytes)[1..] == FaultBytes(mask / 256, op, bytes[1..]);
  }

  lemma {:induction false} FaultsNoBytes(mask: nat, op: Operation)
    requires op.And? || op.Or? || op.Xor? || op.Set?
    ensures FaultBytes(mask, op, []) == [] && LittleEndian([]) == 0 == Truncate(mask, 0)
    ensures !op.Set? ==> Bitwise(WordBit(op), 0, 0) == 0
  {
  }

  /** Reading the faulted bytes as a little-endian word is faulting the word that was there, with
      the mask cut down to the instruction's width. */
  lemma {:induction false} BytewiseIsWordwise(mask: nat, op: Operation, bytes: Bytes, size: nat)
    requires op.And? || op.Or? || op.Xor? || op.Set?
    ensures FaultReg(Truncate(mask, |bytes|), op, LittleEndian(bytes), size)
         == Some(LittleEndian(FaultBytes(mask, op, bytes)))
  {
    hide Bitwise, FaultBytes;
    if bytes == [] {
      FaultsNoBytes(mask, op);
    } else {
      FaultsOneByte(mask, op, bytes);
      BytewiseIsWordwise(mask / 256, op, bytes[1..], size);
      if !op.Set? {
        BitwiseByteAndRest(WordBit(op), bytes[0], LittleEndian(bytes[1..]),
                           mask % 256, Truncate(mask / 256, |bytes| - 1));
      }
    }
  }

  /** Some byte below the top one overflows when the mask is added byte by byte. */
  predicate LosesCarry(mask: nat, bytes: Bytes) {
    |bytes| >= 2 &&
    (bytes[0] + mask % 256 >= 256 || LosesCarry(mask / 256, bytes[1..]))
  }

  /** Byte-wise addition agrees with word addition (at the instruction's own width) exactly when
      no carry has to leave a byte below the top one. */
  lemma {:induction false} BytewiseAdditionIffNoCarry(mask: nat, bytes: Bytes)
    ensures LittleEndian(FaultBytes(mask, Add, bytes))
              == Truncate(LittleEndian(bytes) + Truncate(mask, |bytes|), |bytes|)
        <==> !LosesCarry(mask, bytes)
  {
    hide LittleEndian, Truncate, FaultBytes;
    if bytes == [] {
      AddNoBytes(mask, LittleEndian(bytes) + Truncate(mask, |bytes|));
    } else {
      var rest, low := bytes[1..], bytes[0] + mask % 256;
      AddOneByte(mask, bytes, 0);
      var out, sum := LittleEndian(FaultBytes(mask / 256, Add, rest)),
                      LittleEndian(rest) + Truncate(mask / 256, |rest|) + low / 256;
      SameHigh(low % 256, out, Truncate(sum, |rest|));
      if rest == [] {
        AddNoBytes(mask / 256, sum);
      } else if low < 256 {
        BytewiseAdditionIffNoCarry(mask / 256, rest);
      } else {
        CarryShows(mask / 256, rest);
      }
    }
  }

  lemma {:induction false} AddNoBytes(mask: nat, sum: nat)
    ensures LittleEndian(FaultBytes(mask, Add, [])) == 0 == Truncate(sum, 0)
  {
  }

  lemma {:induction false} SameHigh(low: nat, x: nat, y: nat)
    ensures low + 256 * x == low + 256 * y <==> x == y
  {
  }

  lemma {:induction false} CarryShows(mask: nat, bytes: Bytes)
    requires bytes != []
    ensures LittleEndian(FaultBytes(mask, Add, bytes))
         != Truncate(LittleEndian(bytes) + Truncate(mask, |bytes|) + 1, |bytes|)
  {
    hide LittleEndian, Truncate, FaultBytes;
    AddOneByte(mask, bytes, 1);
    DifferentLow(bytes[0] + mask % 256,
                 LittleEndian(FaultBytes(mask / 256, Add, bytes[1..])),
                 Truncate(LittleEndian(bytes[1..]) + Truncate(mask / 256, |bytes| - 1)
                          + (bytes[0] + mask % 256 + 1) / 256, |bytes| - 1));
  }

  lemma {:induction false} DifferentLow(low: nat, x: nat, y: nat)
    ensures low % 256 + 256 * x != (low + 1) % 256 + 256 * y
  {
    assert (low % 256 + 256 * x) % 256 == low % 256;
    assert ((low + 1) % 256 + 256 * y) % 256 == (low + 1) % 256;
  }

  /** One byte of the addition, with a carry coming in. */
  lemma {:induction false} AddOneByte(mask: nat, bytes: Bytes, carry: nat)
    requires bytes != [] && carry <= 1
    ensures var n := |bytes|;
            var low := bytes[0] + mask % 256 + carry;
            var out := FaultBytes(mask, Add, bytes);
            && LittleEndian(out) == (bytes[0] + mask % 256) % 256 + 256 * LittleEndian(FaultBytes(mask / 256, Add,
                                                                                                  bytes[1..]))
            && Truncate(LittleEndian(bytes) + Truncate(mask, n) + carry, n)
               == low % 256 + 256 * Truncate(LittleEndian(bytes[1..]) + Truncate(mask / 256, n - 1) + low / 256, n - 1)
  {
    var n := |bytes|;
    FaultsOneByte(mask, Add, bytes);
    var low := bytes[0] + mask % 256 + carry;
    var high := LittleEndian(bytes[1..]) + Truncate(mask / 256, n - 1);
    var sum := LittleEndian(bytes) + Truncate(mask, n) + carry;
    assert sum == low + 256 * high;
    assert sum % 256 == low % 256 && sum / 256 == high + low / 256;
  }

  lemma {:induction false} XorCancels(x: nat, y: nat)
    ensures Bitwise(XorBit, Bitwise(XorBit, x, y), y) == x
    decreases x + y
  {
    if x == 0 && y == 0 {
    } else {
      XorCancels(x / 2, y / 2);
      var r := Bitwise(XorBit, x, y);
      assert r / 2 == Bitwise(XorBit, x / 2, y / 2);
      if r == 0 && y == 0 {
      } else {
        assert Bitwise(XorBit, r, y) == 2 * Bitwise(XorBit, r / 2, y / 2) + OneBit(XorBit, r % 2, y % 2);
      }
    }
  }

  /** Faulting an instruction twice with the same XOR mask restores it. */
  lemma {:induction false} XorTwiceRestores(mask: nat, bytes: Bytes)
    ensures FaultBytes(mask, Xor, FaultBytes(mask, Xor, bytes)) == bytes
  {
    if bytes == [] {
    } else {
      var once := FaultBytes(mask, Xor, bytes);
      assert once[1..] == FaultBytes(mask / 256, Xor, bytes[1..]);
      XorTwiceRestores(mask / 256, bytes[1..]);
      XorCancels(bytes[0], mask % 256);
    }
  }

  lemma {:induction false} NoBytesLeft(mask: nat, op: Operation)
    requires FaultsBytes(op)
    ensures FaultBytes(mask, op, []) == []
  {
  }

  lemma {:induction false} NextByte(mask: nat, op: Operation, bytes: Bytes)
    requires bytes != [] && FaultsBytes(op)
    ensures FaultBytes(mask, op, bytes) == [FaultByte(mask % 256, op, bytes[0])] + FaultBytes(mask / 256, op,
                                                                                              bytes[1..])
  {
    hide FaultByte;
  }

  /** fault_instruction: the loop over the bytes, shifting the mask down 8 * i bits. */
  method FaultInstruction(mask: nat, op: Operation, input: array<Byte>, output: array<Byte>, size: nat)
    requires FaultsBytes(op)
    requires size <= input.Length && size <= output.Length && input != output
    modifies output
    ensures output[..size] == FaultBytes(mask, op, input[..size])
    ensures output[size..] == old(output[size..])
  {
    hide FaultBytes, FaultByte;
    var i, shifted := 0, mask;
    while i < size
      invariant i <= size
      invariant output[size..] == old(output[size..])
      invariant FaultBytes(mask, op, input[..size]) == output[..i] + FaultBytes(shifted, op, input[i..size])
    {
      NextByte(shifted, op, input[i..size]);
      ghost var done := output[..i];
      var mask8 := shifted % 256;
      output[i] := FaultByte(mask8, op, input[i]);
      assert output[..i + 1] == done + [output[i]];
      i, shifted := i + 1, shifted / 256;
    }
    NoBytesLeft(shifted, op);
  }
}
