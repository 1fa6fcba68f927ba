/** What the fault operations do to the bits of a word and of an instruction's bytes. */
module Bits {
  import opened Utils

  /** Bit i of x. */
  predicate BitAt(x: nat, i: nat) {
    Shifted(x, i) % 2 == 1
  }

  /** x shifted right by i bits. */
  function Shifted(x: nat, i: nat): nat {
    if i == 0 then x else Shifted(x / 2, i - 1)
  }

  function PowerOfTwo(i: nat): (p: nat)
    ensures p > 0
  {
    if i == 0 then 1 else 2 * PowerOfTwo(i - 1)
  }

  /** A shift is a division by a power of two. */
  lemma {:induction false} ShiftDivides(x: nat, i: nat)
    ensures Shifted(x, i) == x / PowerOfTwo(i)
  {
    if i > 0 {
      ShiftDivides(x / 2, i - 1);
      DivideTwice(x, 2, PowerOfTwo(i - 1));
    }
  }

  lemma {:induction false} DivideTwice(x: nat, a: nat, b: nat)
    requires a > 0 && b > 0
    ensures a * b > 0 && x / (a * b) == (x / a) / b
  {
    var q, r := (x / a) / b, (x / a) % b;
    assert x / a == q * b + r;
    assert a * (q * b) == q * (a * b);
    RestFits(a, b, r, x % a);
    DivModUnique(x, a * b, q, a * r + x % a);
  }

  lemma {:induction false} RestFits(a: nat, b: nat, r: nat, s: nat)
    requires r < b && s < a
    ensures 0 <= a * r + s < a * b
  {
    assert a * (b - 1 - r) >= 0;
    assert a * b == a * (b - 1 - r) + a * r + a;
  }

  lemma {:induction false} ShiftsAdd(x: nat, i: nat, j: nat)
    ensures Shifted(x, i + j) == Shifted(Shifted(x, i), j)
  {
    if i > 0 {
      ShiftsAdd(x / 2, i - 1, j);
    }
  }

  lemma {:induction false} NextBit(x: nat, i: nat)
    ensures BitAt(x, i + 1) <==> BitAt(x / 2, i)
    ensures BitAt(x, 0) <==> x % 2 == 1
  {
  }

  lemma {:induction false} ZeroHasNoBits(i: nat)
    ensures !BitAt(0, i)
  {
    if i > 0 {
      ZeroHasNoBits(i - 1);
    }
  }

  /** The bitwise operators, bit by bit. */
  lemma {:induction false} BitwiseBits(op: BitOp, x: nat, y: nat, i: nat)
    ensures BitAt(Bitwise(op, x, y), i) <==>
            match op
            case AndBit => BitAt(x, i) && BitAt(y, i)
            case OrBit => BitAt(x, i) || BitAt(y, i)
            case XorBit => BitAt(x, i) != BitAt(y, i)
    decreases i
  {
    hide BitAt;
    if x == 0 && y == 0 {
      ZeroHasNoBits(i);
    } else {
      var r := Bitwise(op, x, y);
      assert r / 2 == Bitwise(op, x / 2, y / 2) && r % 2 == OneBit(op, x % 2, y % 2);
      var j := if i == 0 then 0 else i - 1;
      NextBit(r, j);
      NextBit(x, j);
      NextBit(y, j);
      if i > 0 {
        BitwiseBits(op, x / 2, y / 2, i - 1);
      }
    }
  }

  /** Faulting a word.  AND, OR, XOR and SET go bit by bit; ADD and SKIP wrap at 2^64; every other
      operation ends the process. */
  lemma {:induction false} FaultRegMeans(mask: nat, op: Operation, value: nat, size: nat, i: nat)
    requires mask < WORD && value < WORD && size < WORD
    ensures var r := FaultReg(mask, op, value, size);
            match op
            case And => r.Some? && (BitAt(r.value, i) <==> BitAt(value, i) && BitAt(mask, i))
            case Or => r.Some? && (BitAt(r.value, i) <==> BitAt(value, i) || BitAt(mask, i))
            case Xor => r.Some? && (BitAt(r.value, i) <==> BitAt(value, i) != BitAt(mask, i))
            case Set => r.Some? && (BitAt(r.value, i) <==> BitAt(mask, i))
            case Add => r.Some? && r.value < WORD && (value + mask == r.value || value + mask == r.value + WORD)
            case Skip => r.Some? && r.value < WORD && (value + size == r.value || value + size == r.value + WORD)
            case _ => r.None?
  {
    hide BitAt, Bitwise;
    BitwiseBits(AndBit, value, mask, i);
    BitwiseBits(OrBit, value, mask, i);
    BitwiseBits(XorBit, value, mask, i);
  }

  // ----- bytes -----

  /** The byte of the mask that meets byte k. */
  function MaskByte(mask: nat, k: nat): Byte {
    Shifted(mask, 8 * k) % 256
  }

  lemma {:induction false} NextMaskByte(mask: nat, k: nat)
    ensures MaskByte(mask, k + 1) == MaskByte(mask / 256, k) && MaskByte(mask, 0) == mask % 256
  {
    assert 8 * (k + 1) == 8 + 8 * k;
    ShiftsAdd(mask, 8, 8 * k);
    EightBits(mask);
  }

  lemma {:induction false} EightBits(x: nat)
    ensures Shifted(x, 8) == x / 256
  {
    ShiftDivides(x, 8);
    assert PowerOfTwo(4) == 2 * PowerOfTwo(3) == 4 * PowerOfTwo(2) == 8 * PowerOfTwo(1) == 16 * PowerOfTwo(0);
    assert PowerOfTwo(8) == 2 * PowerOfTwo(7) == 4 * PowerOfTwo(6) == 8 * PowerOfTwo(5) == 16 * PowerOfTwo(4);
  }

  lemma {:induction false} FaultBytesAt(mask: nat, op: Operation, bytes: Bytes, k: nat)
    requires FaultsBytes(op) && k < |bytes|
    ensures FaultBytes(mask, op, bytes)[k] == FaultByte(MaskByte(mask, k), op, bytes[k])
  {
    hide FaultByte, MaskByte;
    NextMaskByte(mask, if k == 0 then 0 else k - 1);
    if k > 0 {
      FaultBytesAt(mask / 256, op, bytes[1..], k - 1);
    }
  }

  /** The low bits of a number are those of its lowest byte. */
  lemma {:induction false} LowBits(x: nat, i: nat)
    requires i < 8
    ensures BitAt(x % 256, i) <==> BitAt(x, i)
  {
    assert x == x % 256 + 256 * (x / 256);
    AddsAbove(x % 256, x / 256, i, 8);
  }

  /** Adding multiples of 2^n leaves the low n bits. */
  lemma {:induction false} AddsAbove(low: nat, high: nat, i: nat, n: nat)
    requires i < n <= 8
    ensures BitAt(low + PowerOfTwo(n) * high, i) <==> BitAt(low, i)
  {
    var p := PowerOfTwo(n - 1);
    var x := low + PowerOfTwo(n) * high;
    assert x == low + 2 * (p * high);
    assert x % 2 == low % 2 && x / 2 == low / 2 + p * high;
    if i > 0 {
      AddsAbove(low / 2, high, i - 1, n - 1);
    }
  }

  lemma {:induction false} MaskBits(mask: nat, k: nat, i: nat)
    requires i < 8
    ensures BitAt(MaskByte(mask, k), i) <==> BitAt(mask, 8 * k + i)
  {
    LowBits(Shifted(mask, 8 * k), i);
    ShiftsAdd(mask, 8 * k, i);
  }

  /** Faulting the bytes of an instruction: bit i of byte k meets bit 8k + i of the mask; ADD wraps in each
      byte. */
  lemma {:induction false} FaultBytesMean(mask: nat, op: Operation, bytes: Bytes, k: nat, i: nat)
    requires FaultsBytes(op) && k < |bytes| && i < 8
    ensures var out := FaultBytes(mask, op, bytes);
            var m, b: nat, addend: nat := BitAt(mask, 8 * k + i), bytes[k], MaskByte(mask, k);
            match op
            case And => BitAt(out[k], i) <==> BitAt(bytes[k], i) && m
            case Or => BitAt(out[k], i) <==> BitAt(bytes[k], i) || m
            case Xor => BitAt(out[k], i) <==> BitAt(bytes[k], i) != m
            case Set => BitAt(out[k], i) <==> m
            case Add => b + addend == out[k] || b + addend - 256 == out[k]
            case _ => false
  {
    hide BitAt, Bitwise, MaskByte, FaultBytes;
    FaultBytesAt(mask, op, bytes, k);
    MaskBits(mask, k, i);
    BitwiseBits(AndBit, bytes[k], MaskByte(mask, k), i);
    BitwiseBits(OrBit, bytes[k], MaskByte(mask, k), i);
    BitwiseBits(XorBit, bytes[k], MaskByte(mask, k), i);
  }
}
