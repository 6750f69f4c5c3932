/** The table-driven 32-bit CRC of src/crc32.c: polynomial 0x04c11db7, not reflected, no final xor.

    The bit operations are wrapped in functions so that the proofs above them can reason by equations;
    each equation on words is a lemma of its own. */
module Crc32 {

  const POLY: bv32 := 0x04c11db7

  type TableRow = (bv32, bv32, bv32, bv32, bv32, bv32, bv32, bv32,
                   bv32, bv32, bv32, bv32, bv32, bv32, bv32, bv32)

  function Pick(j: bv8, row: TableRow): bv32 {
    match j
    case 0 => row.0
    case 1 => row.1
    case 2 => row.2
    case 3 => row.3
    case 4 => row.4
    case 5 => row.5
    case 6 => row.6
    case 7 => row.7
    case 8 => row.8
    case 9 => row.9
    case 10 => row.10
    case 11 => row.11
    case 12 => row.12
    case 13 => row.13
    case 14 => row.14
    case _ => row.15
  }

  /** The literal table. */
  function Table(i: bv8): bv32 {
    match i >> 4
    case 0 => Pick(i & 15, (0x00000000, 0x04c11db7, 0x09823b6e, 0x0d4326d9, 0x130476dc, 0x17c56b6b, 0x1a864db2, 0x1e475005,
                          0x2608edb8, 0x22c9f00f, 0x2f8ad6d6, 0x2b4bcb61, 0x350c9b64, 0x31cd86d3, 0x3c8ea00a, 0x384fbdbd))
    case 1 => Pick(i & 15, (0x4c11db70, 0x48d0c6c7, 0x4593e01e, 0x4152fda9, 0x5f15adac, 0x5bd4b01b, 0x569796c2, 0x52568b75,
                          0x6a1936c8, 0x6ed82b7f, 0x639b0da6, 0x675a1011, 0x791d4014, 0x7ddc5da3, 0x709f7b7a, 0x745e66cd))
    case 2 => Pick(i & 15, (0x9823b6e0, 0x9ce2ab57, 0x91a18d8e, 0x95609039, 0x8b27c03c, 0x8fe6dd8b, 0x82a5fb52, 0x8664e6e5,
                          0xbe2b5b58, 0xbaea46ef, 0xb7a96036, 0xb3687d81, 0xad2f2d84, 0xa9ee3033, 0xa4ad16ea, 0xa06c0b5d))
    case 3 => Pick(i & 15, (0xd4326d90, 0xd0f37027, 0xddb056fe, 0xd9714b49, 0xc7361b4c, 0xc3f706fb, 0xceb42022, 0xca753d95,
                          0xf23a8028, 0xf6fb9d9f, 0xfbb8bb46, 0xff79a6f1, 0xe13ef6f4, 0xe5ffeb43, 0xe8bccd9a, 0xec7dd02d))
    case 4 => Pick(i & 15, (0x34867077, 0x30476dc0, 0x3d044b19, 0x39c556ae, 0x278206ab, 0x23431b1c, 0x2e003dc5, 0x2ac12072,
                          0x128e9dcf, 0x164f8078, 0x1b0ca6a1, 0x1fcdbb16, 0x018aeb13, 0x054bf6a4, 0x0808d07d, 0x0cc9cdca))
    case 5 => Pick(i & 15, (0x7897ab07, 0x7c56b6b0, 0x71159069, 0x75d48dde, 0x6b93dddb, 0x6f52c06c, 0x6211e6b5, 0x66d0fb02,
                          0x5e9f46bf, 0x5a5e5b08, 0x571d7dd1, 0x53dc6066, 0x4d9b3063, 0x495a2dd4, 0x44190b0d, 0x40d816ba))
    case 6 => Pick(i & 15, (0xaca5c697, 0xa864db20, 0xa527fdf9, 0xa1e6e04e, 0xbfa1b04b, 0xbb60adfc, 0xb6238b25, 0xb2e29692,
                          0x8aad2b2f, 0x8e6c3698, 0x832f1041, 0x87ee0df6, 0x99a95df3, 0x9d684044, 0x902b669d, 0x94ea7b2a))
    case 7 => Pick(i & 15, (0xe0b41de7, 0xe4750050, 0xe9362689, 0xedf73b3e, 0xf3b06b3b, 0xf771768c, 0xfa325055, 0xfef34de2,
                          0xc6bcf05f, 0xc27dede8, 0xcf3ecb31, 0xcbffd686, 0xd5b88683, 0xd1799b34, 0xdc3abded, 0xd8fba05a))
    case 8 => Pick(i & 15, (0x690ce0ee, 0x6dcdfd59, 0x608edb80, 0x644fc637, 0x7a089632, 0x7ec98b85, 0x738aad5c, 0x774bb0eb,
                          0x4f040d56, 0x4bc510e1, 0x46863638, 0x42472b8f, 0x5c007b8a, 0x58c1663d, 0x558240e4, 0x51435d53))
    case 9 => Pick(i & 15, (0x251d3b9e, 0x21dc2629, 0x2c9f00f0, 0x285e1d47, 0x36194d42, 0x32d850f5, 0x3f9b762c, 0x3b5a6b9b,
                          0x0315d626, 0x07d4cb91, 0x0a97ed48, 0x0e56f0ff, 0x1011a0fa, 0x14d0bd4d, 0x19939b94, 0x1d528623))
    case 10 => Pick(i & 15, (0xf12f560e, 0xf5ee4bb9, 0xf8ad6d60, 0xfc6c70d7, 0xe22b20d2, 0xe6ea3d65, 0xeba91bbc, 0xef68060b,
                          0xd727bbb6, 0xd3e6a601, 0xdea580d8, 0xda649d6f, 0xc423cd6a, 0xc0e2d0dd, 0xcda1f604, 0xc960ebb3))
    case 11 => Pick(i & 15, (0xbd3e8d7e, 0xb9ff90c9, 0xb4bcb610, 0xb07daba7, 0xae3afba2, 0xaafbe615, 0xa7b8c0cc, 0xa379dd7b,
                          0x9b3660c6, 0x9ff77d71, 0x92b45ba8, 0x9675461f, 0x8832161a, 0x8cf30bad, 0x81b02d74, 0x857130c3))
    case 12 => Pick(i & 15, (0x5d8a9099, 0x594b8d2e, 0x5408abf7, 0x50c9b640, 0x4e8ee645, 0x4a4ffbf2, 0x470cdd2b, 0x43cdc09c,
                          0x7b827d21, 0x7f436096, 0x7200464f, 0x76c15bf8, 0x68860bfd, 0x6c47164a, 0x61043093, 0x65c52d24))
    case 13 => Pick(i & 15, (0x119b4be9, 0x155a565e, 0x18197087, 0x1cd86d30, 0x029f3d35, 0x065e2082, 0x0b1d065b, 0x0fdc1bec,
                          0x3793a651, 0x3352bbe6, 0x3e119d3f, 0x3ad08088, 0x2497d08d, 0x2056cd3a, 0x2d15ebe3, 0x29d4f654))
    case 14 => Pick(i & 15, (0xc5a92679, 0xc1683bce, 0xcc2b1d17, 0xc8ea00a0, 0xd6ad50a5, 0xd26c4d12, 0xdf2f6bcb, 0xdbee767c,
                          0xe3a1cbc1, 0xe760d676, 0xea23f0af, 0xeee2ed18, 0xf0a5bd1d, 0xf464a0aa, 0xf9278673, 0xfde69bc4))
    case _ => Pick(i & 15, (0x89b8fd09, 0x8d79e0be, 0x803ac667, 0x84fbdbd0, 0x9abc8bd5, 0x9e7d9662, 0x933eb0bb, 0x97ffad0c,
                          0xafb010b1, 0xab710d06, 0xa6322bdf, 0xa2f33668, 0xbcb4666d, 0xb8757bda, 0xb5365d03, 0xb1f740b4))
  }

  /** The C function. */
  method Xcrc32(buf: seq<bv8>, init: bv32) returns (crc: bv32)
    ensures crc == Crc(buf, init)
  {
    crc := init;
    var k := 0;
    while k < |buf|
      invariant 0 <= k <= |buf|
      invariant Crc(buf[k..], crc) == Crc(buf, init)
    {
      CrcUnrolls(buf, k, crc);
      crc := AddByte(crc, buf[k]);
      k := k + 1;
    }
  }

  /** The loop body. */
  method AddByte(c: bv32, b: bv8) returns (crc: bv32)
    ensures crc == Step(c, b)
  {
    TableStep(c, b);
    crc := Xor(Left8(c), Table(TopByte(c) ^ b));
  }

  // --------------------------------------------------------------------------------------------
  // Words

  function Xor(a: bv32, b: bv32): bv32 { a ^ b }
  function Left(a: bv32): bv32 { a << 1 }
  function Left8(a: bv32): bv32 { a << 8 }
  function Right8(a: bv32): bv32 { a >> 8 }
  function TopSet(a: bv32): bool { a & 0x80000000 != 0 }
  function TopByte(a: bv32): bv8 { (a >> 24) as bv8 }
  function High(b: bv8): bv32 { b as bv32 << 24 }
  function Low24(a: bv32): bv32 { a & 0x00ffffff }
  function PolyIf(t: bool): bv32 { if t then POLY else 0 }

  lemma LeftXor(a: bv32, b: bv32)
    ensures Left(Xor(a, b)) == Xor(Left(a), Left(b))
  {
  }

  lemma TopXor(a: bv32, b: bv32)
    ensures TopSet(Xor(a, b)) == (TopSet(a) != TopSet(b))
  {
  }

  lemma PolyXor(t: bool, u: bool)
    ensures PolyIf(t != u) == Xor(PolyIf(t), PolyIf(u))
  {
  }

  lemma XorCommutes(a: bv32, b: bv32)
    ensures Xor(a, b) == Xor(b, a)
  {
  }

  lemma XorAssociates(a: bv32, b: bv32, c: bv32)
    ensures Xor(Xor(a, b), c) == Xor(a, Xor(b, c))
  {
  }

  lemma XorUnit(a: bv32)
    ensures Xor(a, 0) == a && Xor(0, a) == a && Xor(a, a) == 0
  {
  }

  lemma XorZero(a: bv32, b: bv32)
    requires Xor(a, b) == 0
    ensures a == b
  {
  }

  lemma XorCancels(a: bv32, b: bv32, c: bv32)
    requires Xor(a, c) == Xor(b, c)
    ensures a == b
  {
    XorAssociates(a, c, c);
    XorAssociates(b, c, c);
    XorUnit(c);
    XorUnit(a);
    XorUnit(b);
  }

  lemma XorExchange(a: bv32, b: bv32, c: bv32, d: bv32)
    ensures Xor(Xor(a, b), Xor(c, d)) == Xor(Xor(a, c), Xor(b, d))
  {
    XorAssociates(a, b, Xor(c, d));
    XorAssociates(b, c, d);
    XorCommutes(b, c);
    XorAssociates(c, b, d);
    XorAssociates(a, c, Xor(b, d));
  }

  // --------------------------------------------------------------------------------------------
  // Division by the polynomial

  /** Shift left, and subtract the polynomial when the top bit falls out. */
  function Shift(c: bv32): bv32 { Xor(Left(c), PolyIf(TopSet(c))) }

  function Shifts(c: bv32, n: nat): bv32
    decreases n
  {
    if n == 0 then c else Shifts(Shift(c), n - 1)
  }

  /** One byte, as eight shifts. */
  function Step(c: bv32, b: bv8): bv32 { Shifts(Xor(c, High(b)), 8) }

  function Crc(buf: seq<bv8>, init: bv32): bv32
    decreases |buf|
  {
    if buf == [] then init else Crc(buf[1..], Step(init, buf[0]))
  }

  lemma CrcUnrolls(buf: seq<bv8>, k: nat, c: bv32)
    requires k < |buf|
    ensures Crc(buf[k..], c) == Crc(buf[k + 1..], Step(c, buf[k]))
  {
    assert buf[k..][1..] == buf[k + 1..];
  }

  lemma LeftXorPlus(a: bv32, b: bv32, p: bv32, q: bv32)
    ensures Xor(Left(Xor(a, b)), Xor(p, q)) == Xor(Xor(Left(a), p), Xor(Left(b), q))
  {
    LeftXor(a, b);
    XorExchange(Left(a), Left(b), p, q);
  }

  lemma PolyOf(v: bool, t: bool, u: bool)
    requires v == (t != u)
    ensures PolyIf(v) == Xor(PolyIf(t), PolyIf(u))
  {
    PolyXor(t, u);
  }

  lemma PolyTopXor(a: bv32, b: bv32)
    ensures PolyIf(TopSet(Xor(a, b))) == Xor(PolyIf(TopSet(a)), PolyIf(TopSet(b)))
  {
    TopXor(a, b);
    PolyOf(TopSet(Xor(a, b)), TopSet(a), TopSet(b));
  }

  lemma ShiftLinear(a: bv32, b: bv32)
    ensures Shift(Xor(a, b)) == Xor(Shift(a), Shift(b))
  {
    PolyTopXor(a, b);
    LeftXorPlus(a, b, PolyIf(TopSet(a)), PolyIf(TopSet(b)));
  }

  lemma {:induction false} ShiftsLinear(a: bv32, b: bv32, n: nat)
    ensures Shifts(Xor(a, b), n) == Xor(Shifts(a, n), Shifts(b, n))
    decreases n
  {
    if n > 0 {
      ShiftLinear(a, b);
      ShiftsLinear(Shift(a), Shift(b), n - 1);
    }
  }

  lemma {:induction false} ShiftsSplit(c: bv32, m: nat, n: nat)
    ensures Shifts(c, m + n) == Shifts(Shifts(c, m), n)
    decreases m
  {
    if m > 0 { ShiftsSplit(Shift(c), m - 1, n); }
  }

  /** Division of a message bit by bit, most significant bit first. */
  function DivideBit(c: bv32, bit: bool): bv32 {
    if TopSet(c) != bit then (c << 1) ^ 0x04c11db7 else c << 1
  }

  function DivideBits(c: bv32, bits: seq<bool>): bv32
    decreases |bits|
  {
    if bits == [] then c else DivideBits(DivideBit(c, bits[0]), bits[1..])
  }

  /** The top `n` bits of `v`, the highest first. */
  function TopBits(v: bv32, n: nat): seq<bool>
    decreases n
  {
    if n == 0 then [] else [TopSet(v)] + TopBits(Left(v), n - 1)
  }

  function Bits(b: bv8): seq<bool> { TopBits(High(b), 8) }

  function MessageBits(buf: seq<bv8>): seq<bool>
    decreases |buf|
  {
    if buf == [] then [] else Bits(buf[0]) + MessageBits(buf[1..])
  }

  lemma DivideBitByShift(c: bv32, bit: bool)
    ensures DivideBit(c, bit) == Xor(Left(c), PolyIf(TopSet(c) != bit))
  {
    XorUnit(c << 1);
  }

  lemma ShiftOfXor(c: bv32, v: bv32)
    ensures Shift(Xor(c, v)) == Xor(Left(Xor(c, v)), PolyIf(TopSet(c) != TopSet(v)))
  {
    TopXor(c, v);
  }

  lemma XorSwap(a: bv32, b: bv32, c: bv32)
    ensures Xor(Xor(a, b), c) == Xor(Xor(a, c), b)
  {
    XorAssociates(a, b, c);
    XorCommutes(b, c);
    XorAssociates(a, c, b);
  }

  lemma LeftXorSwap(c: bv32, v: bv32, p: bv32)
    ensures Xor(Left(Xor(c, v)), p) == Xor(Xor(Left(c), p), Left(v))
  {
    LeftXor(c, v);
    XorSwap(Left(c), Left(v), p);
  }

  lemma ShiftTakesBit(c: bv32, v: bv32)
    ensures Shift(Xor(c, v)) == Xor(DivideBit(c, TopSet(v)), Left(v))
  {
    ShiftOfXor(c, v);
    DivideBitByShift(c, TopSet(v));
    LeftXorSwap(c, v, PolyIf(TopSet(c) != TopSet(v)));
  }

  lemma {:induction false} DivideAppended(c: bv32, a: seq<bool>, b: seq<bool>)
    ensures DivideBits(c, a + b) == DivideBits(DivideBits(c, a), b)
    decreases |a|
  {
    if a == [] {
      assert [] + b == b;
    } else {
      assert (a + b)[1..] == a[1..] + b;
      DivideAppended(DivideBit(c, a[0]), a[1..], b);
    }
  }

  function ShiftedOut(v: bv32, n: nat): bv32
    decreases n
  {
    if n == 0 then v else ShiftedOut(Left(v), n - 1)
  }

  lemma {:induction false} ShiftsTakeBits(c: bv32, v: bv32, n: nat)
    ensures Shifts(Xor(c, v), n) == Xor(DivideBits(c, TopBits(v, n)), ShiftedOut(v, n))
    decreases n
  {
    if n > 0 {
      var bits := TopBits(v, n);
      ShiftTakesBit(c, v);
      assert bits[0] == TopSet(v) && bits[1..] == TopBits(Left(v), n - 1);
      ShiftsTakeBits(DivideBit(c, TopSet(v)), Left(v), n - 1);
    }
  }

  lemma {:induction false} ShiftedSplit(v: bv32, m: nat, n: nat)
    ensures ShiftedOut(v, m + n) == ShiftedOut(ShiftedOut(v, m), n)
    decreases m
  {
    if m > 0 { ShiftedSplit(Left(v), m - 1, n); }
  }

  lemma FourLefts(v: bv32)
    ensures ShiftedOut(v, 4) == Left(Left(Left(Left(v))))
  {
    ShiftedSplit(v, 2, 2);
  }

  lemma ByteRunsOut(b: bv8)
    ensures Left(Left(Left(Left(Left(Left(Left(Left(High(b))))))))) == 0
  {
  }

  lemma ByteShiftedOut(b: bv8)
    ensures ShiftedOut(High(b), 8) == 0
  {
    var v := High(b);
    ShiftedSplit(v, 4, 4);
    FourLefts(v);
    FourLefts(ShiftedOut(v, 4));
    ByteRunsOut(b);
  }

  lemma StepDividesByte(c: bv32, b: bv8)
    ensures Step(c, b) == DivideBits(c, Bits(b))
  {
    ShiftsTakeBits(c, High(b), 8);
    ByteShiftedOut(b);
    XorUnit(DivideBits(c, Bits(b)));
  }

  /** The CRC is the remainder of dividing the message bit by bit, with the initial value as carry-in. */
  lemma {:induction false} CrcIsDivision(buf: seq<bv8>, init: bv32)
    ensures Crc(buf, init) == DivideBits(init, MessageBits(buf))
    decreases |buf|
  {
    if buf != [] {
      StepDividesByte(init, buf[0]);
      DivideAppended(init, Bits(buf[0]), MessageBits(buf[1..]));
      CrcIsDivision(buf[1..], Step(init, buf[0]));
    }
  }

  // --------------------------------------------------------------------------------------------
  // The table

  lemma FourShifts(c: bv32)
    ensures Shifts(c, 4) == Shift(Shift(Shift(Shift(c))))
  {
    ShiftsSplit(c, 2, 2);
  }

  lemma ShiftsLow(a: bv32)
    requires a & 0xff000000 == 0
    ensures Shifts(a, 8) == Left8(a)
  {
    ShiftsSplit(a, 4, 4);
    FourShifts(a);
    FourShifts(Shifts(a, 4));
    ShiftLow4(a);
    ShiftLow4(a << 4);
  }

  lemma ShiftLow4(a: bv32)
    requires a & 0xf0000000 == 0
    ensures Shift(Shift(Shift(Shift(a)))) == a << 4
  {
  }

  function Bit(i: bv8, m: bv8, v: bv32): bv32 { if i & m != 0 then v else 0 }

  /** A table entry from the entries of the powers of two, two bits at a time. */
  function FromPowers(i: bv8): bv32 {
    Xor(Xor(Pair(i, 0x80, 0x690ce0ee, 0x40, 0x34867077), Pair(i, 0x20, 0x9823b6e0, 0x10, 0x4c11db70)),
        Xor(Pair(i, 0x08, 0x2608edb8, 0x04, 0x130476dc), Pair(i, 0x02, 0x09823b6e, 0x01, 0x04c11db7)))
  }

  function Pair(i: bv8, m: bv8, v: bv32, n: bv8, w: bv32): bv32 { Xor(Bit(i, m, v), Bit(i, n, w)) }

  lemma HighPairs(i: bv8)
    ensures High(i) == Xor(Xor(High(i & 0xc0), High(i & 0x30)), Xor(High(i & 0x0c), High(i & 0x03)))
  {
  }

  lemma EightShifts(c: bv32)
    ensures Shifts(c, 8) == Shift(Shift(Shift(Shift(Shift(Shift(Shift(Shift(c))))))))
  {
    ShiftsSplit(c, 4, 4);
    FourShifts(c);
    FourShifts(Shifts(c, 4));
  }

  function ShiftedByte(i: bv8): bv32 {
    Shift(Shift(Shift(Shift(Shift(Shift(Shift(Shift(High(i)))))))))
  }

  lemma Pair3(i: bv8)
    ensures Pair(i, 0x80, 0x690ce0ee, 0x40, 0x34867077) == ShiftedByte(i & 0xc0)
  {
  }

  lemma Pair2(i: bv8)
    ensures Pair(i, 0x20, 0x9823b6e0, 0x10, 0x4c11db70) == ShiftedByte(i & 0x30)
  {
  }

  lemma Pair1(i: bv8)
    ensures Pair(i, 0x08, 0x2608edb8, 0x04, 0x130476dc) == ShiftedByte(i & 0x0c)
  {
  }

  lemma Pair0(i: bv8)
    ensures Pair(i, 0x02, 0x09823b6e, 0x01, 0x04c11db7) == ShiftedByte(i & 0x03)
  {
  }

  lemma ShiftsOfFour(a: bv32, b: bv32, c: bv32, d: bv32)
    ensures Shifts(Xor(Xor(a, b), Xor(c, d)), 8) == Xor(Xor(Shifts(a, 8), Shifts(b, 8)), Xor(Shifts(c, 8), Shifts(d, 8)))
  {
    ShiftsLinear(Xor(a, b), Xor(c, d), 8);
    ShiftsLinear(a, b, 8);
    ShiftsLinear(c, d, 8);
  }

  lemma FromPowersGenerated(i: bv8)
    ensures FromPowers(i) == Shifts(High(i), 8)
  {
    PairsGenerated(i, Shifts(High(i & 0xc0), 8), Shifts(High(i & 0x30), 8), Shifts(High(i & 0x0c), 8), Shifts(High(i & 0x03), 8));
    HighPairs(i);
    ShiftsOfFour(High(i & 0xc0), High(i & 0x30), High(i & 0x0c), High(i & 0x03));
  }

  lemma PairsGenerated(i: bv8, a: bv32, b: bv32, c: bv32, d: bv32)
    requires a == Shifts(High(i & 0xc0), 8) && b == Shifts(High(i & 0x30), 8)
    requires c == Shifts(High(i & 0x0c), 8) && d == Shifts(High(i & 0x03), 8)
    ensures FromPowers(i) == Xor(Xor(a, b), Xor(c, d))
  {
    EightShifts(High(i & 0xc0));
    EightShifts(High(i & 0x30));
    EightShifts(High(i & 0x0c));
    EightShifts(High(i & 0x03));
    Pair3(i);
    Pair2(i);
    Pair1(i);
    Pair0(i);
  }

  lemma TableRow0A(i: bv8)
    ensures i >> 2 == 0 ==> Table(i) == FromPowers(i)
  {
  }

  lemma TableRow0B(i: bv8)
    ensures i >> 2 == 1 ==> Table(i) == FromPowers(i)
  {
  }

  lemma TableRow0C(i: bv8)
    ensures i >> 2 == 2 ==> Table(i) == FromPowers(i)
  {
  }

  lemma TableRow0D(i: bv8)
    ensures i >> 2 == 3 ==> Table(i) == FromPowers(i)
  {
  }

  lemma TableRow1(i: bv8)
    ensures i >> 4 == 1 ==> Table(i) == FromPowers(i)
  {
  }

  lemma TableRow2(i: bv8)
    ensures i >> 4 == 2 ==> Table(i) == FromPowers(i)
  {
  }

  lemma TableRow3(i: bv8)
    ensures i >> 4 == 3 ==> Table(i) == FromPowers(i)
  {
  }

  lemma TableRow4(i: bv8)
    ensures i >> 4 == 4 ==> Table(i) == FromPowers(i)
  {
  }

  lemma TableRow5(i: bv8)
    ensures i >> 4 == 5 ==> Table(i) == FromPowers(i)
  {
  }

  lemma TableRow6(i: bv8)
    ensures i >> 4 == 6 ==> Table(i) == FromPowers(i)
  {
  }

  lemma TableRow7(i: bv8)
    ensures i >> 4 == 7 ==> Table(i) == FromPowers(i)
  {
  }

  lemma TableRow8(i: bv8)
    ensures i >> 4 == 8 ==> Table(i) == FromPowers(i)
  {
  }

  lemma TableRow9(i: bv8)
    ensures i >> 4 == 9 ==> Table(i) == FromPowers(i)
  {
  }

  lemma TableRow10(i: bv8)
    ensures i >> 4 == 10 ==> Table(i) == FromPowers(i)
  {
  }

  lemma TableRow11(i: bv8)
    ensures i >> 4 == 11 ==> Table(i) == FromPowers(i)
  {
  }

  lemma TableRow12(i: bv8)
    ensures i >> 4 == 12 ==> Table(i) == FromPowers(i)
  {
  }

  lemma TableRow13(i: bv8)
    ensures i >> 4 == 13 ==> Table(i) == FromPowers(i)
  {
  }

  lemma TableRow14(i: bv8)
    ensures i >> 4 == 14 ==> Table(i) == FromPowers(i)
  {
  }

  lemma TableRow15(i: bv8)
    ensures i >> 4 == 15 ==> Table(i) == FromPowers(i)
  {
  }

  lemma RowRange(i: bv8)
    ensures i >> 4 <= 15 && (i >> 4 == 0 ==> i >> 2 <= 3)
  {
  }

  lemma TableRow0(i: bv8)
    ensures i >> 4 == 0 ==> Table(i) == FromPowers(i)
  {
    RowRange(i);
    if i >> 2 == 0 { TableRow0A(i); } else if i >> 2 == 1 { TableRow0B(i); }
    else if i >> 2 == 2 { TableRow0C(i); } else { TableRow0D(i); }
  }

  lemma TableFromPowers(i: bv8)
    ensures Table(i) == FromPowers(i)
  {
    var k := i >> 4;
    RowRange(i);
    if k == 0 { TableRow0(i); }
    else if k == 1 { TableRow1(i); }
    else if k == 2 { TableRow2(i); }
    else if k == 3 { TableRow3(i); }
    else if k == 4 { TableRow4(i); }
    else if k == 5 { TableRow5(i); }
    else if k == 6 { TableRow6(i); }
    else if k == 7 { TableRow7(i); }
    else if k == 8 { TableRow8(i); }
    else if k == 9 { TableRow9(i); }
    else if k == 10 { TableRow10(i); }
    else if k == 11 { TableRow11(i); }
    else if k == 12 { TableRow12(i); }
    else if k == 13 { TableRow13(i); }
    else if k == 14 { TableRow14(i); }
    else { TableRow15(i); }
  }

  /** Every entry of the literal table is what the generating program computes. */
  lemma TableIsGenerated(i: bv8)
    ensures Table(i) == Shifts(High(i), 8)
  {
    FromPowersGenerated(i);
    TableFromPowers(i);
  }

  /** The inner loop of the generating program. */
  method GenerateEntry(i: bv8) returns (c: bv32)
    ensures c == Table(i)
  {
    c := High(i);
    var j := 8;
    TableIsGenerated(i);
    while j > 0
      invariant 0 <= j <= 8
      invariant Shifts(c, j) == Table(i)
    {
      DivideBitByShift(c, false);
      c := if TopSet(c) then (c << 1) ^ 0x04c11db7 else c << 1;
      j := j - 1;
    }
  }

  lemma SplitWord(c: bv32, b: bv8)
    ensures Xor(c, High(b)) == Xor(High(TopByte(c) ^ b), Low24(c))
    ensures Left8(Low24(c)) == Left8(c) && Low24(c) & 0xff000000 == 0
  {
  }

  /** The table step is the eight-shift step. */
  lemma TableStep(c: bv32, b: bv8)
    ensures Xor(Left8(c), Table(TopByte(c) ^ b)) == Step(c, b)
  {
    var i := TopByte(c) ^ b;
    SplitWord(c, b);
    ShiftsLinear(High(i), Low24(c), 8);
    ShiftsLow(Low24(c));
    TableIsGenerated(i);
    XorCommutes(Left8(c), Table(i));
  }

  // --------------------------------------------------------------------------------------------
  // Blocks and errors

  /** Blocks can be chained through the initial value. */
  lemma {:induction false} CrcComposes(a: seq<bv8>, b: seq<bv8>, init: bv32)
    ensures Crc(a + b, init) == Crc(b, Crc(a, init))
    decreases |a|
  {
    if a == [] {
      assert [] + b == b;
    } else {
      assert (a + b)[1..] == a[1..] + b;
      CrcComposes(a[1..], b, Step(init, a[0]));
    }
  }

  lemma ShiftOnlyZero(c: bv32)
    requires Shift(c) == 0
    ensures c == 0
  {
  }

  lemma ShiftInjective(a: bv32, b: bv32)
    requires Shift(a) == Shift(b)
    ensures a == b
  {
    ShiftLinear(a, b);
    XorUnit(Shift(a));
    ShiftOnlyZero(Xor(a, b));
    XorZero(a, b);
  }

  /** Each shift is a bijection. */
  lemma {:induction false} ShiftsInjective(a: bv32, b: bv32, n: nat)
    requires Shifts(a, n) == Shifts(b, n)
    ensures a == b
    decreases n
  {
    if n > 0 {
      ShiftsInjective(Shift(a), Shift(b), n - 1);
      ShiftInjective(a, b);
    }
  }

  lemma StepInjective(a: bv32, b: bv32, x: bv8)
    requires Step(a, x) == Step(b, x)
    ensures a == b
  {
    ShiftsInjective(Xor(a, High(x)), Xor(b, High(x)), 8);
    XorCancels(a, b, High(x));
  }

  /** A common tail keeps different states apart. */
  lemma {:induction false} TailKeepsApart(a: bv32, b: bv32, tail: seq<bv8>)
    requires Crc(tail, a) == Crc(tail, b)
    ensures a == b
    decreases |tail|
  {
    if tail != [] {
      TailKeepsApart(Step(a, tail[0]), Step(b, tail[0]), tail[1..]);
      StepInjective(a, b, tail[0]);
    }
  }

  /** Up to four bytes as one word, the first on top. */
  function Pack(buf: seq<bv8>): bv32
    decreases |buf|
  {
    if buf == [] then 0 else Xor(High(buf[0]), Right8(Pack(buf[1..])))
  }

  /** `w` has only its top `n` bytes in use. */
  predicate UsesTop(w: bv32, n: nat) {
    w & (if n == 0 then 0xffffffff else if n == 1 then 0x00ffffff else if n == 2 then 0x0000ffff
         else if n == 3 then 0x000000ff else 0) == 0
  }

  lemma PackStep(b: bv8, w: bv32, n: nat)
    requires n < 4 && UsesTop(w, n)
    ensures UsesTop(Xor(High(b), Right8(w)), n + 1)
    ensures Left8(Right8(w)) == w && Right8(w) & 0xff000000 == 0
  {
  }

  lemma {:induction false} PackUsesTop(buf: seq<bv8>)
    requires |buf| <= 4
    ensures UsesTop(Pack(buf), |buf|)
    decreases |buf|
  {
    if buf != [] {
      PackUsesTop(buf[1..]);
      PackStep(buf[0], Pack(buf[1..]), |buf| - 1);
    }
  }

  lemma PackEnters(c: bv32, b: bv8, w: bv32, n: nat)
    requires n < 4 && UsesTop(w, n)
    ensures Shifts(Xor(c, Xor(High(b), Right8(w))), 8) == Xor(Step(c, b), w)
  {
    PackStep(b, w, n);
    ShiftsLinear(Xor(c, High(b)), Right8(w), 8);
    ShiftsLow(Right8(w));
    XorAssociates(c, High(b), Right8(w));
  }

  /** Four bytes at most enter the state all at once. */
  lemma {:induction false} CrcOfPack(buf: seq<bv8>, c: bv32)
    requires |buf| <= 4
    ensures Crc(buf, c) == Shifts(Xor(c, Pack(buf)), 8 * |buf|)
    decreases |buf|
  {
    if buf == [] {
      XorUnit(c);
    } else {
      PackUsesTop(buf[1..]);
      PackEnters(c, buf[0], Pack(buf[1..]), |buf| - 1);
      CrcOfPack(buf[1..], Step(c, buf[0]));
      ShiftsSplit(Xor(c, Pack(buf)), 8, 8 * (|buf| - 1));
    }
  }

  lemma SplitEqual(b: bv8, c: bv8, v: bv32, w: bv32)
    requires Xor(High(b), v) == Xor(High(c), w) && v & 0xff000000 == 0 && w & 0xff000000 == 0
    ensures b == c && v == w
  {
  }

  lemma PackSplit(b: bv8, c: bv8, v: bv32, w: bv32, n: nat)
    requires n < 4 && UsesTop(v, n) && UsesTop(w, n) && Xor(High(b), Right8(v)) == Xor(High(c), Right8(w))
    ensures b == c && v == w
  {
    PackStep(b, v, n);
    PackStep(c, w, n);
    SplitEqual(b, c, Right8(v), Right8(w));
  }

  lemma PackInjectiveFirst(a: seq<bv8>, b: seq<bv8>)
    requires a != [] && |a| == |b| <= 4 && Pack(a) == Pack(b)
    ensures a[0] == b[0] && Pack(a[1..]) == Pack(b[1..])
  {
    PackUsesTop(a[1..]);
    PackUsesTop(b[1..]);
    PackSplit(a[0], b[0], Pack(a[1..]), Pack(b[1..]), |a| - 1);
  }

  lemma {:induction false} PackInjective(a: seq<bv8>, b: seq<bv8>)
    requires |a| == |b| <= 4 && Pack(a) == Pack(b)
    ensures a == b
    decreases |a|
  {
    if a != [] {
      PackInjectiveFirst(a, b);
      PackInjective(a[1..], b[1..]);
      assert a == [a[0]] + a[1..] && b == [b[0]] + b[1..];
    }
  }

  /** Messages of one length that differ only within four consecutive bytes have different CRCs. */
  lemma BurstDetected(init: bv32, head: seq<bv8>, a: seq<bv8>, b: seq<bv8>, tail: seq<bv8>)
    requires |a| == |b| <= 4 && a != b
    ensures Crc(head + a + tail, init) != Crc(head + b + tail, init)
  {
    if Crc(head + a + tail, init) == Crc(head + b + tail, init) {
      CrcComposes(head + a, tail, init);
      CrcComposes(head + b, tail, init);
      CrcComposes(head, a, init);
      CrcComposes(head, b, init);
      SameCrcSameBytes(a, b, tail, Crc(head, init));
    }
  }

  lemma SameCrcSameBytes(a: seq<bv8>, b: seq<bv8>, tail: seq<bv8>, c: bv32)
    requires |a| == |b| <= 4 && Crc(tail, Crc(a, c)) == Crc(tail, Crc(b, c))
    ensures a == b
  {
    TailKeepsApart(Crc(a, c), Crc(b, c), tail);
    CrcOfPack(a, c);
    CrcOfPack(b, c);
    ShiftsInjective(Xor(c, Pack(a)), Xor(c, Pack(b)), 8 * |a|);
    XorCommutes(c, Pack(a));
    XorCommutes(c, Pack(b));
    XorCancels(Pack(a), Pack(b), c);
    PackInjective(a, b);
  }
}
