/** The bitwise CRC-32 of PNG chunks: what it computes, and which corruptions it detects. */
module Crc32 {
  import opened Basics
  import opened ShiftRegister

  const POLYNOMIAL: bv32 := 0xedb88320
  const ALL_ONES: bv32 := 0xffffffff

  /** One bit of the register. */
  function Shift(c: bv32): bv32 {
    if c & 1 == 1 then POLYNOMIAL ^ (c >> 1) else c >> 1
  }

  function Xor32(a: bv32, b: bv32): bv32 { a ^ b }

  function Xor8(a: bv8, b: bv8): bv8 { a ^ b }

  function Load(b: bv8): bv32 { b as bv32 }

  const CRC_MACHINE: Machine<bv32, bv8> :=
    Machine(c => Shift(c), (a, b) => Xor32(a, b), b => Load(b), (a, b) => Xor8(a, b), 8)

  function Not32(x: bv32): bv32 { !x }

  function Crc(buf: seq<bv8>): bv32 { Not32(CRC_MACHINE.Register(ALL_ONES, buf)) }

  /** The inner loop of `crc32`, after mixing in a byte. */
  method ShiftByte(mixed: bv32) returns (c: bv32)
    ensures c == CRC_MACHINE.Shifts(mixed, 8)
  {
    c := mixed;
    for k := 0 to 8
      invariant CRC_MACHINE.Shifts(c, 8 - k) == CRC_MACHINE.Shifts(mixed, 8)
    {
      c := Shift(c);
    }
  }

  lemma RegisterFrom(c: bv32, buf: seq<bv8>, i: nat)
    requires i < |buf|
    ensures
      CRC_MACHINE.Register(c, buf[i..]) ==
      CRC_MACHINE.Register(CRC_MACHINE.Shifts(Xor32(c, Load(buf[i])), 8), buf[i + 1..])
  {
    assert buf[i..][0] == buf[i] && buf[i..][1..] == buf[i + 1..];
  }

  /** The outer loop of `crc32`. */
  method ComputeCrc(buf: array<bv8>) returns (crc: bv32)
    ensures crc == Crc(buf[..])
  {
    var c := ALL_ONES;
    var i := 0;
    assert buf[0..] == buf[..];
    while i < buf.Length
      invariant 0 <= i <= buf.Length
      invariant CRC_MACHINE.Register(c, buf[i..]) == CRC_MACHINE.Register(ALL_ONES, buf[..])
    {
      RegisterFrom(c, buf[..], i);
      assert buf[..][i..] == buf[i..] && buf[..][i + 1..] == buf[i + 1..];
      c := ShiftByte(Xor32(c, Load(buf[i])));
      i := i + 1;
    }
    crc := Not32(c);
  }

  // ---- the machine of CRC-32 is linear and loses nothing

  lemma ShiftBothOdd(a: bv32, b: bv32)
    requires a & 1 == 1 && b & 1 == 1
    ensures (a ^ b) & 1 == 0 && (a ^ b) >> 1 == (POLYNOMIAL ^ (a >> 1)) ^ (POLYNOMIAL ^ (b >> 1))
  {}

  lemma ShiftFirstOdd(a: bv32, b: bv32)
    requires a & 1 == 1 && b & 1 == 0
    ensures (a ^ b) & 1 == 1 && POLYNOMIAL ^ ((a ^ b) >> 1) == (POLYNOMIAL ^ (a >> 1)) ^ (b >> 1)
  {}

  lemma ShiftNoneOdd(a: bv32, b: bv32)
    requires a & 1 == 0 && b & 1 == 0
    ensures (a ^ b) & 1 == 0 && (a ^ b) >> 1 == (a >> 1) ^ (b >> 1)
  {}

  lemma OddOrEven(a: bv32)
    ensures a & 1 == 0 || a & 1 == 1
  {}

  lemma Xor32Abelian(a: bv32, b: bv32, c: bv32)
    ensures Xor32(Xor32(a, b), c) == Xor32(a, Xor32(b, c)) && Xor32(a, b) == Xor32(b, a)
  {}

  lemma ShiftLinear(a: bv32, b: bv32)
    ensures Shift(Xor32(a, b)) == Xor32(Shift(a), Shift(b))
  {
    OddOrEven(a);
    OddOrEven(b);
    if a & 1 == 1 {
      if b & 1 == 1 {
        ShiftBothOdd(a, b);
      } else {
        ShiftFirstOdd(a, b);
      }
    } else {
      if b & 1 == 1 {
        ShiftFirstOdd(b, a);
        Xor32Abelian(a, b, 0);
        Xor32Abelian(Shift(a), Shift(b), 0);
      } else {
        ShiftNoneOdd(a, b);
      }
    }
  }

  lemma LoadLinear(x: bv8, y: bv8)
    ensures Load(Xor8(x, y)) == Xor32(Load(x), Load(y))
  {}

  /** The polynomial has its top bit set, so the shifted-out bit can be read off the result. */
  lemma ShiftInjective(a: bv32, b: bv32)
    ensures Shift(a) == Shift(b) ==> a == b
  {}

  lemma Xor32Cancels(a: bv32, b: bv32, x: bv32)
    ensures Xor32(a, x) == Xor32(b, x) ==> a == b
  {}

  lemma ShiftIsLinear()
    ensures forall a, b ::
      CRC_MACHINE.shift(CRC_MACHINE.xor(a, b)) == CRC_MACHINE.xor(CRC_MACHINE.shift(a), CRC_MACHINE.shift(b))
  {
    forall a, b
      ensures CRC_MACHINE.shift(CRC_MACHINE.xor(a, b)) == CRC_MACHINE.xor(CRC_MACHINE.shift(a), CRC_MACHINE.shift(b))
    {
      ShiftLinear(a, b);
    }
  }

  lemma CrcMachineIsLinear()
    ensures CRC_MACHINE.Linear()
  {
    ShiftIsLinear();
    forall x, y
      ensures CRC_MACHINE.load(CRC_MACHINE.bxor(x, y)) == CRC_MACHINE.xor(CRC_MACHINE.load(x), CRC_MACHINE.load(y))
    {
      LoadLinear(x, y);
    }
    forall a, b, c
      ensures CRC_MACHINE.Abelian(a, b, c)
    {
      Xor32Abelian(a, b, c);
    }
  }

  // ---- affinity

  lemma ComplementsCancel(x: bv32, y: bv32)
    ensures Xor32(Not32(x), Not32(y)) == Xor32(x, y)
  {}

  lemma ComplementMoves(x: bv32, z: bv32)
    ensures Xor32(x, Not32(z)) == Not32(Xor32(x, z))
  {}

  lemma OnesCancel()
    ensures Xor32(Xor32(ALL_ONES, ALL_ONES), ALL_ONES) == ALL_ONES
  {}

  /** The CRC is affine over GF(2): the CRCs of three buffers of equal length combine to the CRC of
      the combined buffers. */
  lemma CrcIsAffine(a: seq<bv8>, b: seq<bv8>, c: seq<bv8>)
    requires |a| == |b| == |c|
    ensures Xor32(Xor32(Crc(a), Crc(b)), Crc(c)) == Crc(CRC_MACHINE.Xor(CRC_MACHINE.Xor(a, b), c))
  {
    CrcMachineIsLinear();
    CRC_MACHINE.RegisterXor(ALL_ONES, ALL_ONES, a, b);
    CRC_MACHINE.RegisterXor(Xor32(ALL_ONES, ALL_ONES), ALL_ONES, CRC_MACHINE.Xor(a, b), c);
    var (x, y) := (CRC_MACHINE.Register(ALL_ONES, a), CRC_MACHINE.Register(ALL_ONES, b));
    var z := CRC_MACHINE.Register(ALL_ONES, c);
    ComplementsCancel(x, y);
    ComplementMoves(Xor32(x, y), z);
    OnesCancel();
  }

  // ---- the register bit by bit

  /** The lowest bit comes first. */
  function ByteBits(b: bv8): seq<bool> {
    [b & 1 == 1, b & 2 == 2, b & 4 == 4, b & 8 == 8, b & 16 == 16, b & 32 == 32, b & 64 == 64, b & 128 == 128]
  }

  function Bits(buf: seq<bv8>): (bits: seq<bool>)
    ensures |bits| == 8 * |buf|
  {
    if buf == [] then [] else ByteBits(buf[0]) + Bits(buf[1..])
  }

  function LoadBit(b: bool): bv32 { if b then 1 else 0 }

  function Differ(x: bool, y: bool): bool { x != y }

  const BIT_MACHINE: Machine<bv32, bool> :=
    Machine(c => Shift(c), (a, b) => Xor32(a, b), b => LoadBit(b), (x, y) => Differ(x, y), 1)

  lemma LoadBitLinear(x: bool, y: bool)
    ensures LoadBit(Differ(x, y)) == Xor32(LoadBit(x), LoadBit(y))
  {}

  lemma BitMachineShiftIsLinear()
    ensures forall a, b ::
      BIT_MACHINE.shift(BIT_MACHINE.xor(a, b)) == BIT_MACHINE.xor(BIT_MACHINE.shift(a), BIT_MACHINE.shift(b))
  {
    forall a, b
      ensures BIT_MACHINE.shift(BIT_MACHINE.xor(a, b)) == BIT_MACHINE.xor(BIT_MACHINE.shift(a), BIT_MACHINE.shift(b))
    {
      ShiftLinear(a, b);
    }
  }

  lemma BitMachineIsLinear()
    ensures BIT_MACHINE.Linear()
  {
    BitMachineShiftIsLinear();
    forall x, y
      ensures BIT_MACHINE.load(BIT_MACHINE.bxor(x, y)) == BIT_MACHINE.xor(BIT_MACHINE.load(x), BIT_MACHINE.load(y))
    {
      LoadBitLinear(x, y);
    }
    forall a, b, c
      ensures BIT_MACHINE.Abelian(a, b, c)
    {
      Xor32Abelian(a, b, c);
    }
  }

  lemma BitMachineIsLossless()
    ensures BIT_MACHINE.Lossless()
  {
    forall a, b
      ensures BIT_MACHINE.shift(a) == BIT_MACHINE.shift(b) ==> a == b
    {
      ShiftInjective(a, b);
    }
    forall a, b, x
      ensures BIT_MACHINE.xor(a, x) == BIT_MACHINE.xor(b, x) ==> a == b
    {
      Xor32Cancels(a, b, x);
    }
  }

  lemma Xor32Zero(a: bv32)
    ensures Xor32(a, 0) == a
  {}

  lemma ZeroIsUnit()
    ensures BIT_MACHINE.Unit(0)
  {
    forall a
      ensures BIT_MACHINE.xor(a, 0) == a
    {
      Xor32Zero(a);
    }
  }

  // ---- up to 32 bits as one word

  function Double(x: bv32): bv32 { x << 1 }

  /** The word with these bits, the first one lowest. */
  function WordOf(d: seq<bool>): bv32 { BIT_MACHINE.Word(x => Double(x), 0, d) }

  predicate TopClear(x: bv32) { x & 0x80000000 == 0 }

  lemma ShiftUndoesDouble(x: bv32)
    requires TopClear(x)
    ensures Shift(Double(x)) == x
  {}

  const DOUBLER: Machine<bv32, bool> := BIT_MACHINE.(shift := c => Double(c))

  /** All bits but the lowest n. */
  function HighMask(n: nat): bv32 { DOUBLER.Shifts(ALL_ONES, n) }

  predicate Below(x: bv32, n: nat) { x & HighMask(n) == 0 }

  predicate HasTop(mask: bv32) { mask & 0x80000000 == 0x80000000 }

  predicate HasTopFour(mask: bv32) { mask & 0xf0000000 == 0xf0000000 }

  /** The masks that leave out whole groups of four bits. */
  function GroupMask(k: nat): bv32 {
    if k == 0 then 0xffffffff else if k == 1 then 0xfffffff0 else if k == 2 then 0xffffff00
    else if k == 3 then 0xfffff000 else if k == 4 then 0xffff0000 else if k == 5 then 0xfff00000
    else if k == 6 then 0xff000000 else 0xf0000000
  }

  lemma GroupHasTopFour(k: nat)
    ensures HasTopFour(GroupMask(k))
  {}

  lemma NextGroup(k: nat)
    requires k < 7
    ensures Double(Double(Double(Double(GroupMask(k))))) == GroupMask(k + 1)
  {}

  lemma TopThroughDoubles(m: bv32)
    requires HasTopFour(m)
    ensures HasTop(m) && HasTop(Double(m)) && HasTop(Double(Double(m))) && HasTop(Double(Double(Double(m))))
  {}

  lemma {:induction false} DoublerShifts(x: bv32)
    ensures DOUBLER.Shifts(x, 0) == x && DOUBLER.Shifts(x, 1) == Double(x)
    ensures DOUBLER.Shifts(x, 2) == Double(Double(x)) && DOUBLER.Shifts(x, 3) == Double(Double(Double(x)))
    ensures DOUBLER.Shifts(x, 4) == Double(Double(Double(Double(x))))
  {
    var y := Double(x);
    assert DOUBLER.Shifts(x, 1) == DOUBLER.Shifts(y, 0);
    assert DOUBLER.Shifts(x, 2) == DOUBLER.Shifts(y, 1) == DOUBLER.Shifts(Double(y), 0);
    assert DOUBLER.Shifts(x, 3) == DOUBLER.Shifts(y, 2) == DOUBLER.Shifts(Double(y), 1);
    assert DOUBLER.Shifts(x, 4) == DOUBLER.Shifts(y, 3) == DOUBLER.Shifts(Double(y), 2);
  }

  lemma HighMaskDoubles(n: nat)
    ensures HighMask(n + 1) == Double(HighMask(n))
  {
    DOUBLER.ShiftsAdd(ALL_ONES, n, 1);
    DoublerShifts(HighMask(n));
  }

  lemma {:induction false} GroupMaskIs(k: nat)
    requires k <= 7
    ensures HighMask(4 * k) == GroupMask(k)
  {
    if k > 0 {
      GroupMaskIs(k - 1);
      DOUBLER.ShiftsAdd(ALL_ONES, 4 * (k - 1), 4);
      DoublerShifts(GroupMask(k - 1));
      NextGroup(k - 1);
    }
  }

  lemma HighMaskHasTop(n: nat)
    requires n < 32
    ensures HasTop(HighMask(n))
  {
    var (k, r) := (n / 4, n % 4);
    GroupMaskIs(k);
    GroupHasTopFour(k);
    DOUBLER.ShiftsAdd(ALL_ONES, 4 * k, r);
    DoublerShifts(GroupMask(k));
    TopThroughDoubles(GroupMask(k));
    assert r == 0 || r == 1 || r == 2 || r == 3;
  }

  lemma ZeroIsMasked(mask: bv32)
    ensures 0 & mask == 0
  {}

  lemma MaskedDouble(b: bool, x: bv32, mask: bv32, x': bv32, mask': bv32)
    requires x & mask == 0 && x' == Xor32(LoadBit(b), Double(x)) && mask' == Double(mask)
    ensures x' & mask' == 0
  {}

  lemma MaskedTop(x: bv32, mask: bv32)
    requires x & mask == 0 && HasTop(mask)
    ensures TopClear(x)
  {}

  lemma {:induction false} ShortWordBelow(d: seq<bool>)
    ensures Below(WordOf(d), |d|)
    decreases |d|
  {
    if d == [] {
      ZeroIsMasked(HighMask(0));
    } else {
      var (w, mask) := (WordOf(d[1..]), HighMask(|d| - 1));
      ShortWordBelow(d[1..]);
      HighMaskDoubles(|d| - 1);
      MaskedDouble(d[0], w, mask, WordOf(d), HighMask(|d|));
    }
  }

  lemma ShortWordIsTopClear(d: seq<bool>)
    requires |d| < 32
    ensures TopClear(WordOf(d))
  {
    ShortWordBelow(d);
    HighMaskHasTop(|d|);
    MaskedTop(WordOf(d), HighMask(|d|));
  }

  lemma OneShift(w: bv32)
    requires TopClear(w)
    ensures BIT_MACHINE.Shifts(Double(w), 1) == w
  {
    ShiftUndoesDouble(w);
    assert BIT_MACHINE.Shifts(Double(w), 1) == BIT_MACHINE.Shifts(Shift(Double(w)), 0);
  }

  /** A word of up to 32 bits keeps its bits apart. */
  lemma {:induction false} ShortWordsFit(d: seq<bool>)
    requires |d| <= 32
    ensures BIT_MACHINE.Fits(x => Double(x), 0, d)
    decreases |d|
  {
    if d != [] {
      ShortWordsFit(d[1..]);
      ShortWordIsTopClear(d[1..]);
      OneShift(WordOf(d[1..]));
    }
  }

  lemma LowBitDecides(x: bool, y: bool, u: bv32, v: bv32)
    requires Xor32(LoadBit(x), Double(u)) == Xor32(LoadBit(y), Double(v)) && TopClear(u) && TopClear(v)
    ensures x == y && u == v
  {}

  lemma {:induction false} WordOfInjective(d: seq<bool>, e: seq<bool>)
    requires |d| == |e| <= 32 && WordOf(d) == WordOf(e)
    ensures d == e
    decreases |d|
  {
    if d != [] {
      ShortWordIsTopClear(d[1..]);
      ShortWordIsTopClear(e[1..]);
      LowBitDecides(d[0], e[0], WordOf(d[1..]), WordOf(e[1..]));
      WordOfInjective(d[1..], e[1..]);
      assert d == [d[0]] + d[1..] && e == [e[0]] + e[1..];
    }
  }

  // ---- feeding a byte is feeding its bits

  lemma {:induction false} SameShifts(c: bv32, n: nat)
    ensures CRC_MACHINE.Shifts(c, n) == BIT_MACHINE.Shifts(c, n)
    decreases n
  {
    if n > 0 {
      SameShifts(Shift(c), n - 1);
    }
  }

  lemma {:induction false} OneStepPerBit(n: nat)
    ensures BIT_MACHINE.Steps(n) == n
  {
    if n > 0 {
      OneStepPerBit(n - 1);
    }
  }

  lemma WordOfFrom(d: seq<bool>, i: nat)
    requires i < |d|
    ensures WordOf(d[i..]) == Xor32(LoadBit(d[i]), Double(WordOf(d[i + 1..])))
  {
    assert d[i..][0] == d[i] && d[i..][1..] == d[i + 1..];
  }

  lemma WordOfFour(d: seq<bool>, i: nat)
    requires i + 4 <= |d|
    ensures WordOf(d[i..]) ==
      FourBits(LoadBit(d[i]), LoadBit(d[i + 1]), LoadBit(d[i + 2]), LoadBit(d[i + 3]), WordOf(d[i + 4..]))
  {
    WordOfFrom(d, i);
    WordOfFrom(d, i + 1);
    WordOfFrom(d, i + 2);
    WordOfFrom(d, i + 3);
  }

  function FourBits(a: bv32, b: bv32, c: bv32, d: bv32, rest: bv32): bv32 {
    Xor32(a, Double(Xor32(b, Double(Xor32(c, Double(Xor32(d, Double(rest))))))))
  }

  lemma AssembledByte(b: bv8)
    ensures
      var high :=
        FourBits(LoadBit(b & 16 == 16), LoadBit(b & 32 == 32), LoadBit(b & 64 == 64), LoadBit(b & 128 == 128), 0);
      FourBits(LoadBit(b & 1 == 1), LoadBit(b & 2 == 2), LoadBit(b & 4 == 4), LoadBit(b & 8 == 8), high) == Load(b)
  {}

  lemma WordOfByte(b: bv8)
    ensures WordOf(ByteBits(b)) == Load(b)
  {
    var d := ByteBits(b);
    assert d[0..] == d && d[8..] == [];
    WordOfFour(d, 0);
    WordOfFour(d, 4);
    AssembledByte(b);
  }

  lemma FeedIsBits(c: bv32, b: bv8)
    ensures CRC_MACHINE.Feed(c, b) == BIT_MACHINE.Register(c, ByteBits(b))
  {
    BitMachineIsLinear();
    ZeroIsUnit();
    ShortWordsFit(ByteBits(b));
    BIT_MACHINE.RegisterOfWord(x => Double(x), 0, c, ByteBits(b));
    WordOfByte(b);
    OneStepPerBit(8);
    SameShifts(Xor32(c, Load(b)), 8);
  }

  lemma {:induction false} RegisterIsBits(c: bv32, buf: seq<bv8>)
    ensures CRC_MACHINE.Register(c, buf) == BIT_MACHINE.Register(c, Bits(buf))
    decreases |buf|
  {
    if buf != [] {
      FeedIsBits(c, buf[0]);
      RegisterIsBits(CRC_MACHINE.Feed(c, buf[0]), buf[1..]);
      BIT_MACHINE.RegisterAppend(c, ByteBits(buf[0]), Bits(buf[1..]));
    }
  }

  // ---- what the CRC is

  function ByteShifted(c: bv32): bv32 { Shift(Shift(Shift(Shift(Shift(Shift(Shift(Shift(c)))))))) }

  lemma ByteShifts(c: bv32)
    ensures CRC_MACHINE.Shifts(c, 8) == ByteShifted(c)
  {
    var half := Shift(Shift(Shift(Shift(c))));
    assert CRC_MACHINE.Shifts(half, 4) == Shift(Shift(Shift(Shift(half))));
    assert CRC_MACHINE.Shifts(c, 8) == CRC_MACHINE.Shifts(half, 4);
  }

  /** Lowest byte first. */
  function LittleEndian(x: bv32): seq<bv8> {
    [(x & 0xff) as bv8, ((x >> 8) & 0xff) as bv8, ((x >> 16) & 0xff) as bv8, ((x >> 24) & 0xff) as bv8]
  }

  function Up(x: bv32): bv32 { x << 8 }

  predicate TopByteClear(x: bv32) { x & 0xff000000 == 0 }

  lemma UpIsDoubles(x: bv32)
    requires TopByteClear(x)
    ensures Up(x) == Double(Double(Double(Double(Double(Double(Double(Double(x))))))))
    ensures TopClear(x) && TopClear(Double(x)) && TopClear(Double(Double(x))) && TopClear(Double(Double(Double(x))))
    ensures
      var y := Double(Double(Double(Double(x))));
      TopClear(y) && TopClear(Double(y)) && TopClear(Double(Double(y))) && TopClear(Double(Double(Double(y))))
  {}

  lemma FourShiftsUndo(x: bv32)
    requires TopClear(x) && TopClear(Double(x)) && TopClear(Double(Double(x))) && TopClear(Double(Double(Double(x))))
    ensures Shift(Shift(Shift(Shift(Double(Double(Double(Double(x)))))))) == x
  {
    ShiftUndoesDouble(Double(Double(Double(x))));
    ShiftUndoesDouble(Double(Double(x)));
    ShiftUndoesDouble(Double(x));
    ShiftUndoesDouble(x);
  }

  lemma ByteShiftsUndoUp(x: bv32)
    requires TopByteClear(x)
    ensures CRC_MACHINE.Shifts(Up(x), 8) == x
  {
    UpIsDoubles(x);
    ByteShifts(Up(x));
    FourShiftsUndo(Double(Double(Double(Double(x)))));
    FourShiftsUndo(x);
  }

  lemma LittleEndianWords(x: bv32)
    ensures
      var (d, c, b, a) := (Load((x & 0xff) as bv8), Load(((x >> 8) & 0xff) as bv8), Load(((x >> 16) & 0xff) as bv8),
                           Load(((x >> 24) & 0xff) as bv8));
      && TopByteClear(0) && TopByteClear(Xor32(a, Up(0))) && TopByteClear(Xor32(b, Up(Xor32(a, Up(0)))))
      && TopByteClear(Xor32(c, Up(Xor32(b, Up(Xor32(a, Up(0)))))))
      && Xor32(d, Up(Xor32(c, Up(Xor32(b, Up(Xor32(a, Up(0)))))))) == x
  {}

  lemma FitsCons(b: bv8, d: seq<bv8>)
    requires CRC_MACHINE.Fits(x => Up(x), 0, d) && TopByteClear(CRC_MACHINE.Word(x => Up(x), 0, d))
    ensures CRC_MACHINE.Fits(x => Up(x), 0, [b] + d)
    ensures CRC_MACHINE.Word(x => Up(x), 0, [b] + d) == Xor32(Load(b), Up(CRC_MACHINE.Word(x => Up(x), 0, d)))
  {
    assert ([b] + d)[1..] == d;
    ByteShiftsUndoUp(CRC_MACHINE.Word(x => Up(x), 0, d));
  }

  lemma LittleEndianFits(x: bv32)
    ensures CRC_MACHINE.Fits(x => Up(x), 0, LittleEndian(x)) && CRC_MACHINE.Word(x => Up(x), 0, LittleEndian(x)) == x
  {
    var l := LittleEndian(x);
    LittleEndianWords(x);
    FitsCons(l[3], []);
    assert [l[3]] + [] == [l[3]];
    FitsCons(l[2], [l[3]]);
    assert [l[2]] + [l[3]] == [l[2], l[3]];
    FitsCons(l[1], [l[2], l[3]]);
    assert [l[1]] + [l[2], l[3]] == [l[1], l[2], l[3]];
    FitsCons(l[0], [l[1], l[2], l[3]]);
    assert [l[0]] + [l[1], l[2], l[3]] == l;
  }

  lemma CrcMachineUnit()
    ensures CRC_MACHINE.Unit(0)
  {
    forall a
      ensures CRC_MACHINE.xor(a, 0) == a
    {
      Xor32Zero(a);
    }
  }

  /** Feeding a word, lowest byte first, is mixing it in and shifting 32 times. */
  lemma FeedWord(c: bv32, x: bv32)
    ensures CRC_MACHINE.Register(c, LittleEndian(x)) == CRC_MACHINE.Shifts(Xor32(c, x), 32)
  {
    CrcMachineIsLinear();
    CrcMachineUnit();
    LittleEndianFits(x);
    CRC_MACHINE.RegisterOfWord(x => Up(x), 0, c, LittleEndian(x));
    assert CRC_MACHINE.Steps(4) == 8 + CRC_MACHINE.Steps(3);
  }

  lemma WithComplement(c: bv32)
    ensures Xor32(c, Not32(c)) == ALL_ONES
  {}

  lemma OnesShifted()
    ensures ByteShifted(0xffffffff) == 0x2dfd1072 && ByteShifted(0x2dfd1072) == 0xbe26ed00
    ensures ByteShifted(0xbe26ed00) == 0x00be26ed && ByteShifted(0x00be26ed) == 0xdebb20e3
  {}

  lemma OnesThroughWord()
    ensures CRC_MACHINE.Shifts(ALL_ONES, 32) == 0xdebb20e3
  {
    OnesShifted();
    CRC_MACHINE.ShiftsAdd(ALL_ONES, 8, 24);
    ByteShifts(0xffffffff);
    CRC_MACHINE.ShiftsAdd(0x2dfd1072, 8, 16);
    ByteShifts(0x2dfd1072);
    CRC_MACHINE.ShiftsAdd(0xbe26ed00, 8, 8);
    ByteShifts(0xbe26ed00);
    ByteShifts(0x00be26ed);
  }

  /** The CRC of nothing is zero, and appending to a buffer its own CRC, lowest byte first, gives the residue of
      CRC-32 whatever the buffer was. */
  lemma ResidueLaw(buf: seq<bv8>)
    ensures Crc([]) == 0
    ensures Crc(buf + LittleEndian(Crc(buf))) == 0x2144df1c
  {
    var c := CRC_MACHINE.Register(ALL_ONES, buf);
    CRC_MACHINE.RegisterAppend(ALL_ONES, buf, LittleEndian(Crc(buf)));
    FeedWord(c, Crc(buf));
    WithComplement(c);
    OnesThroughWord();
  }

  const IEND: seq<bv8> := [73, 69, 78, 68]

  lemma FeedIend()
    ensures CRC_MACHINE.Feed(0xffffffff, 73) == 0x22fde946 && CRC_MACHINE.Feed(0x22fde946, 69) == 0x992bac53
    ensures CRC_MACHINE.Feed(0x992bac53, 78) == 0x639f4775 && CRC_MACHINE.Feed(0x639f4775, 68) == 0x51bd9f7d
  {
    ByteShifts(Xor32(0xffffffff, Load(73)));
    ByteShifts(Xor32(0x22fde946, Load(69)));
    ByteShifts(Xor32(0x992bac53, Load(78)));
    ByteShifts(Xor32(0x639f4775, Load(68)));
  }

  /** The CRC of the chunk that ends every PNG file. */
  lemma CrcOfIend()
    ensures Crc(IEND) == 0xae426082
  {
    FeedIend();
    var t := IEND;
    assert t[1..] == [69, 78, 68] && t[1..][1..] == [78, 68] && t[1..][1..][1..] == [68];
    assert CRC_MACHINE.Register(0x639f4775, [68]) == CRC_MACHINE.Register(0x51bd9f7d, []);
  }

  // ---- bursts of up to 32 bits

  /** The buffers differ, but only within 32 consecutive bits. */
  ghost predicate Burst(x: seq<bv8>, y: seq<bv8>) {
    exists before, d, e, behind :: BurstAt(x, y, before, d, e, behind)
  }

  predicate BurstAt(x: seq<bv8>, y: seq<bv8>, before: seq<bool>, d: seq<bool>, e: seq<bool>, behind: seq<bool>) {
    && |d| == |e| <= 32 && d != e
    && Bits(x) == before + d + behind && Bits(y) == before + e + behind
  }

  /** Windows of up to 32 bits that leave the same register are the same. */
  lemma WindowIsSeen(c: bv32, before: seq<bool>, d: seq<bool>, e: seq<bool>, behind: seq<bool>)
    requires |d| == |e| <= 32
    requires BIT_MACHINE.Register(c, before + d + behind) == BIT_MACHINE.Register(c, before + e + behind)
    ensures d == e
  {
    BitMachineIsLinear();
    BitMachineIsLossless();
    ZeroIsUnit();
    BIT_MACHINE.WindowDecides(c, before, d, e, behind);
    ShortWordsFit(d);
    ShortWordsFit(e);
    BIT_MACHINE.WordDecides(x => Double(x), 0, BIT_MACHINE.Register(c, before), d, e);
    WordOfInjective(d, e);
  }

  lemma ComplementInjective(x: bv32, y: bv32)
    ensures Not32(x) == Not32(y) ==> x == y
  {}

  /** Every corruption confined to 32 consecutive bits, wherever they start, changes the CRC. */
  lemma BitBurstChangesCrc(x: seq<bv8>, y: seq<bv8>)
    requires Burst(x, y)
    ensures Crc(x) != Crc(y)
  {
    var before, d, e, behind :| BurstAt(x, y, before, d, e, behind);
    RegisterIsBits(ALL_ONES, x);
    RegisterIsBits(ALL_ONES, y);
    ComplementInjective(CRC_MACHINE.Register(ALL_ONES, x), CRC_MACHINE.Register(ALL_ONES, y));
    if Crc(x) == Crc(y) {
      WindowIsSeen(ALL_ONES, before, d, e, behind);
    }
  }

  lemma {:induction false} BitsConcat(x: seq<bv8>, y: seq<bv8>)
    ensures Bits(x + y) == Bits(x) + Bits(y)
    decreases |x|
  {
    if x == [] {
      assert x + y == y;
    } else {
      assert (x + y)[1..] == x[1..] + y;
      BitsConcat(x[1..], y);
    }
  }

  lemma ByteBitsInjective(x: bv8, y: bv8)
    requires ByteBits(x) == ByteBits(y)
    ensures x == y
  {
    var (p, q) := (ByteBits(x), ByteBits(y));
    assert p[0] == q[0] && p[1] == q[1] && p[2] == q[2] && p[3] == q[3];
    assert p[4] == q[4] && p[5] == q[5] && p[6] == q[6] && p[7] == q[7];
    SameBitsSameByte(x, y);
  }

  lemma SameBitsSameByte(x: bv8, y: bv8)
    requires (x & 1 == 1) == (y & 1 == 1) && (x & 2 == 2) == (y & 2 == 2)
    requires (x & 4 == 4) == (y & 4 == 4) && (x & 8 == 8) == (y & 8 == 8)
    requires (x & 16 == 16) == (y & 16 == 16) && (x & 32 == 32) == (y & 32 == 32)
    requires (x & 64 == 64) == (y & 64 == 64) && (x & 128 == 128) == (y & 128 == 128)
    ensures x == y
  {}

  lemma {:induction false} BitsInjective(x: seq<bv8>, y: seq<bv8>)
    requires |x| == |y| && Bits(x) == Bits(y)
    ensures x == y
    decreases |x|
  {
    if x != [] {
      assert ByteBits(x[0]) == Bits(x)[..8] == Bits(y)[..8] == ByteBits(y[0]);
      assert Bits(x[1..]) == Bits(x)[8..] == Bits(y)[8..] == Bits(y[1..]);
      ByteBitsInjective(x[0], y[0]);
      BitsInjective(x[1..], y[1..]);
      assert x == [x[0]] + x[1..] && y == [y[0]] + y[1..];
    }
  }

  lemma ByteBurst(before: seq<bv8>, d: seq<bv8>, e: seq<bv8>, behind: seq<bv8>)
    requires |d| == |e| <= 4 && d != e
    ensures Burst(before + d + behind, before + e + behind)
  {
    BitsConcat(before + d, behind);
    BitsConcat(before, d);
    BitsConcat(before + e, behind);
    BitsConcat(before, e);
    if Bits(d) == Bits(e) {
      BitsInjective(d, e);
    }
    assert BurstAt(before + d + behind, before + e + behind, Bits(before), Bits(d), Bits(e), Bits(behind));
  }

  /** In particular every corruption confined to four consecutive bytes. */
  lemma BurstChangesCrc(before: seq<bv8>, d: seq<bv8>, e: seq<bv8>, behind: seq<bv8>)
    requires |d| == |e| <= 4 && d != e
    ensures Crc(before + d + behind) != Crc(before + e + behind)
  {
    ByteBurst(before, d, e, behind);
    BitBurstChangesCrc(before + d + behind, before + e + behind);
  }

  // ---- PNG chunks (section 3.2 of RFC 2083)

  function BigEndian(x: bv32): seq<bv8> {
    [((x >> 24) & 0xff) as bv8, ((x >> 16) & 0xff) as bv8, ((x >> 8) & 0xff) as bv8, (x & 0xff) as bv8]
  }

  function FourByteWord(a: bv8, b: bv8, c: bv8, d: bv8): bv32 {
    ((a as bv32) << 24) | ((b as bv32) << 16) | ((c as bv32) << 8) | (d as bv32)
  }

  function FromBigEndian(b: seq<bv8>): bv32
    requires |b| == 4
  {
    FourByteWord(b[0], b[1], b[2], b[3])
  }

  lemma BigEndianRoundTrip(x: bv32)
    ensures FromBigEndian(BigEndian(x)) == x
  {}

  /** `writeUInt32BE` at the start of a four-byte buffer. */
  method WriteUInt32BE(buf: array<bv8>, x: bv32)
    requires buf.Length == 4
    modifies buf
    ensures buf[..] == BigEndian(x)
  {
    buf[0] := ((x >> 24) & 0xff) as bv8;
    buf[1] := ((x >> 16) & 0xff) as bv8;
    buf[2] := ((x >> 8) & 0xff) as bv8;
    buf[3] := (x & 0xff) as bv8;
  }

  function LengthField(n: nat): bv32
    requires n < 0x1_0000_0000
  {
    n as bv32
  }

  /** What a reader requires of a chunk: the length field is right and the CRC field matches type and data. */
  predicate ChunkIntact(chunk: seq<bv8>) {
    && 12 <= |chunk| < 0x1_0000_000c
    && FromBigEndian(chunk[..4]) == LengthField(|chunk| - 12)
    && FromBigEndian(chunk[|chunk| - 4..]) == Crc(chunk[4..|chunk| - 4])
  }

  /** Length, type, data, and the CRC of type and data; a length over 32 bits is an error. */
  function Chunk(typ: seq<bv8>, data: seq<bv8>): Option<seq<bv8>> {
    if |data| >= 0x1_0000_0000 then None
    else Some(BigEndian(LengthField(|data|)) + (typ + data) + BigEndian(Crc(typ + data)))
  }

  /** `pngChunk`, with its two four-byte buffers. */
  method PngChunk(typ: seq<bv8>, data: seq<bv8>) returns (chunk: Option<seq<bv8>>)
    ensures chunk == Chunk(typ, data)
  {
    if |data| >= 0x1_0000_0000 {
      return None;
    }
    var len := new bv8[4];
    WriteUInt32BE(len, LengthField(|data|));
    var body := typ + data;
    var bodyBuffer := new bv8[|body|](i requires 0 <= i < |body| => body[i]);
    assert bodyBuffer[..] == body;
    var crc := ComputeCrc(bodyBuffer);
    var crcBuf := new bv8[4];
    WriteUInt32BE(crcBuf, crc);
    chunk := Some(len[..] + body + crcBuf[..]);
  }

  /** A chunk reads back as its type and data, and a reader finds it intact. */
  lemma ChunkIsIntact(typ: seq<bv8>, data: seq<bv8>)
    requires |typ| == 4
    ensures Chunk(typ, data).Some? ==>
      var chunk := Chunk(typ, data).value;
      && ChunkIntact(chunk)
      && chunk[4..8] == typ
      && chunk[8..|chunk| - 4] == data
  {
    if |data| < 0x1_0000_0000 {
      BigEndianRoundTrip(LengthField(|data|));
      BigEndianRoundTrip(Crc(typ + data));
      ChunkFields(BigEndian(LengthField(|data|)), typ + data, BigEndian(Crc(typ + data)));
      var chunk := Chunk(typ, data).value;
      assert chunk[4..8] == chunk[4..|chunk| - 4][..4];
      assert chunk[8..|chunk| - 4] == chunk[4..|chunk| - 4][4..];
    }
  }

  /** The chunk that ends every PNG file. */
  lemma IendChunk()
    ensures Chunk(IEND, []) == Some([0, 0, 0, 0] + IEND + [0xae, 0x42, 0x60, 0x82])
  {
    CrcOfIend();
    assert IEND + [] == IEND;
    KnownFields();
  }

  /** The length of the chunk that begins it. */
  lemma HeaderLength(typ: seq<bv8>, data: seq<bv8>)
    requires |data| == 13
    ensures Chunk(typ, data).Some? && Chunk(typ, data).value[..4] == [0, 0, 0, 13]
  {
    KnownFields();
  }

  lemma KnownFields()
    ensures BigEndian(0xae426082) == [0xae, 0x42, 0x60, 0x82]
    ensures BigEndian(LengthField(0)) == [0, 0, 0, 0] && BigEndian(LengthField(13)) == [0, 0, 0, 13]
  {}

  /** A reader notices every corruption of an intact chunk that is confined to 32 consecutive bits of its type
      and data, and every one that is confined to its CRC field. */
  lemma CorruptedChunkIsNoticed(head: seq<bv8>, body: seq<bv8>, other: seq<bv8>, tail: seq<bv8>, wrong: seq<bv8>)
    requires |head| == |tail| == |wrong| == 4 && ChunkIntact(head + body + tail)
    ensures Burst(body, other) ==> !ChunkIntact(head + other + tail)
    ensures wrong != tail ==> !ChunkIntact(head + body + wrong)
  {
    ChunkFields(head, body, tail);
    ChunkFields(head, other, tail);
    ChunkFields(head, body, wrong);
    if Burst(body, other) {
      BitBurstChangesCrc(body, other);
    }
    if FromBigEndian(wrong) == FromBigEndian(tail) {
      FromBigEndianInjective(wrong, tail);
    }
  }

  // ---- corruptions that reach from the data into the CRC field

  lemma DifferenceOfComplements(c: bv32, r: bv32)
    ensures Xor32(Not32(c), Not32(Xor32(c, r))) == r
  {}

  lemma ComplementOfDifference(c: bv32, wrong: bv32)
    ensures Not32(Xor32(c, Xor32(Not32(c), wrong))) == wrong
  {}

  lemma WordDifference(c: bv32, r: bv32, wrong: bv32)
    ensures wrong == Not32(Xor32(c, r)) <==> Xor32(Not32(c), wrong) == r
  {
    DifferenceOfComplements(c, r);
    ComplementOfDifference(c, wrong);
  }

  lemma OnesAreKept()
    ensures Xor32(ALL_ONES, 0) == ALL_ONES
  {}

  /** Exactly when a reader does not notice what a corruption flips: the CRC field is flipped by what the register
      makes, from zero, of the flips in type and data. */
  lemma UnnoticedIff(head: seq<bv8>, body: seq<bv8>, flips: seq<bv8>, tail: seq<bv8>, wrong: seq<bv8>)
    requires |head| == |tail| == |wrong| == 4 && |flips| == |body| && ChunkIntact(head + body + tail)
    ensures ChunkIntact(head + CRC_MACHINE.Xor(body, flips) + wrong) <==>
      Xor32(FromBigEndian(tail), FromBigEndian(wrong)) == CRC_MACHINE.Register(0, flips)
  {
    var other := CRC_MACHINE.Xor(body, flips);
    ChunkFields(head, body, tail);
    ChunkFields(head, other, wrong);
    CrcMachineIsLinear();
    CRC_MACHINE.RegisterXor(ALL_ONES, 0, body, flips);
    OnesAreKept();
    WordDifference(CRC_MACHINE.Register(ALL_ONES, body), CRC_MACHINE.Register(0, flips), FromBigEndian(wrong));
  }

  function Zeros(n: nat): (z: seq<bv8>)
    ensures |z| == n
  {
    if n == 0 then [] else [0] + Zeros(n - 1)
  }

  lemma {:induction false} ZerosKeepZero(n: nat)
    ensures CRC_MACHINE.Register(0, Zeros(n)) == 0
  {
    if n > 0 {
      ByteShifts(0);
      ZerosKeepZero(n - 1);
    }
  }

  const FLIPS: seq<bv8> := [0x61, 0xd8]
  const CRC_FLIPS: seq<bv8> := [0xf4, 0xee, 0, 0]

  lemma FeedFlips()
    ensures CRC_MACHINE.Feed(0, 0x61) == 0x3ab551ce
  {}

  lemma FlipsAnswered()
    ensures CRC_MACHINE.Register(0, FLIPS) == FromBigEndian(CRC_FLIPS)
  {
    FeedFlips();
  }

  lemma FieldDifference(tail: seq<bv8>, flips: seq<bv8>)
    requires |tail| == |flips| == 4
    ensures Xor32(FromBigEndian(tail), FromBigEndian(CRC_MACHINE.Xor(tail, flips))) == FromBigEndian(flips)
  {}

  lemma FlipsAtTheEnd(n: nat)
    ensures CRC_MACHINE.Register(0, Zeros(n) + FLIPS) == FromBigEndian(CRC_FLIPS)
  {
    CRC_MACHINE.RegisterAppend(0, Zeros(n), FLIPS);
    ZerosKeepZero(n);
    FlipsAnswered();
  }

  lemma AnsweredIsUnnoticed(head: seq<bv8>, body: seq<bv8>, flips: seq<bv8>, tail: seq<bv8>, answer: seq<bv8>)
    requires |head| == |tail| == |answer| == 4 && |flips| == |body| && ChunkIntact(head + body + tail)
    requires CRC_MACHINE.Register(0, flips) == FromBigEndian(answer)
    ensures ChunkIntact(head + CRC_MACHINE.Xor(body, flips) + CRC_MACHINE.Xor(tail, answer))
  {
    FieldDifference(tail, answer);
    UnnoticedIff(head, body, flips, tail, CRC_MACHINE.Xor(tail, answer));
  }

  /** The field holds the CRC with its highest byte first, which the register shifts out last. So a change of
      four consecutive bytes, two of the data and two of the CRC, can go unnoticed, in every chunk. */
  lemma StraddlingBurstGoesUnnoticed(head: seq<bv8>, body: seq<bv8>, tail: seq<bv8>)
    requires |head| == |tail| == 4 && |body| >= 2 && ChunkIntact(head + body + tail)
    ensures
      var other := CRC_MACHINE.Xor(body, Zeros(|body| - 2) + FLIPS);
      ChunkIntact(head + other + CRC_MACHINE.Xor(tail, CRC_FLIPS))
  {
    FlipsAtTheEnd(|body| - 2);
    AnsweredIsUnnoticed(head, body, Zeros(|body| - 2) + FLIPS, tail, CRC_FLIPS);
  }

  lemma FromBigEndianInjective(x: seq<bv8>, y: seq<bv8>)
    requires |x| == |y| == 4 && FromBigEndian(x) == FromBigEndian(y)
    ensures x == y
  {
    FourBytesInjective(x[0], x[1], x[2], x[3], y[0], y[1], y[2], y[3]);
    assert x == [x[0], x[1], x[2], x[3]] && y == [y[0], y[1], y[2], y[3]];
  }

  lemma FourBytesInjective(a: bv8, b: bv8, c: bv8, d: bv8, a': bv8, b': bv8, c': bv8, d': bv8)
    requires FourByteWord(a, b, c, d) == FourByteWord(a', b', c', d')
    ensures a == a' && b == b' && c == c' && d == d'
  {}

  lemma ChunkFields(head: seq<bv8>, body: seq<bv8>, tail: seq<bv8>)
    requires |head| == |tail| == 4
    ensures
      var chunk := head + body + tail;
      chunk[..4] == head && chunk[4..|chunk| - 4] == body && chunk[|chunk| - 4..] == tail
  {}
}
