/** The cyclic redundancy check of PNG chunks: table-driven, and the bit-by-bit definition of
    section 3.4 of RFC 2083 that it must agree with. */
module Crc32 {
  type Byte = b: int | 0 <= b < 0x100

  type Word = bv32

  const POLYNOMIAL: Word := 0xedb88320
  const ALL_ONES: Word := 0xffffffff
  const ZERO: Word := 0

  function Wide(b: Byte): Word {
    (b as bv8) as bv32
  }

  function Xor(a: Word, b: Word): Word {
    a ^ b
  }

  /** Shifted towards the least significant end. */
  function Down(a: Word): Word {
    a >> 1
  }

  predicate Odd(a: Word) {
    a & 1 != 0
  }

  function DownBy(a: Word, n: nat): Word
    requires n <= 8
  {
    a >> n
  }

  function Feedback(a: Word): Word {
    if Odd(a) then POLYNOMIAL else ZERO
  }

  /** One shift of the register; a one that falls out is fed back through the polynomial. */
  function Shift(a: Word): Word {
    Xor(Down(a), Feedback(a))
  }

  function Shifts(a: Word, n: nat): Word {
    if n == 0 then a else Shift(Shifts(a, n - 1))
  }

  /** A bit as the lowest of a word. */
  function BitOf(bit: bool): Word {
    if bit then 1 else ZERO
  }

  /** The definition: the message bit meets the lowest bit of the register, then the register shifts. */
  function Absorb(register: Word, bit: bool): Word {
    Shift(Xor(register, BitOf(bit)))
  }

  /** The bits of a byte, from the least significant on. */
  function Bits(b: Word, n: nat): seq<bool>
    requires n <= 8
  {
    if n == 0 then [] else Bits(b, n - 1) + [Odd(DownBy(b, n - 1))]
  }

  function MessageBits(bytes: seq<Byte>): seq<bool> {
    if bytes == [] then [] else MessageBits(bytes[..|bytes| - 1]) + Bits(Wide(bytes[|bytes| - 1]), 8)
  }

  function AbsorbAll(register: Word, bits: seq<bool>): Word {
    if bits == [] then register else Absorb(AbsorbAll(register, bits[..|bits| - 1]), bits[|bits| - 1])
  }

  /** The check value of a message: all ones first, every bit in order, the complement at the end. */
  function Crc(bytes: seq<Byte>): Word {
    Xor(AbsorbAll(ALL_ONES, MessageBits(bytes)), ALL_ONES)
  }

  // ---- the algebra of words ----

  lemma Commutes(a: Word, b: Word)
    ensures Xor(a, b) == Xor(b, a)
  {
  }

  lemma Associates(a: Word, b: Word, c: Word)
    ensures Xor(Xor(a, b), c) == Xor(a, Xor(b, c))
  {
    assert (a ^ b) ^ c == a ^ (b ^ c);
  }

  lemma Cancels(a: Word)
    ensures Xor(a, a) == ZERO && Xor(a, ZERO) == a && Xor(ZERO, a) == a
  {
  }

  lemma Swaps(a: Word, b: Word, c: Word, d: Word)
    ensures Xor(Xor(a, b), Xor(c, d)) == Xor(Xor(a, c), Xor(b, d))
  {
    hide Xor;
    Associates(a, b, Xor(c, d));
    Associates(b, c, d);
    Commutes(b, c);
    Associates(c, b, d);
    Associates(a, c, Xor(b, d));
  }

  lemma Inserts(a: Word, b: Word, c: Word)
    ensures Xor(a, b) == Xor(Xor(a, c), Xor(b, c))
  {
    hide Xor;
    Swaps(a, b, c, c);
    Cancels(c);
    Cancels(Xor(a, b));
    hide ZERO;
  }

  lemma DownIsLinear(a: Word, b: Word)
    ensures Down(Xor(a, b)) == Xor(Down(a), Down(b))
  {
  }

  lemma OddIsLinear(a: Word, b: Word)
    ensures Odd(Xor(a, b)) == (Odd(a) != Odd(b))
  {
    assert (a ^ b) & 1 == (a & 1) ^ (b & 1);
    LowBit(a);
    LowBit(b);
  }

  lemma LowBit(x: bv32)
    ensures x & 1 == 0 || x & 1 == 1
  {
  }

  /** Taking the lowest bit off leaves an even word that shifts down to the same. */
  lemma TakeLowest(d: Word)
    ensures var rest := Xor(d, BitOf(Odd(d)));
            !Odd(rest) && Down(rest) == Down(d)
  {
    LowBit(d);
  }

  lemma FeedbackIsLinear(a: Word, b: Word)
    ensures Feedback(Xor(a, b)) == Xor(Feedback(a), Feedback(b))
  {
    OddIsLinear(a, b);
    Cancels(POLYNOMIAL);
    Cancels(ZERO);
    hide Xor, Odd, POLYNOMIAL, ZERO;
  }

  lemma ShiftIsLinear(a: Word, b: Word)
    ensures Shift(Xor(a, b)) == Xor(Shift(a), Shift(b))
  {
    hide Xor, Down, Feedback;
    FeedbackIsLinear(a, b);
    DownIsLinear(a, b);
    Swaps(Down(a), Down(b), Feedback(a), Feedback(b));
  }

  lemma {:induction false} ShiftsAreLinear(a: Word, b: Word, n: nat)
    ensures Shifts(Xor(a, b), n) == Xor(Shifts(a, n), Shifts(b, n))
  {
    hide Xor, Shift;
    if n > 0 {
      ShiftsAreLinear(a, b, n - 1);
      ShiftIsLinear(Shifts(a, n - 1), Shifts(b, n - 1));
    }
  }

  lemma EvenShift(x: Word)
    requires !Odd(x)
    ensures Shift(x) == Down(x)
  {
    Cancels(Down(x));
  }

  // ---- a whole byte at once ----

  /** A byte with its first bit taken off: what is absorbed, and what is left to shift down. */
  lemma ShiftFirst(c: Word, d: Word)
    ensures Shift(Xor(c, d)) == Xor(Absorb(c, Odd(d)), Down(d))
  {
    hide Xor, Shift, Odd, Down, BitOf;
    var bit := BitOf(Odd(d));
    TakeLowest(d);
    Inserts(c, d, bit);
    ShiftIsLinear(Xor(c, bit), Xor(d, bit));
    EvenShift(Xor(d, bit));
  }

  lemma DownStart(a: Word)
    ensures DownBy(a, 0) == a
  {
  }

  lemma DownStep(a: Word, n: nat)
    requires 1 <= n <= 8
    ensures Down(DownBy(a, n - 1)) == DownBy(a, n)
  {
    if n == 1 { assert (a >> 0) >> 1 == a >> 1; }
    else if n == 2 { assert (a >> 1) >> 1 == a >> 2; }
    else if n == 3 { assert (a >> 2) >> 1 == a >> 3; }
    else if n == 4 { assert (a >> 3) >> 1 == a >> 4; }
    else if n == 5 { assert (a >> 4) >> 1 == a >> 5; }
    else if n == 6 { assert (a >> 5) >> 1 == a >> 6; }
    else if n == 7 { assert (a >> 6) >> 1 == a >> 7; }
    else { assert (a >> 7) >> 1 == a >> 8; }
  }

  /** The register after n bits of a byte is the byte shifted in whole, but for the bits still to come. */
  lemma {:induction false} AbsorbBits(register: Word, b: Word, n: nat)
    requires n <= 8
    ensures Shifts(Xor(register, b), n) == Xor(AbsorbAll(register, Bits(b, n)), DownBy(b, n))
  {
    hide Xor, Shift, Absorb, Odd, Down, DownBy;
    DownStart(b);
    if n > 0 {
      DownStep(b, n);
      AbsorbBits(register, b, n - 1);
      var bits := Bits(b, n);
      assert bits[..n - 1] == Bits(b, n - 1) && |Bits(b, n - 1)| == n - 1 by { BitCount(b, n - 1); BitCount(b, n); }
      ShiftFirst(AbsorbAll(register, Bits(b, n - 1)), DownBy(b, n - 1));
    }
  }

  lemma {:induction false} BitCount(b: Word, n: nat)
    requires n <= 8
    ensures |Bits(b, n)| == n
  {
    if n > 0 {
      BitCount(b, n - 1);
    }
  }

  lemma {:induction false} EvenShifts(high: Word, n: nat)
    requires n <= 8 && forall k | 0 <= k < n :: !Odd(DownBy(high, k))
    ensures Shifts(high, n) == DownBy(high, n)
  {
    hide Shift, Odd, Down, DownBy;
    DownStart(high);
    if n > 0 {
      DownStep(high, n);
      EvenShifts(high, n - 1);
      EvenShift(DownBy(high, n - 1));
    }
  }

  function HighPart(a: Word): Word {
    a & 0xffffff00
  }

  function LowPart(a: Word): Word {
    a & 0xff
  }

  function Down8(a: Word): Word {
    a >> 8
  }

  lemma HighEven(a: Word, k: nat)
    requires k < 8
    ensures !Odd(DownBy(HighPart(a), k))
  {
    var high := a & 0xffffff00;
    if k == 0 { assert (high >> 0) & 1 == 0; }
    else if k == 1 { assert (high >> 1) & 1 == 0; }
    else if k == 2 { assert (high >> 2) & 1 == 0; }
    else if k == 3 { assert (high >> 3) & 1 == 0; }
    else if k == 4 { assert (high >> 4) & 1 == 0; }
    else if k == 5 { assert (high >> 5) & 1 == 0; }
    else if k == 6 { assert (high >> 6) & 1 == 0; }
    else { assert (high >> 7) & 1 == 0; }
  }

  lemma Parts(a: Word)
    ensures a == Xor(HighPart(a), LowPart(a))
  {
    assert (a & 0xffffff00) ^ (a & 0xff) == a;
  }

  lemma HighDown(a: Word)
    ensures DownBy(HighPart(a), 8) == Down8(a)
  {
    assert (a & 0xffffff00) >> 8 == a >> 8;
  }

  /** Eight shifts move three bytes down and replace the lowest by its table entry. */
  lemma EightShifts(a: Word)
    ensures Shifts(a, 8) == Xor(Down8(a), Shifts(LowPart(a), 8))
  {
    hide Xor, HighPart, LowPart, Shifts, Odd, DownBy;
    Parts(a);
    HighDown(a);
    ShiftsAreLinear(HighPart(a), LowPart(a), 8);
    forall k | 0 <= k < 8 ensures !Odd(DownBy(HighPart(a), k)) { HighEven(a, k); }
    EvenShifts(HighPart(a), 8);
  }

  lemma NarrowByte(register: Word, b: Byte)
    ensures DownBy(Wide(b), 8) == ZERO && Down8(Xor(register, Wide(b))) == Down8(register)
  {
    NarrowBits(register, b as bv8);
  }

  lemma NarrowBits(x: bv32, b: bv8)
    ensures (b as bv32) >> 8 == 0 && (x ^ (b as bv32)) >> 8 == x >> 8
  {
  }

  lemma ByteStep(register: Word, b: Byte)
    ensures AbsorbAll(register, Bits(Wide(b), 8)) == Xor(Down8(register), Shifts(LowPart(Xor(register, Wide(b))), 8))
  {
    hide Xor, Wide, Shifts, AbsorbAll, Bits, Down8, LowPart, DownBy, ZERO;
    NarrowByte(register, b);
    AbsorbBits(register, Wide(b), 8);
    EightShifts(Xor(register, Wide(b)));
    Cancels(AbsorbAll(register, Bits(Wide(b), 8)));
  }

  lemma {:induction false} AbsorbAppend(register: Word, a: seq<bool>, b: seq<bool>)
    ensures AbsorbAll(register, a + b) == AbsorbAll(AbsorbAll(register, a), b)
  {
    hide Absorb;
    if b == [] {
      assert a + b == a;
    } else {
      assert (a + b)[..|a + b| - 1] == a + b[..|b| - 1];
      AbsorbAppend(register, a, b[..|b| - 1]);
    }
  }

  // ---- the code ----

  /** One round of the loop that fills the table. */
  lemma Round(a: Word)
    ensures Xor(Down(a), if Odd(a) then POLYNOMIAL else ZERO) == Shift(a)
  {
  }

  /** The 256 byte values after eight shifts. */
  method BuildTable() returns (table: array<Word>)
    ensures fresh(table) && IsTable(table[..])
  {
    hide Xor, Odd, Down, Shift, Wide;
    table := new Word[256];
    for value := 0 to 256
      invariant forall i | 0 <= i < value :: table[i] == Shifts(Wide(i), 8)
    {
      var crc := Wide(value);
      for bit := 0 to 8
        invariant crc == Shifts(Wide(value), bit)
        invariant forall i | 0 <= i < value :: table[i] == Shifts(Wide(i), 8)
      {
        Round(crc);
        crc := Xor(Down(crc), if Odd(crc) then POLYNOMIAL else ZERO);
      }
      table[value] := crc;
    }
  }

  predicate IsTable(table: seq<Word>) {
    |table| == 256 && forall i | 0 <= i < 256 :: table[i] == Shifts(Wide(i), 8)
  }

  /** The lowest byte of a word, as a table index. */
  function Lowest(a: Word): Byte {
    ((a & 0xff) as bv8) as int
  }

  lemma LowestIsLow(a: Word)
    ensures Wide(Lowest(a)) == LowPart(a)
  {
    var low := (a & 0xff) as bv8;
    ByteRoundTrip(low);
  }

  lemma ByteRoundTrip(b: bv8)
    ensures (b as int) as bv8 == b
  {
  }

  /** The table-driven check value is the one defined bit by bit. */
  method Compute(bytes: seq<Byte>, table: seq<Word>) returns (crc: Word)
    requires IsTable(table)
    ensures crc == Crc(bytes)
  {
    hide Xor, Shifts, Bits, AbsorbAll, Wide, Lowest, Down8, LowPart;
    crc := ALL_ONES;
    NothingAbsorbed();
    for index := 0 to |bytes|
      invariant crc == AbsorbAll(ALL_ONES, MessageBits(bytes[..index]))
    {
      var b := bytes[index];
      assert bytes[..index + 1][..index] == bytes[..index];
      AbsorbAppend(ALL_ONES, MessageBits(bytes[..index]), Bits(Wide(b), 8));
      ByteStep(crc, b);
      LowestIsLow(Xor(crc, Wide(b)));
      crc := Xor(Down8(crc), table[Lowest(Xor(crc, Wide(b)))]);
    }
    assert bytes[..|bytes|] == bytes;
    crc := Xor(crc, ALL_ONES);
  }

  lemma NothingAbsorbed()
    ensures AbsorbAll(ALL_ONES, MessageBits([])) == ALL_ONES
  {
  }

  // ---- a known value ----

  lemma EightAbsorbed(register: Word, w: Word)
    ensures AbsorbAll(register, Bits(w, 8))
            == Absorb(Absorb(Absorb(Absorb(Absorb(Absorb(Absorb(Absorb(register,
                 Odd(DownBy(w, 0))), Odd(DownBy(w, 1))), Odd(DownBy(w, 2))), Odd(DownBy(w, 3))),
                 Odd(DownBy(w, 4))), Odd(DownBy(w, 5))), Odd(DownBy(w, 6))), Odd(DownBy(w, 7)))
  {
    hide Absorb, Odd, DownBy;
    forall n: nat | 1 <= n <= 8
      ensures AbsorbAll(register, Bits(w, n)) == Absorb(AbsorbAll(register, Bits(w, n - 1)), Odd(DownBy(w, n - 1)))
    {
      assert Bits(w, n)[..|Bits(w, n)| - 1] == Bits(w, n - 1);
    }
    assert Bits(w, 0) == [];
  }

  lemma EndBytes()
    ensures Wide(0x49) == 0x49 && Wide(0x45) == 0x45 && Wide(0x4e) == 0x4e && Wide(0x44) == 0x44
  {
  }

  lemma BitAt(w: Word)
    ensures Odd(DownBy(w, 0)) == (w & 1 != 0) && Odd(DownBy(w, 1)) == (w & 2 != 0)
    ensures Odd(DownBy(w, 2)) == (w & 4 != 0) && Odd(DownBy(w, 3)) == (w & 8 != 0)
    ensures Odd(DownBy(w, 4)) == (w & 16 != 0) && Odd(DownBy(w, 5)) == (w & 32 != 0)
    ensures Odd(DownBy(w, 6)) == (w & 64 != 0) && Odd(DownBy(w, 7)) == (w & 128 != 0)
  {
  }

  lemma FirstRegister()
    ensures AbsorbAll(ALL_ONES, Bits(0x49, 8)) == 0x22fde946
  {
    hide AbsorbAll, Bits, DownBy, Odd;
    EightAbsorbed(ALL_ONES, 0x49);
    BitAt(0x49);
    FirstSteps();
  }

  lemma FirstSteps()
    ensures Absorb(ALL_ONES, true) == 0x7fffffff
    ensures Absorb(0x7fffffff, false) == 0xd2477cdf
    ensures Absorb(0xd2477cdf, false) == 0x849b3d4f
    ensures Absorb(0x849b3d4f, true) == 0x424d9ea7
    ensures Absorb(0x424d9ea7, false) == 0xcc9e4c73
    ensures Absorb(0xcc9e4c73, false) == 0x8bf7a519
    ensures Absorb(0x8bf7a519, true) == 0x45fbd28c
    ensures Absorb(0x45fbd28c, false) == 0x22fde946
  {
  }

  lemma SecondRegister()
    ensures AbsorbAll(0x22fde946, Bits(0x45, 8)) == 0x992bac53
  {
    hide AbsorbAll, Bits, DownBy, Odd;
    EightAbsorbed(0x22fde946, 0x45);
    BitAt(0x45);
    SecondSteps();
  }

  lemma SecondSteps()
    ensures Absorb(0x22fde946, true) == 0xfcc67783
    ensures Absorb(0xfcc67783, false) == 0x93dbb8e1
    ensures Absorb(0x93dbb8e1, true) == 0x49eddc70
    ensures Absorb(0x49eddc70, false) == 0x24f6ee38
    ensures Absorb(0x24f6ee38, false) == 0x127b771c
    ensures Absorb(0x127b771c, false) == 0x93dbb8e
    ensures Absorb(0x93dbb8e, true) == 0xe9265ee7
    ensures Absorb(0xe9265ee7, false) == 0x992bac53
  {
  }

  lemma ThirdRegister()
    ensures AbsorbAll(0x992bac53, Bits(0x4e, 8)) == 0x639f4775
  {
    hide AbsorbAll, Bits, DownBy, Odd;
    EightAbsorbed(0x992bac53, 0x4e);
    BitAt(0x4e);
    ThirdSteps();
  }

  lemma ThirdSteps()
    ensures Absorb(0x992bac53, false) == 0xa12d5509
    ensures Absorb(0xa12d5509, true) == 0x5096aa84
    ensures Absorb(0x5096aa84, true) == 0xc5f3d662
    ensures Absorb(0xc5f3d662, true) == 0x8f416811
    ensures Absorb(0x8f416811, false) == 0xaa183728
    ensures Absorb(0xaa183728, false) == 0x550c1b94
    ensures Absorb(0x550c1b94, true) == 0xc73e8eea
    ensures Absorb(0xc73e8eea, false) == 0x639f4775
  {
  }

  lemma FourthRegister()
    ensures AbsorbAll(0x639f4775, Bits(0x44, 8)) == 0x51bd9f7d
  {
    hide AbsorbAll, Bits, DownBy, Odd;
    EightAbsorbed(0x639f4775, 0x44);
    BitAt(0x44);
    FourthSteps();
  }

  lemma FourthSteps()
    ensures Absorb(0x639f4775, false) == 0xdc77209a
    ensures Absorb(0xdc77209a, false) == 0x6e3b904d
    ensures Absorb(0x6e3b904d, true) == 0x371dc826
    ensures Absorb(0x371dc826, false) == 0x1b8ee413
    ensures Absorb(0x1b8ee413, false) == 0xe07ff129
    ensures Absorb(0xe07ff129, false) == 0x9d877bb4
    ensures Absorb(0x9d877bb4, true) == 0xa37b3efa
    ensures Absorb(0xa37b3efa, false) == 0x51bd9f7d
  {
  }

  /** The check value of an end chunk, as in every PNG file. */
  lemma EndChunkValue()
    ensures Crc([0x49, 0x45, 0x4e, 0x44]) == 0xae426082
  {
    hide AbsorbAll, Bits, Wide, MessageBits, Xor;
    EndBytes();
    FirstRegister();
    SecondRegister();
    ThirdRegister();
    FourthRegister();
    EndComplement();
    FourBytes(0x49, 0x45, 0x4e, 0x44);
  }

  lemma EndComplement()
    ensures Xor(0x51bd9f7d, ALL_ONES) == 0xae426082
  {
  }

  lemma FourBytes(a: Byte, b: Byte, c: Byte, d: Byte)
    ensures AbsorbAll(ALL_ONES, MessageBits([a, b, c, d]))
            == AbsorbAll(AbsorbAll(AbsorbAll(AbsorbAll(ALL_ONES, Bits(Wide(a), 8)), Bits(Wide(b), 8)), Bits(Wide(c), 8)), Bits(Wide(d), 8))
  {
    NothingAbsorbed();
    hide AbsorbAll, Bits, Wide, MessageBits, ALL_ONES;
    OneMore(ALL_ONES, [], a);
    OneMore(ALL_ONES, [a], b);
    OneMore(ALL_ONES, [a, b], c);
    OneMore(ALL_ONES, [a, b, c], d);
    assert [] + [a] == [a] && [a] + [b] == [a, b] && [a, b] + [c] == [a, b, c] && [a, b, c] + [d] == [a, b, c, d];
  }

  lemma OneMore(register: Word, bytes: seq<Byte>, b: Byte)
    ensures AbsorbAll(register, MessageBits(bytes + [b])) == AbsorbAll(AbsorbAll(register, MessageBits(bytes)), Bits(Wide(b), 8))
  {
    hide AbsorbAll, Bits, Wide;
    assert (bytes + [b])[..|bytes|] == bytes;
    AbsorbAppend(register, MessageBits(bytes), Bits(Wide(b), 8));
  }
}
