/** 32-bit words as Go computes on them, and the numbers their bits spell. */
module Bits {

  function LowBit(x: bv32): nat {
    if x & 1 == 1 then 1 else 0
  }

  /** The number a word spells, bit by bit. */
  function Num(x: bv32): nat
    decreases x
  {
    if x == 0 then 0 else 2 * Num(x >> 1) + LowBit(x)
  }

  lemma Halve(x: bv32)
    ensures Num(x) == 2 * Num(x >> 1) + LowBit(x)
  {
  }

  // The operations under names that proofs can close.

  function Half(x: bv32): bv32 {
    x >> 1
  }

  function Twice(x: bv32): bv32 {
    x << 1
  }

  /** x without its low seven bits, and those bits. */
  function Down(x: bv32): bv32 {
    x >> 7
  }

  function Seven(x: bv32): bv32 {
    x & 0x7f
  }

  function Four(x: bv32): bv32 {
    x & 0xf
  }

  function Up(x: bv32): bv32 {
    x << 7
  }

  function Or(a: bv32, b: bv32): bv32 {
    a | b
  }

  predicate Apart(a: bv32, b: bv32) {
    a & b == 0
  }

  /** There is room for a shift by seven. */
  predicate Room(x: bv32) {
    x & 0xfe00_0000 == 0
  }

  predicate TopClear(x: bv32) {
    x & 0x8000_0000 == 0
  }

  lemma HalfNum(x: bv32)
    ensures Num(x) == 2 * Num(Half(x)) + LowBit(x) && LowBit(x) <= 1
  {
    Halve(x);
  }

  // Facts about bits alone, each small enough to be decided on its own.

  lemma OrHalves(a: bv32, b: bv32)
    ensures Half(Or(a, b)) == Or(Half(a), Half(b))
  {
  }

  lemma ApartHalves(a: bv32, b: bv32)
    requires Apart(a, b)
    ensures Apart(Half(a), Half(b))
  {
  }

  lemma OrLow(a: bv32, b: bv32)
    requires Apart(a, b)
    ensures LowBit(Or(a, b)) == LowBit(a) + LowBit(b)
  {
  }

  lemma HalfIsLess(x: bv32)
    ensures Half(x) <= x && (x != 0 ==> Half(x) < x)
  {
  }

  lemma NothingOred(a: bv32, b: bv32)
    requires Or(a, b) == 0
    ensures a == 0 && b == 0
  {
  }

  lemma Undouble(x: bv32)
    requires TopClear(x)
    ensures Half(Twice(x)) == x && LowBit(Twice(x)) == 0
  {
  }

  lemma Rejoin(x: bv32, y: bv32)
    requires Half(x) == Half(y) && LowBit(x) == LowBit(y)
    ensures x == y
  {
  }

  // What or, shifts and masks do to the number.

  /** Or-ing words that share no bit adds their numbers. */
  lemma {:induction false} OrIsAdd(a: bv32, b: bv32)
    requires Apart(a, b)
    ensures Num(Or(a, b)) == Num(a) + Num(b)
    decreases Or(a, b)
  {
    if Or(a, b) == 0 {
      NothingOred(a, b);
    } else {
      hide *;
      HalfNum(a);
      HalfNum(b);
      HalfNum(Or(a, b));
      OrHalves(a, b);
      OrLow(a, b);
      ApartHalves(a, b);
      HalfIsLess(Or(a, b));
      OrIsAdd(Half(a), Half(b));
    }
  }

  lemma Double(x: bv32)
    requires TopClear(x)
    ensures Num(Twice(x)) == 2 * Num(x)
  {
    hide *;
    Undouble(x);
    HalfNum(Twice(x));
  }

  /** Different words spell different numbers. */
  lemma {:induction false} Injective(x: bv32, y: bv32)
    requires Num(x) == Num(y)
    ensures x == y
    decreases x, y
  {
    hide *;
    if x != 0 || y != 0 {
      HalfNum(x);
      HalfNum(y);
      HalfIsLess(x);
      HalfIsLess(y);
      Injective(Half(x), Half(y));
      Rejoin(x, y);
    }
  }

  /** The seven low bits of x, and what is above them. */
  lemma Unroll(x: bv32)
    ensures var x1 := Half(x); var x2 := Half(x1); var x3 := Half(x2); var x4 := Half(x3); var x5 := Half(x4); var x6 := Half(x5);
      && Num(x) == LowBit(x) + 2 * LowBit(x1) + 4 * LowBit(x2) + 8 * LowBit(x3)
                   + 16 * LowBit(x4) + 32 * LowBit(x5) + 64 * LowBit(x6) + 128 * Num(Half(x6))
      && LowBit(x) + 2 * LowBit(x1) + 4 * LowBit(x2) + 8 * LowBit(x3) + 16 * LowBit(x4) + 32 * LowBit(x5) + 64 * LowBit(x6) < 128
  {
    hide *;
    var x1 := Half(x);
    var x2 := Half(x1);
    var x3 := Half(x2);
    var x4 := Half(x3);
    var x5 := Half(x4);
    var x6 := Half(x5);
    HalfNum(x);
    HalfNum(x1);
    HalfNum(x2);
    HalfNum(x3);
    HalfNum(x4);
    HalfNum(x5);
    HalfNum(x6);
  }

  lemma SevenHalves(x: bv32)
    ensures Half(Half(Half(Half(Half(Half(Half(x))))))) == Down(x)
  {
  }

  lemma MaskSteps(x: bv32)
    ensures var y := Seven(x);
      var x1 := Half(x); var x2 := Half(x1); var x3 := Half(x2); var x4 := Half(x3); var x5 := Half(x4); var x6 := Half(x5);
      var y1 := Half(y); var y2 := Half(y1); var y3 := Half(y2); var y4 := Half(y3); var y5 := Half(y4); var y6 := Half(y5);
      && LowBit(y) == LowBit(x) && LowBit(y1) == LowBit(x1) && LowBit(y2) == LowBit(x2) && LowBit(y3) == LowBit(x3)
      && LowBit(y4) == LowBit(x4) && LowBit(y5) == LowBit(x5) && LowBit(y6) == LowBit(x6) && Half(y6) == 0
  {
  }

  /** Shifting right by seven divides by 128, and the mask is the remainder. */
  lemma Cut(x: bv32)
    ensures Num(Down(x)) == Num(x) / 128 && Num(Seven(x)) == Num(x) % 128
  {
    var y := Seven(x);
    assert Num(0) == 0;
    SevenHalves(x);
    MaskSteps(x);
    hide *;
    Unroll(x);
    Unroll(y);
    Remainder(Num(x), Num(Down(x)), Num(y));
  }

  lemma Remainder(n: nat, q: nat, r: nat)
    requires n == 128 * q + r && r < 128
    ensures q == n / 128 && r == n % 128
  {
  }

  lemma Nibble(x: bv32)
    ensures Num(Four(x)) == Num(x) % 16
  {
    var y := Four(x);
    NibbleBits(x);
    assert Num(0) == 0;
    hide *;
    Unroll(x);
    Unroll(y);
    var x4 := Half(Half(Half(Half(x))));
    var x5 := Half(x4);
    var x6 := Half(x5);
    HalfNum(x4);
    HalfNum(x5);
    HalfNum(x6);
    FourBits(x);
    Sixteenths(Num(x), Num(x4), Num(y));
  }

  lemma FourBits(x: bv32)
    ensures LowBit(x) + 2 * LowBit(Half(x)) + 4 * LowBit(Half(Half(x))) + 8 * LowBit(Half(Half(Half(x)))) < 16
  {
    hide Half;
  }

  lemma Sixteenths(n: nat, q: nat, r: nat)
    requires n == 16 * q + r && r < 16
    ensures r == n % 16
  {
  }

  lemma NibbleBits(x: bv32)
    ensures var y := Four(x);
      var x1 := Half(x); var x2 := Half(x1); var x3 := Half(x2);
      var y1 := Half(y); var y2 := Half(y1); var y3 := Half(y2); var y4 := Half(y3); var y5 := Half(y4); var y6 := Half(y5);
      && LowBit(y) == LowBit(x) && LowBit(y1) == LowBit(x1) && LowBit(y2) == LowBit(x2) && LowBit(y3) == LowBit(x3)
      && LowBit(y4) == 0 && LowBit(y5) == 0 && LowBit(y6) == 0 && Half(y6) == 0
  {
  }

  lemma TopSteps(x: bv32)
    ensures var top := Down(Down(Down(Down(x)))); Four(top) == top
  {
  }

  lemma NumBound(x: bv32)
    ensures Num(x) < 0x1_0000_0000
  {
    hide *;
    var x1 := Down(x);
    var x2 := Down(x1);
    var x3 := Down(x2);
    var x4 := Down(x3);
    TopSteps(x);
    Cut(x);
    Cut(x1);
    Cut(x2);
    Cut(x3);
    Nibble(x4);
  }

  /** Shifting left by seven multiplies by 128 while the top seven bits are clear. */
  lemma ShiftUp(x: bv32)
    requires Room(x)
    ensures Num(Up(x)) == 128 * Num(x)
  {
    UpSteps(x);
    hide *;
    var x1 := Twice(x);
    var x2 := Twice(x1);
    var x3 := Twice(x2);
    var x4 := Twice(x3);
    var x5 := Twice(x4);
    var x6 := Twice(x5);
    Double(x);
    Double(x1);
    Double(x2);
    Double(x3);
    Double(x4);
    Double(x5);
    Double(x6);
  }

  lemma UpSteps(x: bv32)
    requires Room(x)
    ensures var x1 := Twice(x); var x2 := Twice(x1); var x3 := Twice(x2); var x4 := Twice(x3); var x5 := Twice(x4); var x6 := Twice(x5);
      && TopClear(x) && TopClear(x1) && TopClear(x2) && TopClear(x3) && TopClear(x4) && TopClear(x5) && TopClear(x6)
      && Twice(x6) == Up(x)
  {
  }

  // Words from numbers.

  function BitsOf(u: nat): bv32 {
    if u == 0 then 0 else Or(Twice(BitsOf(u / 2)), if u % 2 == 1 then 1 else 0)
  }

  lemma TopBit()
    ensures Num(0x8000_0000) == 0x8000_0000 && Num(1) == 1 && Num(0) == 0
  {
    assert Num(1) == 1 by {
      Halve(1);
      assert 1 as bv32 >> 1 == 0;
    }
    ShiftUp(1);
    ShiftUp(0x80);
    ShiftUp(0x4000);
    ShiftUp(0x20_0000);
    Double(0x1000_0000);
    Double(0x2000_0000);
    Double(0x4000_0000);
    Powers();
    hide Num;
  }

  lemma Powers()
    ensures Up(1) == 0x80 && Up(0x80) == 0x4000 && Up(0x4000) == 0x20_0000
    ensures Up(0x20_0000) == 0x1000_0000 && Twice(0x1000_0000) == 0x2000_0000
    ensures Twice(0x2000_0000) == 0x4000_0000 && Twice(0x4000_0000) == 0x8000_0000
  {
  }

  lemma TopApart(x: bv32)
    ensures Apart(x & 0x7fff_ffff, 0x8000_0000)
    ensures !TopClear(x) ==> Or(x & 0x7fff_ffff, 0x8000_0000) == x
  {
  }

  /** A word that spells less than 2^31 has its top bit clear. */
  lemma SmallIsClear(x: bv32)
    requires Num(x) < 0x8000_0000
    ensures TopClear(x)
  {
    hide *;
    TopApart(x);
    TopBit();
    OrIsAdd(x & 0x7fff_ffff, 0x8000_0000);
  }

  lemma OneApart(x: bv32)
    ensures Apart(Twice(x), 1) && Apart(Twice(x), 0)
  {
  }

  /** The word made from a number spells that number. */
  lemma {:induction false} NumBitsOf(u: nat)
    requires u < 0x1_0000_0000
    ensures Num(BitsOf(u)) == u
  {
    if u != 0 {
      hide Num, Half, Twice, Or, Apart, TopClear, LowBit;
      NumBitsOf(u / 2);
      var x := BitsOf(u / 2);
      TopBit();
      SmallIsClear(x);
      Double(x);
      OneApart(x);
      OrIsAdd(Twice(x), if u % 2 == 1 then 1 else 0);
    }
  }
}
