/** Powers of two: the block-size computation of the queue and its masked indices. */
module Pow2 {

  // --- On machine words --------------------------------------------------------

  const TOP: bv64 := 0x8000_0000_0000_0000

  /** A nonzero word with a single bit set. */
  predicate SingleBit(x: bv64) { x != 0 && x & (x - 1) == 0 }

  /** The bit below and including the highest set bit, all set. */
  function SmearByte(x: bv64): bv64 {
    var a := x | (x >> 1);
    var b := a | (a >> 2);
    b | (b >> 4)
  }

  function Smear16(x: bv64): bv64 { SmearByte(x) | (SmearByte(x) >> 8) }

  function Smear32(x: bv64): bv64 { Smear16(x) | (Smear16(x) >> 16) }

  function Smear(x: bv64): bv64 { Smear32(x) | (Smear32(x) >> 32) }

  /** `r` is a power of two, at least `x`, and half of it is not. */
  predicate CeilOf(x: bv64, r: bv64) { SingleBit(r) && x <= r && r >> 1 < x }

  lemma CeilIsLeast(x: bv64, r: bv64, p: bv64)
    requires CeilOf(x, r) && SingleBit(p) && x <= p
    ensures r <= p
  {
  }

  lemma SmearReachesTopBit(v: bv64, y: bv64)
    requires v != 0 && v < TOP && y == Smear(v)
    ensures v <= y && SingleBit(y + 1) && y >> 1 < v
  {
  }

  lemma AllOnesPlusOne(v: bv64, y: bv64)
    requires v <= y && SingleBit(y + 1) && y >> 1 < v
    ensures CeilOf(v + 1, y + 1)
  {
  }

  lemma SmearOfLargeWord(v: bv64, y: bv64)
    requires TOP <= v && y == Smear(v)
    ensures y + 1 == 0
  {
  }

  lemma SmearOfZero(v: bv64, y: bv64)
    requires v == 0 && y == Smear(v)
    ensures CeilOf(v + 1, y + 1)
  {
  }

  lemma SmearSpec(x: bv64, v: bv64, y: bv64)
    requires v == x - 1 && y == Smear(v)
    ensures 0 < x <= TOP ==> CeilOf(x, y + 1)
    ensures !(0 < x <= TOP) ==> y + 1 == 0
  {
    hide Smear;
    assert x == v + 1;
    if v == 0 {
      SmearOfZero(v, y);
    } else if v < TOP {
      SmearReachesTopBit(v, y);
      AllOnesPlusOne(v, y);
    } else {
      SmearOfLargeWord(v, y);
    }
  }

  /** `r | r >> (i << 3)` for the values the loop counter takes. */
  function Fold(r: bv64, i: nat): bv64
    requires i == 1 || i == 2 || i == 4
  {
    if i == 1 then r | (r >> 8) else if i == 2 then r | (r >> 16) else r | (r >> 32)
  }

  /** The loop of `ceilToPow2`. */
  method FoldBytes(v: bv64) returns (r: bv64)
    ensures r == Fold(Fold(Fold(v, 1), 2), 4)
  {
    hide Fold;
    r := v;
    var i := 1;
    while i < 8
      invariant i == 1 || i == 2 || i == 4 || i == 8
      invariant i == 1 ==> r == v
      invariant i == 2 ==> r == Fold(v, 1)
      invariant i == 4 ==> r == Fold(Fold(v, 1), 2)
      invariant i == 8 ==> r == Fold(Fold(Fold(v, 1), 2), 4)
      decreases 8 - i
    {
      r := Fold(r, i);
      i := i * 2;
    }
  }

  lemma FoldsAreSmear(v: bv64, y: bv64)
    requires y == Fold(Fold(Fold(SmearByte(v), 1), 2), 4)
    ensures y == Smear(v)
  {
  }

  method LowByte(x: bv64) returns (r: bv64)
    ensures r == SmearByte(x)
  {
    r := x | (x >> 1);
    r := r | (r >> 2);
    r := r | (r >> 4);
  }

  /** `ceilToPow2`: the least power of two at or above `x` (see `CeilIsLeast`), for
      exactly the `x` that have one in 64 bits; 0 otherwise. */
  method CeilToPow2(x: bv64) returns (r: bv64)
    ensures 0 < x <= TOP ==> CeilOf(x, r) && Number(r) == LeastPower(Number(x))
    ensures !(0 < x <= TOP) ==> r == 0
  {
    hide Fold, SmearByte, Smear, CeilOf, Number, LeastPower;
    r := LowByte(x - 1);
    r := FoldBytes(r);
    FoldsAreSmear(x - 1, r);
    SmearSpec(x, x - 1, r);
    r := r + 1;
    if 0 < x <= TOP {
      CeilIsLeastPower(x, r);
    }
  }

  /** The masked index step of a block is addition modulo the block size. */
  lemma MaskedStepIsModular(i: bv64, size: bv64)
    requires SingleBit(size) && i < size
    ensures (i + 1) & (size - 1) == if i + 1 == size then 0 else i + 1
  {
  }

  // --- On naturals ---------------------------------------------------------------

  function Power(k: nat): nat { if k == 0 then 1 else 2 * Power(k - 1) }

  ghost predicate IsPower(n: nat) { exists j :: 0 <= j && n == Power(j) }

  /** Least power of two at or above `n`, counting up from `2^k`. */
  function LeastFrom(n: nat, k: nat): (r: nat)
    requires k == 0 || Power(k - 1) < n
    ensures n <= r && IsPower(r)
    ensures forall j :: 0 <= j && n <= Power(j) ==> r <= Power(j)
    decreases if Power(k) < n then n - Power(k) else 0
  {
    PowersIncrease(k);
    if n <= Power(k) then Power(k) else PowerStep(k, k + 1); LeastFrom(n, k + 1)
  }

  function LeastPower(n: nat): (r: nat)
    ensures n <= r && IsPower(r)
    ensures forall j :: 0 <= j && n <= Power(j) ==> r <= Power(j)
  {
    LeastFrom(n, 0)
  }

  lemma DoubleIsPower(n: nat)
    ensures IsPower(n) ==> IsPower(n * 2)
  {
    if IsPower(n) {
      var j :| 0 <= j && n == Power(j);
      assert Power(j + 1) == n * 2;
    }
  }

  lemma PowersIncrease(k: nat)
    ensures forall j :: 0 <= j < k ==> Power(j) <= Power(k - 1)
    ensures forall j :: k <= j ==> Power(k) <= Power(j)
  {
    forall j: nat
      ensures j < k ==> Power(j) <= Power(k - 1)
      ensures k <= j ==> Power(k) <= Power(j)
    {
      if j < k {
        PowerStep(j, k - 1);
      } else {
        PowerStep(k, j);
      }
    }
  }

  lemma {:induction false} PowerStep(i: nat, j: nat)
    requires i <= j
    ensures 1 <= Power(i) <= Power(j) && (i < j ==> Power(i) < Power(j))
    decreases j
  {
    if i < j {
      PowerStep(i, j - 1);
    } else if 0 < i {
      PowerStep(i - 1, i - 1);
    }
  }

  // --- Words and naturals ----------------------------------------------------------

  const MAX: bv64 := 0xFFFF_FFFF_FFFF_FFFF

  function Half(x: bv64): bv64 { x >> 1 }

  predicate Odd(x: bv64) { x & 1 == 1 }

  function Next(x: bv64): bv64 { x + 1 }

  predicate AtMost(a: bv64, b: bv64) { a <= b }

  /** The number a word stands for, bit by bit. */
  function Number(x: bv64): (n: nat)
    ensures x == 0 <==> n == 0
  {
    if x == 0 then 0
    else
      Halving(x);
      2 * Number(Half(x)) + if Odd(x) then 1 else 0
  }

  lemma Halving(x: bv64)
    requires x != 0
    ensures Half(x) < x
    ensures Half(x) == 0 ==> Odd(x)
  {
  }

  lemma Rejoined(a: bv64, b: bv64)
    requires Half(a) == Half(b) && Odd(a) == Odd(b)
    ensures a == b
  {
  }

  lemma {:induction false} NumberTells(a: bv64, b: bv64)
    ensures Number(a) == Number(b) <==> a == b
    decreases Number(a)
  {
    hide Half, Odd;
    if Number(a) == Number(b) && a != 0 {
      NumberTells(Half(a), Half(b));
      Rejoined(a, b);
    }
  }

  /** Halving words keeps their order, and what halving loses is the lowest bit. */
  lemma HalvingOrders(a: bv64, b: bv64)
    requires AtMost(a, b)
    ensures AtMost(Half(a), Half(b))
    ensures Half(a) == Half(b) && Odd(a) ==> Odd(b)
  {
  }

  lemma NothingBelowZero(a: bv64)
    requires AtMost(a, 0)
    ensures a == 0
  {
  }

  lemma {:induction false} NumberOrders(a: bv64, b: bv64)
    requires AtMost(a, b)
    ensures Number(a) <= Number(b) && (a != b ==> Number(a) < Number(b))
    decreases Number(b)
  {
    hide AtMost, Half, Odd;
    NumberTells(a, b);
    HalvingOrders(a, b);
    if b == 0 {
      NothingBelowZero(a);
    } else if a != 0 {
      NumberTells(Half(a), Half(b));
      NumberOrders(Half(a), Half(b));
    }
  }

  lemma Carrying(a: bv64)
    requires a != MAX
    ensures Next(a) != 0
    ensures !Odd(a) ==> Half(Next(a)) == Half(a) && Odd(Next(a))
    ensures Odd(a) ==> Half(Next(a)) == Next(Half(a)) && !Odd(Next(a)) && Half(a) != MAX
  {
  }

  lemma {:induction false} NumberCounts(a: bv64)
    requires a != MAX
    ensures Number(Next(a)) == Number(a) + 1
    decreases Number(a)
  {
    hide Half, Odd, Next;
    Carrying(a);
    ZeroHalf();
    if Odd(a) {
      NumberCounts(Half(a));
    }
  }

  lemma ZeroHalf()
    ensures Half(0) == 0 && !Odd(0)
  {
  }

  lemma SingleBitHalves(r: bv64)
    requires SingleBit(r)
    ensures r != 0
    ensures if r == 1 then Half(r) == 0 && Odd(r) else SingleBit(Half(r)) && !Odd(r)
  {
  }

  lemma {:induction false} SingleBitIsPower(r: bv64)
    requires SingleBit(r)
    ensures IsPower(Number(r))
    decreases Number(r)
  {
    hide Half, Odd, SingleBit;
    SingleBitHalves(r);
    if r == 1 {
      assert Number(r) == 1 == Power(0);
    } else {
      SingleBitIsPower(Half(r));
      DoubleIsPower(Number(Half(r)));
    }
  }

  lemma CeilParts(x: bv64, r: bv64)
    requires CeilOf(x, r)
    ensures SingleBit(r) && AtMost(x, r) && AtMost(Half(r), x) && Half(r) != x
  {
  }

  /** What `ceilToPow2` computes on words is the least power of two on naturals. */
  lemma CeilIsLeastPower(x: bv64, r: bv64)
    requires CeilOf(x, r)
    ensures Number(r) == LeastPower(Number(x))
  {
    hide CeilOf, SingleBit, AtMost, Half, LeastPower, Number;
    CeilParts(x, r);
    SingleBitIsPower(r);
    NumberOrders(x, r);
    NumberOrders(Half(r), x);
    NumberHalves(r);
    LeastBetween(Number(x), Number(r));
  }

  lemma NumberHalves(r: bv64)
    ensures Number(r) <= 2 * Number(Half(r)) + 1
  {
  }

  lemma LeastBetween(n: nat, q: nat)
    requires IsPower(q) && n <= q <= 2 * n - 1
    ensures q == LeastPower(n)
  {
    var p := LeastPower(n);
    var j :| 0 <= j && q == Power(j);
    assert p <= Power(j);
    if p < q {
      NoPowerBetween(p, q);
    }
  }

  lemma NoPowerBetween(p: nat, q: nat)
    requires IsPower(p) && IsPower(q) && p < q
    ensures 2 * p <= q
  {
    var i, j :| 0 <= i && 0 <= j && p == Power(i) && q == Power(j);
    if j <= i {
      PowerStep(j, i);
    } else {
      PowerStep(i + 1, j);
    }
  }

  /** The masked step of a word index is the step of a natural index around the block. */
  lemma MaskedStepCounts(i: bv64, size: bv64)
    requires SingleBit(size) && i < size
    ensures Number(i) < Number(size)
    ensures Number((i + 1) & (size - 1)) == if Number(i) + 1 == Number(size) then 0 else Number(i) + 1
  {
    hide Number;
    NumberOrders(i, size);
    NumberCounts(i);
    MaskedStepIsModular(i, size);
    NumberTells(i + 1, size);
  }
}
