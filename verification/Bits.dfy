/** Machine words as natural numbers: powers of two and the bitwise operators the driver applies to
    page numbers, command words, status registers and flash cells. */
module Bits {

  type u8 = x: int | 0 <= x < 0x100
  type u16 = x: int | 0 <= x < 0x1_0000
  type u32 = x: int | 0 <= x < 0x1_0000_0000

  const WORD_BITS := 64

  /** 32-bit addition and subtraction, wrapping around. */
  function Add32(a: u32, b: u32): u32 {
    if a + b < 0x1_0000_0000 then a + b else a + b - 0x1_0000_0000
  }

  function Sub32(a: u32, b: u32): u32 {
    if a >= b then a - b else a - b + 0x1_0000_0000
  }

  function Pow2(k: nat): (r: nat)
    ensures r > 0
  {
    if k == 0 then 1 else 2 * Pow2(k - 1)
  }

  lemma Pow2Values()
    ensures Pow2(7) == 0x80 && Pow2(8) == 0x100 && Pow2(10) == 0x400 && Pow2(16) == 0x10000 && Pow2(24) == 0x1000000
  {
    assert Pow2(8) == 0x100;
    assert Pow2(16) == 0x10000;
  }

  // Product, rounding and remainder by counting: they unfold a step at a time where the operators would
  // have the solver search among products of variables. TimesIs and RoundDownIs give the operators back.

  function Times(a: nat, b: nat): nat {
    if a == 0 then 0 else Times(a - 1, b) + b
  }

  function RoundDown(x: nat, m: nat): (r: nat)
    requires m > 0
    ensures r <= x < r + m
  {
    if x < m then 0 else m + RoundDown(x - m, m)
  }

  /** Bitwise `x & y`. */
  function And(x: nat, y: nat): (r: nat)
    ensures r <= x && r <= y
  {
    if x == 0 || y == 0 then 0 else 2 * And(x / 2, y / 2) + (if x % 2 == 1 && y % 2 == 1 then 1 else 0)
  }

  /** Bitwise `x | y`. */
  function Or(x: nat, y: nat): (r: nat)
    ensures x <= r && y <= r <= x + y
    decreases x + y
  {
    if x == 0 then y else if y == 0 then x
    else 2 * Or(x / 2, y / 2) + (if x % 2 == 1 || y % 2 == 1 then 1 else 0)
  }

  /** Bitwise `^x` of a `bits`-bit unsigned word. */
  function Not(bits: nat, x: nat): nat
    requires x < Pow2(bits)
  {
    Pow2(bits) - 1 - x
  }

  lemma {:induction false} Pow2Add(a: nat, b: nat)
    ensures Pow2(a + b) == Pow2(a) * Pow2(b)
  {
    if a > 0 {
      Pow2Add(a - 1, b);
      calc {
        Pow2(a + b);
        2 * (Pow2(a - 1) * Pow2(b));
        (2 * Pow2(a - 1)) * Pow2(b);
      }
    }
  }

  lemma {:induction false} Pow2Monotone(a: nat, b: nat)
    requires a <= b
    ensures Pow2(a) <= Pow2(b)
  {
    if a < b {
      Pow2Monotone(a, b - 1);
    }
  }

  lemma DivRemainder(x: nat, m: nat)
    requires m > 0
    ensures 0 <= x - x / m * m < m
  {
    assert x == x / m * m + x % m;
  }

  lemma MulSign(d: int, m: int)
    requires m >= 0
    ensures d >= 1 ==> d * m >= m
    ensures d <= -1 ==> d * m <= -m
  {
    if d >= 1 {
      assert (d - 1) * m >= 0;
    } else if d <= -1 {
      assert (-d - 1) * m >= 0;
    }
  }

  /** A quotient and remainder in range are the quotient and the remainder. */
  lemma QuotientUnique(x: nat, m: nat, q: nat, r: nat)
    requires m > 0 && r < m && x == q * m + r
    ensures x / m == q && x % m == r
  {
    var d := x / m - q;
    assert x == x / m * m + x % m;
    assert d * m == r - x % m;
    MulSign(d, m);
  }

  /** The multiples of m around x: the last one up to x and the next one. */
  function MultipleBelow(x: nat, m: nat): int
    requires m > 0
  {
    x / m * m
  }

  function MultipleAbove(x: nat, m: nat): int
    requires m > 0
  {
    (x / m + 1) * m
  }

  /** Quotient and remainder of x by p == 2m, from those of x/2 by m. */
  lemma HalfStep(x: nat, m: nat, p: nat)
    requires 0 < m && p == 2 * m
    ensures x / p == x / 2 / m
    ensures x % p == 2 * (x / 2 % m) + x % 2
  {
    var q, r := x / 2 / m, x / 2 % m;
    assert x / 2 == q * m + r;
    MulTwice(q, m);
    QuotientUnique(x, p, q, 2 * r + x % 2);
  }

  lemma HalfMultiples(x: nat, m: nat, p: nat)
    requires 0 < m && p == 2 * m
    ensures MultipleBelow(x, p) == 2 * MultipleBelow(x / 2, m)
    ensures MultipleAbove(x, p) == 2 * MultipleAbove(x / 2, m)
  {
    HalfStep(x, m, p);
    MulTwice(x / 2 / m, m);
    MulTwice(x / 2 / m + 1, m);
  }

  lemma MulTwice(q: int, m: int)
    ensures q * (2 * m) == 2 * (q * m)
  {
  }

  /** An all-ones mask of at least x's width keeps x. */
  lemma {:induction false} AndAllOnes(k: nat, x: nat)
    requires x < Pow2(k)
    ensures And(x, Pow2(k) - 1) == x
  {
    if k > 0 && x > 0 {
      AndAllOnes(k - 1, x / 2);
    }
  }

  lemma MaskHalf(k: nat)
    requires k > 0
    ensures (Pow2(k) - 1) / 2 == Pow2(k - 1) - 1 && (Pow2(k) - 1) % 2 == 1
  {
  }

  /** One step of And, also where an operand is zero. */
  lemma AndHalf(x: nat, y: nat)
    ensures And(x, y) == 2 * And(x / 2, y / 2) + (if x % 2 == 1 && y % 2 == 1 then 1 else 0)
  {
  }

  lemma OrHalf(x: nat, y: nat)
    ensures Or(x, y) == 2 * Or(x / 2, y / 2) + (if x % 2 == 1 || y % 2 == 1 then 1 else 0)
  {
    if x == 0 {
      assert Or(0, y / 2) == y / 2;
    } else if y == 0 {
      assert Or(x / 2, 0) == x / 2;
    }
  }

  /** `page & ^mask` rounds down to a multiple of 2^k: the driver's mask arithmetic, at every width. */
  lemma {:induction false} ClearLowBits(bits: nat, k: nat, x: nat)
    requires k <= bits && x < Pow2(bits)
    ensures Pow2(k) - 1 < Pow2(bits)
    ensures And(x, Not(bits, Pow2(k) - 1)) == MultipleBelow(x, Pow2(k))
  {
    hide And, Or, MultipleBelow, MultipleAbove;
    Pow2Monotone(k, bits);
    if k == 0 {
      NoLowBits(x);
      AndAllOnes(bits, x);
    } else {
      ClearLowBits(bits - 1, k - 1, x / 2);
      HalfMultiples(x, Pow2(k - 1), Pow2(k));
      NotHalf(bits, k);
      AndHalf(x, Not(bits, Pow2(k) - 1));
      hide Pow2, Not;
    }
  }

  lemma NoLowBits(x: nat)
    ensures MultipleBelow(x, 1) == x && MultipleAbove(x, 1) == x + 1 && Or(x, 0) == x
  {
  }

  lemma NotHalf(bits: nat, k: nat)
    requires 0 < k <= bits && Pow2(k) <= Pow2(bits) && Pow2(k - 1) <= Pow2(bits - 1)
    ensures Not(bits, Pow2(k) - 1) / 2 == Not(bits - 1, Pow2(k - 1) - 1) && Not(bits, Pow2(k) - 1) % 2 == 0
  {
  }

  /** `(page | mask) + 1` is the next multiple of 2^k. */
  lemma {:induction false} SetLowBits(k: nat, x: nat)
    ensures Or(x, Pow2(k) - 1) + 1 == MultipleAbove(x, Pow2(k))
  {
    hide Or, MultipleAbove;
    if k == 0 {
      NoLowBits(x);
    } else {
      SetLowBits(k - 1, x / 2);
      HalfMultiples(x, Pow2(k - 1), Pow2(k));
      MaskHalf(k);
      OrHalf(x, Pow2(k) - 1);
    }
  }

  /** Or of a word whose low k bits are clear and a k-bit field adds them: no command bit is lost. */
  lemma {:induction false} OrDisjoint(k: nat, hi: nat, lo: nat)
    requires lo < Pow2(k)
    ensures Or(hi * Pow2(k), lo) == hi * Pow2(k) + lo
  {
    if k > 0 && hi > 0 && lo > 0 {
      var m := Pow2(k - 1);
      assert hi * (2 * m) == 2 * (hi * m);
      assert hi * m > 0;
      OrDisjoint(k - 1, hi, lo / 2);
    }
  }

  /** Or packs a byte above a 24-bit field. */
  lemma OrTopByte(hi: u8, lo: nat)
    requires lo < 0x1000000
    ensures Or(hi * 0x1000000, lo) == hi * 0x1000000 + lo
  {
    Pow2Values();
    OrDisjoint(24, hi, lo);
  }

  /** An all-ones byte on either side of an And keeps the other. */
  lemma AndOnes8(x: u8)
    ensures And(x, 0xff) == x && And(0xff, x) == x
  {
    assert Pow2(8) == 0x100;
    AndAllOnes(8, x);
    AndCommutes(x, 0xff);
  }

  lemma {:induction false} AndCommutes(x: nat, y: nat)
    ensures And(x, y) == And(y, x)
  {
    if x != 0 && y != 0 {
      AndCommutes(x / 2, y / 2);
    }
  }

  lemma {:induction false} TimesIs(a: nat, b: nat)
    ensures Times(a, b) == a * b
  {
    if a > 0 {
      TimesIs(a - 1, b);
    }
  }

  lemma {:induction false} TimesOrder(a: nat, b: nat, m: nat)
    requires a <= b
    ensures Times(a, m) <= Times(b, m)
  {
    if a < b {
      TimesOrder(a, b - 1, m);
    }
  }

  lemma {:induction false} RoundDownIs(x: nat, m: nat)
    requires m > 0
    ensures RoundDown(x, m) == x / m * m
    ensures x - RoundDown(x, m) == x % m
  {
    if x < m {
      QuotientUnique(x, m, 0, x);
    } else {
      RoundDownIs(x - m, m);
      OneMore(x - m, m);
    }
  }

  lemma OneMore(x: nat, m: nat)
    requires m > 0
    ensures (x + m) / m * m == m + x / m * m && (x + m) % m == x % m
  {
    DivRemainder(x, m);
    QuotientUnique(x + m, m, x / m + 1, x - x / m * m);
    QuotientUnique(x, m, x / m, x - x / m * m);
  }

  lemma {:induction false} RoundDownWithin(k: nat, m: nat, j: nat)
    requires m > 0 && RoundDown(k, m) == k && j < m
    ensures RoundDown(k + j, m) == k
  {
    if k >= m {
      RoundDownWithin(k - m, m, j);
    }
  }

  lemma {:induction false} RoundDownNext(k: nat, m: nat)
    requires m > 0 && RoundDown(k, m) == k
    ensures RoundDown(k + m, m) == k + m
  {
  }

  lemma {:induction false} RoundDownAgain(x: nat, m: nat)
    requires m > 0
    ensures RoundDown(RoundDown(x, m), m) == RoundDown(x, m)
    ensures RoundDown(RoundDown(x, m) + m, m) == RoundDown(x, m) + m
  {
    if x >= m {
      RoundDownAgain(x - m, m);
    }
  }

  /** Between two multiples there is room for one more step. */
  lemma {:induction false} MultiplesGap(p: nat, q: nat, m: nat)
    requires m > 0 && RoundDown(p, m) == p && RoundDown(q, m) == q && p < q
    ensures p + m <= q
    decreases q
  {
    if p >= m {
      MultiplesGap(p - m, q - m, m);
    }
  }
}
