/** Bit operations on unbounded integers, as Python has them. */
module Bits {
  function Pow2(n: nat): (p: nat)
    ensures p > 0
  {
    if n == 0 then 1 else 2 * Pow2(n - 1)
  }

  /** `a << n`. */
  function Shl(a: nat, n: nat): nat {
    if n == 0 then a else 2 * Shl(a, n - 1)
  }

  /** `a >> n`. */
  function Shr(a: nat, n: nat): nat {
    if n == 0 then a else Shr(a / 2, n - 1)
  }

  /** `a & ((1 << width) - 1)`; a negative number has infinitely many leading ones. */
  function Mask(a: int, width: nat): nat
    decreases width
  {
    if width == 0 then 0 else a % 2 + 2 * Mask(a / 2, width - 1)
  }

  /** `a | b`. */
  function Or(a: nat, b: nat): nat {
    if a == 0 then b else (if a % 2 == 1 || b % 2 == 1 then 1 else 0) + 2 * Or(a / 2, b / 2)
  }

  /** Numbers whose bits do not overlap are combined by adding them. */
  lemma {:induction false} OrIsPlus(a: nat, b: nat, n: nat)
    requires a < Pow2(n)
    ensures Or(a, Shl(b, n)) == a + Shl(b, n)
  {
    if n > 0 && a > 0 {
      OrIsPlus(a / 2, b, n - 1);
    }
  }

  /** Two fields put side by side are read back as they were. */
  lemma {:induction false} ReadBack(low: nat, high: nat, n: nat)
    requires low < Pow2(n)
    ensures Mask(low + Shl(high, n), n) == low && Shr(low + Shl(high, n), n) == high
  {
    if n > 0 {
      ReadBack(low / 2, high, n - 1);
    }
  }

  lemma {:induction false} MaskSmall(a: nat, n: nat)
    requires a < Pow2(n)
    ensures Mask(a, n) == a && Shr(a, n) == 0
  {
    if n > 0 {
      MaskSmall(a / 2, n - 1);
    }
  }

  lemma {:induction false} MaskBound(a: int, n: nat)
    ensures Mask(a, n) < Pow2(n)
    decreases n
  {
    if n > 0 {
      MaskBound(a / 2, n - 1);
    }
  }

  /** Among numbers less than a full cycle apart, the kept bits tell which one it is. */
  lemma {:induction false} MaskIdentifies(a: int, b: int, n: nat)
    requires a < b + Pow2(n) && b < a + Pow2(n) && Mask(a, n) == Mask(b, n)
    ensures a == b
    decreases n
  {
    if n > 0 {
      assert a % 2 == b % 2 && Mask(a / 2, n - 1) == Mask(b / 2, n - 1);
      MaskIdentifies(a / 2, b / 2, n - 1);
    }
  }

  lemma {:induction false} ShlTwice(a: nat, m: nat, n: nat)
    ensures Shl(Shl(a, m), n) == Shl(a, m + n)
  {
    if n > 0 {
      ShlTwice(a, m, n - 1);
    }
  }

  lemma {:induction false} ShrTwice(a: nat, m: nat, n: nat)
    ensures Shr(Shr(a, m), n) == Shr(a, m + n)
    decreases m
  {
    if m > 0 {
      ShrTwice(a / 2, m - 1, n);
    }
  }

  lemma {:induction false} ShlPlus(a: nat, b: nat, n: nat)
    ensures Shl(a + b, n) == Shl(a, n) + Shl(b, n)
  {
    if n > 0 {
      ShlPlus(a, b, n - 1);
    }
  }

  lemma {:induction false} ShlOne(n: nat)
    ensures Shl(1, n) == Pow2(n)
  {
    if n > 0 {
      ShlOne(n - 1);
    }
  }

  lemma {:induction false} ShlOfPow2(m: nat, n: nat)
    ensures Shl(Pow2(m), n) == Pow2(m + n)
  {
    if n > 0 {
      ShlOfPow2(m, n - 1);
    }
  }

  lemma {:induction false} ShlOrder(a: nat, b: nat, n: nat)
    ensures a <= b <==> Shl(a, n) <= Shl(b, n)
  {
    if n > 0 {
      ShlOrder(a, b, n - 1);
    }
  }

  lemma {:induction false} ShlLonger(a: nat, m: nat, n: nat)
    requires m <= n
    ensures Shl(a, m) <= Shl(a, n)
  {
    if m < n {
      ShlLonger(a, m, n - 1);
    }
  }

  /** A number of `m` bits shifted by `n`, with `n` bits below, has `m + n` bits. */
  lemma {:induction false} ShlBound(low: nat, high: nat, m: nat, n: nat)
    requires low < Pow2(n) && high < Pow2(m)
    ensures low + Shl(high, n) < Pow2(m + n)
  {
    ShlOrder(high + 1, Pow2(m), n);
    ShlPlus(high, 1, n);
    ShlOne(n);
    ShlOfPow2(m, n);
  }

  lemma {:induction false} Pow2Monotone(m: nat, n: nat)
    requires m <= n
    ensures Pow2(m) <= Pow2(n)
  {
    if m < n {
      Pow2Monotone(m, n - 1);
    }
  }

  lemma {:induction false} Pow2Values()
    ensures Pow2(1) == 2 && Pow2(8) == 0x100 && Pow2(10) == 0x400 && Pow2(11) == 0x800 && Pow2(32) == 0x1_0000_0000
  {
    Pow2After(16, 0x1_0000);
  }

  lemma {:induction false} Pow2After(n: nat, p: nat)
    ensures Pow2(n) == p ==>
              Pow2(n + 1) == 2 * p && Pow2(n + 2) == 4 * p && Pow2(n + 3) == 8 * p && Pow2(n + 4) == 16 * p
  {
  }
}
