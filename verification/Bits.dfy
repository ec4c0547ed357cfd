/** Bit-level reading of basis-state indices: masks, shifts, `&` and `|` on naturals. */
module Bits {

  /** `1u << k`. */
  function Pow2(k: nat): (p: nat)
    ensures p >= 1
  {
    if k == 0 then 1 else 2 * Pow2(k - 1)
  }

  /** Whether bit `k` of `s` is set: `(s >> k) & 1u`. */
  predicate Bit(s: nat, k: nat) {
    if k == 0 then s % 2 == 1 else Bit(s / 2, k - 1)
  }

  function And(a: nat, b: nat): nat {
    if a == 0 || b == 0 then 0
    else 2 * And(a / 2, b / 2) + (if a % 2 == 1 && b % 2 == 1 then 1 else 0)
  }

  function Or(a: nat, b: nat): nat
    decreases a + b
  {
    if a == 0 && b == 0 then 0
    else 2 * Or(a / 2, b / 2) + (if a % 2 == 1 || b % 2 == 1 then 1 else 0)
  }

  lemma {:induction false} Pow2Add(a: nat, b: nat)
    ensures Pow2(a + b) == Pow2(a) * Pow2(b)
  {
    if a > 0 {
      Pow2Add(a - 1, b);
      Double(Pow2(a - 1), Pow2(b));
    }
  }

  lemma Double(x: nat, y: nat)
    ensures 2 * (x * y) == (2 * x) * y
  {
  }

  lemma {:induction false} Pow2Mono(a: nat, b: nat)
    requires a <= b
    ensures Pow2(a) <= Pow2(b)
    ensures a < b ==> 2 * Pow2(a) <= Pow2(b)
    decreases b
  {
    if a < b {
      Pow2Mono(a, b - 1);
    }
  }

  lemma {:induction false} ZeroBits(k: nat)
    ensures !Bit(0, k)
  {
    if k > 0 {
      ZeroBits(k - 1);
    }
  }

  lemma {:induction false} BitBound(s: nat, k: nat)
    ensures s < Pow2(k) ==> !Bit(s, k)
    ensures Pow2(k) <= s < 2 * Pow2(k) ==> Bit(s, k)
  {
    if k > 0 {
      BitBound(s / 2, k - 1);
    }
  }

  /** Appending a binary digit shifts the bits up. */
  lemma BitOfDigit(m: nat, on: bool, k: nat)
    ensures Bit(2 * m + (if on then 1 else 0), k) == if k == 0 then on else Bit(m, k - 1)
  {
    assert (2 * m + (if on then 1 else 0)) / 2 == m;
    assert (2 * m + (if on then 1 else 0)) % 2 == if on then 1 else 0;
  }

  /** Adding a multiple of 2^(k+1) leaves bit `k` alone. */
  lemma {:induction false} BitAddMultiple(m: nat, r: nat, k: nat)
    ensures Bit(m * (2 * Pow2(k)) + r, k) == Bit(r, k)
  {
    if k == 0 {
      HalfOfSum(m, r);
    } else {
      var p := Pow2(k - 1);
      DoubleProduct(m, p);
      HalfOfSum(m * (2 * p), r);
      BitAddMultiple(m, r / 2, k - 1);
    }
  }

  lemma DoubleProduct(m: nat, p: nat)
    ensures m * (2 * (2 * p)) == 2 * (m * (2 * p))
  {
  }

  lemma HalfOfSum(x: nat, r: nat)
    ensures (2 * x + r) / 2 == x + r / 2 && (2 * x + r) % 2 == r % 2
  {
  }

  lemma {:induction false} SetBit(s: nat, k: nat, j: nat)
    requires !Bit(s, k)
    ensures Bit(s + Pow2(k), j) == (j == k || Bit(s, j))
  {
    if k > 0 {
      assert (s + Pow2(k)) / 2 == s / 2 + Pow2(k - 1);
      if j > 0 {
        SetBit(s / 2, k - 1, j - 1);
      }
    } else if j > 0 {
      assert (s + 1) / 2 == s / 2;
    }
  }

  lemma {:induction false} ClearBit(s: nat, k: nat, j: nat)
    requires Bit(s, k)
    ensures s >= Pow2(k)
    ensures Bit(s - Pow2(k), j) == (j != k && Bit(s, j))
  {
    if k > 0 {
      ClearBit(s / 2, k - 1, if j > 0 then j - 1 else 0);
      assert (s - Pow2(k)) / 2 == s / 2 - Pow2(k - 1);
    } else if j > 0 {
      assert (s - 1) / 2 == s / 2;
    }
  }

  lemma {:induction false} SetBitRange(s: nat, k: nat, n: nat)
    requires s < Pow2(n) && k < n && !Bit(s, k)
    ensures s + Pow2(k) < Pow2(n)
  {
    if k > 0 {
      SetBitRange(s / 2, k - 1, n - 1);
    }
  }

  lemma {:induction false} BitExt(a: nat, b: nat, n: nat)
    requires a < Pow2(n) && b < Pow2(n)
    requires forall j: nat | j < n :: Bit(a, j) == Bit(b, j)
    ensures a == b
  {
    if n > 0 {
      forall j: nat | j < n - 1
        ensures Bit(a / 2, j) == Bit(b / 2, j)
      {
        assert Bit(a, j + 1) == Bit(b, j + 1);
      }
      BitExt(a / 2, b / 2, n - 1);
      assert Bit(a, 0) == Bit(b, 0);
    }
  }

  lemma {:induction false} BitOr(a: nat, b: nat, k: nat)
    ensures Bit(Or(a, b), k) == (Bit(a, k) || Bit(b, k))
  {
    if a == 0 && b == 0 {
      ZeroBits(k);
    } else if k > 0 {
      BitOr(a / 2, b / 2, k - 1);
    }
  }

  lemma {:induction false} OrRange(a: nat, b: nat, n: nat)
    requires a < Pow2(n) && b < Pow2(n)
    ensures Or(a, b) < Pow2(n)
  {
    if n > 0 {
      OrRange(a / 2, b / 2, n - 1);
    }
  }

  lemma {:induction false} Pow2Bits(k: nat, j: nat)
    ensures Bit(Pow2(k), j) == (j == k)
  {
    ZeroBits(k);
    ZeroBits(j);
    SetBit(0, k, j);
  }

  /** Or-ing a clear mask bit in is adding it. */
  lemma {:induction false} OrMask(s: nat, k: nat)
    requires !Bit(s, k)
    ensures Or(s, Pow2(k)) == s + Pow2(k)
  {
    if k > 0 {
      OrMask(s / 2, k - 1);
    } else {
      OrZero(s / 2);
    }
  }

  lemma {:induction false} OrZero(s: nat)
    ensures Or(s, 0) == s
  {
    if s > 0 {
      OrZero(s / 2);
    }
  }

  /** `s & (1 << k)` tests bit `k`. */
  lemma {:induction false} AndMask(s: nat, k: nat)
    ensures And(s, Pow2(k)) != 0 <==> Bit(s, k)
  {
    if s == 0 {
      ZeroBits(k);
    } else if k > 0 {
      AndMask(s / 2, k - 1);
    } else {
      assert And(s / 2, 0) == 0;
    }
  }

  lemma {:induction false} PowersPass(p: nat)
    ensures And(Pow2(p), Pow2(p) - 1) == 0
  {
    if p > 0 {
      PowersPass(p - 1);
      var h := Pow2(p - 1);
      assert (2 * h - 1) / 2 == h - 1 && (2 * h) / 2 == h;
      assert And(2 * h, 2 * h - 1) == 2 * And(h, h - 1);
    }
  }

  lemma {:induction false} OnlyPowersPass(x: nat) returns (p: nat)
    requires x >= 1 && And(x, x - 1) == 0
    ensures x == Pow2(p)
  {
    if x == 1 {
      p := 0;
    } else {
      assert x % 2 == 0 by {
        if x % 2 == 1 {
          assert x / 2 == (x - 1) / 2;
          AndSelf(x / 2);
        }
      }
      assert (x - 1) / 2 == x / 2 - 1;
      var half := OnlyPowersPass(x / 2);
      p := half + 1;
    }
  }

  /** `x & (x - 1) == 0` holds of a positive `x` exactly when it is a power of two. */
  lemma PowerOfTwoTest(x: nat)
    requires x >= 1
    ensures And(x, x - 1) == 0 <==> exists p: nat :: x == Pow2(p)
  {
    if And(x, x - 1) == 0 {
      var p := OnlyPowersPass(x);
    }
    if p: nat :| x == Pow2(p) {
      PowersPass(p);
    }
  }

  lemma {:induction false} AndSelf(x: nat)
    ensures And(x, x) == x
  {
    if x > 0 {
      AndSelf(x / 2);
    }
  }
}
