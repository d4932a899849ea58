/** Natural numbers as bit strings: the arithmetic behind shifts, masks and byte layouts. */
module Bits {

  function Pow2(n: nat): (p: nat)
    ensures p > 0
  {
    if n == 0 then 1 else 2 * Pow2(n - 1)
  }

  /** Bit `i` of `x`. */
  predicate TestBit(x: nat, i: nat) {
    if i == 0 then x % 2 == 1 else TestBit(x / 2, i - 1)
  }

  /** Bitwise `x & y`. */
  function And(x: nat, y: nat): nat
    decreases x
  {
    if x == 0 then 0 else 2 * And(x / 2, y / 2) + (if x % 2 == 1 && y % 2 == 1 then 1 else 0)
  }

  /** Bitwise `x | y`. */
  function Or(x: nat, y: nat): nat
    decreases x + y
  {
    if x + y == 0 then 0 else 2 * Or(x / 2, y / 2) + (if x % 2 == 1 || y % 2 == 1 then 1 else 0)
  }

  lemma {:induction false} ZeroHasNoBits(i: nat)
    ensures !TestBit(0, i)
  {
    if i > 0 { ZeroHasNoBits(i - 1); }
  }

  lemma {:induction false} Pow2Bits(n: nat, i: nat)
    ensures TestBit(Pow2(n), i) <==> i == n
  {
    if n > 0 && i > 0 {
      Pow2Bits(n - 1, i - 1);
    } else if n == 0 && i > 0 {
      ZeroHasNoBits(i - 1);
    }
  }

  lemma {:induction false} Pow2Add(m: nat, n: nat)
    ensures Pow2(m + n) == Pow2(m) * Pow2(n)
  {
    if m > 0 {
      Pow2Add(m - 1, n);
      assert Pow2(m + n) == 2 * Pow2(m + n - 1);
    }
  }

  lemma OrLowBit(x: nat, y: nat)
    ensures Or(x, y) % 2 == 1 <==> x % 2 == 1 || y % 2 == 1
    ensures Or(x, y) / 2 == Or(x / 2, y / 2)
  {
    if x + y > 0 { Halve(Or(x / 2, y / 2), if x % 2 == 1 || y % 2 == 1 then 1 else 0); }
  }

  lemma Halve(high: nat, low: nat)
    requires low < 2
    ensures (2 * high + low) % 2 == low && (2 * high + low) / 2 == high
  {
  }

  lemma {:induction false} OrBits(x: nat, y: nat, i: nat)
    ensures TestBit(Or(x, y), i) <==> TestBit(x, i) || TestBit(y, i)
    decreases i
  {
    OrLowBit(x, y);
    if i > 0 { OrBits(x / 2, y / 2, i - 1); }
  }

  lemma {:induction false} AndBits(x: nat, y: nat, i: nat)
    ensures TestBit(And(x, y), i) <==> TestBit(x, i) && TestBit(y, i)
    decreases i
  {
    if x == 0 {
      ZeroHasNoBits(i);
    } else if i > 0 {
      assert And(x, y) / 2 == And(x / 2, y / 2);
      AndBits(x / 2, y / 2, i - 1);
    }
  }

  /** The test `x & mask == mask` for a one-bit mask asks whether that bit is set. */
  lemma MaskTest(x: nat, n: nat)
    ensures And(x, Pow2(n)) == Pow2(n) <==> TestBit(x, n)
  {
    forall i ensures TestBit(And(x, Pow2(n)), i) <==> TestBit(x, n) && i == n {
      AndBits(x, Pow2(n), i);
      Pow2Bits(n, i);
    }
    if TestBit(x, n) {
      forall i ensures TestBit(And(x, Pow2(n)), i) <==> TestBit(Pow2(n), i) { Pow2Bits(n, i); }
      SameBits(And(x, Pow2(n)), Pow2(n));
    } else {
      Pow2Bits(n, n);
    }
  }

  /** `x & mask != 0` for a one-bit mask asks the same. */
  lemma MaskNonzero(x: nat, n: nat)
    ensures And(x, Pow2(n)) != 0 <==> TestBit(x, n)
  {
    MaskTest(x, n);
    if !TestBit(x, n) {
      forall i ensures !TestBit(And(x, Pow2(n)), i) {
        AndBits(x, Pow2(n), i);
        Pow2Bits(n, i);
      }
      forall i ensures !TestBit(0, i) { ZeroHasNoBits(i); }
      SameBits(And(x, Pow2(n)), 0);
    }
  }

  /** A number is determined by its bits. */
  lemma {:induction false} SameBits(x: nat, y: nat)
    requires forall i: nat :: TestBit(x, i) <==> TestBit(y, i)
    ensures x == y
    decreases x + y
  {
    assert TestBit(x, 0) <==> TestBit(y, 0);
    if x + y > 0 {
      forall i: nat ensures TestBit(x / 2, i) <==> TestBit(y / 2, i) {
        assert TestBit(x, i + 1) <==> TestBit(y, i + 1);
      }
      SameBits(x / 2, y / 2);
    }
  }

  lemma {:induction false} SmallHasNoHighBits(x: nat, w: nat, i: nat)
    requires x < Pow2(w) && w <= i
    ensures !TestBit(x, i)
    decreases w
  {
    if w == 0 {
      ZeroHasNoBits(i);
    } else {
      SmallHasNoHighBits(x / 2, w - 1, i - 1);
    }
  }

  lemma {:induction false} NoHighBitsIsSmall(x: nat, w: nat)
    requires forall i: nat | w <= i :: !TestBit(x, i)
    ensures x < Pow2(w)
    decreases w
  {
    if w == 0 {
      forall i: nat ensures TestBit(x, i) <==> TestBit(0, i) { ZeroHasNoBits(i); }
      SameBits(x, 0);
    } else {
      forall i: nat | w - 1 <= i ensures !TestBit(x / 2, i) {
        assert !TestBit(x, i + 1);
      }
      NoHighBitsIsSmall(x / 2, w - 1);
    }
  }

  /** Concatenation: `low` in the bottom `m` bits, `high` above them. */
  lemma {:induction false} ConcatBits(low: nat, m: nat, high: nat, i: nat)
    requires low < Pow2(m)
    ensures TestBit(low + Pow2(m) * high, i) <==> if i < m then TestBit(low, i) else TestBit(high, i - m)
    decreases m
  {
    if m > 0 {
      var x := low + Pow2(m) * high;
      assert x == low + 2 * (Pow2(m - 1) * high);
      assert x / 2 == low / 2 + Pow2(m - 1) * high;
      if i > 0 {
        ConcatBits(low / 2, m - 1, high, i - 1);
      }
    }
  }

  /** `x >> m`. */
  function High(x: nat, m: nat): nat {
    if m == 0 then x else High(x / 2, m - 1)
  }

  /** The low `m` bits of `x`. */
  function Low(x: nat, m: nat): nat {
    if m == 0 then 0 else x % 2 + 2 * Low(x / 2, m - 1)
  }

  /** Shifting is division and keeping low bits is remainder. */
  lemma {:induction false} HighLowAreDivMod(x: nat, m: nat)
    ensures x == Low(x, m) + Pow2(m) * High(x, m)
    ensures Low(x, m) < Pow2(m)
    ensures High(x, m) == x / Pow2(m) && Low(x, m) == x % Pow2(m)
  {
    HighLowSplit(x, m);
    DivModUnique(x, Pow2(m), High(x, m), Low(x, m));
  }

  lemma {:induction false} HighLowSplit(x: nat, m: nat)
    ensures x == Low(x, m) + Pow2(m) * High(x, m)
    ensures Low(x, m) < Pow2(m)
  {
    if m > 0 {
      HighLowSplit(x / 2, m - 1);
      Double(Pow2(m - 1), High(x / 2, m - 1));
    }
  }

  lemma Double(p: nat, h: nat)
    ensures (2 * p) * h == 2 * (p * h)
  {
  }

  lemma DivModUnique(x: nat, p: nat, q: nat, r: nat)
    requires p > 0 && r < p && x == r + p * q
    ensures q == x / p && r == x % p
  {
    var q', r' := x / p, x % p;
    assert x == r' + p * q' && 0 <= r' < p;
    if q > q' {
      Gap(p, q, q');
      assert false;
    } else if q < q' {
      Gap(p, q', q);
      assert false;
    }
  }

  lemma {:induction false} Gap(p: nat, a: nat, b: nat)
    requires a > b
    ensures p * a >= p * b + p
    decreases a
  {
    assert p * a == p * (a - 1) + p;
    if a > b + 1 { Gap(p, a - 1, b); }
  }

  lemma {:induction false} LowBits(x: nat, w: nat, i: nat)
    ensures TestBit(Low(x, w), i) <==> i < w && TestBit(x, i)
  {
    if w == 0 {
      ZeroHasNoBits(i);
    } else if i > 0 {
      assert Low(x, w) / 2 == Low(x / 2, w - 1);
      LowBits(x / 2, w - 1, i - 1);
    }
  }

  lemma {:induction false} HighBits(x: nat, a: nat, i: nat)
    ensures TestBit(High(x, a), i) <==> TestBit(x, a + i)
  {
    if a > 0 { HighBits(x / 2, a - 1, i); }
  }

  /** The `w`-bit number found at bit position `lo` of `x`. */
  function Extract(x: nat, lo: nat, w: nat): nat {
    Low(High(x, lo), w)
  }

  lemma ExtractIsDivMod(x: nat, lo: nat, w: nat)
    ensures Extract(x, lo, w) == (x / Pow2(lo)) % Pow2(w)
  {
    HighLowAreDivMod(x, lo);
    HighLowAreDivMod(High(x, lo), w);
  }

  /** `x` with the `w` bits from position `lo` replaced by the low `w` bits of `v`. */
  function Deposit(x: nat, lo: nat, w: nat, v: nat): nat {
    Low(x, lo) + Pow2(lo) * (Low(v, w) + Pow2(w) * High(x, lo + w))
  }

  lemma {:induction false} ExtractBits(x: nat, lo: nat, w: nat, i: nat)
    ensures TestBit(Extract(x, lo, w), i) <==> i < w && TestBit(x, lo + i)
  {
    HighBits(x, lo, i);
    LowBits(High(x, lo), w, i);
  }

  lemma {:induction false} DepositBits(x: nat, lo: nat, w: nat, v: nat, i: nat)
    ensures TestBit(Deposit(x, lo, w, v), i) <==>
            if lo <= i < lo + w then TestBit(v, i - lo) else TestBit(x, i)
  {
    var field, above := Low(v, w), High(x, lo + w);
    HighLowSplit(x, lo);
    HighLowSplit(v, w);
    ConcatBits(Low(x, lo), lo, field + Pow2(w) * above, i);
    if i < lo {
      LowBits(x, lo, i);
    } else {
      ConcatBits(field, w, above, i - lo);
      if i < lo + w {
        LowBits(v, w, i - lo);
      } else {
        HighBits(x, lo + w, i - lo - w);
      }
    }
  }

  /** Reading back what was just deposited. */
  lemma {:induction false} ExtractDeposited(x: nat, lo: nat, w: nat, v: nat)
    ensures Extract(Deposit(x, lo, w, v), lo, w) == Low(v, w)
  {
    forall i: nat ensures TestBit(Extract(Deposit(x, lo, w, v), lo, w), i) <==> TestBit(Low(v, w), i) {
      ExtractBits(Deposit(x, lo, w, v), lo, w, i);
      DepositBits(x, lo, w, v, lo + i);
      LowBits(v, w, i);
    }
    SameBits(Extract(Deposit(x, lo, w, v), lo, w), Low(v, w));
  }

  /** A deposit leaves every field that does not overlap it as it was. */
  lemma ExtractElsewhere(x: nat, lo: nat, w: nat, v: nat, lo': nat, w': nat)
    requires lo + w <= lo' || lo' + w' <= lo
    ensures Extract(Deposit(x, lo, w, v), lo', w') == Extract(x, lo', w')
  {
    forall i: nat
      ensures TestBit(Extract(Deposit(x, lo, w, v), lo', w'), i) <==> TestBit(Extract(x, lo', w'), i)
    {
      ExtractBits(Deposit(x, lo, w, v), lo', w', i);
      ExtractBits(x, lo', w', i);
      DepositBits(x, lo, w, v, lo' + i);
    }
    SameBits(Extract(Deposit(x, lo, w, v), lo', w'), Extract(x, lo', w'));
  }

  lemma DepositsCommute(x: nat, lo: nat, w: nat, v: nat, lo': nat, w': nat, v': nat)
    requires lo + w <= lo' || lo' + w' <= lo
    ensures Deposit(Deposit(x, lo, w, v), lo', w', v') == Deposit(Deposit(x, lo', w', v'), lo, w, v)
  {
    var a := Deposit(Deposit(x, lo, w, v), lo', w', v');
    var b := Deposit(Deposit(x, lo', w', v'), lo, w, v);
    forall i: nat ensures TestBit(a, i) <==> TestBit(b, i) {
      DepositBits(Deposit(x, lo, w, v), lo', w', v', i);
      DepositBits(x, lo, w, v, i);
      DepositBits(Deposit(x, lo', w', v'), lo, w, v, i);
      DepositBits(x, lo', w', v', i);
    }
    SameBits(a, b);
  }
}
