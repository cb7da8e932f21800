/** Powers of two, alignment and the exclusive or of two addresses. */
module PowersOfTwo {

  function Pow2(n: nat): (p: nat)
    ensures p > 0
  {
    if n == 0 then 1 else 2 * Pow2(n - 1)
  }

  predicate Aligned(a: nat, sh: nat) {
    a % Pow2(sh) == 0
  }

  /** Bitwise exclusive or. */
  function Xor(a: nat, b: nat): nat {
    if a == 0 && b == 0 then 0 else 2 * Xor(a / 2, b / 2) + (a + b) % 2
  }

  lemma MultipleIs(x: nat, p: nat) returns (k: nat)
    requires p > 0 && x % p == 0
    ensures x == p * k
  {
    k := x / p;
  }

  lemma MulSign(p: int, d: int)
    requires p > 0
    ensures d >= 1 ==> p * d >= p
    ensures d <= -1 ==> p * d <= -p
  {
  }

  lemma MulOrder(p: nat, i: int, j: int)
    requires p > 0 && p * i <= p * j
    ensures i <= j
  {
    MulSign(p, j - i);
    assert p * (j - i) == p * j - p * i;
  }

  lemma IsMultiple(p: nat, k: nat)
    requires p > 0
    ensures (p * k) % p == 0
  {
    var q, r := (p * k) / p, (p * k) % p;
    assert p * (k - q) == r by {
      assert p * k == p * q + r;
      assert p * (k - q) == p * k - p * q;
    }
    MulSign(p, k - q);
  }

  lemma SumAligned(x: nat, y: nat, p: nat)
    requires p > 0 && x % p == 0 && y % p == 0
    ensures (x + y) % p == 0 && (x >= y ==> (x - y) % p == 0)
  {
    var i := MultipleIs(x, p);
    var j := MultipleIs(y, p);
    assert x + y == p * (i + j);
    IsMultiple(p, i + j);
    if x >= y {
      MulOrder(p, j, i);
      assert x - y == p * (i - j);
      IsMultiple(p, i - j);
    }
  }

  /** Multiples of p that differ, differ by at least p. */
  lemma MultipleGap(x: nat, y: nat, p: nat)
    requires p > 0 && x % p == 0 && y % p == 0 && x < y
    ensures x + p <= y
  {
    SumAligned(y, x, p);
    var k := MultipleIs(y - x, p);
    assert k > 0;
    assert p * k >= p;
  }

  lemma {:induction false} PowerDivides(s: nat, t: nat)
    requires s <= t
    ensures Pow2(t) % Pow2(s) == 0 && Pow2(s) <= Pow2(t)
    decreases t
  {
    if s < t {
      PowerDivides(s, t - 1);
      SumAligned(Pow2(t - 1), Pow2(t - 1), Pow2(s));
    } else {
      IsMultiple(Pow2(s), 1);
    }
  }

  lemma AlignedDown(a: nat, s: nat, t: nat)
    requires s <= t && Aligned(a, t)
    ensures Aligned(a, s)
  {
    PowerDivides(s, t);
    var k := MultipleIs(a, Pow2(t));
    var m := MultipleIs(Pow2(t), Pow2(s));
    assert a == Pow2(s) * (m * k) by {
      assert Pow2(t) * k == (Pow2(s) * m) * k == Pow2(s) * (m * k);
    }
    IsMultiple(Pow2(s), m * k);
  }

  /** The two halves of an aligned block; only the lower starts aligned for the whole. */
  lemma Halves(a: nat, sh: nat)
    requires Aligned(a, sh + 1)
    ensures Aligned(a, sh) && Aligned(a + Pow2(sh), sh)
    ensures !Aligned(a + Pow2(sh), sh + 1)
  {
    AlignedDown(a, sh, sh + 1);
    IsMultiple(Pow2(sh), 1);
    SumAligned(a, Pow2(sh), Pow2(sh));
    if Aligned(a + Pow2(sh), sh + 1) {
      MultipleGap(a, a + Pow2(sh), Pow2(sh + 1));
    }
  }

  /** A block that is not the lower half of its parent is the upper half. */
  lemma UpperHalf(a: nat, sh: nat)
    requires Aligned(a, sh) && !Aligned(a, sh + 1)
    ensures a >= Pow2(sh) && Aligned(a - Pow2(sh), sh + 1)
  {
    var p := Pow2(sh);
    var k := MultipleIs(a, p);
    var m := k / 2;
    if k == 2 * m {
      assert a == (2 * p) * m by {
        assert p * (2 * m) == (2 * p) * m;
      }
      IsMultiple(2 * p, m);
      assert false;
    }
    assert k == 2 * m + 1;
    assert a == (2 * p) * m + p by {
      assert p * (2 * m + 1) == (2 * p) * m + p;
    }
    IsMultiple(2 * p, m);
  }

  /** Two aligned blocks are nested or apart. */
  lemma NestedOrApart(a: nat, s: nat, b: nat, t: nat)
    requires s <= t && Aligned(a, s) && Aligned(b, t)
    ensures (b <= a && a + Pow2(s) <= b + Pow2(t)) || a + Pow2(s) <= b || b + Pow2(t) <= a
  {
    AlignedDown(b, s, t);
    PowerDivides(s, t);
    SumAligned(b, Pow2(t), Pow2(s));
    if a < b {
      MultipleGap(a, b, Pow2(s));
    } else if a < b + Pow2(t) {
      MultipleGap(a, b + Pow2(t), Pow2(s));
    }
  }

  lemma {:induction false} XorSymmetric(a: nat, b: nat)
    ensures Xor(a, b) == Xor(b, a)
  {
    if a != 0 || b != 0 {
      XorSymmetric(a / 2, b / 2);
    }
  }

  lemma {:induction false} XorZero(a: nat, b: nat)
    ensures Xor(a, b) == 0 <==> a == b
  {
    if a != 0 || b != 0 {
      XorZero(a / 2, b / 2);
    }
  }

  /** The test of the code: the addresses of two aligned blocks differ in the
      one bit of the block size exactly when they are the halves of one block. */
  lemma {:induction false} XorFindsBuddy(a: nat, b: nat, sh: nat)
    requires Aligned(a, sh) && Aligned(b, sh) && a < b
    ensures Xor(a, b) == Pow2(sh) <==> b == a + Pow2(sh) && Aligned(a, sh + 1)
    decreases sh
  {
    hide *;
    if sh == 0 {
      XorLowBit(a, b);
    } else {
      HalveAligned(a, sh);
      HalveAligned(b, sh);
      HalveAligned(a, sh + 1);
      XorEven(a / 2, b / 2);
      Doubles(sh);
      XorFindsBuddy(a / 2, b / 2, sh - 1);
    }
  }

  lemma Doubles(sh: nat)
    requires sh > 0
    ensures Pow2(sh) == 2 * Pow2(sh - 1)
  {
  }

  lemma XorStep(a: nat, b: nat)
    ensures Xor(a, b) == 2 * Xor(a / 2, b / 2) + (a + b) % 2
  {
  }

  lemma XorEven(x: nat, y: nat)
    ensures Xor(2 * x, 2 * y) == 2 * Xor(x, y)
  {
    hide *;
    XorStep(2 * x, 2 * y);
    assert (2 * x + 2 * y) % 2 == 0;
  }

  lemma XorLowBit(a: nat, b: nat)
    requires a < b
    ensures Xor(a, b) == Pow2(0) <==> b == a + Pow2(0) && Aligned(a, 1)
  {
    assert Pow2(1) == 2 && Pow2(0) == 1;
    hide Xor, Pow2;
    XorStep(a, b);
    XorZero(a / 2, b / 2);
  }

  lemma HalveAligned(a: nat, sh: nat)
    requires sh > 0
    ensures Aligned(a, sh) <==> a % 2 == 0 && Aligned(a / 2, sh - 1)
  {
    var p := Pow2(sh - 1);
    if Aligned(a, sh) {
      var k := MultipleIs(a, 2 * p);
      assert a == 2 * (p * k) by {
        assert (2 * p) * k == 2 * (p * k);
      }
      IsMultiple(p, k);
    }
    if a % 2 == 0 && Aligned(a / 2, sh - 1) {
      var k := MultipleIs(a / 2, p);
      assert a == (2 * p) * k by {
        assert 2 * (p * k) == (2 * p) * k;
      }
      IsMultiple(2 * p, k);
    }
  }
}
