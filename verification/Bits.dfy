/** Bitwise operators on natural numbers of any width. */
module Bits {

  function Xor(a: nat, b: nat): (r: nat) {
    if a == 0 && b == 0 then 0
    else 2 * Xor(a / 2, b / 2) + if a % 2 != b % 2 then 1 else 0
  }

  lemma {:induction false} XorInvolution(a: nat, b: nat)
    ensures Xor(Xor(a, b), b) == a
  {
    if !(a == 0 && b == 0) {
      XorInvolution(a / 2, b / 2);
      var r := Xor(a, b);
      assert r / 2 == Xor(a / 2, b / 2) && (r % 2 == 1 <==> a % 2 != b % 2);
    }
  }

  // ---- bit by bit ------------------------------------------------------------------------------

  /** Bit i of a, counted from the least significant one. */
  predicate Bit(a: nat, i: nat) {
    if i == 0 then a % 2 == 1 else Bit(a / 2, i - 1)
  }

  function PowerOf2(n: nat): (p: nat) {
    if n == 0 then 1 else 2 * PowerOf2(n - 1)
  }

  /** A bit of an exclusive or is set exactly when it is set in one of the two. */
  lemma {:induction false} XorBit(a: nat, b: nat, i: nat)
    ensures Bit(Xor(a, b), i) <==> Bit(a, i) != Bit(b, i)
    decreases i
  {
    if i > 0 {
      XorHalves(a, b);
      XorBit(a / 2, b / 2, i - 1);
    }
  }

  lemma XorHalves(a: nat, b: nat)
    ensures Xor(a, b) / 2 == Xor(a / 2, b / 2)
  {
  }

  lemma {:induction false} AndBit(a: nat, b: nat, i: nat)
    ensures Bit(And(a, b), i) <==> Bit(a, i) && Bit(b, i)
    decreases i
  {
    if i > 0 {
      if a == 0 || b == 0 {
        ZeroBit(i);
      } else {
        assert And(a, b) / 2 == And(a / 2, b / 2);
      }
      AndBit(a / 2, b / 2, i - 1);
    }
  }

  lemma {:induction false} OrBit(a: nat, b: nat, i: nat)
    ensures Bit(Or(a, b), i) <==> Bit(a, i) || Bit(b, i)
    decreases i
  {
    if i > 0 {
      assert Or(a, b) / 2 == Or(a / 2, b / 2);
      OrBit(a / 2, b / 2, i - 1);
    }
  }

  lemma {:induction false} ZeroBit(i: nat)
    ensures !Bit(0, i)
  {
    if i > 0 {
      ZeroBit(i - 1);
    }
  }

  /** Numbers of n bits are determined by them. */
  lemma {:induction false} BitsDetermine(a: nat, b: nat, n: nat)
    requires a < PowerOf2(n) && b < PowerOf2(n)
    requires forall i: nat :: i < n ==> (Bit(a, i) <==> Bit(b, i))
    ensures a == b
    decreases n
  {
    if n > 0 {
      assert Bit(a, 0) == Bit(b, 0);
      forall i: nat | i < n - 1
        ensures Bit(a / 2, i) <==> Bit(b / 2, i)
      {
        assert Bit(a, i + 1) == Bit(b, i + 1);
      }
      BitsDetermine(a / 2, b / 2, n - 1);
    }
  }

  predicate PowerOfTwo(m: nat)
    decreases m
  {
    m == 1 || (m > 1 && m % 2 == 0 && PowerOfTwo(m / 2))
  }

  lemma {:induction false} PowerProduct(a: nat, b: nat)
    requires PowerOfTwo(a) && PowerOfTwo(b)
    ensures PowerOfTwo(a * b)
    decreases b
  {
    if b > 1 {
      PowerProduct(a, b / 2);
      DoubleDigit(a, b);
      assert a * b == 2 * (a * (b / 2));
    }
  }

  /** Exclusive or acts separately on the digits of base m. */
  lemma {:induction false} XorDigits(m: nat, a: nat, b: nat, x: nat, y: nat)
    requires PowerOfTwo(m) && x < m && y < m
    ensures Xor(a * m + x, b * m + y) == Xor(a, b) * m + Xor(x, y)
    ensures Xor(x, y) < m
    decreases m
  {
    if m > 1 {
      var h := m / 2;
      XorDigits(h, a, b, x / 2, y / 2);
      HalveDigit(a, m, x);
      HalveDigit(b, m, y);
      DoubleDigit(Xor(a, b), m);
    }
  }

  lemma HalveDigit(a: nat, m: nat, x: nat)
    requires m % 2 == 0 && x < m
    ensures (a * m + x) / 2 == a * (m / 2) + x / 2
    ensures (a * m + x) % 2 == x % 2
  {
    DoubleDigit(a, m);
  }

  lemma DoubleDigit(a: nat, m: nat)
    requires m % 2 == 0
    ensures a * m == 2 * (a * (m / 2))
  {
    var h := m / 2;
    assert m == 2 * h;
    assert a * (2 * h) == 2 * (a * h);
  }

  function And(a: nat, b: nat): (r: nat) {
    if a == 0 || b == 0 then 0
    else 2 * And(a / 2, b / 2) + if a % 2 == 1 && b % 2 == 1 then 1 else 0
  }

  function Or(a: nat, b: nat): (r: nat) {
    if a == 0 && b == 0 then 0
    else 2 * Or(a / 2, b / 2) + if a % 2 == 1 || b % 2 == 1 then 1 else 0
  }

  /** Masking with m - 1 is the remainder modulo the power of two m. */
  lemma {:induction false} AndMask(a: nat, m: nat)
    requires PowerOfTwo(m)
    ensures And(a, m - 1) == a % m
    decreases m
  {
    if m > 1 {
      AndMask(a / 2, m / 2);
      AndLowBit(a, m / 2);
      HalveRemainder(a, m);
    }
  }

  lemma AndLowBit(a: nat, h: nat)
    requires h > 0
    ensures And(a, 2 * h - 1) == 2 * And(a / 2, h - 1) + a % 2
  {
    var n := 2 * h - 1;
    assert n / 2 == h - 1 && n % 2 == 1;
  }

  lemma HalveRemainder(a: nat, m: nat)
    requires m > 1 && m % 2 == 0
    ensures a % m == 2 * ((a / 2) % (m / 2)) + a % 2
  {
    var h := m / 2;
    var q, r := a / 2 / h, (a / 2) % h;
    assert a / 2 == q * h + r;
    assert a == q * m + (2 * r + a % 2) by {
      DoubleDigit(q, m);
    }
    UniqueRemainder(a, m, q, 2 * r + a % 2);
  }

  lemma UniqueRemainder(a: nat, m: nat, q: nat, r: nat)
    requires m > 0 && a == q * m + r && r < m
    ensures a % m == r && a / m == q
  {
    var d := a / m - q;
    assert d * m == r - a % m by {
      assert a == (a / m) * m + a % m;
      assert (a / m) * m - q * m == d * m;
    }
    AtLeastOne(d, m);
  }

  lemma AtLeastOne(d: int, m: nat)
    ensures d >= 1 ==> d * m >= m
    ensures d <= -1 ==> d * m <= -(m as int)
  {
    if d >= 1 {
      assert (d - 1) * m >= 0;
    } else if d <= -1 {
      assert (-d - 1) * m >= 0;
    }
  }

  /** Bits of a above m and bits of x below it do not meet. */
  lemma {:induction false} OrDigits(m: nat, a: nat, x: nat)
    requires PowerOfTwo(m) && x < m
    ensures Or(a * m, x) == a * m + x
    decreases m
  {
    if m > 1 {
      OrDigits(m / 2, a, x / 2);
      HalveDigit(a, m, 0);
      DoubleDigit(a, m);
    } else {
      OrZero(a);
    }
  }

  lemma {:induction false} OrZero(a: nat)
    ensures Or(a, 0) == a
  {
    if a > 0 {
      OrZero(a / 2);
    }
  }
}
