/** Powers of two, alignment and XOR on addresses.  Facts about alignment are
    proved by halving, which keeps the arithmetic linear. */
module PowersOfTwo {

  function Pow2(n: nat): (p: nat)
    ensures p >= 1
  {
    if n == 0 then 1 else 2 * Pow2(n - 1)
  }

  /** Offset `o` is a multiple of 2^b, stated bit by bit. */
  predicate Aligned(o: int, b: nat)
    decreases b
  {
    b == 0 || (o % 2 == 0 && Aligned(o / 2, b - 1))
  }

  /** Bitwise exclusive or on unsigned words. */
  function Xor(a: nat, b: nat): nat
    decreases a + b
  {
    if a == 0 && b == 0 then 0
    else 2 * Xor(a / 2, b / 2) + (if a % 2 != b % 2 then 1 else 0)
  }

  lemma Pow2Step(n: nat)
    ensures Pow2(n + 1) == 2 * Pow2(n)
  {
  }

  lemma {:induction false} Pow2Monotone(m: nat, n: nat)
    requires m <= n
    ensures Pow2(m) <= Pow2(n)
    ensures m < n ==> 2 * Pow2(m) <= Pow2(n)
    decreases n - m
  {
    if m < n {
      Pow2Monotone(m, n - 1);
    }
  }

  lemma Pow2Constants()
    ensures Pow2(4) == 16 && Pow2(5) == 32
    ensures Pow2(62) == 0x4000_0000_0000_0000
    ensures Pow2(63) == 0x8000_0000_0000_0000
    ensures Pow2(64) == 0x1_0000_0000_0000_0000
  {
    assert Pow2(8) == 256;
    assert Pow2(16) == 0x1_0000;
    assert Pow2(24) == 0x100_0000;
    assert Pow2(32) == 0x1_0000_0000;
    assert Pow2(40) == 0x100_0000_0000;
    assert Pow2(48) == 0x1_0000_0000_0000;
    assert Pow2(56) == 0x100_0000_0000_0000;
  }

  lemma ProductBound(d: int, t: int)
    requires d > 0
    ensures t >= 1 ==> d * t >= d
    ensures t <= -1 ==> d * t <= -d
  {
  }

  lemma MultipleIs(d: int, k: int)
    requires d > 0
    ensures (d * k) % d == 0
  {
    var q, r := (d * k) / d, (d * k) % d;
    assert d * k == d * q + r;
    assert d * (k - q) == r;
    ProductBound(d, k - q);
  }

  lemma MultipleHalves(o: int, d: int)
    requires d > 0
    ensures o % (2 * d) == 0 <==> o % 2 == 0 && (o / 2) % d == 0
  {
    if o % (2 * d) == 0 {
      var k := o / (2 * d);
      assert o == 2 * d * k == 2 * (d * k);
      MultipleIs(d, k);
    }
    if o % 2 == 0 && (o / 2) % d == 0 {
      var k := (o / 2) / d;
      assert o == 2 * (d * k) == (2 * d) * k;
      MultipleIs(2 * d, k);
    }
  }

  /** The bitwise definition of alignment is divisibility by the power of two. */
  lemma {:induction false} AlignedIsMultiple(o: int, b: nat)
    ensures Aligned(o, b) <==> o % Pow2(b) == 0
    decreases b
  {
    if b > 0 {
      MultipleHalves(o, Pow2(b - 1));
      AlignedIsMultiple(o / 2, b - 1);
    }
  }

  lemma {:induction false} AlignedZero(b: nat)
    ensures Aligned(0, b)
  {
    if b > 0 {
      AlignedZero(b - 1);
    }
  }

  lemma {:induction false} AlignedWeaken(o: int, m: nat, n: nat)
    requires n <= m && Aligned(o, m)
    ensures Aligned(o, n)
    decreases n
  {
    if n > 0 {
      AlignedWeaken(o / 2, m - 1, n - 1);
    }
  }

  lemma {:induction false} AlignedAdd(o: int, b: nat)
    requires Aligned(o, b)
    ensures Aligned(o + Pow2(b), b) && Aligned(o - Pow2(b), b)
    decreases b
  {
    if b > 0 {
      AlignedAdd(o / 2, b - 1);
    }
  }

  /** Two aligned offsets closer than the alignment are equal. */
  lemma {:induction false} AlignedApart(a: int, c: int, b: nat)
    requires Aligned(a, b) && Aligned(c, b)
    requires a <= c < a + Pow2(b)
    ensures a == c
    decreases b
  {
    if b > 0 {
      AlignedApart(a / 2, c / 2, b - 1);
    }
  }

  /** A large aligned block meeting a small aligned block contains it. */
  lemma {:induction false} DyadicContains(a: int, m: nat, q: int, n: nat, x: int)
    requires n <= m && Aligned(a, m) && Aligned(q, n)
    requires a <= x < a + Pow2(m)
    requires q <= x < q + Pow2(n)
    ensures a <= q && q + Pow2(n) <= a + Pow2(m)
    decreases n
  {
    if n > 0 {
      DyadicContains(a / 2, m - 1, q / 2, n - 1, x / 2);
    }
  }

  lemma {:induction false} XorZero(o: nat)
    ensures Xor(0, o) == o
  {
    if o > 0 {
      XorZero(o / 2);
    }
  }

  lemma XorStep(o: nat, b: nat)
    requires b > 0
    ensures Xor(Pow2(b), o) == 2 * Xor(Pow2(b - 1), o / 2) + o % 2
  {
  }

  lemma XorOne(o: nat)
    ensures Xor(Pow2(0), o) == if o % 2 == 0 then o + 1 else o - 1
  {
    XorZero(o / 2);
    assert Xor(1, o) == 2 * Xor(0, o / 2) + (if 1 != o % 2 then 1 else 0);
  }

  lemma AlignedDouble(y: int, b: nat)
    ensures Aligned(2 * y, b + 1) <==> Aligned(y, b)
  {
  }

  /** Flipping bit `b` of an aligned offset gives the other half of the enclosing
      block of twice the size. */
  lemma {:induction false} XorBuddy(o: nat, b: nat)
    requires Aligned(o, b)
    ensures var x := Xor(Pow2(b), o);
            && Aligned(x, b)
            && (if Aligned(o, b + 1) then x == o + Pow2(b)
                else x == o - Pow2(b) && Aligned(x, b + 1))
    decreases b
  {
    if b == 0 {
      XorOne(o);
      assert Aligned(o, 1) <==> o % 2 == 0;
      assert Aligned(o - 1, 1) <==> (o - 1) % 2 == 0;
    } else {
      XorStep(o, b);
      XorBuddy(o / 2, b - 1);
      var y := Xor(Pow2(b - 1), o / 2);
      assert Xor(Pow2(b), o) == 2 * y;
      AlignedDouble(y, b - 1);
      AlignedDouble(y, b);
      AlignedDouble(o / 2, b);
    }
  }
}
