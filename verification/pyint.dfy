/**
  The slice of Python's integer arithmetic that the packer uses, on
  non-negative integers: `v << n`, `v >> n`, `a | b` and `v & 1`.
  Python integers are unbounded, so everything here is on `nat` and no
  width is imposed; the facts that a packed byte fits in 8 bits are proved,
  not assumed.
 */
module PyInt {

  /** A value of `int(b)` for a boolean `b`. */
  type Bit = b: nat | b <= 1

  /** 2 to the power n. */
  function Pow2(n: nat): (r: nat)
    ensures r >= 1
  {
    if n == 0 then 1 else 2 * Pow2(n - 1)
  }

  /** `v << n`. */
  function Shl(v: nat, n: nat): nat
  {
    v * Pow2(n)
  }

  /** `v >> n`: n halvings, each rounding down. */
  function Shr(v: nat, n: nat): nat
  {
    if n == 0 then v else Shr(v / 2, n - 1)
  }

  /** `(v >> i) & 1`: bit i of v. */
  function TestBit(v: nat, i: nat): Bit
  {
    Shr(v, i) % 2
  }

  /** `a | b`: bitwise or, built from the least significant bit upwards. */
  function Or(a: nat, b: nat): nat
    decreases a + b
  {
    if a == 0 then b
    else if b == 0 then a
    else (if a % 2 == 1 || b % 2 == 1 then 1 else 0) + 2 * Or(a / 2, b / 2)
  }

  lemma ShrZero(i: nat)
    ensures Shr(0, i) == 0
  {
  }

  /** Bit i of `a | b` is set exactly when bit i of a or bit i of b is. */
  lemma {:induction false} OrBits(a: nat, b: nat, i: nat)
    ensures TestBit(Or(a, b), i) == 1 <==> TestBit(a, i) == 1 || TestBit(b, i) == 1
    decreases a + b
  {
    if a == 0 || b == 0 {
      ShrZero(i);
    } else {
      var c := if a % 2 == 1 || b % 2 == 1 then 1 else 0;
      var rest := Or(a / 2, b / 2);
      assert Or(a, b) == c + 2 * rest;
      if i == 0 {
        assert (c + 2 * rest) % 2 == c;
      } else {
        assert (c + 2 * rest) / 2 == rest;
        assert TestBit(Or(a, b), i) == TestBit(rest, i - 1);
        assert TestBit(a, i) == TestBit(a / 2, i - 1);
        assert TestBit(b, i) == TestBit(b / 2, i - 1);
        OrBits(a / 2, b / 2, i - 1);
      }
    }
  }

  /** Or-ing two values below 2^k stays below 2^k. */
  lemma {:induction false} OrBound(a: nat, b: nat, k: nat)
    requires a < Pow2(k) && b < Pow2(k)
    ensures Or(a, b) < Pow2(k)
    decreases a + b
  {
    if a != 0 && b != 0 {
      assert k > 0;
      OrBound(a / 2, b / 2, k - 1);
    }
  }

  /** `c << k` for a single bit c has bit k equal to c and no other bit set. */
  lemma {:induction false} ShlBit(c: Bit, k: nat, i: nat)
    ensures TestBit(Shl(c, k), i) == (if i == k then c else 0)
    decreases k
  {
    if c == 0 {
      ShrZero(i);
    } else if k == 0 {
      if i > 0 {
        ShrZero(i - 1);
      }
    } else if i > 0 {
      assert Shl(c, k) / 2 == Shl(c, k - 1);
      ShlBit(c, k - 1, i - 1);
    }
  }

  /** Two values below 2^k that agree on bits 0..k-1 are equal: reading the
      bits back with `(v >> i) & 1` loses nothing. */
  lemma {:induction false} BitsDetermine(u: nat, v: nat, k: nat)
    requires u < Pow2(k) && v < Pow2(k)
    requires forall i :: 0 <= i < k ==> TestBit(u, i) == TestBit(v, i)
    ensures u == v
    decreases k
  {
    if k > 0 {
      forall i | 0 <= i < k - 1
        ensures TestBit(u / 2, i) == TestBit(v / 2, i)
      {
        assert TestBit(u, i + 1) == TestBit(v, i + 1);
      }
      BitsDetermine(u / 2, v / 2, k - 1);
      assert TestBit(u, 0) == TestBit(v, 0);
    }
  }

  /** 2^k - 1 has every bit below k set. */
  lemma {:induction false} AllOnesBits(k: nat, i: nat)
    requires i < k
    ensures TestBit(Pow2(k) - 1, i) == 1
    decreases k
  {
    if i > 0 {
      assert (Pow2(k) - 1) / 2 == Pow2(k - 1) - 1;
      AllOnesBits(k - 1, i - 1);
    }
  }
}
