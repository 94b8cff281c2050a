/** 32-bit words, with the wrap-around arithmetic of the filter machine. */
module Words {

  const TWO_TO_THE_32: nat := 0x1_0000_0000

  type Word = w: int | 0 <= w < 0x1_0000_0000
  type Octet = o: int | 0 <= o < 0x100

  function Wrap(n: int): Word { n % TWO_TO_THE_32 }

  lemma WrapTwice(a: int, b: int)
    ensures Wrap(Wrap(a) + b) == Wrap(a + b)
  {
  }

  function Max(a: nat, b: nat): nat { if a > b then a else b }

  function Pow2(n: nat): (p: nat)
    ensures p > 0
  {
    if n == 0 then 1 else 2 * Pow2(n - 1)
  }

  // Bitwise operations, one binary digit at a time.

  function And(a: nat, b: nat): (r: nat)
    ensures r <= a && r <= b
  {
    if a == 0 || b == 0 then 0
    else (if a % 2 == 1 && b % 2 == 1 then 1 else 0) + 2 * And(a / 2, b / 2)
  }

  function Or(a: nat, b: nat): (r: nat)
    ensures r + And(a, b) == a + b
  {
    if a == 0 then b
    else if b == 0 then a
    else (if a % 2 == 1 || b % 2 == 1 then 1 else 0) + 2 * Or(a / 2, b / 2)
  }

  function Xor(a: nat, b: nat): nat {
    Or(a, b) - And(a, b)
  }

  /** The bits of two n-bit numbers combine to an n-bit number. */
  lemma {:induction false} OrBound(a: nat, b: nat, n: nat)
    requires a < Pow2(n) && b < Pow2(n)
    ensures Or(a, b) < Pow2(n)
  {
    if a != 0 && b != 0 && n > 0 {
      OrBound(a / 2, b / 2, n - 1);
    }
  }

  lemma Pow2Is32()
    ensures Pow2(32) == TWO_TO_THE_32
  {
    assert Pow2(8) == 0x100;
    assert Pow2(16) == 0x1_0000;
    assert Pow2(24) == 0x100_0000;
  }

  function OrWord(a: Word, b: Word): (r: Word)
    ensures r == Or(a, b)
  {
    Pow2Is32();
    OrBound(a, b, 32);
    Or(a, b)
  }

  /** Shifts; a count of 32 or more, which C leaves undefined, clears the word. */
  function ShiftLeft(a: Word, n: Word): Word {
    if n < 32 then Wrap(a * Pow2(n)) else 0
  }

  function ShiftRight(a: Word, n: Word): Word {
    if n < 32 then Quotient(a, Pow2(n)) else 0
  }

  function Quotient(a: Word, b: nat): Word
    requires b > 0
  {
    a / b
  }

  lemma {:induction false} AndAllOnes(a: nat, n: nat)
    requires a < Pow2(n)
    ensures And(a, Pow2(n) - 1) == a
  {
    if a != 0 {
      AndAllOnes(a / 2, n - 1);
      assert (Pow2(n) - 1) / 2 == Pow2(n - 1) - 1 && (Pow2(n) - 1) % 2 == 1;
    }
  }

  // ----- Bits -----

  /** Binary digit i of a number, from the lowest on. */
  predicate Bit(n: nat, i: nat) { n / Pow2(i) % 2 == 1 }

  lemma DivideTwice(n: nat, p: nat)
    requires p > 0
    ensures n / 2 / p == n / (2 * p)
  {
    var q, r := n / (2 * p), n % (2 * p);
    assert n == 2 * p * q + r;
    assert n / 2 == p * q + r / 2 && 0 <= r / 2 < p;
    DivideOnce(p, q, r / 2);
  }

  lemma DivideOnce(p: nat, q: nat, r: nat)
    requires r < p
    ensures (p * q + r) / p == q && (p * q + r) % p == r
  {
    var x := p * q + r;
    QuotientUnique(p, x / p, x % p, q, r);
  }

  lemma QuotientUnique(p: nat, d: nat, m: nat, q: nat, r: nat)
    requires m < p && r < p && p * d + m == p * q + r
    ensures d == q && m == r
  {
    if q > d {
      NextMultiple(p, d, q);
    } else if q < d {
      NextMultiple(p, q, d);
    }
  }

  lemma NextMultiple(p: nat, d: nat, q: nat)
    requires d < q
    ensures p * q >= p * d + p
  {
    assert p * q >= p * (d + 1);
  }

  /** Above the lowest, the digits of a number are those of its half. */
  lemma BitOfHalf(n: nat, i: nat)
    ensures Bit(n, i) <==> if i == 0 then n % 2 == 1 else Bit(n / 2, i - 1)
  {
    if i > 0 {
      DivideTwice(n, Pow2(i - 1));
    } else {
      assert Pow2(0) == 1;
    }
  }

  lemma ZeroHasNoBit(i: nat)
    ensures !Bit(0, i)
  {
  }

  lemma AndStep(a: nat, b: nat)
    ensures And(a, b) / 2 == And(a / 2, b / 2) && (And(a, b) % 2 == 1 <==> a % 2 == 1 && b % 2 == 1)
  {
  }

  lemma OrStep(a: nat, b: nat)
    ensures Or(a, b) / 2 == Or(a / 2, b / 2) && (Or(a, b) % 2 == 1 <==> a % 2 == 1 || b % 2 == 1)
  {
  }

  /** And combines the digits of its operands, one by one. */
  lemma {:induction false} AndBits(a: nat, b: nat, i: nat)
    ensures Bit(And(a, b), i) <==> Bit(a, i) && Bit(b, i)
    decreases i
  {
    AndStep(a, b);
    BitOfHalf(And(a, b), i);
    BitOfHalf(a, i);
    BitOfHalf(b, i);
    hide Bit, And;
    if i > 0 {
      AndBits(a / 2, b / 2, i - 1);
    }
  }

  lemma {:induction false} OrBits(a: nat, b: nat, i: nat)
    ensures Bit(Or(a, b), i) <==> Bit(a, i) || Bit(b, i)
    decreases i
  {
    OrStep(a, b);
    BitOfHalf(Or(a, b), i);
    BitOfHalf(a, i);
    BitOfHalf(b, i);
    hide Bit, Or;
    if i > 0 {
      OrBits(a / 2, b / 2, i - 1);
    }
  }

  lemma XorStep(a: nat, b: nat)
    ensures Xor(a, b) / 2 == Xor(a / 2, b / 2) && (Xor(a, b) % 2 == 1 <==> a % 2 != b % 2)
  {
    AndStep(a, b);
    OrStep(a, b);
  }

  lemma {:induction false} XorBits(a: nat, b: nat, i: nat)
    ensures Bit(Xor(a, b), i) <==> Bit(a, i) != Bit(b, i)
    decreases i
  {
    XorStep(a, b);
    BitOfHalf(Xor(a, b), i);
    BitOfHalf(a, i);
    BitOfHalf(b, i);
    hide Bit, Xor;
    if i > 0 {
      XorBits(a / 2, b / 2, i - 1);
    }
  }

  /** A number is zero exactly when it has no digit that is one. */
  lemma {:induction false} NonZeroHasBit(n: nat) returns (i: nat)
    requires n > 0
    ensures Bit(n, i)
  {
    if n % 2 == 1 {
      i := 0;
    } else {
      i := NonZeroHasBit(n / 2);
      i := i + 1;
    }
    BitOfHalf(n, i);
  }

  /** Two numbers have a digit in common exactly when masking one with the other leaves something. */
  lemma AndMeets(a: nat, b: nat)
    ensures And(a, b) != 0 <==> exists i: nat :: Bit(a, i) && Bit(b, i)
  {
    hide Bit;
    if And(a, b) != 0 {
      var i := NonZeroHasBit(And(a, b));
      AndBits(a, b, i);
    } else if i: nat :| Bit(a, i) && Bit(b, i) {
      AndBits(a, b, i);
      ZeroHasNoBit(i);
    }
  }

  /** Numbers are determined by their digits. */
  lemma {:induction false} SameBits(a: nat, b: nat)
    requires forall i: nat :: Bit(a, i) <==> Bit(b, i)
    ensures a == b
    decreases a + b
  {
    hide Bit;
    if a != b {
      BitOfHalf(a, 0);
      BitOfHalf(b, 0);
      assert Bit(a, 0) <==> Bit(b, 0);
      forall i: nat
        ensures Bit(a / 2, i) <==> Bit(b / 2, i)
      {
        BitOfHalf(a, i + 1);
        BitOfHalf(b, i + 1);
        assert Bit(a, i + 1) <==> Bit(b, i + 1);
      }
      SameBits(a / 2, b / 2);
    }
  }

  // ----- Shifts -----

  /** Doubling moves every digit one place up; the highest of a word is lost. */
  lemma BitOfDouble(n: nat, i: nat)
    requires i < 32
    ensures Bit(Wrap(2 * n), i) <==> i > 0 && Bit(n, i - 1)
  {
    BitOfWrap(2 * n, i);
    BitOfHalf(2 * n, i);
  }

  lemma {:induction false} BitOfWrap(n: nat, i: nat)
    requires i < 32
    ensures Bit(Wrap(n), i) <==> Bit(n, i)
  {
    Pow2Is32();
    BitOfRest(n, i, 32);
  }

  /** The low k digits of a number are those of its rest modulo 2^k. */
  lemma {:induction false} BitOfRest(n: nat, i: nat, k: nat)
    requires i < k
    ensures Bit(n % Pow2(k), i) <==> Bit(n, i)
  {
    var p := Pow2(k - 1);
    RestOfHalf(n, p);
    BitOfHalf(n % Pow2(k), i);
    BitOfHalf(n, i);
    hide Bit;
    if i > 0 {
      BitOfRest(n / 2, i - 1, k - 1);
    }
  }

  lemma RestOfHalf(n: nat, p: nat)
    requires p > 0
    ensures n % (2 * p) / 2 == n / 2 % p && n % (2 * p) % 2 == n % 2
  {
    var q, r := n / (2 * p), n % (2 * p);
    assert n == 2 * (p * q) + r;
    assert n / 2 == p * q + r / 2 && 0 <= r / 2 < p && n % 2 == r % 2;
    DivideOnce(p, q, r / 2);
  }

  lemma {:induction false} ShiftLeftBits(a: Word, n: Word, i: nat)
    requires n < 32 && i < 32
    ensures Bit(ShiftLeft(a, n), i) <==> i >= n && Bit(a, i - n)
    decreases n
  {
    if n == 0 {
      assert a * Pow2(0) == a && Wrap(a) == a;
    } else {
      var b := a * Pow2(n - 1);
      assert a * Pow2(n) == 2 * b;
      ShiftLeftBits(a, n - 1, if i > 0 then i - 1 else 0);
      BitOfDouble(b, i);
      if i > 0 { BitOfWrap(b, i - 1); }
    }
  }

  lemma {:induction false} ShiftRightBits(a: Word, n: Word, i: nat)
    requires n < 32
    ensures Bit(ShiftRight(a, n), i) <==> Bit(a, i + n)
    decreases n
  {
    if n == 0 {
      assert a / Pow2(0) == a;
    } else {
      DivideTwice(a, Pow2(n - 1));
      assert ShiftRight(a, n) == ShiftRight(a / 2, n - 1);
      ShiftRightBits(a / 2, n - 1, i);
      BitOfHalf(a, i + n);
    }
  }
}
