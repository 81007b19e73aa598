/** Machine words as bounded integers: bits, shifts, wrap-around arithmetic and
    the bitwise operations of Go's uint8, uint64 and int64. */
module Words {

  type Byte = x: int | 0 <= x < 256

  type Word = x: int | 0 <= x < MODULUS

  const MODULUS: int := 0x1_0000_0000_0000_0000

  const SIGN: int := 0x8000_0000_0000_0000

  function Zeros(n: nat): (z: seq<Byte>)
    ensures |z| == n
  {
    seq(n, _ => 0)
  }

  function Pow2(n: nat): (p: nat)
    ensures p > 0
  {
    if n == 0 then 1 else 2 * Pow2(n - 1)
  }

  /** Bit k of n, counted from the least significant one. */
  predicate TestBit(n: nat, k: nat)
    decreases k
  {
    if k == 0 then n % 2 == 1 else TestBit(n / 2, k - 1)
  }

  /** n << k in a word of w bits. */
  function Shl(n: nat, k: nat, w: nat): (r: nat)
    ensures r < Pow2(w)
  {
    ModBound(n * Pow2(k), Pow2(w));
    (n * Pow2(k)) % Pow2(w)
  }

  /** n >> k. */
  function Shr(n: nat, k: nat): nat {
    DivNat(n, Pow2(k));
    n / Pow2(k)
  }

  function Or(a: nat, b: nat): nat {
    if a == 0 && b == 0 then 0
    else 2 * Or(a / 2, b / 2) + (if a % 2 == 1 || b % 2 == 1 then 1 else 0)
  }

  function Xor(a: nat, b: nat): nat {
    if a == 0 && b == 0 then 0
    else 2 * Xor(a / 2, b / 2) + (if a % 2 != b % 2 then 1 else 0)
  }

  function Add(a: Word, b: Word): Word { (a + b) % MODULUS }

  function Sub(a: Word, b: Word): Word { (a - b) % MODULUS }

  /** The word read as an int64. */
  function Signed(a: Word): int { if a < SIGN then a else a - MODULUS }

  // ---------- powers of two ----------

  lemma {:induction false} PowAdd(m: nat, n: nat)
    ensures Pow2(m + n) == Pow2(m) * Pow2(n)
    decreases m
  {
    if m > 0 {
      PowAdd(m - 1, n);
      assert Pow2(m) * Pow2(n) == 2 * (Pow2(m - 1) * Pow2(n));
    }
  }

  lemma PowValues()
    ensures Pow2(7) == 128 && Pow2(8) == 256 && Pow2(56) == 0x100_0000_0000_0000
    ensures Pow2(63) == SIGN && Pow2(64) == MODULUS
  {
    hide Pow2;
    PowSmall();
    PowAdd(8, 8);
    PowAdd(16, 16);
    PowAdd(32, 16);
    PowAdd(48, 8);
    PowAdd(56, 7);
    PowAdd(56, 8);
  }

  lemma PowSmall()
    ensures Pow2(7) == 128 && Pow2(8) == 256
  {
    assert Pow2(3) == 8;
    assert Pow2(5) == 32;
  }

  lemma ModBound(n: nat, m: nat)
    requires m > 0
    ensures 0 <= n % m < m
  {
  }

  lemma DivNat(n: nat, m: nat)
    requires m > 0
    ensures n / m >= 0
  {
  }

  lemma ModSmall(n: nat, m: nat)
    requires n < m
    ensures n % m == n
  {
  }

  lemma ShrAtMost(n: nat, k: nat)
    ensures Shr(n, k) <= n
  {
    var p := Pow2(k);
    assert n == p * (n / p) + n % p;
    if n / p > 0 { MulMono(n / p, 1, p); }
  }

  lemma MulMono(p: nat, a: nat, b: nat)
    requires a <= b
    ensures p * a <= p * b
  {
  }

  // ---------- bits of the results of the operations ----------

  lemma {:induction false} BitShr(n: nat, k: nat, j: nat)
    ensures TestBit(Shr(n, k), j) == TestBit(n, j + k)
    decreases k
  {
    if k > 0 {
      DivDiv(n, Pow2(k - 1));
      BitShr(n / 2, k - 1, j);
    }
  }

  lemma DivDiv(n: nat, p: nat)
    requires p > 0
    ensures n / (2 * p) == (n / 2) / p
  {
    var q, r := (n / 2) / p, (n / 2) % p;
    assert n == 2 * (q * p + r) + n % 2;
    assert n == (2 * p) * q + (2 * r + n % 2);
    DivUnique(n, 2 * p, q, 2 * r + n % 2);
  }

  lemma ModDouble(n: nat, p: nat)
    requires p > 0
    ensures n % (2 * p) == 2 * ((n / 2) % p) + n % 2
  {
    var q, r := (n / 2) / p, (n / 2) % p;
    assert n == 2 * (p * q + r) + n % 2;
    assert n == (2 * p) * q + (2 * r + n % 2);
    DivUnique(n, 2 * p, q, 2 * r + n % 2);
  }

  /** Division that rounds towards zero. */
  function Quotient(a: int, b: int): int
    requires b > 0
  {
    if a >= 0 then a / b else -((-a) / b)
  }

  lemma NegativeQuotient(a: int, b: nat)
    requires a < 0 < b
    ensures Quotient(a, b) == (a + b - 1) / b
  {
    var q, r := (-a) / b, (-a) % b;
    assert -a == b * q + r;
    assert b * -q == -(b * q);
    DivUnique(a + b - 1, b, -q, b - 1 - r);
  }

  lemma DivUnique(n: int, m: nat, q: int, r: nat)
    requires n == m * q + r && 0 <= r < m
    ensures n / m == q && n % m == r
  {
    var d := q - n / m;
    assert m * d == n % m - r;
    if d >= 1 { AtLeast(m, d); }
    if d <= -1 { AtLeast(m, -d); }
  }

  lemma AtLeast(m: nat, d: int)
    requires d >= 1
    ensures m * d >= m
  {
  }

  lemma {:induction false} BitMod(n: nat, w: nat, j: nat)
    requires j < w
    ensures TestBit(n % Pow2(w), j) == TestBit(n, j)
    decreases j
  {
    ModDouble(n, Pow2(w - 1));
    if j > 0 { BitMod(n / 2, w - 1, j - 1); }
  }

  lemma {:induction false} BitTimes(n: nat, k: nat, j: nat)
    ensures TestBit(n * Pow2(k), j) == (j >= k && TestBit(n, j - k))
    decreases k
  {
    if k > 0 {
      assert n * Pow2(k) == 2 * (n * Pow2(k - 1));
      if j > 0 { BitTimes(n, k - 1, j - 1); }
    }
  }

  lemma BitShl(n: nat, k: nat, w: nat, j: nat)
    requires j < w
    ensures TestBit(Shl(n, k, w), j) == (j >= k && TestBit(n, j - k))
  {
    BitMod(n * Pow2(k), w, j);
    BitTimes(n, k, j);
  }

  lemma {:induction false} BitOr(a: nat, b: nat, j: nat)
    ensures TestBit(Or(a, b), j) == (TestBit(a, j) || TestBit(b, j))
    decreases j
  {
    OrUnfolds(a, b);
    if j > 0 {
      hide Or;
      BitOr(a / 2, b / 2, j - 1);
    }
  }

  lemma OrUnfolds(a: nat, b: nat)
    ensures Or(a, b) / 2 == Or(a / 2, b / 2)
    ensures Or(a, b) % 2 == if a % 2 == 1 || b % 2 == 1 then 1 else 0
  {
    if a == 0 && b == 0 {
      assert Or(0, 0) == 0;
    }
  }

  lemma {:induction false} BitSmall(n: nat, k: nat, j: nat)
    requires n < Pow2(k) && j >= k
    ensures !TestBit(n, j)
    decreases j
  {
    if k == 0 {
      if j > 0 { BitSmall(n / 2, 0, j - 1); }
    } else {
      BitSmall(n / 2, k - 1, j - 1);
    }
  }

  lemma {:induction false} BitPow(k: nat, j: nat)
    ensures TestBit(Pow2(k), j) == (j == k)
    decreases k
  {
    if k > 0 {
      if j > 0 { BitPow(k - 1, j - 1); }
    } else if j > 0 {
      BitSmall(0, 0, j - 1);
    }
  }

  // ---------- bounds and algebra of | and ^ ----------

  lemma {:induction false} OrBound(a: nat, b: nat, n: nat)
    requires a < Pow2(n) && b < Pow2(n)
    ensures Or(a, b) < Pow2(n)
    decreases n
  {
    if n > 0 { OrBound(a / 2, b / 2, n - 1); }
  }

  lemma {:induction false} XorBound(a: nat, b: nat, n: nat)
    requires a < Pow2(n) && b < Pow2(n)
    ensures Xor(a, b) < Pow2(n)
    decreases n
  {
    if n > 0 { XorBound(a / 2, b / 2, n - 1); }
  }

  /** The disjunction of numbers that share no bit is their sum. */
  lemma {:induction false} OrDisjoint(a: nat, b: nat, n: nat)
    requires b < Pow2(n)
    ensures Or(a * Pow2(n), b) == a * Pow2(n) + b
    decreases n
  {
    if n == 0 {
      OrNothing(a);
    } else {
      var p := a * Pow2(n - 1);
      assert a * Pow2(n) == 2 * p;
      OrDisjoint(a, b / 2, n - 1);
    }
  }

  lemma {:induction false} OrNothing(a: nat)
    ensures Or(a, 0) == a
  {
    if a > 0 { OrNothing(a / 2); }
  }

  /** The difference of two numbers, applied to the first, gives the second. */
  lemma {:induction false} XorXor(a: nat, b: nat)
    ensures Xor(a, Xor(b, a)) == b
    ensures Xor(b, a) == 0 <==> a == b
    decreases a + b
  {
    if a != 0 || b != 0 {
      XorXor(a / 2, b / 2);
      var x := Xor(b / 2, a / 2);
      assert Xor(b, a) / 2 == x;
    }
  }
}
