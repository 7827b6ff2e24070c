// The SLOG payload of the Carmichael benchmark: given an integer, decide
// whether it is a Carmichael number (composite, and a Fermat liar for every
// base coprime to it) by trial division, Euclid's gcd and square-and-multiply.
// Java `int` arithmetic is kept: products wrap, and `%` truncates.

module Carmichael {
  import opened Common

  // ---------------------------------------------------------------- arithmetic

  /** Java's `%` on `int`: the quotient is truncated toward zero, so the
    * remainder takes the sign of the dividend. */
  function JavaRem(a: int, b: int): (r: int)
    requires b != 0
    ensures a >= 0 ==> r == a % b && 0 <= r
    ensures -Abs(b) < r < Abs(b)
  {
    if a >= 0 then a % b else -((-a) % b)
  }

  function Abs(x: int): int {
    if x < 0 then -x else x
  }

  /** `b` to the power `e`. */
  function Pow(b: int, e: nat): int {
    if e == 0 then 1 else b * Pow(b, e - 1)
  }

  lemma SquareMonotone(i: int, j: int)
    requires 0 <= i <= j
    ensures i * i <= j * j
  {
    MulMonotone(i, i, j);
    MulMonotone(j, i, j);
  }

  /** Adding a multiple of `m` does not change the remainder. */
  lemma ModAddMultiple(x: int, m: int, k: int)
    requires m > 0
    ensures (x + m * k) % m == x % m
  {
    var q := x / m;
    assert x == m * q + x % m;
    assert x + m * k == m * (q + k) + x % m;
    ModUnique(x + m * k, m, q + k, x % m);
  }

  /** Reducing a factor first does not change the remainder of a product. */
  lemma MulModLeft(x: int, y: int, m: int)
    requires m > 0
    ensures ((x % m) * y) % m == (x * y) % m
  {
    var q := x / m;
    assert x == m * q + x % m;
    assert x * y == (x % m) * y + m * (q * y);
    ModAddMultiple((x % m) * y, m, q * y);
  }

  /** Factors with equal remainders give products with equal remainders. */
  lemma MulModRight(c: int, x: int, y: int, m: int)
    requires m > 0 && x % m == y % m
    ensures (c * x) % m == (c * y) % m
  {
    MulModLeft(x, c, m);
    MulModLeft(y, c, m);
    assert c * x == x * c && c * y == y * c;
    assert (x % m) * c == (y % m) * c;
  }

  /** A power of a reduced base has the remainder of the power. */
  lemma {:induction false} PowMod(x: int, k: nat, m: int)
    requires m > 0
    ensures Pow(x % m, k) % m == Pow(x, k) % m
  {
    if k > 0 {
      var a, pa, px := x % m, Pow(x % m, k - 1), Pow(x, k - 1);
      PowMod(x, k - 1, m);
      assert Pow(a, k) == a * pa && Pow(x, k) == x * px;
      MulModRight(a, pa, px, m);
      MulModLeft(x, px, m);
    }
  }

  /** Squaring the base halves the exponent. */
  lemma {:induction false} PowSquare(b: int, k: nat)
    ensures Pow(b * b, k) == Pow(b, 2 * k)
  {
    if k > 0 {
      PowSquare(b, k - 1);
      assert Pow(b, 2 * k) == b * Pow(b, 2 * k - 1);
      assert Pow(b, 2 * k - 1) == b * Pow(b, 2 * k - 2);
      assert Pow(b, 2 * k) == (b * b) * Pow(b, 2 * (k - 1));
    }
  }

  // ---------------------------------------------------------------- gcd

  /** `g` is the greatest common divisor of `a` and `b` (0 for two zeros):
    * a common divisor that every common divisor divides. */
  ghost predicate IsGcd(g: int, a: int, b: int) {
    (a == 0 && b == 0 ==> g == 0) &&
    (a != 0 || b != 0 ==>
      g >= 1 && a % g == 0 && b % g == 0 &&
      forall d :: d >= 1 && a % d == 0 && b % d == 0 ==> g % d == 0)
  }

  /** Euclid's step keeps the common divisors. */
  lemma EuclidStep(a: int, b: int, d: int)
    requires a >= 0 && b > 0 && d >= 1
    ensures (a % d == 0 && b % d == 0) <==> (b % d == 0 && (a % b) % d == 0)
  {
    if b % d == 0 {
      var q, kb := a / b, b / d;
      assert a == b * q + a % b;
      assert b == d * kb;
      assert b * q == d * (q * kb);
      ModAddMultiple(a % b, d, q * kb);
    }
  }

  /** `gcd`: Euclid's loop with Java's remainder; for non-negative
    * arguments the result is their greatest common divisor. */
  method Gcd(a0: Int32, b0: Int32) returns (r: Int32)
    ensures a0 >= 0 && b0 >= 0 ==> IsGcd(r, a0, b0)
  {
    var a: Int32, b: Int32 := a0, b0;
    while b != 0
      invariant a0 >= 0 && b0 >= 0 ==> a >= 0 && b >= 0
      invariant a0 >= 0 && b0 >= 0 ==> ((a0 == 0 && b0 == 0) <==> (a == 0 && b == 0))
      invariant a0 >= 0 && b0 >= 0 ==> forall d :: d >= 1 ==> (a0 % d == 0 && b0 % d == 0 <==> a % d == 0 && b % d == 0)
      decreases Abs(b)
    {
      var temp := b;
      if a0 >= 0 && b0 >= 0 {
        forall d | d >= 1 ensures (a % d == 0 && b % d == 0) <==> (b % d == 0 && (a % b) % d == 0) {
          EuclidStep(a, b, d);
        }
      }
      b := JavaRem(a, b) as Int32;
      a := temp;
    }
    r := a;
  }

  // ---------------------------------------------------------------- modular power

  /** The largest modulus whose residues multiply without leaving `int`. */
  const SAFE_MODULUS: int := 46341

  /** `modExp`: square-and-multiply with Java `int` products and remainders.
    * When the products cannot overflow it computes `base^exp mod mod`. */
  method ModExp(base0: Int32, exp0: Int32, mod: Int32) returns (r: Int32)
    requires mod != 0
    ensures 0 <= base0 && 0 <= exp0 && 1 < mod <= SAFE_MODULUS ==> r == Pow(base0, exp0) % mod
  {
    var result: Int32 := 1;
    var base: Int32 := JavaRem(base0, mod) as Int32;
    var exp := exp0;
    ghost var safe := 0 <= base0 && 0 <= exp0 && 1 < mod <= SAFE_MODULUS;
    if safe {
      TracksStart(base0, exp0 as nat, mod);
    }
    while exp > 0
      invariant safe ==> 0 <= exp && 0 <= result < mod && 0 <= base < mod
      invariant safe ==> Tracks(result, base, exp as nat, mod, Pow(base0, exp0 as nat) % mod)
      decreases exp
    {
      ghost var oldResult, oldBase, oldExp := result, base, exp;
      if exp % 2 == 1 {
        result := MulRem(result, base, mod);
      }
      exp := exp / 2;
      base := MulRem(base, base, mod);
      if safe {
        ModExpStep(oldResult, oldBase, oldExp as nat, mod, result, base, Pow(base0, exp0 as nat) % mod);
      }
    }
    r := result;
    if safe {
      TracksDone(result, base, mod, Pow(base0, exp0 as nat) % mod);
    }
  }

  /** `(x * y) % m` in Java `int` arithmetic; for residues of a safe modulus
    * the product does not wrap. */
  function MulRem(x: Int32, y: Int32, m: Int32): (r: Int32)
    requires m != 0
    ensures 0 <= x < m && 0 <= y < m && m <= SAFE_MODULUS ==> r == (x * y) % m && 0 <= r < m
  {
    SafeProduct(x, y, m);
    JavaRem(WrapInt(x * y), m) as Int32
  }

  lemma SafeProduct(x: int, y: int, m: int)
    ensures 0 <= x < m && 0 <= y < m && m <= SAFE_MODULUS ==> 0 <= x * y <= INT_MAX
  {
    if 0 <= x < m && 0 <= y < m && m <= SAFE_MODULUS {
      MulMonotone(x, y, m - 1);
      MulMonotone(m - 1, x, m - 1);
      assert x * (m - 1) == (m - 1) * x;
      SquareMonotone(m - 1, SAFE_MODULUS - 1);
      assert (SAFE_MODULUS - 1) * (SAFE_MODULUS - 1) <= INT_MAX;
    }
  }

  /** The loop state of square-and-multiply: `result * base^exp` still has
    * the remainder `target`. */
  ghost predicate Tracks(result: int, base: int, exp: nat, mod: int, target: int)
    requires mod > 0
  {
    (result * Pow(base, exp)) % mod == target
  }

  lemma TracksStart(base0: int, exp0: nat, mod: int)
    requires mod > 1
    ensures Tracks(1, base0 % mod, exp0, mod, Pow(base0, exp0) % mod)
  {
    PowMod(base0, exp0, mod);
  }

  lemma TracksDone(result: int, base: int, mod: int, target: int)
    requires mod > 1 && Tracks(result, base, 0, mod, target) && 0 <= result < mod
    ensures result == target
  {
    assert Pow(base, 0) == 1;
  }

  /** One round of square-and-multiply keeps `result * base^exp` modulo `mod`. */
  lemma ModExpStep(result: int, base: int, exp: nat, mod: int, result': int, base': int, target: int)
    requires 1 < mod && exp > 0
    requires result' == (if exp % 2 == 1 then (result * base) % mod else result)
    requires base' == (base * base) % mod
    requires Tracks(result, base, exp, mod, target)
    ensures Tracks(result', base', exp / 2, mod, target)
  {
    var k := exp / 2;
    var p := Pow(base * base, k);
    PowSquare(base, k);
    PowMod(base * base, k, mod);
    MulModRight(result', Pow(base', k), p, mod);
    if exp % 2 == 1 {
      assert Pow(base, exp) == base * Pow(base, 2 * k);
      MulModLeft(result * base, p, mod);
      assert (result * base) * p == result * (base * p);
    }
  }

  // ---------------------------------------------------------------- primality

  /** No divisor between 2 and the square root: trial division's verdict. */
  ghost predicate NoSmallDivisor(n: int) {
    forall i :: 2 <= i && i * i <= n ==> n % i != 0
  }

  /** `n` is prime: at least 2 and without a divisor in `[2, n)`. */
  ghost predicate IsPrimeSpec(n: int) {
    n >= 2 && forall d :: 2 <= d < n ==> n % d != 0
  }

  /** A divisor above the square root has a co-divisor below it. */
  lemma CoDivisor(n: int, d: int) returns (q: int)
    requires 2 <= d < n && n % d == 0 && d * d > n
    ensures 2 <= q && q * q <= n && n % q == 0
  {
    q := n / d;
    assert n == d * q;
    if q >= d {
      MulMonotone(d, d, q);
    }
    if q <= 1 {
      MulMonotone(d, q, 1);
    }
    MulMonotone(q, q, d);
    assert n == q * d;
    ModUnique(n, q, d, 0);
  }

  /** Trial division up to the square root decides primality. */
  lemma TrialDivision(n: int)
    requires n >= 2
    ensures NoSmallDivisor(n) <==> IsPrimeSpec(n)
  {
    if NoSmallDivisor(n) && !IsPrimeSpec(n) {
      var d :| 2 <= d < n && n % d == 0;
      if d * d > n {
        var q := CoDivisor(n, d);
      }
    }
    if IsPrimeSpec(n) {
      forall i | 2 <= i && i * i <= n ensures n % i != 0 {
        MulMonotone(i, 2, i);
      }
    }
  }

  /** The largest `n` for which `i * i` cannot wrap during trial division. */
  const SAFE_SQUARE: int := 46340 * 46340

  /** `isPrime`: false below 2, otherwise trial division with Java's
    * wrapping `i * i`.  Below `SAFE_SQUARE` the verdict is exactly that
    * no `i` with `i * i <= n` divides `n`. */
  method IsPrime(n: Int32) returns (r: bool)
    ensures n < 2 ==> !r
    ensures 2 <= n < SAFE_SQUARE ==> (r <==> NoSmallDivisor(n))
    ensures n == INT_MAX ==> !r
  {
    if n < 2 {
      return false;
    }
    var i: Int32 := 2;
    while WrapInt(i * i) <= n
      invariant 2 <= i <= n
      invariant forall j :: 2 <= j < i ==> n % j != 0
      invariant n < SAFE_SQUARE ==> (i - 1) * (i - 1) <= n
      decreases n - i
    {
      if n < SAFE_SQUARE {
        SquareFits(i, n);
      }
      if n % i == 0 {
        return false;
      }
      ModSelf(n);
      i := i + 1;
    }
    if n < SAFE_SQUARE {
      SquareFits(i, n);
      forall j | 2 <= j && j * j <= n ensures n % j != 0 {
        if j >= i {
          SquareMonotone(i, j);
        }
      }
    }
    return true;
  }

  lemma ModSelf(n: int)
    ensures n > 0 ==> n % n == 0
  {
    if n > 0 {
      ModUnique(n, n, 1, 0);
    }
  }

  /** Below `SAFE_SQUARE`, the square of a trial divisor fits in an `int`. */
  lemma SquareFits(i: int, n: int)
    requires 2 <= i && n < SAFE_SQUARE && (i - 1) * (i - 1) <= n
    ensures i * i <= INT_MAX && WrapInt(i * i) == i * i
  {
    if i > 46340 {
      SquareMonotone(46340, i - 1);
    }
    SquareMonotone(i, 46340);
  }

  // ---------------------------------------------------------------- Carmichael numbers

  /** `a` and `n` share no divisor other than 1. */
  ghost predicate Coprime(a: int, n: int) {
    forall d :: d >= 1 && a % d == 0 && n % d == 0 ==> d == 1
  }

  /** A Carmichael number: composite, and `a^n ≡ a (mod n)` for every base
    * `a` in `[2, n)` coprime to `n`. */
  ghost predicate IsCarmichael(n: int) {
    n >= 2 && !IsPrimeSpec(n) &&
    forall a :: 2 <= a < n && Coprime(a, n) ==> Pow(a, n) % n == a % n
  }

  lemma OneHasOneDivisor(d: int)
    ensures d >= 1 ==> (1 % d == 0 <==> d == 1)
  {
    if d > 1 {
      ModUnique(1, d, 0, 1);
    }
  }

  /** A gcd of 1 means coprime, any other gcd a shared divisor. */
  lemma GcdOneIffCoprime(g: int, a: int, n: int)
    requires a >= 1 && n >= 1 && IsGcd(g, a, n)
    ensures g == 1 <==> Coprime(a, n)
  {
    if g == 1 {
      forall d | d >= 1 && a % d == 0 && n % d == 0 ensures d == 1 {
        OneHasOneDivisor(d);
      }
    }
  }

  /** `isCarmichaelNumber`: false below 2 and for primes; otherwise the
    * Fermat test for every coprime base below `n`.  For every `n` whose
    * residues multiply within `int` the verdict is `IsCarmichael(n)`. */
  method IsCarmichaelNumber(n: Int32) returns (r: bool)
    ensures n < 2 ==> !r
    ensures n <= SAFE_MODULUS ==> (r <==> IsCarmichael(n))
    ensures n < SAFE_SQUARE && IsPrimeSpec(n) ==> !r
  {
    if n < 2 {
      return false;
    }
    var prime := IsPrime(n);
    if n < SAFE_SQUARE {
      TrialDivision(n);
    }
    if prime {
      return false;
    }
    var a: Int32 := 2;
    while a < n
      invariant 2 <= a <= n
      invariant n <= SAFE_MODULUS ==> forall x :: 2 <= x < a && Coprime(x, n) ==> Pow(x, n) % n == x % n
    {
      var g := Gcd(a, n);
      if n <= SAFE_MODULUS {
        GcdOneIffCoprime(g, a, n);
      }
      if g == 1 {
        var e := ModExp(a, n, n);
        if e != a % n {
          return false;
        }
      }
      a := a + 1;
    }
    return true;
  }

  /** `apply`: the verdict for an `Integer` input, else an argument error. */
  method Apply(input: Obj) returns (r: Result<Obj>)
    ensures r.Err? <==> !input.IntObj?
    ensures r.Err? ==> r.error == IllegalArgument("Input must be an Integer.")
    ensures r.Ok? ==> r.value.BoolObj? && (input.i < 2 ==> !r.value.b)
    ensures r.Ok? && input.i <= SAFE_MODULUS ==> (r.value.b <==> IsCarmichael(input.i))
    ensures r.Ok? && input.i < SAFE_SQUARE && IsPrimeSpec(input.i) ==> !r.value.b
  {
    if !input.IntObj? {
      return Err(IllegalArgument("Input must be an Integer."));
    }
    var verdict := IsCarmichaelNumber(input.i);
    return Ok(BoolObj(verdict));
  }
}
