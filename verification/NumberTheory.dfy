/** Congruences, greatest common divisors, primes and the theorem of Fermat:
    what the correctness of the Paillier scheme rests on. */
module NumberTheory {

  // ---------- remainders ----------

  lemma MulSmall(k: int, n: int)
    requires -n < k * n < n
    ensures k == 0
  {
    assert k >= 1 ==> (k - 1) * n >= 0;
    assert k <= -1 ==> (k + 1) * n <= 0;
  }

  /** A product of naturals is positive when both factors are, and only then. */
  lemma MulPositive(x: nat, y: nat)
    ensures x * y > 0 <==> x > 0 && y > 0
  {
    if x > 0 && y > 0 { assert (x - 1) * y >= 0; }
  }

  /** The remainder of a division is the only one in range. */
  lemma DivModUnique(a: int, q: int, r: int, n: int)
    requires 0 <= r < n
    requires a == q * n + r
    ensures a / n == q && a % n == r
  {
    var k := q - a / n;
    assert a == (a / n) * n + a % n;
    assert k * n == a % n - r by { assert k * n == q * n - (a / n) * n; }
    MulSmall(k, n);
  }

  lemma CongIntro(a: int, b: int, k: int, n: int)
    requires n > 0
    requires a == b + k * n
    ensures a % n == b % n
  {
    assert b == (b / n) * n + b % n;
    assert a == (b / n + k) * n + b % n by { assert (b / n + k) * n == (b / n) * n + k * n; }
    DivModUnique(a, b / n + k, b % n, n);
  }

  lemma CongElim(a: int, b: int, n: int) returns (k: int)
    requires n > 0
    requires a % n == b % n
    ensures a == b + k * n
  {
    k := a / n - b / n;
    assert k * n == (a / n) * n - (b / n) * n;
  }

  lemma CongMul(a: int, b: int, c: int, d: int, n: int)
    requires n > 0
    requires a % n == b % n && c % n == d % n
    ensures (a * c) % n == (b * d) % n
  {
    var j := CongElim(a, b, n);
    var k := CongElim(c, d, n);
    assert a * c == b * d + (b * k + j * d + j * k * n) * n by {
      assert (b + j * n) * (d + k * n) == b * d + b * (k * n) + (j * n) * d + (j * n) * (k * n);
      assert (b * k + j * d + j * k * n) * n == (b * k) * n + (j * d) * n + (j * k * n) * n;
      assert b * (k * n) == (b * k) * n;
      assert (j * n) * d == (j * d) * n;
      assert (j * n) * (k * n) == (j * k * n) * n;
    }
    CongIntro(a * c, b * d, b * k + j * d + j * k * n, n);
  }

  lemma CongAdd(a: int, b: int, c: int, d: int, n: int)
    requires n > 0
    requires a % n == b % n && c % n == d % n
    ensures (a + c) % n == (b + d) % n
  {
    var j := CongElim(a, b, n);
    var k := CongElim(c, d, n);
    assert (j + k) * n == j * n + k * n;
    CongIntro(a + c, b + d, j + k, n);
  }

  lemma ModMod(a: int, n: int)
    requires n > 0
    ensures (a % n) % n == a % n
  {
    DivModUnique(a % n, 0, a % n, n);
  }

  /** A product may be reduced factor by factor. */
  lemma ModMulMod(a: int, b: int, n: int)
    requires n > 0
    ensures ((a % n) * (b % n)) % n == (a * b) % n
  {
    ModMod(a, n);
    ModMod(b, n);
    CongMul(a % n, a, b % n, b, n);
  }

  predicate Divides(d: int, x: int)
    requires d > 0
  {
    x % d == 0
  }

  lemma DividesIntro(d: int, k: int)
    requires d > 0
    ensures Divides(d, k * d)
  {
    DivModUnique(k * d, k, 0, d);
  }

  lemma Quotient(d: int, x: int) returns (k: int)
    requires d > 0 && Divides(d, x)
    ensures x == k * d
  {
    k := x / d;
  }

  lemma DividesMul(d: int, x: int, y: int)
    requires d > 0 && Divides(d, x)
    ensures Divides(d, x * y) && Divides(d, y * x)
  {
    var k := Quotient(d, x);
    assert x * y == (k * y) * d by { assert k * d * y == (k * y) * d; }
    assert y * x == x * y;
    DividesIntro(d, k * y);
  }

  lemma DividesLinear(d: int, x: int, y: int, u: int, v: int)
    requires d > 0 && Divides(d, x) && Divides(d, y)
    ensures Divides(d, x * u + y * v)
  {
    DividesMul(d, x, u);
    DividesMul(d, y, v);
    var j := Quotient(d, x * u);
    var k := Quotient(d, y * v);
    assert j * d + k * d == (j + k) * d;
    DividesIntro(d, j + k);
  }

  lemma DividesTrans(a: int, b: int, c: int)
    requires a > 0 && b > 0 && Divides(a, b) && Divides(b, c)
    ensures Divides(a, c)
  {
    var j := Quotient(b, c);
    DividesMul(a, b, j);
    assert c == b * j;
  }

  lemma DividesAtMost(d: int, x: int)
    requires d > 0 && x > 0 && Divides(d, x)
    ensures d <= x
  {
    var k := Quotient(d, x);
    assert k <= 0 ==> k * d <= 0;
    assert (k - 1) * d == k * d - d;
    assert k >= 1 ==> (k - 1) * d >= 0;
  }

  // ---------- powers ----------

  function Pow(b: int, e: nat): int {
    if e == 0 then 1 else b * Pow(b, e - 1)
  }

  lemma {:induction false} PowAdd(b: int, e: nat, f: nat)
    ensures Pow(b, e + f) == Pow(b, e) * Pow(b, f)
  {
    if e != 0 {
      PowAdd(b, e - 1, f);
      assert e - 1 + f == e + f - 1;
      assert b * (Pow(b, e - 1) * Pow(b, f)) == (b * Pow(b, e - 1)) * Pow(b, f);
    }
  }

  lemma {:induction false} PowMul(b: int, e: nat, f: nat)
    ensures Pow(b, e * f) == Pow(Pow(b, e), f)
  {
    if f != 0 {
      assert e * f == e + e * (f - 1);
      assert e * (f - 1) >= 0;
      PowMul(b, e, f - 1);
      PowAdd(b, e, e * (f - 1));
    }
  }

  lemma Regroup(u: int, x: int, v: int, y: int)
    ensures (u * x) * (v * y) == (u * v) * (x * y)
  {
  }

  lemma {:induction false} PowProduct(a: int, b: int, e: nat)
    ensures Pow(a * b, e) == Pow(a, e) * Pow(b, e)
  {
    if e != 0 {
      PowProduct(a, b, e - 1);
      Regroup(a, b, Pow(a, e - 1), Pow(b, e - 1));
    }
  }

  lemma {:induction false} PowOne(e: nat)
    ensures Pow(1, e) == 1
  {
    if e != 0 { PowOne(e - 1); }
  }

  lemma {:induction false} PowPositive(b: int, e: nat)
    requires b >= 1
    ensures Pow(b, e) >= 1
  {
    if e != 0 {
      PowPositive(b, e - 1);
      assert (b - 1) * Pow(b, e - 1) >= 0;
    }
  }

  lemma {:induction false} CongPow(a: int, b: int, e: nat, n: int)
    requires n > 0
    requires a % n == b % n
    ensures Pow(a, e) % n == Pow(b, e) % n
  {
    if e != 0 {
      CongPow(a, b, e - 1, n);
      CongMul(a, b, Pow(a, e - 1), Pow(b, e - 1), n);
    }
  }

  function Square(n: int): (s: nat)
    ensures n > 0 ==> s >= n
    ensures n > 1 ==> s > n
  {
    assert n > 0 ==> (n - 1) * n >= 0;
    assert n > 1 ==> (n - 2) * n >= 0;
    n * n
  }

  lemma OnePlusStep(n: int, t: int, k: int)
    ensures (1 + n * t) * (1 + (k - 1) * t * n) == 1 + k * t * n + ((k - 1) * t * t) * Square(n)
  {
    var j := (k - 1) * t;
    assert k * t == j + t;
    assert (1 + n * t) * (1 + j * n) == 1 + n * t + j * n + (n * t) * (j * n);
    assert (j + t) * n == j * n + t * n;
    assert (n * t) * (j * n) == (j * t) * (n * n);
  }

  /** The linear binomial: all higher terms of the expansion vanish. */
  lemma {:induction false} OnePlusPow(n: int, t: int, k: nat)
    requires n > 0
    ensures Pow(1 + n * t, k) % Square(n) == (1 + k * t * n) % Square(n)
  {
    if k != 0 {
      OnePlusPow(n, t, k - 1);
      var u := 1 + (k - 1) * t * n;
      CongMul(1 + n * t, 1 + n * t, Pow(1 + n * t, k - 1), u, Square(n));
      OnePlusStep(n, t, k);
      CongIntro((1 + n * t) * u, 1 + k * t * n, (k - 1) * t * t, Square(n));
    }
  }

  // ---------- greatest common divisors ----------

  function Gcd(a: nat, b: nat): (g: nat)
    ensures a + b > 0 ==> g > 0
    decreases b
  {
    if b == 0 then a else Gcd(b, a % b)
  }

  /** Euclid's algorithm with the coefficients of Bezout. */
  lemma ResiduePart(a: int, n: int, x: int)
    requires n > 0
    ensures a * x == n * ((a / n) * x) + (a % n) * x
  {
    var k, r := a / n, a % n;
    Distribute(x, n * k, r);
    MulAssoc(n, k, x);
    assert a == n * k + r;
  }

  lemma BezoutStep(a: int, b: int, u: int, v: int)
    requires b > 0
    ensures a * v + b * (u - (a / b) * v) == b * u + (a % b) * v
  {
    var w := (a / b) * v;
    ResiduePart(a, b, v);
    Distribute(b, u - w, w);
  }

  lemma {:induction false} Bezout(a: nat, b: nat) returns (x: int, y: int)
    ensures a * x + b * y == Gcd(a, b)
    decreases b
  {
    if b == 0 {
      x, y := 1, 0;
    } else {
      var u, v := Bezout(b, a % b);
      var q := a / b;
      x, y := v, u - q * v;
      BezoutStep(a, b, u, v);
    }
  }

  lemma {:induction false} GcdDivides(a: nat, b: nat)
    requires a + b > 0
    ensures Divides(Gcd(a, b), a) && Divides(Gcd(a, b), b)
    decreases b
  {
    if b == 0 {
      DividesIntro(a, 1);
      DividesIntro(a, 0);
    } else {
      GcdDivides(b, a % b);
      var g := Gcd(a, b);
      DividesLinear(g, b, a % b, a / b, 1);
      assert a == b * (a / b) + (a % b) * 1;
    }
  }

  predicate Coprime(a: nat, b: nat) {
    Gcd(a, b) == 1
  }

  /** Coprime is having a combination that is one. */
  lemma CoprimeIntro(a: nat, b: nat, x: int, y: int)
    requires a * x + b * y == 1
    ensures Coprime(a, b)
  {
    assert a == 0 && b == 0 ==> a * x + b * y == 0;
    GcdDivides(a, b);
    DividesLinear(Gcd(a, b), a, b, x, y);
    DividesAtMost(Gcd(a, b), 1);
  }

  lemma CoprimeSym(a: nat, b: nat)
    requires Coprime(a, b)
    ensures Coprime(b, a)
  {
    var x, y := Bezout(a, b);
    CoprimeIntro(b, a, y, x);
  }

  lemma CombinationProduct(a: int, b: int, n: int, x: int, y: int, u: int, v: int)
    requires a * x + n * y == 1 && b * u + n * v == 1
    ensures (a * b) * (x * u) + n * (y + v - n * (y * v)) == 1
  {
    var p, q := a * x, b * u;
    assert (a * b) * (x * u) == p * q;
    var s, t := n * y, n * v;
    assert (1 - s) * (1 - t) == 1 - s - t + s * t;
    assert p * q == (1 - s) * (1 - t) by { assert p == 1 - s && q == 1 - t; }
    assert s * t == n * (n * (y * v));
    assert n * (y + v - n * (y * v)) == s + t - n * (n * (y * v));
  }

  lemma CoprimeProduct(a: nat, b: nat, n: nat)
    requires Coprime(a, n) && Coprime(b, n)
    ensures Coprime(a * b, n)
  {
    var x, y := Bezout(a, n);
    var u, v := Bezout(b, n);
    CombinationProduct(a, b, n, x, y, u, v);
    CoprimeIntro(a * b, n, x * u, y + v - n * (y * v));
  }

  lemma CoprimeSplit(a: int, d: int, x: int, u: int, v: int)
    requires a * u + d * v == 1
    ensures x == (a * x) * u + (v * x) * d
  {
    Distribute(x, a * u, d * v);
  }

  /** A factor coprime to the divisor may be dropped. */
  lemma CoprimeCancel(d: nat, a: nat, x: int)
    requires d > 0 && Coprime(a, d) && Divides(d, a * x)
    ensures Divides(d, x)
  {
    var u, v := Bezout(a, d);
    DividesMul(d, a * x, u);
    DividesIntro(d, v * x);
    DividesLinear(d, (a * x) * u, (v * x) * d, 1, 1);
    CoprimeSplit(a, d, x, u, v);
  }

  lemma CoprimeDividesProduct(a: nat, b: nat, x: int)
    requires a > 0 && b > 0 && a * b > 0 && Coprime(a, b) && Divides(a, x) && Divides(b, x)
    ensures Divides(a * b, x)
  {
    var k := Quotient(a, x);
    assert a * k == x;
    CoprimeCancel(b, a, k);
    var j := Quotient(b, k);
    assert x == j * (a * b) by { assert (j * b) * a == j * (a * b); }
    DividesIntro(a * b, j);
  }

  // ---------- least common multiples ----------

  function Lcm(a: nat, b: nat): (m: nat)
    requires a > 0 && b > 0
  {
    a * b / Gcd(a, b)
  }

  /** The lcm times the gcd is the product; the lcm is a multiple of both. */
  lemma LcmGcd(a: nat, b: nat)
    requires a > 0 && b > 0
    ensures Lcm(a, b) > 0 && Lcm(a, b) * Gcd(a, b) == a * b
    ensures Divides(a, Lcm(a, b)) && Divides(b, Lcm(a, b)) && Divides(Lcm(a, b), a * b)
  {
    var g := Gcd(a, b);
    GcdDivides(a, b);
    var u := Quotient(g, a);
    var v := Quotient(g, b);
    assert a * b == (u * b) * g by { assert (u * g) * b == (u * b) * g; }
    assert a * b == (v * a) * g by { assert (v * g) * a == (v * a) * g; }
    DivModUnique(a * b, u * b, 0, g);
    DivModUnique(a * b, v * a, 0, g);
    var l := Lcm(a, b);
    MulPositive(a, b);
    MulPositive(l, g);
    DividesIntro(b, u);
    DividesIntro(a, v);
    DividesIntro(l, g);
    assert g * l == a * b;
  }

  lemma LcmTerm(m: int, k: int, b: int, a: int, x: int)
    requires m == k * b
    ensures m * (a * x) == (k * x) * (a * b)
  {
    Regroup(k, b, x, a);
  }

  lemma LcmCombination(a: int, b: int, l: int, g: int, m: int, j: int, k: int, x: int, y: int)
    requires a * x + b * y == g && l * g == a * b && m == j * a && m == k * b
    ensures m * g == ((k * x + j * y) * l) * g
  {
    Distribute(m, a * x, b * y);
    LcmTerm(m, k, b, a, x);
    LcmTerm(m, j, a, b, y);
    assert b * a == l * g;
    Distribute(l * g, k * x, j * y);
    MulAssoc(k * x + j * y, l, g);
  }

  lemma MulAssoc(a: int, b: int, c: int)
    ensures (a * b) * c == a * (b * c)
  {
  }

  /** The common multiples of a and b are the multiples of their lcm. */
  lemma LcmIsLeast(a: nat, b: nat, m: int)
    requires a > 0 && b > 0
    ensures Lcm(a, b) > 0
    ensures Divides(Lcm(a, b), m) <==> Divides(a, m) && Divides(b, m)
  {
    LcmGcd(a, b);
    var l, g := Lcm(a, b), Gcd(a, b);
    if Divides(l, m) {
      DividesTrans(a, l, m);
      DividesTrans(b, l, m);
    }
    if Divides(a, m) && Divides(b, m) {
      var x, y := Bezout(a, b);
      var j := Quotient(a, m);
      var k := Quotient(b, m);
      var c := k * x + j * y;
      LcmCombination(a, b, l, g, m, j, k, x, y);
      assert (m - c * l) * g == 0;
      ZeroProduct(m - c * l, g);
      DividesIntro(l, c);
    }
  }

  lemma ZeroProduct(k: int, n: int)
    requires n > 0 && k * n == 0
    ensures k == 0
  {
    MulSmall(k, n);
  }

  // ---------- inverses ----------

  /** The inverse of a modulo n, when there is one. */
  lemma InverseExists(a: nat, n: nat) returns (b: nat)
    requires n > 1 && Coprime(a, n)
    ensures b < n && (a * b) % n == 1
  {
    var x, y := Bezout(a, n);
    b := x % n;
    ModMod(x, n);
    CongMul(a, a, x % n, x, n);
    assert a * x == 1 + (-y) * n;
    CongIntro(a * x, 1, -y, n);
    DivModUnique(1, 0, 1, n);
  }

  // ---------- primes ----------

  predicate Prime(p: nat) {
    p >= 2 && forall d :: 2 <= d < p ==> !Divides(d, p)
  }

  lemma PrimeCoprime(p: nat, a: nat)
    requires Prime(p) && !Divides(p, a)
    ensures Coprime(a, p)
  {
    GcdDivides(a, p);
    var g := Gcd(a, p);
    DividesAtMost(g, p);
  }

  lemma CoprimeNotDivided(p: nat, a: nat)
    requires p >= 2 && Coprime(a, p)
    ensures !Divides(p, a)
  {
    if Divides(p, a) {
      var x, y := Bezout(a, p);
      DividesIntro(p, 1);
      DividesLinear(p, a, 1 * p, x, y);
      DividesAtMost(p, 1);
    }
  }

  /** Euclid's lemma. */
  lemma PrimeDividesProduct(p: nat, a: nat, b: nat)
    requires Prime(p) && Divides(p, a * b)
    ensures Divides(p, a) || Divides(p, b)
  {
    if !Divides(p, a) {
      PrimeCoprime(p, a);
      CoprimeCancel(p, a, b);
    }
  }

  // ---------- Fermat ----------

  function Binom(n: nat, k: nat): nat {
    if k == 0 then 1 else if n == 0 then 0 else Binom(n - 1, k - 1) + Binom(n - 1, k)
  }

  lemma {:induction false} BinomZero(n: nat, k: nat)
    requires k > n
    ensures Binom(n, k) == 0
  {
    if n != 0 {
      BinomZero(n - 1, k - 1);
      BinomZero(n - 1, k);
    }
  }

  lemma Distribute(a: int, b: int, c: int)
    ensures a * (b + c) == a * b + a * c == b * a + c * a
  {
  }

  /** Pascal's rule, absorbed: what the two neighbours give for their sum. */
  lemma AbsorbStep(n: int, k: int, b: int, c: int, x: int, y: int)
    requires b == x + y
    requires k * c == (n - 1) * y
    requires (k - 1) * b == (n - 1) * x
    ensures k * (b + c) == n * b
  {
    Distribute(k, b, c);
    Distribute(b, k - 1, 1);
    Distribute(b, n - 1, 1);
    Distribute(n - 1, x, y);
  }

  lemma {:induction false} BinomAbsorb(n: nat, k: nat)
    requires n > 0 && k > 0
    ensures k * Binom(n, k) == n * Binom(n - 1, k - 1)
  {
    if n == 1 {
      BinomZero(0, k);
      if k > 1 { BinomZero(0, k - 1); }
    } else {
      BinomAbsorb(n - 1, k);
      if k > 1 { BinomAbsorb(n - 1, k - 1); }
      AbsorbStep(n, k, Binom(n - 1, k - 1), Binom(n - 1, k),
                 if k > 1 then Binom(n - 2, k - 2) else 0, Binom(n - 2, k - 1));
    }
  }

  /** The first m + 1 terms of the expansion of (1 + a)^n. */
  function BinomSum(n: nat, a: int, m: nat): int {
    Binom(n, m) * Pow(a, m) + if m == 0 then 0 else BinomSum(n, a, m - 1)
  }

  lemma BinomTerm(x: int, y: int, a: int, w: int)
    ensures (x + y) * (a * w) == y * (a * w) + a * (x * w)
  {
  }

  lemma {:induction false} BinomSumStep(n: nat, a: int, m: nat)
    ensures BinomSum(n + 1, a, m + 1) == BinomSum(n, a, m + 1) + a * BinomSum(n, a, m)
  {
    BinomTerm(Binom(n, m), Binom(n, m + 1), a, Pow(a, m));
    if m != 0 {
      BinomSumStep(n, a, m - 1);
      Distribute(a, Binom(n, m) * Pow(a, m), BinomSum(n, a, m - 1));
    } else {
      assert BinomSum(n + 1, a, 0) == 1 && BinomSum(n, a, 0) == 1;
    }
  }

  lemma BinomSumTop(n: nat, a: int)
    ensures BinomSum(n, a, n + 1) == BinomSum(n, a, n)
  {
    BinomZero(n, n + 1);
  }

  lemma FactorOut(s: int, a: int)
    ensures (1 + a) * s == s + a * s
  {
  }

  lemma BinomSumNext(n: nat, a: int)
    ensures BinomSum(n + 1, a, n + 1) == (1 + a) * BinomSum(n, a, n)
  {
    BinomSumStep(n, a, n);
    BinomSumTop(n, a);
    FactorOut(BinomSum(n, a, n), a);
  }

  lemma {:induction false} BinomialTheorem(n: nat, a: int)
    ensures Pow(1 + a, n) == BinomSum(n, a, n)
  {
    if n != 0 {
      BinomialTheorem(n - 1, a);
      BinomSumNext(n - 1, a);
    }
  }

  lemma PrimeDividesBinom(p: nat, m: nat)
    requires Prime(p) && 0 < m < p
    ensures Divides(p, Binom(p, m))
  {
    BinomAbsorb(p, m);
    DividesIntro(p, Binom(p - 1, m - 1));
    assert m * Binom(p, m) == Binom(p - 1, m - 1) * p;
    PrimeDividesProduct(p, m, Binom(p, m));
    assert !Divides(p, m) by { DivModUnique(m, 0, m, p); }
  }

  /** Modulo a prime only the two outer terms survive. */
  lemma {:induction false} BinomSumMod(p: nat, a: int, m: nat)
    requires Prime(p) && m < p
    ensures BinomSum(p, a, m) % p == 1
  {
    DivModUnique(1, 0, 1, p);
    if m == 0 {
      assert BinomSum(p, a, 0) == 1;
    } else {
      BinomSumMod(p, a, m - 1);
      PrimeDividesBinom(p, m);
      var t, r := Binom(p, m) * Pow(a, m), BinomSum(p, a, m - 1);
      DividesMul(p, Binom(p, m), Pow(a, m));
      var k := Quotient(p, t);
      CongIntro(t + r, r, k, p);
    }
  }

  lemma {:induction false} FermatPower(p: nat, a: nat)
    requires Prime(p)
    ensures Pow(a, p) % p == a % p
  {
    if a == 0 {
      assert Pow(0, p) == 0 * Pow(0, p - 1);
    } else {
      FermatPower(p, a - 1);
      BinomialTheorem(p, a - 1);
      BinomSumMod(p, a - 1, p - 1);
      BinomDiagonal(p);
      assert BinomSum(p, a - 1, p) == Pow(a - 1, p) + BinomSum(p, a - 1, p - 1);
      DivModUnique(1, 0, 1, p);
      CongAdd(Pow(a - 1, p), a - 1, BinomSum(p, a - 1, p - 1), 1, p);
    }
  }

  lemma {:induction false} BinomDiagonal(n: nat)
    ensures Binom(n, n) == 1
  {
    if n != 0 {
      BinomDiagonal(n - 1);
      BinomZero(n - 1, n);
    }
  }

  /** Fermat's little theorem. */
  lemma Fermat(p: nat, a: nat)
    requires Prime(p) && !Divides(p, a)
    ensures Pow(a, p - 1) % p == 1
  {
    FermatPower(p, a);
    var k := CongElim(Pow(a, p), a, p);
    var w := Pow(a, p - 1);
    assert a * (w - 1) == k * p by { assert Pow(a, p) == a * w; }
    DividesIntro(p, k);
    PrimeCoprime(p, a);
    CoprimeCancel(p, a, w - 1);
    var j := Quotient(p, w - 1);
    CongIntro(w, 1, j, p);
    DivModUnique(1, 0, 1, p);
  }
}
