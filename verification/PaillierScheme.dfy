/** The Paillier scheme with g = n + 1 and the blinded comparison built on it
    (src/crypto/Paillier.cpp and the match of src/broker/broker.cpp), as functions
    of the key and of the random draws. */
module PaillierScheme {
  import opened Outcomes
  import opened NumberTheory

  datatype Key = Key(n: nat, lambda: nat, mu: nat, eM: nat, dM: nat, rM: nat)

  /** A key generated from the primes p and q. */
  ghost predicate KeyFrom(k: Key, p: nat, q: nat) {
    && Prime(p) && Prime(q) && p != q
    && k.n == p * q
    && k.lambda == Lcm(p - 1, q - 1)
    && (k.lambda * k.mu) % k.n == 1
    && k.eM <= k.n && k.dM == k.n - k.eM
    && k.rM >= 1
  }

  function PowMod(b: nat, e: nat, m: nat): (r: nat)
    requires m > 0
  {
    Pow(b, e) % m
  }

  /** L(x) = (x - 1) / n, behind the assertion that x is one modulo n. */
  function L(x: nat, n: nat): Option<int>
    requires n > 0
  {
    if x % n == 1 % n then Some((x - 1) / n) else None
  }

  function Encrypt(n: nat, m: nat, r: nat): nat
    requires n > 0
  {
    ((1 + m * n) % Square(n) * PowMod(r, n, Square(n))) % Square(n)
  }

  /** None is the failed assertion of L. */
  function Decrypt(k: Key, c: nat): Option<int>
    requires k.n > 0
  {
    match L(PowMod(c, k.lambda, Square(k.n)), k.n)
    case Some(l) => Some((l * k.mu) % k.n)
    case None => None
  }

  function Add(n: nat, c1: nat, c2: nat): nat
    requires n > 0
  {
    (c1 * c2) % Square(n)
  }

  function BlindNotification(k: Key, x: nat, r: nat): nat
    requires k.n > 0
  {
    (PowMod(k.n + 1, k.eM, Square(k.n)) * PowMod(k.n + 1, (k.rM * x + r) * k.lambda, Square(k.n))) % Square(k.n)
  }

  function BlindSubscription(k: Key, c: nat): nat
    requires k.n > 0
  {
    (PowMod(k.n + 1, k.dM, Square(k.n)) * PowMod(c, k.rM * k.lambda, Square(k.n))) % Square(k.n)
  }

  /** The difference a comparison decodes; None is the failed assertion of L. */
  function Match(n: nat, mu: nat, bvalN: nat, bvalM: nat): Option<int>
    requires n > 0
  {
    match L((bvalN * bvalM) % Square(n), n)
    case Some(l) => Some((l * mu) % n)
    case None => None
  }

  // ---------- r^(n * lambda) is one modulo n^2 ----------

  lemma SquareOfProduct(p: nat, q: nat)
    ensures Square(p) * Square(q) == Square(p * q)
  {
    Regroup(p, p, q, q);
  }

  lemma ProductOfFactors(p: nat, q: nat)
    requires p >= 2 && q >= 2
    ensures p * q >= 2 * p && p * q >= 2 * q
  {
    assert (p - 2) * q >= 0;
    assert p * (q - 2) >= 0;
  }

  /** Fermat, for a multiple of p - 1. */
  lemma FermatMultiple(p: nat, lambda: nat, r: nat)
    requires Prime(p) && Divides(p - 1, lambda) && !Divides(p, r)
    ensures Pow(r, lambda) % p == 1
  {
    Fermat(p, r);
    var j := lambda / (p - 1);
    assert lambda == (p - 1) * j;
    PowMul(r, p - 1, j);
    DivModUnique(1, 0, 1, p);
    CongPow(Pow(r, p - 1), 1, j, p);
    PowOne(j);
  }

  /** Raising to a multiple of p lifts one modulo p to one modulo p^2. */
  lemma LiftToSquare(p: nat, s: int, n: nat)
    requires p > 1 && s % p == 1 && Divides(p, n)
    ensures Pow(s, n) % Square(p) == 1
  {
    var t := s / p;
    assert s == 1 + p * t;
    OnePlusPow(p, t, n);
    var i := Quotient(p, n);
    assert i * p * t * p == (i * t) * Square(p) by { assert i * p * t * p == (i * t) * (p * p); }
    CongIntro(1 + n * t * p, 1, i * t, Square(p));
    DivModUnique(1, 0, 1, Square(p));
  }

  lemma DistinctPrimesCoprime(p: nat, q: nat)
    requires Prime(p) && Prime(q) && p != q
    ensures Coprime(p, q)
  {
    assert !Divides(q, p) by {
      if Divides(q, p) { DividesAtMost(q, p); }
    }
    PrimeCoprime(q, p);
  }

  lemma DistinctPrimeSquaresCoprime(p: nat, q: nat)
    requires Prime(p) && Prime(q) && p != q
    ensures Coprime(Square(p), Square(q))
  {
    DistinctPrimesCoprime(p, q);
    CoprimeProduct(p, p, q);
    CoprimeSym(Square(p), q);
    CoprimeProduct(q, q, Square(p));
    CoprimeSym(Square(q), Square(p));
  }

  lemma CoprimeToFactors(p: nat, q: nat, r: nat)
    requires Coprime(r, p * q)
    ensures Coprime(r, p) && Coprime(r, q)
  {
    var x, y := Bezout(r, p * q);
    MulAssoc(p, q, y);
    MulAssoc(q, p, y);
    assert p * q == q * p;
    hide Coprime;
    CoprimeIntro(r, p, x, q * y);
    CoprimeIntro(r, q, x, p * y);
  }

  lemma CoprimeToProduct(p: nat, q: nat, r: nat)
    requires Prime(p) && Prime(q)
    ensures Coprime(r, p * q) <==> !Divides(p, r) && !Divides(q, r)
  {
    if Coprime(r, p * q) {
      CoprimeToFactors(p, q, r);
      CoprimeNotDivided(p, r);
      CoprimeNotDivided(q, r);
    }
    if !Divides(p, r) && !Divides(q, r) {
      PrimeCoprime(p, r);
      PrimeCoprime(q, r);
      CoprimeSym(r, p);
      CoprimeSym(r, q);
      CoprimeProduct(p, q, r);
      CoprimeSym(p * q, r);
    }
  }

  lemma KeyFacts(k: Key, p: nat, q: nat)
    requires KeyFrom(k, p, q)
    ensures k.n > 1 && k.n >= 2 * p && k.n >= 2 * q && k.lambda > 0
    ensures Divides(p - 1, k.lambda) && Divides(q - 1, k.lambda) && Divides(p, k.n) && Divides(q, k.n)
  {
    assert p >= 2 && q >= 2 && k.n == p * q && k.lambda == Lcm(p - 1, q - 1);
    hide KeyFrom, Prime, Divides, Lcm;
    ProductOfFactors(p, q);
    LcmGcd(p - 1, q - 1);
    DividesIntro(p, q);
    DividesIntro(q, p);
    assert q * p == k.n;
  }

  lemma OneModBoth(w: int, a: nat, b: nat)
    requires a > 1 && b > 1 && Coprime(a, b) && w % a == 1 && w % b == 1 && a * b > 1
    ensures w % (a * b) == 1
  {
    DividesIntro(a, w / a);
    DividesIntro(b, w / b);
    assert w - 1 == (w / a) * a == (w / b) * b;
    CoprimeDividesProduct(a, b, w - 1);
    DivModUnique(w, (w - 1) / (a * b), 1, a * b);
  }

  /** What Carmichael's theorem says of the modulus n^2, derived from Fermat. */
  lemma RandomnessVanishes(k: Key, p: nat, q: nat, r: nat)
    requires KeyFrom(k, p, q) && Coprime(r, k.n)
    ensures k.n > 0 && Pow(r, k.n * k.lambda) % Square(k.n) == 1
  {
    KeyFacts(k, p, q);
    CoprimeToProduct(p, q, r);
    FermatMultiple(p, k.lambda, r);
    FermatMultiple(q, k.lambda, r);
    LiftToSquare(p, Pow(r, k.lambda), k.n);
    LiftToSquare(q, Pow(r, k.lambda), k.n);
    PowMul(r, k.lambda, k.n);
    assert k.lambda * k.n == k.n * k.lambda;
    DistinctPrimeSquaresCoprime(p, q);
    SquareOfProduct(p, q);
    OneModBoth(Pow(r, k.n * k.lambda), Square(p), Square(q));
  }

  // ---------- decoding ----------

  lemma SplitExponent(n: int, w: int, u: int)
    ensures (w * n + u) * n == w * Square(n) + u * n
  {
    assert (w * n) * n == w * (n * n);
  }

  lemma BelowSquare(n: int, u: int)
    requires 0 <= u < n
    ensures 0 <= u * n <= Square(n) - n
  {
    var rest := n - 1 - u;
    assert u * n >= 0 && rest * n >= 0;
    Distribute(n, u, rest);
    Distribute(n, n - 1, 1);
  }

  lemma ReduceExponent(n: nat, t: int)
    requires n > 1
    ensures (1 + t * n) % Square(n) == 1 + (t % n) * n
  {
    SplitExponent(n, t / n, t % n);
    BelowSquare(n, t % n);
    DivModUnique(1 + t * n, t / n, 1 + (t % n) * n, Square(n));
  }

  /** L and the inverse of lambda decode an element 1 + t * n of the group. */
  lemma Decode(n: nat, y: nat, t: int)
    requires n > 1 && y < Square(n)
    requires y % Square(n) == (1 + t * n) % Square(n)
    ensures y % n == 1 && (y - 1) / n == t % n
  {
    ReduceExponent(n, t);
    DivModUnique(y, 0, y, Square(n));
    DivModUnique(y, t % n, 1, n);
    DivModUnique(y - 1, t % n, 0, n);
  }

  lemma InverseStrips(n: nat, lambda: int, mu: int, t: int, s: int)
    requires n > 1 && (lambda * mu) % n == 1 && t % n == (lambda * s) % n
    ensures ((t % n) * mu) % n == s % n
  {
    ModMod(t, n);
    CongMul(t % n, lambda * s, mu, mu, n);
    assert (lambda * s) * mu == (lambda * mu) * s;
    DivModUnique(1, 0, 1, n);
    CongMul(lambda * mu, 1, s, s, n);
  }

  /** An encryption raised to j * lambda: the randomness is gone and j * m is left. */
  lemma EncryptPower(k: Key, p: nat, q: nat, m: nat, r: nat, j: nat)
    requires KeyFrom(k, p, q) && Coprime(r, k.n) && k.n > 0
    ensures Pow(Encrypt(k.n, m, r), j * k.lambda) % Square(k.n) == (1 + ((j * k.lambda) * m) * k.n) % Square(k.n)
  {
    KeyFacts(k, p, q);
    var n, nn, e := k.n, Square(k.n), j * k.lambda;
    var a, b := 1 + n * m, Pow(r, n);
    ModMulMod(a, b, nn);
    assert m * n == n * m;
    ModMod(((1 + m * n) % nn) * (b % nn), nn);
    CongPow(Encrypt(n, m, r), a * b, e, nn);
    PowProduct(a, b, e);
    OnePlusPow(n, m, e);
    PowVanishes(k, p, q, r, j);
    CongMul(Pow(a, e), 1 + e * m * n, Pow(b, e), 1, nn);
  }

  lemma PowVanishes(k: Key, p: nat, q: nat, r: nat, j: nat)
    requires KeyFrom(k, p, q) && Coprime(r, k.n) && k.n > 0 && Square(k.n) > 1
    ensures Pow(Pow(r, k.n), j * k.lambda) % Square(k.n) == 1 % Square(k.n)
  {
    var nn := Square(k.n);
    assert k.lambda * j == j * k.lambda;
    PowMul(r, k.n, k.lambda);
    PowMul(Pow(r, k.n), k.lambda, j);
    RandomnessVanishes(k, p, q, r);
    DivModUnique(1, 0, 1, nn);
    CongPow(Pow(r, k.n * k.lambda), 1, j, nn);
    PowOne(j);
  }

  // ---------- round trips ----------

  lemma DecryptCoprime(k: Key, p: nat, q: nat, m: nat, r: nat)
    requires KeyFrom(k, p, q) && Coprime(r, k.n) && k.n > 0
    ensures Decrypt(k, Encrypt(k.n, m, r)) == Some(m % k.n)
  {
    KeyFacts(k, p, q);
    var n, nn := k.n, Square(k.n);
    assert 1 * k.lambda == k.lambda;
    EncryptPower(k, p, q, m, r, 1);
    var y := PowMod(Encrypt(n, m, r), k.lambda, nn);
    ModMod(Pow(Encrypt(n, m, r), k.lambda), nn);
    Decode(n, y, k.lambda * m);
    DivModUnique(1, 0, 1, n);
    InverseStrips(n, k.lambda, k.mu, k.lambda * m, m);
  }

  lemma ReduceDivisible(d: nat, n: nat, x: int)
    requires d > 0 && n > 0 && Divides(d, n) && Divides(d, x)
    ensures Divides(d, x % Square(n))
  {
    DividesMul(d, n, n);
    DividesLinear(d, x, Square(n), 1, -(x / Square(n)));
    assert x % Square(n) == x * 1 + Square(n) * (-(x / Square(n)));
  }

  lemma DividesPow(d: nat, x: int, e: nat)
    requires d > 0 && e > 0 && Divides(d, x)
    ensures Divides(d, Pow(x, e))
  {
    DividesMul(d, x, Pow(x, e - 1));
  }

  lemma SharedNotOne(d: nat, n: nat, y: nat)
    requires d > 1 && n > 1 && Divides(d, n) && Divides(d, y)
    ensures y % n != 1
  {
    DividesLinear(d, y, n, 1, -(y / n));
    assert y % n == y * 1 + n * (-(y / n));
    DivModUnique(1, 0, 1, d);
  }

  /** A prime shared with the randomness divides the ciphertext for good. */
  lemma DecryptShared(k: Key, p: nat, q: nat, d: nat, m: nat, r: nat)
    requires KeyFrom(k, p, q) && k.n > 0
    requires Prime(d) && Divides(d, k.n) && Divides(d, r)
    ensures Decrypt(k, Encrypt(k.n, m, r)) == None
  {
    KeyFacts(k, p, q);
    var n := k.n;
    var c := Encrypt(n, m, r);
    DividesPow(d, r, n);
    ReduceDivisible(d, n, Pow(r, n));
    DividesMul(d, PowMod(r, n, Square(n)), (1 + m * n) % Square(n));
    ReduceDivisible(d, n, (1 + m * n) % Square(n) * PowMod(r, n, Square(n)));
    DividesPow(d, c, k.lambda);
    ReduceDivisible(d, n, Pow(c, k.lambda));
    SharedNotOne(d, n, PowMod(c, k.lambda, Square(n)));
    DivModUnique(1, 0, 1, n);
  }

  /** Decryption undoes encryption exactly for randomness coprime to n; for any
      other draw the assertion in L fails. */
  lemma DecryptEncrypt(k: Key, p: nat, q: nat, m: nat, r: nat)
    requires KeyFrom(k, p, q) && k.n > 0
    ensures Decrypt(k, Encrypt(k.n, m, r)) == if Coprime(r, k.n) then Some(m % k.n) else None
  {
    KeyFacts(k, p, q);
    CoprimeToProduct(p, q, r);
    if Coprime(r, k.n) {
      DecryptCoprime(k, p, q, m, r);
    } else if Divides(p, r) {
      DecryptShared(k, p, q, p, m, r);
    } else {
      DecryptShared(k, p, q, q, m, r);
    }
  }

  lemma OnePlusProduct(a: int, b: int, n: nat)
    requires n > 0
    ensures ((1 + a * n) * (1 + b * n)) % Square(n) == (1 + (a + b) * n) % Square(n)
  {
    assert (1 + a * n) * (1 + b * n) == 1 + a * n + b * n + (a * n) * (b * n);
    assert (a * n) * (b * n) == (a * b) * (n * n);
    assert (a + b) * n == a * n + b * n;
    CongIntro((1 + a * n) * (1 + b * n), 1 + (a + b) * n, a * b, Square(n));
  }

  lemma EncryptIsProduct(n: nat, m: nat, r: nat)
    requires n > 0
    ensures Encrypt(n, m, r) == ((1 + m * n) * Pow(r, n)) % Square(n)
  {
    ModMulMod(1 + m * n, Pow(r, n), Square(n));
  }

  /** The product of two ciphertexts is an encryption of the sum. */
  lemma AddIsEncryptSum(n: nat, a: nat, b: nat, r: nat, s: nat)
    requires n > 0
    ensures Add(n, Encrypt(n, a, r), Encrypt(n, b, s)) == Encrypt(n, a + b, r * s)
  {
    var u, v, x, y := 1 + a * n, 1 + b * n, Pow(r, n), Pow(s, n);
    EncryptIsProduct(n, a, r);
    EncryptIsProduct(n, b, s);
    EncryptIsProduct(n, a + b, r * s);
    ModMulMod(u * x, v * y, Square(n));
    Regroup(u, x, v, y);
    OnePlusProduct(a, b, n);
    CongMul(u * v, 1 + (a + b) * n, x * y, x * y, Square(n));
    PowProduct(r, s, n);
  }

  lemma CoprimeOfProduct(k: Key, p: nat, q: nat, r: nat, s: nat)
    requires KeyFrom(k, p, q)
    ensures Coprime(r * s, k.n) <==> Coprime(r, k.n) && Coprime(s, k.n)
  {
    KeyFacts(k, p, q);
    CoprimeToProduct(p, q, r);
    CoprimeToProduct(p, q, s);
    CoprimeToProduct(p, q, r * s);
    if Divides(p, r * s) { PrimeDividesProduct(p, r, s); }
    if Divides(q, r * s) { PrimeDividesProduct(q, r, s); }
    if Divides(p, r) { DividesMul(p, r, s); }
    if Divides(q, r) { DividesMul(q, r, s); }
    if Divides(p, s) { DividesMul(p, s, r); }
    if Divides(q, s) { DividesMul(q, s, r); }
  }

  /** The homomorphism: decrypting a product gives the sum modulo n. */
  lemma DecryptAdd(k: Key, p: nat, q: nat, a: nat, b: nat, r: nat, s: nat)
    requires KeyFrom(k, p, q) && k.n > 0
    ensures Decrypt(k, Add(k.n, Encrypt(k.n, a, r), Encrypt(k.n, b, s)))
            == if Coprime(r, k.n) && Coprime(s, k.n) then Some((a + b) % k.n) else None
  {
    AddIsEncryptSum(k.n, a, b, r, s);
    DecryptEncrypt(k, p, q, a + b, r * s);
    CoprimeOfProduct(k, p, q, r, s);
  }

  /** An input on which decryption fails although encryption accepts it: the draw is a prime factor of n. */
  lemma SharedFactorFails(k: Key, p: nat, q: nat, m: nat)
    requires KeyFrom(k, p, q) && k.n > 0
    ensures 1 <= p < k.n && Decrypt(k, Encrypt(k.n, m, p)) == None
  {
    KeyFacts(k, p, q);
    DivModUnique(p, 1, 0, p);
    DecryptShared(k, p, q, p, m, p);
  }
}
