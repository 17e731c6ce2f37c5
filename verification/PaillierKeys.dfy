/** Key generation and the key-holding objects of src/crypto/Paillier.cpp and
    src/crypto/Heps.cpp. Random draws are arbitrary values of their range. */
module PaillierKeys {
  import opened Outcomes
  import opened NumberTheory
  import opened PaillierScheme
  import opened BlindedMatch

  // ---------- sizes in bits ----------

  /** mpz_sizeinbase(x, 2). */
  function BitLength(x: nat): (b: nat)
    ensures b >= 1
  {
    if x < 2 then 1 else 1 + BitLength(x / 2)
  }

  lemma {:induction false} BitLengthRange(x: nat, b: nat)
    requires b >= 2
    ensures BitLength(x) == b <==> Pow(2, b - 1) <= x < Pow(2, b)
  {
    PowPositive(2, b - 2);
    assert Pow(2, b - 1) == 2 * Pow(2, b - 2) && Pow(2, b) == 2 * Pow(2, b - 1);
    if x < 2 {
    } else if b == 2 {
      assert Pow(2, 0) == 1;
      assert BitLength(x / 2) == 1 <==> x / 2 < 2;
    } else {
      BitLengthRange(x / 2, b - 1);
    }
  }

  // ---------- the next prime ----------

  function Factorial(n: nat): (f: nat)
    ensures f >= 1
  {
    if n == 0 then 1 else MulPositive(n, Factorial(n - 1)); n * Factorial(n - 1)
  }

  lemma {:induction false} FactorialDivides(n: nat, d: nat)
    requires 1 <= d <= n
    ensures Divides(d, Factorial(n))
  {
    if d == n {
      DividesIntro(n, Factorial(n - 1));
      assert n * Factorial(n - 1) == Factorial(n - 1) * n;
    } else {
      FactorialDivides(n - 1, d);
      DividesMul(d, Factorial(n - 1), n);
    }
  }

  lemma {:induction false} PrimeFactor(m: nat, from: nat) returns (p: nat)
    requires 2 <= from <= m && forall d :: 2 <= d < from ==> !Divides(d, m)
    ensures Prime(p) && Divides(p, m)
    decreases m - from
  {
    if Divides(from, m) {
      p := from;
      forall d | 2 <= d < p ensures !Divides(d, p) {
        if Divides(d, p) { DividesTrans(d, p, m); }
      }
    } else {
      assert from != m by { DividesIntro(m, 1); }
      p := PrimeFactor(m, from + 1);
    }
  }

  /** There is a prime above every number. */
  lemma PrimeAbove(x: nat) returns (p: nat)
    ensures Prime(p) && p > x
  {
    p := PrimeFactor(Factorial(x) + 1, 2);
    if p <= x {
      FactorialDivides(x, p);
      DividesLinear(p, Factorial(x) + 1, Factorial(x), 1, -1);
      DividesAtMost(p, 1);
    }
  }

  /** mpz_nextprime: the least prime above x. */
  method NextPrime(x: nat) returns (p: nat)
    ensures Prime(p) && p > x
    ensures forall c :: x < c < p ==> !Prime(c)
  {
    ghost var bound := PrimeAbove(x);
    p := x + 1;
    while !Prime(p)
      invariant x < p <= bound
      invariant forall c :: x < c < p ==> !Prime(c)
      decreases bound - p
    {
      p := p + 1;
    }
  }

  // ---------- what the two forced top bits give ----------

  /** The range gen_prime draws from: exactly `bits` bits, the two highest set. */
  ghost predicate TopHeavy(p: nat, bits: nat)
    requires bits >= 2
  {
    3 * Pow(2, bits - 2) < p < Pow(2, bits)
  }

  lemma ProductSize(p: nat, q: nat, half: nat)
    requires half >= 2 && TopHeavy(p, half) && TopHeavy(q, half)
    ensures BitLength(p * q) == 2 * half
  {
    var t := Pow(2, half - 2);
    PowPositive(2, half - 2);
    QuarterPower(half);
    SquareBounds(p, q, t);
    SquarePower(half);
    BitLengthRange(p * q, 2 * half);
  }

  lemma QuarterPower(half: nat)
    requires half >= 2
    ensures Pow(2, half) == 4 * Pow(2, half - 2)
  {
    assert Pow(2, half - 1) == 2 * Pow(2, half - 2);
  }

  lemma SquarePower(half: nat)
    requires half >= 2
    ensures Pow(2, 2 * half - 1) == 8 * (Pow(2, half - 2) * Pow(2, half - 2))
    ensures Pow(2, 2 * half) == 16 * (Pow(2, half - 2) * Pow(2, half - 2))
  {
    PowAdd(2, half - 2, half - 2);
    var e := 2 * half - 4;
    QuarterPower(e + 2);
    QuarterPower(e + 4);
    assert Pow(2, e + 3) == 2 * Pow(2, e + 2);
  }

  lemma SquareBounds(p: nat, q: nat, t: nat)
    requires 3 * t < p < 4 * t && 3 * t < q < 4 * t
    ensures 8 * (t * t) <= p * q < 16 * (t * t)
  {
    BoundProduct(3 * t, 3 * t, p, q);
    BoundProduct(p, q + 1, 4 * t, 4 * t);
    Distribute(p, q, 1);
    TimesSquare(3, t);
    TimesSquare(4, t);
  }

  lemma BoundProduct(a: nat, b: nat, c: nat, d: nat)
    requires a <= c && b <= d
    ensures a * b <= c * d
  {
    Monotone(a, b, d);
    Monotone(d, a, c);
  }

  lemma TimesSquare(k: int, t: int)
    ensures (k * t) * (k * t) == (k * k) * (t * t)
  {
    Regroup(k, t, k, t);
  }

  lemma NotSuccessor(p: nat, q: nat)
    requires Prime(p) && Prime(q) && p > 2
    ensures q != p + 1
  {
    assert !Divides(2, p);
    assert Divides(2, p + 1);
  }

  lemma FactorNotInLambda(p: nat, q: nat, half: nat)
    requires half >= 2 && Prime(p) && Prime(q) && TopHeavy(p, half) && TopHeavy(q, half)
    ensures !Divides(p, Lcm(p - 1, q - 1))
  {
    PowPositive(2, half - 2);
    QuarterPower(half);
    LcmGcd(p - 1, q - 1);
    if Divides(p, Lcm(p - 1, q - 1)) {
      DividesTrans(p, Lcm(p - 1, q - 1), (p - 1) * (q - 1));
      PrimeDividesProduct(p, p - 1, q - 1);
      if Divides(p, p - 1) { DividesAtMost(p, p - 1); }
      var j := Quotient(p, q - 1);
      assert j == 1 by {
        if j >= 2 { Monotone(p, 2, j); } else if j <= 0 { Monotone(p, j, 0); }
      }
      NotSuccessor(p, q);
    }
  }

  /** The inversion of lambda in keyGen cannot fail. */
  lemma LambdaInvertible(p: nat, q: nat, half: nat)
    requires half >= 2 && Prime(p) && Prime(q) && TopHeavy(p, half) && TopHeavy(q, half)
    ensures Coprime(Lcm(p - 1, q - 1), p * q)
  {
    FactorNotInLambda(p, q, half);
    FactorNotInLambda(q, p, half);
    LcmSym(p - 1, q - 1);
    CoprimeToProduct(p, q, Lcm(p - 1, q - 1));
  }

  /** L of g^lambda is lambda modulo n, and it has an inverse. */
  lemma LambdaDecodes(p: nat, q: nat, half: nat)
    requires half >= 2 && Prime(p) && Prime(q) && TopHeavy(p, half) && TopHeavy(q, half)
    ensures p * q > 1
    ensures var n, lambda := p * q, Lcm(p - 1, q - 1);
            L(PowMod(n + 1, lambda, Square(n)), n) == Some(lambda % n) && Coprime(lambda, n) && Coprime(lambda % n, n)
  {
    var n, lambda := p * q, Lcm(p - 1, q - 1);
    ProductOfFactors(p, q);
    GeneratorPower(n, lambda);
    ModMod(1 + lambda * n, Square(n));
    Decode(n, PowMod(n + 1, lambda, Square(n)), lambda);
    DivModUnique(1, 0, 1, n);
    LambdaInvertible(p, q, half);
    CoprimeResidue(lambda, n);
  }

  lemma InverseOfResidue(lambda: nat, mu: nat, n: nat)
    requires n > 1 && ((lambda % n) * mu) % n == 1
    ensures (lambda * mu) % n == 1
  {
    ModMod(lambda, n);
    CongMul(lambda % n, lambda, mu, mu, n);
  }

  lemma LcmSym(a: nat, b: nat)
    requires a > 0 && b > 0
    ensures Lcm(a, b) == Lcm(b, a)
  {
    LcmIsLeast(a, b, Lcm(b, a));
    LcmIsLeast(b, a, Lcm(a, b));
    LcmGcd(a, b);
    LcmGcd(b, a);
    DividesAtMost(Lcm(a, b), Lcm(b, a));
    DividesAtMost(Lcm(b, a), Lcm(a, b));
  }

  lemma CoprimeResidue(a: nat, n: nat)
    requires n > 0 && Coprime(a, n)
    ensures Coprime(a % n, n)
  {
    var x, y := Bezout(a, n);
    ResiduePart(a, n, x);
    Distribute(n, y, (a / n) * x);
    hide Coprime, Gcd;
    CoprimeIntro(a % n, n, x, y + (a / n) * x);
  }

  lemma HashRangeIsPower()
    ensures Pow(2, 64) == HASH_RANGE
  {
    assert Pow(2, 4) == 16;
    PowAdd(2, 4, 4);
    PowAdd(2, 8, 8);
    PowAdd(2, 16, 16);
    PowAdd(2, 32, 32);
  }

  /** 2^1057, as the factors it is compared with. */
  lemma RoomSplit()
    ensures Pow(2, 1057) == 2 * (HASH_RANGE * Pow(2, 992))
  {
    HashRangeIsPower();
    PowAdd(2, 992, 64);
    assert Pow(2, 1057) == 2 * Pow(2, 1056);
  }

  lemma PowMonotone(e: nat, f: nat)
    requires e <= f
    ensures 1 <= Pow(2, e) <= Pow(2, f)
  {
    PowAdd(2, e, f - e);
    PowPositive(2, e);
    PowPositive(2, f - e);
    Monotone(Pow(2, e), 1, Pow(2, f - e));
  }

  /** A generated modulus of at least 1058 bits leaves room for the blinded difference. */
  lemma GeneratedKeyHasRoom(n: nat, rM: nat, bits: nat)
    requires bits >= 1058 && BitLength(n) == bits && rM < BlindRange()
    ensures 2 * (rM * HASH_RANGE) < n
  {
    BitLengthRange(n, bits);
    PowMonotone(1057, bits - 1);
    RoomSplit();
    BlindRangeIsPower();
    Monotone(HASH_RANGE, rM + 1, BlindRange());
    Distribute(HASH_RANGE, rM, 1);
  }

  // ---------- the objects ----------

  /** r_m is drawn with 992 bits: 31 words of 32. */
  function BlindRange(): (b: nat)
    ensures b >= 2
  {
    PowPositive(0x1_0000_0000, 30);
    Pow(0x1_0000_0000, 31)
  }

  lemma BlindRangeIsPower()
    ensures BlindRange() == Pow(2, 992)
  {
    assert Pow(2, 4) == 16;
    PowAdd(2, 4, 4);
    PowAdd(2, 8, 8);
    PowAdd(2, 16, 16);
    PowMul(2, 32, 31);
  }

  lemma ProductNonNegative(a: int, b: int)
    requires a >= 0 && b >= 0
    ensures a * b >= 0
  {
  }

  /** Encrypting with signed remainders, modulo n^2. */
  lemma EncryptResidue(n: nat, m: int, term2: nat)
    requires n > 1 && Square(n) > 0
    ensures TruncatedMod(TruncatedMod(1 + m * n, Square(n)) * term2, Square(n)) % Square(n)
            == ((1 + (m % n) * n) % Square(n) * term2) % Square(n)
  {
    var nSq := Square(n);
    var term1 := TruncatedMod(1 + m * n, nSq);
    TruncatedModCong(1 + m * n, nSq);
    TruncatedModCong(term1 * term2, nSq);
    ReduceExponent(n, m);
    ModMod(1 + m * n, nSq);
    CongMul(term1, (1 + (m % n) * n) % nSq, term2, term2, nSq);
  }

  const PRIME_ATTEMPTS: nat := 32
  const KEY_ATTEMPTS: nat := 8

  /** Some number gen_prime can draw has no prime between itself and 2^bits. */
  ghost predicate CanOverflow(bits: nat)
    requires bits >= 2
  {
    exists low: nat :: 3 * Pow(2, bits - 2) <= low < Pow(2, bits) && NoPrimeBetween(low, Pow(2, bits))
  }

  ghost predicate NoPrimeBetween(low: nat, high: nat) {
    forall c :: low < c < high ==> !Prime(c)
  }

  /** It fails only if some draw can overflow. */
  method GenPrime(bits: nat) returns (ok: bool, p: nat)
    requires bits >= 2
    ensures ok ==> Prime(p) && TopHeavy(p, bits)
    ensures !ok ==> CanOverflow(bits)
  {
    var attempt := 0;
    p := 0;
    PowPositive(2, bits - 2);
    QuarterPower(bits);
    while attempt < PRIME_ATTEMPTS
      invariant attempt > 0 ==> CanOverflow(bits)
    {
      var free: nat :| free < Pow(2, bits - 2);   // the bits below the two forced ones
      p := NextPrime(3 * Pow(2, bits - 2) + free);
      BitLengthRange(p, bits);
      if BitLength(p) == bits {
        return true, p;
      }
      assert NoPrimeBetween(3 * Pow(2, bits - 2) + free, Pow(2, bits));
      attempt := attempt + 1;
    }
    return false, p;
  }

  /** mpz_invert. */
  method Invert(a: nat, n: nat) returns (ok: bool, inverse: nat)
    requires n > 1
    ensures ok <==> Coprime(a, n)
    ensures ok ==> inverse < n && (a * inverse) % n == 1
  {
    ok, inverse := Coprime(a, n), 0;
    if ok {
      ghost var known := InverseExists(a, n);
      inverse :| inverse < n && (a * inverse) % n == 1;
    }
  }

  class Paillier {
    var p: nat
    var q: nat
    var n: nat
    var nSq: nat
    var lambda: nat
    var g: nat
    var mu: nat
    var eM: nat
    var dM: nat
    var rM: nat

    constructor ()
      ensures n == 0
    {
      p, q, n, nSq, lambda, g, mu, eM, dM, rM := 0, 0, 0, 0, 0, 0, 0, 0, 0, 0;
    }

    function AsKey(): Key
      reads this
    {
      Key(n, lambda, mu, eM, dM, rM)
    }

    ghost predicate Ready()
      reads this
    {
      n > 1 && nSq == Square(n) && g == n + 1
    }

    /** For an even size one attempt always suffices and mu inverts lambda; for an odd
        size every attempt falls one bit short and generation always gives up. */
    method KeyGen(bits: nat) returns (ok: bool, attempts: nat)
      requires bits >= 4
      modifies this
      ensures bits % 2 == 0 ==> attempts == 1
      ensures bits % 2 == 1 ==> !ok
      ensures bits % 2 == 0 && !ok ==> CanOverflow(bits / 2)
      ensures ok ==> Ready() && BitLength(n) == bits && rM < BlindRange()
      ensures ok ==> Prime(p) && Prime(q) && TopHeavy(p, bits / 2) && TopHeavy(q, bits / 2)
      ensures ok ==> mu < n && Coprime(lambda, n) && (lambda * mu) % n == 1 && eM + dM == n
      ensures ok && p != q ==> KeyFrom(AsKey(), p, q)
    {
      var half := bits / 2;
      attempts := 0;
      while true
        invariant attempts < KEY_ATTEMPTS
        invariant bits % 2 == 0 ==> attempts == 0
        decreases KEY_ATTEMPTS - attempts
      {
        attempts := attempts + 1;
        ok, p := GenPrime(half);
        if !ok { return; }
        ok, q := GenPrime(half);
        if !ok { return; }
        n := p * q;
        ProductSize(p, q, half);
        if BitLength(n) == bits { break; }
        if attempts == KEY_ATTEMPTS { return false, attempts; }
      }
      Derive(half);
      ok := true;
    }

    /** The second half of keyGen: everything that follows from p, q and n. */
    method Derive(half: nat)
      requires half >= 2 && Prime(p) && Prime(q) && TopHeavy(p, half) && TopHeavy(q, half) && n == p * q
      modifies this
      ensures p == old(p) && q == old(q) && n == old(n)
      ensures Ready() && mu < n && Coprime(lambda, n) && rM < BlindRange()
      ensures (lambda * mu) % n == 1 && eM + dM == n
      ensures p != q ==> KeyFrom(AsKey(), p, q)
    {
      LambdaDecodes(p, q, half);
      nSq := Square(n);
      lambda := Lcm(p - 1, q - 1);
      g := n + 1;
      var gLambda := PowMod(g, lambda, nSq);
      var l := L(gLambda, n).value;
      var ok, inverse := Invert(l, n);
      if ok { mu := inverse; }
      InverseOfResidue(lambda, mu, n);
      var e: nat :| e < n;
      eM := e;
      dM := n - eM;
      var r: nat :| r < BlindRange();
      rM := if r == 0 then 1 else r;
    }

    method SetParams(nIn: nat, gIn: nat, muIn: nat, lambdaIn: nat, eIn: nat, dIn: nat, rIn: nat)
      modifies this
      ensures AsKey() == Key(nIn, lambdaIn, muIn, eIn, dIn, rIn) && nSq == Square(nIn) && g == gIn
      ensures p == old(p) && q == old(q)
    {
      n, g, mu, lambda, nSq, eM, dM, rM := nIn, gIn, muIn, lambdaIn, Square(nIn), eIn, dIn, rIn;
    }

    /** The remainders take the sign of the message; modulo n^2 the result is the encryption
        of the message's residue. */
    method Encrypt(m: int) returns (c: int, ghost r: nat)
      requires Ready()
      ensures 1 <= r < n && c % nSq == PaillierScheme.Encrypt(n, m % n, r)
      ensures m >= 0 ==> c == PaillierScheme.Encrypt(n, m, r)
    {
      var draw: nat :| 1 <= draw < n;
      r := draw;
      var term1 := TruncatedMod(1 + m * n, nSq);
      var term2 := PowMod(draw, n, nSq);
      c := TruncatedMod(term1 * term2, nSq);
      EncryptResidue(n, m, term2);
      if m >= 0 { ProductNonNegative(m, n); ProductNonNegative(term1, term2); }
    }

    method Decrypt(c: nat) returns (m: Option<int>)
      requires Ready()
      ensures m == PaillierScheme.Decrypt(AsKey(), c)
    {
      var cLambda := PowMod(c, lambda, nSq);
      var l := L(cLambda, n);
      m := if l.Some? then Some((l.value * mu) % n) else None;
    }

    method Add(c1: nat, c2: nat) returns (c: nat)
      requires Ready()
      ensures c == PaillierScheme.Add(n, c1, c2)
    {
      c := (c1 * c2) % nSq;
    }

    method BlindNotification(x: nat) returns (c: nat, ghost r: nat)
      requires Ready() && rM >= 1
      ensures NotificationDraw(rM, r) && c == PaillierScheme.BlindNotification(AsKey(), x, r)
    {
      var draw: nat :| draw < rM;
      if draw == 0 { draw := 1; }
      r := draw;
      var exp := (rM * x + draw) * lambda;
      var term1 := PowMod(g, eM, nSq);
      var term2 := PowMod(g, exp, nSq);
      c := (term1 * term2) % nSq;
    }

    /** The modular power of a negative base is that of its residue. */
    method BlindSubscription(eNegV: int) returns (c: nat)
      requires Ready()
      ensures c == PaillierScheme.BlindSubscription(AsKey(), eNegV % nSq)
    {
      var exp := rM * lambda;
      var term1 := PowMod(g, dM, nSq);
      var term2 := Pow(eNegV, exp) % nSq;
      ModMod(eNegV, nSq);
      CongPow(eNegV % nSq, eNegV, exp, nSq);
      c := (term1 * term2) % nSq;
    }

    method Match(bvalN: nat, bvalM: nat) returns (d: Option<int>)
      requires Ready()
      ensures d == PaillierScheme.Match(n, mu, bvalN, bvalM)
    {
      var y := (bvalN * bvalM) % nSq;
      var l := L(y, n);
      d := if l.Some? then Some((l.value * mu) % n) else None;
    }
  }

  /** A name hash: any function into 64 bits. */
  ghost predicate IsHash(h: string -> nat) {
    forall s :: h(s) < HASH_RANGE
  }

  class Heps {
    var paillier: Paillier
    const hash: string -> nat

    constructor (hash: string -> nat, paillier: Paillier)
      ensures this.hash == hash && this.paillier == paillier
    {
      this.hash := hash;
      this.paillier := paillier;
    }

    method BlindNotification(name: string) returns (b: Blinded, ghost r: nat)
      requires paillier.Ready() && paillier.rM >= 1
      ensures NotificationDraw(paillier.rM, r)
      ensures b == NotificationValue(paillier.AsKey(), hash(name), r)
    {
      var x := hash(name);
      var c;
      c, r := paillier.BlindNotification(x);
      b := Some(c);
    }

    method BlindSubscription(name: string) returns (m1: Blinded, m2: Blinded, ghost r1: nat, ghost r2: nat)
      requires paillier.Ready()
      ensures 1 <= r1 < paillier.n && 1 <= r2 < paillier.n
      ensures (m1, m2) == SubscriptionPair(paillier.AsKey(), hash(name), r1, r2)
    {
      var v: int, n: int := hash(name), paillier.n;
      var e1, e2, b1, b2;
      TruncatedModCong(n - v, n);
      TruncatedModCong(n - (v + 1), n);
      e1, r1 := paillier.Encrypt(TruncatedMod(n - v, n));
      b1 := paillier.BlindSubscription(e1);
      e2, r2 := paillier.Encrypt(TruncatedMod(n - (v + 1), n));
      b2 := paillier.BlindSubscription(e2);
      m1, m2 := Some(b1), Some(b2);
    }
  }

  /** End to end: with a generated key of at least 1058 bits the broker accepts a
      publication for a subscription exactly when the hashes of the names agree. */
  lemma NamesMatchByHash(k: Key, p: nat, q: nat, bits: nat, h: string -> nat,
                         published: string, subscribed: string, r: nat, s1: nat, s2: nat)
    requires KeyFrom(k, p, q) && bits >= 1058 && BitLength(k.n) == bits && 2 <= k.rM < BlindRange()
    requires IsHash(h) && NotificationDraw(k.rM, r) && Coprime(s1, k.n) && Coprime(s2, k.n)
    ensures k.n > HASH_RANGE
    ensures var (m1, m2) := SubscriptionPair(k, h(subscribed), s1, s2);
            ExecuteMatch(k.n, k.mu, NotificationValue(k, h(published), r), m1, m2) <==> h(published) == h(subscribed)
  {
    GeneratedKeyHasRoom(k.n, k.rM, bits);
    MatchIsEquality(k, p, q, h(published), h(subscribed), r, s1, s2);
  }
}
