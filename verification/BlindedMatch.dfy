/** The blinded comparison: HEPS blinds a name's hash for publishers and subscribers,
    the broker multiplies the two and reads off whether the hashes are equal
    (src/broker/broker.cpp executeMatch, src/crypto/Heps.cpp). */
module BlindedMatch {
  import opened Outcomes
  import opened NumberTheory
  import opened PaillierScheme

  const HASH_RANGE: nat := 0x1_0000_0000_0000_0000

  /** A blinded value as it travels in a message; None is the empty string. */
  type Blinded = Option<nat>

  /** Division of the big integers in the source: towards zero. */
  function TruncatedDiv(a: int, b: nat): int
    requires b > 0
  {
    if a >= 0 then a / b else -((-a) / b)
  }

  /** The remainder that goes with it: of the dividend's sign. */
  function TruncatedMod(a: int, b: nat): int
    requires b > 0
  {
    if a >= 0 then a % b else -((-a) % b)
  }

  /** Quotient and remainder make up the dividend; the remainder is below the divisor in size
      and has the dividend's sign. */
  lemma TruncatedDivision(a: int, b: nat)
    requires b > 0
    ensures TruncatedDiv(a, b) * b + TruncatedMod(a, b) == a && TruncatedMod(a, b) < b && TruncatedMod(a, b) + b > 0
    ensures (a > 0 ==> TruncatedMod(a, b) >= 0) && (a < 0 ==> TruncatedMod(a, b) <= 0)
  {
    var size := if a >= 0 then a else -a;
    assert (size / b) * b + size % b == size;
    assert (-(size / b)) * b == -((size / b) * b);
  }

  /** One of the two differences executeMatch computes. */
  function Difference(n: nat, mu: nat, bvalN: nat, bvalM: nat): int
    requires n > 0
  {
    (TruncatedDiv((bvalN * bvalM) % Square(n) - 1, n) * mu) % n
  }

  function ExecuteMatch(n: nat, mu: nat, bvalN: Blinded, bvalM1: Blinded, bvalM2: Blinded): bool
    requires n > 0
  {
    if bvalN.None? || bvalM1.None? || bvalM2.None? then false
    else if Difference(n, mu, bvalN.value, bvalM1.value) >= n / 2 then false
    else if Difference(n, mu, bvalN.value, bvalM2.value) <= n / 2 then false
    else true
  }

  /** Whatever the blinded values are: the match needs all three, the first difference strictly
      below half the modulus, rounded down, and the second strictly above it. */
  lemma MatchTests(n: nat, mu: nat, bvalN: Blinded, bvalM1: Blinded, bvalM2: Blinded)
    requires n > 0
    ensures ExecuteMatch(n, mu, bvalN, bvalM1, bvalM2)
            <==> bvalN.Some? && bvalM1.Some? && bvalM2.Some?
                 && 2 * (Difference(n, mu, bvalN.value, bvalM1.value) + 1) <= n
                 && 2 * Difference(n, mu, bvalN.value, bvalM2.value) > n
  {
    hide Difference;
  }

  lemma TruncatedModCong(a: int, b: nat)
    requires b > 0
    ensures TruncatedMod(a, b) % b == a % b
  {
    if a >= 0 { ModMod(a, b); } else { CongIntro(-((-a) % b), a, (-a) / b, b); }
  }

  /** Heps::blindSubscription: encryptions of -v and of -(v + 1), each blinded. */
  function SubscriptionPair(k: Key, v: nat, r1: nat, r2: nat): (Blinded, Blinded)
    requires k.n > 0
  {
    (Some(BlindSubscription(k, Encrypt(k.n, (k.n - v) % k.n, r1))),
     Some(BlindSubscription(k, Encrypt(k.n, (k.n - (v + 1)) % k.n, r2))))
  }

  function NotificationValue(k: Key, x: nat, r: nat): Blinded
    requires k.n > 0
  {
    Some(BlindNotification(k, x, r))
  }

  /** The draw of blindNotification: below r_m, with zero replaced by one. */
  predicate NotificationDraw(rM: nat, r: nat) {
    1 <= r && (r < rM || r == 1)
  }

  // ---------- exponents of the blinded values ----------

  lemma GeneratorPower(n: nat, e: nat)
    requires n > 0
    ensures PowMod(n + 1, e, Square(n)) == (1 + e * n) % Square(n)
  {
    OnePlusPow(n, 1, e);
    assert 1 + n * 1 == n + 1 && e * 1 * n == e * n;
  }

  lemma NotificationExponent(k: Key, x: nat, r: nat)
    requires k.n > 0
    ensures BlindNotification(k, x, r) == (1 + (k.eM + (k.rM * x + r) * k.lambda) * k.n) % Square(k.n)
  {
    var e := (k.rM * x + r) * k.lambda;
    GeneratorPower(k.n, k.eM);
    GeneratorPower(k.n, e);
    ModMulMod(1 + k.eM * k.n, 1 + e * k.n, Square(k.n));
    OnePlusProduct(k.eM, e, k.n);
  }

  lemma SubscriptionExponent(k: Key, p: nat, q: nat, m: nat, r: nat)
    requires KeyFrom(k, p, q) && Coprime(r, k.n)
    ensures k.n > 0
    ensures BlindSubscription(k, Encrypt(k.n, m, r)) == (1 + (k.dM + (k.rM * k.lambda) * m) * k.n) % Square(k.n)
  {
    KeyFacts(k, p, q);
    var e := (k.rM * k.lambda) * m;
    GeneratorPower(k.n, k.dM);
    EncryptPower(k, p, q, m, r, k.rM);
    ModMulMod(1 + k.dM * k.n, 1 + e * k.n, Square(k.n));
    OnePlusProduct(k.dM, e, k.n);
  }

  lemma ExponentSum(n: int, eM: int, dM: int, rM: int, x: int, r: int, m: int, lambda: int)
    requires n > 0 && eM + dM == n
    ensures ((eM + (rM * x + r) * lambda) + (dM + (rM * lambda) * m)) % n == (lambda * (rM * (x + m) + r)) % n
  {
    var a, b := rM * x + r, rM * m;
    assert a * lambda + (rM * lambda) * m == lambda * (a + b) by {
      assert (rM * lambda) * m == lambda * b;
      Distribute(lambda, a, b);
    }
    Distribute(rM, x, m);
    CongIntro((eM + a * lambda) + (dM + (rM * lambda) * m), lambda * (rM * (x + m) + r), 1, n);
  }

  lemma BlindedProduct(k: Key, p: nat, q: nat, x: nat, r: nat, m: nat, s: nat)
    requires KeyFrom(k, p, q) && Coprime(s, k.n)
    ensures k.n > 1
    ensures var y := (BlindNotification(k, x, r) * BlindSubscription(k, Encrypt(k.n, m, s))) % Square(k.n);
            exists t: int :: y % Square(k.n) == (1 + t * k.n) % Square(k.n)
                             && t % k.n == (k.lambda * (k.rM * (x + m) + r)) % k.n
  {
    KeyFacts(k, p, q);
    var a, b := k.eM + (k.rM * x + r) * k.lambda, k.dM + (k.rM * k.lambda) * m;
    NotificationExponent(k, x, r);
    SubscriptionExponent(k, p, q, m, s);
    ModMulMod(1 + a * k.n, 1 + b * k.n, Square(k.n));
    OnePlusProduct(a, b, k.n);
    var t := a + b;
    ExponentSum(k.n, k.eM, k.dM, k.rM, x, r, m, k.lambda);
    var y := (BlindNotification(k, x, r) * BlindSubscription(k, Encrypt(k.n, m, s))) % Square(k.n);
    ModMod(BlindNotification(k, x, r) * BlindSubscription(k, Encrypt(k.n, m, s)), Square(k.n));
    assert y % Square(k.n) == (1 + t * k.n) % Square(k.n);
  }

  /** The comparison decodes r_m * (x + m) + r, whatever the encryption's randomness. */
  lemma MatchDecodes(k: Key, p: nat, q: nat, x: nat, r: nat, m: nat, s: nat)
    requires KeyFrom(k, p, q) && Coprime(s, k.n)
    ensures k.n > 1
    ensures Match(k.n, k.mu, BlindNotification(k, x, r), BlindSubscription(k, Encrypt(k.n, m, s)))
            == Some((k.rM * (x + m) + r) % k.n)
    ensures Difference(k.n, k.mu, BlindNotification(k, x, r), BlindSubscription(k, Encrypt(k.n, m, s)))
            == (k.rM * (x + m) + r) % k.n
  {
    BlindedProduct(k, p, q, x, r, m, s);
    var y := (BlindNotification(k, x, r) * BlindSubscription(k, Encrypt(k.n, m, s))) % Square(k.n);
    var t: int :| y % Square(k.n) == (1 + t * k.n) % Square(k.n) && t % k.n == (k.lambda * (k.rM * (x + m) + r)) % k.n;
    Decode(k.n, y, t);
    DivModUnique(1, 0, 1, k.n);
    InverseStrips(k.n, k.lambda, k.mu, t, k.rM * (x + m) + r);
    if y == 0 { DivModUnique(0, 0, 0, k.n); }
  }

  // ---------- the threshold ----------

  /** The decoded difference for a subscription to v, with x - v = d, as a residue around zero. */
  lemma ResidueOfDifference(n: nat, rM: nat, x: nat, v: nat, r: nat)
    requires v <= n && n > 1
    ensures (rM * (x + (n - v) % n) + r) % n == (rM * (x - v) + r) % n
  {
    ModMod(n - v, n);
    CongAdd(x, x, (n - v) % n, n - v, n);
    CongMul(rM, rM, x + (n - v) % n, x + (n - v), n);
    CongAdd(rM * (x + (n - v) % n), rM * (x + (n - v)), r, r, n);
    assert rM * (x + (n - v)) + r == rM * (x - v) + r + rM * n by {
      Distribute(rM, x - v, n);
    }
    CongIntro(rM * (x + (n - v)) + r, rM * (x - v) + r, rM, n);
  }

  /** Below the bound a residue tells its sign. */
  lemma SignOfResidue(n: int, t: int)
    requires n > 1 && -n < t < n
    ensures t >= 0 ==> t % n == t
    ensures t < 0 ==> t % n == t + n
  {
    if t >= 0 { DivModUnique(t, 0, t, n); } else { DivModUnique(t, -1, t + n, n); }
  }

  /** The product of a positive factor is pinned between consecutive multiples. */
  lemma Monotone(a: int, b: int, c: int)
    requires a >= 0 && b <= c
    ensures a * b <= a * c
  {
    assert a * (c - b) >= 0;
    Distribute(a, c - b, b);
  }

  lemma DifferenceBound(rM: int, d: int, r: nat, range: int)
    requires rM >= 1 && NotificationDraw(rM, r) && -range <= d < range
    ensures d >= 0 ==> 1 <= rM * d + r <= rM * range
    ensures d < 0 ==> -(rM * range) < rM * d + r <= 0
    ensures d < 0 ==> (rM * d + r == 0 <==> rM == 1 && d == -1)
  {
    if d >= 0 {
      Monotone(rM, 0, d);
      Monotone(rM, d + 1, range);
      Distribute(rM, d, 1);
    } else {
      Monotone(rM, -range, d);
      assert rM * (-range) == -(rM * range);
      if d < -1 { Monotone(rM, d, -2); } else { assert rM * d == -rM; }
    }
  }

  lemma DifferenceOf(k: Key, p: nat, q: nat, x: nat, v: nat, r: nat, s: nat)
    requires KeyFrom(k, p, q) && 2 * (k.rM * HASH_RANGE) < k.n
    requires x < HASH_RANGE && v <= HASH_RANGE
    requires NotificationDraw(k.rM, r) && Coprime(s, k.n)
    ensures v < k.n
    ensures var t: int := k.rM * (x - v) + r;
            Difference(k.n, k.mu, BlindNotification(k, x, r), BlindSubscription(k, Encrypt(k.n, (k.n - v) % k.n, s)))
            == t + (if t >= 0 then 0 else k.n)
  {
    RangeBelowModulus(k.n, k.rM);
    MatchDecodes(k, p, q, x, r, (k.n - v) % k.n, s);
    ResidueOfDifference(k.n, k.rM, x, v, r);
    DifferenceBound(k.rM, x - v, r, HASH_RANGE);
    SignOfResidue(k.n, k.rM * (x - v) + r);
  }

  lemma RangeBelowModulus(n: nat, rM: nat)
    requires rM >= 1 && 2 * (rM * HASH_RANGE) < n
    ensures 2 * HASH_RANGE < n
  {
    assert (rM - 1) * HASH_RANGE >= 0;
  }

  /** The two thresholds of executeMatch on the two signed differences. */
  lemma Thresholds(n: int, rM: int, d: int, r: nat, range: int)
    requires rM >= 1 && NotificationDraw(rM, r) && 2 * (rM * range) < n && -range < d < range
    ensures var t1: int, t2: int := rM * d + r, rM * (d - 1) + r;
            (t1 + (if t1 >= 0 then 0 else n) < n / 2 && t2 + (if t2 >= 0 then 0 else n) > n / 2)
            <==> (if rM == 1 then d == -1 else d == 0)
  {
    DifferenceBound(rM, d, r, range);
    DifferenceBound(rM, d - 1, r, range);
    Distribute(rM, d - 1, 1);
    if d == 0 {
      assert rM * d == 0;
      Monotone(rM, 1, range);
    }
  }

  /** The broker's match is equality of the hashes. With r_m = 1 the two thresholds
      degenerate and it holds one place off. */
  lemma MatchIsEquality(k: Key, p: nat, q: nat, x: nat, v: nat, r: nat, s1: nat, s2: nat)
    requires KeyFrom(k, p, q) && 2 * (k.rM * HASH_RANGE) < k.n
    requires x < HASH_RANGE && v < HASH_RANGE
    requires NotificationDraw(k.rM, r) && Coprime(s1, k.n) && Coprime(s2, k.n)
    ensures k.n > HASH_RANGE
    ensures var (m1, m2) := SubscriptionPair(k, v, s1, s2);
            ExecuteMatch(k.n, k.mu, NotificationValue(k, x, r), m1, m2) <==> x + (if k.rM == 1 then 1 else 0) == v
  {
    RangeBelowModulus(k.n, k.rM);
    DifferenceOf(k, p, q, x, v, r, s1);
    DifferenceOf(k, p, q, x, v + 1, r, s2);
    Thresholds(k.n, k.rM, x - v, r, HASH_RANGE);
    assert x - (v + 1) == x - v - 1;
  }
}
