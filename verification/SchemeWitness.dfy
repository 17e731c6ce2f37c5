/** The assumptions of the encryption theorems can be met: there are keys with room for
    every difference of hashes, and a scheme around them. */
module SchemeWitness {
  import opened NumberTheory
  import opened PaillierScheme
  import opened BlindedMatch
  import opened PaillierKeys
  import opened BrokerModel
  import opened Encryption

  lemma TimesOneModThree(a: nat, j: int)
    ensures ((3 * a + 1) * j) % 3 == j % 3
  {
    assert (3 * a + 1) * j == j + (a * j) * 3 by { Distribute(j, 3 * a, 1); }
    CongIntro((3 * a + 1) * j, j, a * j, 3);
  }

  lemma CofactorBelow(m: nat, p: nat, j: int)
    requires p >= 2 && m > 0 && m == j * p
    ensures 0 < j < m
  {
    if j <= 0 { Monotone(p, j, 0); } else { Monotone(j, 2, p); }
  }

  /** A number that is 2 modulo 3 has a prime factor that is. */
  lemma {:induction false} PrimeTwoModThree(m: nat) returns (p: nat)
    requires m % 3 == 2
    ensures Prime(p) && Divides(p, m) && p % 3 == 2
    decreases m
  {
    var d := PrimeFactor(m, 2);
    var j := Quotient(d, m);
    CofactorBelow(m, d, j);
    if d % 3 == 0 { DividesTrans(3, d, m); }
    if d % 3 == 2 {
      p := d;
    } else {
      TimesOneModThree(d / 3, j);
      assert d * j == j * d;
      p := PrimeTwoModThree(j);
      DividesMul(p, j, d);
    }
  }

  /** There are primes that are 2 modulo 3 above every bound. */
  lemma BigPrime(bound: nat) returns (q: nat)
    requires bound >= 3
    ensures Prime(q) && q > bound && q % 3 == 2
  {
    var f := Factorial(bound);
    FactorialDivides(bound, 3);
    q := PrimeTwoModThree(3 * f - 1);
    if q <= bound {
      FactorialDivides(bound, q);
      DividesLinear(q, f, 3 * f - 1, 3, -1);
      DividesAtMost(q, 1);
    }
  }

  lemma TwiceBelowPrime(q: nat)
    requires Prime(q) && q > 3 && q % 3 == 2
    ensures !Divides(q, 2 * (q - 1)) && !Divides(3, 2 * (q - 1))
  {
    if Divides(q, 2 * (q - 1)) {
      PrimeDividesProduct(q, 2, q - 1);
      if Divides(q, 2) { DividesAtMost(q, 2); } else { DividesAtMost(q, q - 1); }
    }
  }

  /** Three and such a prime make a key with any blinding factor. */
  lemma KeyExists(q: nat, rM: nat) returns (k: Key)
    requires Prime(q) && q > 3 && q % 3 == 2 && rM >= 1
    ensures KeyFrom(k, 3, q) && k.n == 3 * q && k.rM == rM
  {
    var n, lambda := 3 * q, Lcm(2, q - 1);
    assert Prime(3);
    LcmGcd(2, q - 1);
    TwiceBelowPrime(q);
    if Divides(3, lambda) { DividesTrans(3, lambda, 2 * (q - 1)); }
    if Divides(q, lambda) { DividesTrans(q, lambda, 2 * (q - 1)); }
    CoprimeToProduct(3, q, lambda);
    var mu := InverseExists(lambda, n);
    k := Key(n, lambda, mu, 0, n, rM);
  }

  /** There is a key whose blinding leaves room for every difference of two hashes. */
  lemma RoomyKeyExists() returns (k: Key, q: nat)
    ensures RoomyKey(k, 3, q) && k.n > 0
  {
    q := BigPrime(4 * HASH_RANGE);
    k := KeyExists(q, 2);
  }

  function Tally(n: nat): string {
    seq(n, _ => '1')
  }

  /** The theorems about honest encrypted runs are about something: a scheme exists, and a
      broker configured with it. */
  lemma SchemeExists(c: Config) returns (sc: Scheme, keyed: Config)
    ensures sc.Valid() && Keyed(keyed, sc) && keyed.id == c.id
  {
    var k, q := RoomyKeyExists();
    sc := Scheme(k, 3, q, s => |s| % HASH_RANGE, Tally);
    forall a, b | sc.decimal(a) == sc.decimal(b) ensures a == b {
      assert |Tally(a)| == a && |Tally(b)| == b;
    }
    keyed := c.(heEnabled := true, heN := k.n, heMu := k.mu, hash := sc.hash, decimal := sc.decimal);
  }
}
