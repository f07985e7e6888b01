/** Key agreement between the two ends of a connection: modular exponentiation by repeated
    squaring, and why both ends derive the same key from it. */
module KeyExchange {
  import opened Wrappers

  function Pow(b: int, e: nat): int {
    if e == 0 then 1 else b * Pow(b, e - 1)
  }

  // ---- arithmetic modulo p -------------------------------------------------------------------

  predicate Congruent(a: int, b: int, p: int)
    requires p > 0
  {
    a % p == b % p
  }

  lemma ModPlus(r: int, k: int, p: int)
    requires p > 0
    ensures (r + k * p) % p == r % p
  {
    var q := r / p;
    assert r == q * p + r % p;
    assert r + k * p == (q + k) * p + r % p;
    QuotientIsUnique(r + k * p, q + k, r % p, p);
  }

  lemma MultipleIsFar(d: int, p: int)
    requires p > 0
    ensures d >= 1 ==> d * p >= p
    ensures d <= -1 ==> d * p <= -p
  {
  }

  lemma QuotientIsUnique(n: int, q: int, r: int, p: int)
    requires p > 0 && n == q * p + r && 0 <= r < p
    ensures n % p == r
  {
    var d := n / p - q;
    assert n == (n / p) * p + n % p;
    assert d * p == r - n % p by {
      assert (n / p) * p - q * p == d * p;
    }
    MultipleIsFar(d, p);
  }

  /** Factors may be reduced. */
  lemma ModTimes(a: int, b: int, p: int)
    requires p > 0
    ensures Congruent((a % p) * b, a * b, p)
  {
    var q := a / p;
    assert a == a % p + q * p;
    assert a * b == (a % p) * b + (q * b) * p by {
      assert (q * p) * b == (q * b) * p;
    }
    ModPlus((a % p) * b, q * b, p);
  }

  lemma TimesCongruent(a: int, b: int, c: int, p: int)
    requires p > 0 && Congruent(a, b, p)
    ensures Congruent(a * c, b * c, p)
  {
    ModTimes(a, c, p);
    ModTimes(b, c, p);
  }

  lemma {:induction false} PowAdd(b: int, m: nat, n: nat)
    ensures Pow(b, m + n) == Pow(b, m) * Pow(b, n)
  {
    if m > 0 {
      PowAdd(b, m - 1, n);
      assert b * (Pow(b, m - 1) * Pow(b, n)) == Pow(b, m) * Pow(b, n);
    }
  }

  lemma {:induction false} PowTimes(b: int, m: nat, n: nat)
    ensures Pow(Pow(b, m), n) == Pow(b, m * n)
  {
    if n > 0 {
      PowTimes(b, m, n - 1);
      PowAdd(b, m, m * (n - 1));
      assert m + m * (n - 1) == m * n;
    } else {
      assert m * n == 0;
    }
  }

  lemma {:induction false} PowCongruent(a: int, b: int, n: nat, p: int)
    requires p > 0 && Congruent(a, b, p)
    ensures Congruent(Pow(a, n), Pow(b, n), p)
  {
    if n > 0 {
      PowCongruent(a, b, n - 1, p);
      TimesCongruent(a, b, Pow(a, n - 1), p);
      TimesCongruent(Pow(a, n - 1), Pow(b, n - 1), b, p);
      assert b * Pow(a, n - 1) == Pow(a, n - 1) * b && b * Pow(b, n - 1) == Pow(b, n - 1) * b;
    }
  }

  lemma {:induction false} PowOne(n: nat)
    ensures Pow(1, n) == 1
  {
    if n > 0 {
      PowOne(n - 1);
    }
  }

  // ---- how much work the loop does -----------------------------------------------------------

  /** Halvings until 1. */
  function Log2(x: int): nat {
    if x <= 1 then 0 else 1 + Log2(x / 2)
  }

  /** Binary digits that are 1. */
  function Ones(x: int): nat {
    if x <= 0 then 0 else x % 2 + Ones(x / 2)
  }

  lemma {:induction false} Log2Is(x: int)
    requires x >= 1
    ensures Pow(2, Log2(x)) <= x < Pow(2, Log2(x) + 1)
    ensures 1 <= Ones(x) <= Log2(x) + 1
  {
    if x > 1 {
      Log2Is(x / 2);
      assert Pow(2, Log2(x) + 1) == 2 * Pow(2, Log2(x));
    } else {
      assert Pow(2, 1) == 2 * Pow(2, 0) && Ones(1) == 1 + Ones(0);
    }
  }

  // ---- fastModExp ----------------------------------------------------------------------------

  /** What fastModExp returns: the power modulo p for positive exponents. For exponent zero it
      skips the reduction, and it takes a negative exponent for one. */
  function ModExp(G: int, x: int, p: int): int
    requires p > 0
  {
    if x == 0 then 1 else if x < 0 then G % p else Pow(G, x) % p
  }

  lemma SquarePower(g: int, x: int)
    requires x >= 0 && x % 2 == 0
    ensures Pow(g * g, x / 2) == Pow(g, x)
  {
    PowTimes(g, 2, x / 2);
    assert Pow(g, 2) == g * Pow(g, 1) == g * (g * Pow(g, 0)) == g * g;
  }

  /** The base may be reduced. */
  lemma ReducedPower(s: int, n: nat, y: int, p: int)
    requires p > 0
    ensures Congruent(Pow(s % p, n) * y, Pow(s, n) * y, p)
  {
    PowCongruent(s % p, s, n, p);
    TimesCongruent(Pow(s % p, n), Pow(s, n), y, p);
  }

  /** One even step: squaring and halving. */
  lemma EvenStep(g: int, x: int, y: int, p: int)
    requires p > 0 && x > 0 && x % 2 == 0
    ensures Congruent(Pow(g * g % p, x / 2) * y, Pow(g, x) * y, p)
  {
    SquarePower(g, x);
    ReducedPower(g * g, x / 2, y, p);
  }

  /** One odd step: the accumulator takes a factor first. */
  lemma OddStep(g: int, x: int, y: int, p: int)
    requires p > 0 && x > 1 && x % 2 == 1
    ensures Congruent(Pow(g * g % p, (x - 1) / 2) * (g * y % p), Pow(g, x) * y, p)
  {
    EvenStep(g, x - 1, g * y % p, p);
    ModTimes(g * y, Pow(g, x - 1), p);
    assert (g * y % p) * Pow(g, x - 1) == Pow(g, x - 1) * (g * y % p);
    assert (g * y) * Pow(g, x - 1) == Pow(g, x) * y;
  }

  lemma Halving(e: int)
    requires e > 1
    ensures Log2(e) == 1 + Log2(e / 2) && Ones(e) == e % 2 + Ones(e / 2)
    ensures e % 2 == 1 ==> (e - 1) / 2 == e / 2
    ensures 1 <= e / 2 < e
  {
  }

  /** The accumulated power, and what the loop still has to do. */
  ghost predicate Ahead(g: int, e: int, y: int, G: int, x: int, p: int)
    requires p > 0
  {
    if x < 1 then e == x && g == G && y == 1
    else 1 <= e <= x && Congruent(Pow(g, e) * y, Pow(G, x), p)
  }

  lemma Finished(g: int, e: int, y: int, G: int, x: int, p: int)
    requires p > 0 && x != 0 && e <= 1 && Ahead(g, e, y, G, x, p)
    ensures g * y % p == ModExp(G, x, p)
  {
    assert Pow(g, 1) == g * Pow(g, 0) == g;
  }

  lemma OddStepAhead(g: int, e: int, y: int, G: int, x: int, p: int)
    requires p > 0 && e > 1 && e % 2 == 1 && Ahead(g, e, y, G, x, p)
    ensures Ahead(g * g % p, (e - 1) / 2, g * y % p, G, x, p)
  {
    OddStep(g, e, y, p);
  }

  lemma EvenStepAhead(g: int, e: int, y: int, G: int, x: int, p: int)
    requires p > 0 && e > 1 && e % 2 == 0 && Ahead(g, e, y, G, x, p)
    ensures Ahead(g * g % p, e / 2, y, G, x, p)
  {
    EvenStep(g, e, y, p);
  }

  lemma ModExpIsPower(G: int, x: nat, p: int)
    requires p > 0
    ensures ModExp(G, x, p) == Pow(G, x) % p <==> x > 0 || p > 1
  {
    assert 1 % p == 1 <==> p > 1;
  }

  /** Square and multiply. rounds counts the turns of the loop and products the multiplications. */
  method FastModExp(G: int, x: int, p: int) returns (r: int, ghost rounds: nat, ghost products: nat)
    requires p > 0
    ensures r == ModExp(G, x, p)
    ensures x >= 1 ==> rounds == Log2(x) && products == Log2(x) + Ones(x) <= 2 * Log2(x) + 1
  {
    rounds, products := 0, 0;
    if x == 0 {
      return 1, rounds, products;
    }
    var g, e, Y := G, x, 1;
    while e > 1
      invariant Ahead(g, e, Y, G, x, p)
      invariant rounds + Log2(e) == Log2(x) && products + Log2(e) + Ones(e) == Log2(x) + Ones(x)
      decreases e
    {
      Halving(e);
      if e % 2 == 0 {
        EvenStepAhead(g, e, Y, G, x, p);
        g := g * g % p;
        e := e / 2;
        products := products + 1;
      } else {
        OddStepAhead(g, e, Y, G, x, p);
        Y := g * Y % p;
        g := g * g % p;
        e := (e - 1) / 2;
        products := products + 2;
      }
      rounds := rounds + 1;
    }
    Finished(g, e, Y, G, x, p);
    if x >= 1 {
      Log2Is(x);
    }
    products := products + 1;
    r := g * Y % p;
  }

  // ---- both ends agree -------------------------------------------------------------------------

  /** Exponentiating twice, for exponents that are not zero. */
  lemma ModExpTwice(g: int, x: int, y: int, p: int)
    requires p > 0 && x != 0 && y != 0
    ensures var m: nat, n: nat := if x < 0 then 1 else x, if y < 0 then 1 else y;
            ModExp(ModExp(g, x, p), y, p) == Pow(g, m * n) % p
  {
    var m: nat, n: nat := if x < 0 then 1 else x, if y < 0 then 1 else y;
    assert Pow(g, 1) == g * Pow(g, 0) == g;
    var v := ModExp(g, x, p);
    assert v == Pow(g, m) % p;
    assert Pow(v, 1) == v * Pow(v, 0) == v;
    assert ModExp(v, y, p) == Pow(v, n) % p;
    PowCongruent(v, Pow(g, m), n, p);
    PowTimes(g, m, n);
  }

  /** The two ends compute the same shared secret from each other's message, for all secrets;
      only for the modulus 1 must they both be zero or both not. */
  lemma Agreement(g: int, x: int, y: int, p: int)
    requires p > 0
    ensures ModExp(ModExp(g, x, p), y, p) == ModExp(ModExp(g, y, p), x, p)
            <==> p > 1 || (x == 0 <==> y == 0)
  {
    if x != 0 && y != 0 {
      ModExpTwice(g, x, y, p);
      ModExpTwice(g, y, x, p);
      var m, n := if x < 0 then 1 else x, if y < 0 then 1 else y;
      assert m * n == n * m;
    } else {
      ZeroSecret(g, x, p);
      ZeroSecret(g, y, p);
    }
  }

  lemma ZeroSecret(g: int, x: int, p: int)
    requires p > 0
    ensures ModExp(ModExp(g, 0, p), x, p) == if x == 0 then 1 else 1 % p
    ensures ModExp(ModExp(g, x, p), 0, p) == 1
    ensures 1 % p == 1 <==> p > 1
  {
    if x > 0 {
      PowOne(x);
    }
  }

  /** The prime of the 1536-bit MODP group, section 2 of RFC 3526, and its generator. */
  const P: int := 0xFFFFFFFFFFFFFFFFC90FDAA22168C234C4C6628B80DC1CD129024E088A67CC74020BBEA63B139B22514A08798E3404DDEF9519B3CD3A431B302B0A6DF25F14374FE1356D6D51C245E485B576625E7EC6F44C42E9A637ED6B0BFF5CB6F406B7EDEE386BFB5A899FA5AE9F24117C4B1FE649286651ECE45B3DC2007CB8A163BF0598DA48361C55D39A69163FA8FD24CF5F83655D23DCA3AD961C62F356208552BB9ED529077096966D670C354E4ABC9804F1746C08CA237327FFFFFFFFFFFFFFFF

  const GENERATOR: int := 2

  /** The prime line by line, as the standard prints it, 192 bits each. */
  lemma PrimeIs()
    ensures var line := 0x1000000000000000000000000000000000000000000000000;
            var p0 := 0xFFFFFFFFFFFFFFFFC90FDAA22168C234C4C6628B80DC1CD1;
            var p1 := p0 * line + 0x29024E088A67CC74020BBEA63B139B22514A08798E3404DD;
            var p2 := p1 * line + 0xEF9519B3CD3A431B302B0A6DF25F14374FE1356D6D51C245;
            var p3 := p2 * line + 0xE485B576625E7EC6F44C42E9A637ED6B0BFF5CB6F406B7ED;
            var p4 := p3 * line + 0xEE386BFB5A899FA5AE9F24117C4B1FE649286651ECE45B3D;
            var p5 := p4 * line + 0xC2007CB8A163BF0598DA48361C55D39A69163FA8FD24CF5F;
            var p6 := p5 * line + 0x83655D23DCA3AD961C62F356208552BB9ED529077096966D;
            P == p6 * line + 0x670C354E4ABC9804F1746C08CA237327FFFFFFFFFFFFFFFF
  {
  }

  /** One end of a connection. derive stands for hashing the shared secret into key bytes. */
  class CommModule {
    const secretInt: int
    const derive: int -> seq<int>
    var key: Option<seq<int>>

    constructor (secretInt: int, derive: int -> seq<int>)
      ensures this.secretInt == secretInt && this.derive == derive && key == None
    {
      this.secretInt, this.derive, this.key := secretInt, derive, None;
    }

    method SendSecret() returns (v: int)
      ensures v == ModExp(GENERATOR, secretInt, P)
      ensures secretInt > 0 ==> v == Pow(2, secretInt) % P
    {
      ghost var rounds, products;
      v, rounds, products := FastModExp(GENERATOR, secretInt, P);
    }

    method SetKey(secret: int)
      modifies this`key
      ensures key == Some(derive(ModExp(secret, secretInt, P)))
    {
      ghost var rounds, products;
      var shared;
      shared, rounds, products := FastModExp(secret, secretInt, P);
      key := Some(derive(shared));
    }
  }

  /** Both ends send their message and then set their key from the message of the other. */
  method Exchange(a: CommModule, b: CommModule)
    requires a != b && a.derive == b.derive
    modifies a`key, b`key
    ensures a.key == b.key && a.key == Some(a.derive(ModExp(ModExp(GENERATOR, a.secretInt, P), b.secretInt, P)))
    ensures a.secretInt > 0 && b.secretInt > 0 ==> a.key == Some(a.derive(Pow(2, a.secretInt * b.secretInt) % P))
  {
    var fromA := a.SendSecret();
    var fromB := b.SendSecret();
    a.SetKey(fromB);
    b.SetKey(fromA);
    Agreement(GENERATOR, a.secretInt, b.secretInt, P);
    if a.secretInt > 0 && b.secretInt > 0 {
      ModExpTwice(GENERATOR, a.secretInt, b.secretInt, P);
    }
  }
}
