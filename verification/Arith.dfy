// Quotients and remainders, for the shifts of char_conv.c.
module Arith {
  lemma Assoc(x: int, y: int, z: int)
    ensures x * (y * z) == x * y * z
  {
  }

  lemma Distr(x: int, y: int, z: int)
    ensures x * (y + z) == x * y + x * z
  {
  }

  lemma Mono(x: int, y: int, q: nat)
    requires x <= y
    ensures x * q <= y * q
  {
  }

  lemma DivMod(x: nat, d: nat, k: nat, r: nat)
    requires r < d && x == d * k + r
    ensures x / d == k && x % d == r
  {
    var k2 := x / d;
    assert x == d * k2 + x % d;
    StepUp(d, k, k2);
    StepUp(d, k2, k);
  }

  lemma StepUp(d: nat, x: int, y: int)
    ensures x > y ==> d * x >= d * y + d
  {
    if x > y {
      Mono(y + 1, x, d);
    }
  }

  lemma DivMore(a: nat, p: nat, k: nat)
    requires p > 0
    ensures (a + p * k) / p == a / p + k
  {
    Distr(p, a / p, k);
    DivMod(a + p * k, p, a / p + k, a % p);
  }

  lemma DivSmall(p: nat, k: nat, c: nat)
    requires p < c
    ensures (p + k * c) / c == k
  {
    DivMod(p + k * c, c, k, p);
  }

  // The low bits of b, shifted up to the end of a byte.
  lemma MulMod(b: nat, w: nat, q: nat)
    requires w * q == 256 && w > 0 && q > 0
    ensures b * q % 256 == b % w * q && b % w * q <= 256 - q
  {
    var k, r := b / w, b % w;
    Distr(q, w * k, r);
    Assoc(q, w, k);
    assert r * q <= 256 - q by {
      Mono(r, w - 1, q);
      Distr(q, w, -1);
    }
    DivMod(b * q, 256, k, r * q);
  }

  lemma Less(a: nat, p: nat, q: nat)
    requires a < 128 && p * q == 128 && p > 0 && q > 0
    ensures a / p < q
  {
    if a / p >= q {
      Mono(q, a / p, p);
    }
  }

  lemma ModAdd(u: nat, v: nat)
    requires u + v % 256 < 256
    ensures (u + v) % 256 == u + v % 256
  {
  }

  lemma Whole(a: nat, d: nat)
    requires d > 0
    ensures a % d + a / d * d == a
  {
  }

  lemma Mod128(a: nat, n: nat)
    requires a < 128
    ensures (a + 128 * n) % 128 == a
  {
  }
}
