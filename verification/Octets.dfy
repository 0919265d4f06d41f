/** Division by a product, without any bit vectors in scope. */
module Quotients {

  lemma {:induction false} MulGe(d: nat, k: nat)
    requires k > 0
    ensures d * k >= d
  {
    if k > 1 {
      MulGe(d, k - 1);
      assert d * k == d * (k - 1) + d;
    }
  }

  lemma {:induction false} MulMono(d: nat, x: int, y: int)
    ensures x < y ==> d * x + d <= d * y
  {
    if x < y {
      MulGe(d, y - x);
      assert d * (y - x) == d * y - d * x;
    }
  }

  lemma {:induction false} QuotientIs(n: nat, d: nat, a: nat, rest: nat)
    requires d > 0 && n == d * a + rest && rest < d
    ensures n / d == a
  {
    assert n == d * (n / d) + n % d;
    MulMono(d, n / d, a);
    MulMono(d, a, n / d);
  }

  lemma {:induction false} OneDigit(n: nat)
    requires n < 256
    ensures (n / 1) % 256 == n
  {
  }

  lemma {:induction false} NoDigit(n: nat, d: nat)
    requires n < 256 <= d
    ensures (n / d) % 256 == 0
  {
    QuotientIs(n, d, 0, n);
  }

  lemma {:induction false} DivTwice(n: nat, p: nat)
    requires p > 0
    ensures 256 * p > 0 && n / (256 * p) == (n / p) / 256
  {
    var q, r := n / p, n % p;
    var a, b := q / 256, q % 256;
    assert n == p * q + r && p * q == p * (256 * a) + p * b;
    MulMono(p, b, 256);
    QuotientIs(n, 256 * p, a, p * b + r);
  }

  lemma {:induction false} NextDigit(n: nat, p: nat)
    requires p > 0
    ensures 256 * p > 0 && 256 * (n / (256 * p)) + (n / p) % 256 == n / p
  {
    DivTwice(n, p);
  }
}

/** Bytes and 32-bit words as numbers, most significant byte first. */
module Octets {

  function Value(bytes: seq<bv8>): nat {
    if bytes == [] then 0 else 256 * Value(bytes[..|bytes| - 1]) + bytes[|bytes| - 1] as nat
  }

  lemma {:induction false} NextByte(b: bv8)
    requires b != 255
    ensures (b + 1) as int == b as int + 1
  {
  }

  lemma {:induction false} ByteThere(b: bv8)
    ensures (b as int) as bv8 == b
  {
  }

  lemma {:induction false} SameByte(a: bv8, b: bv8)
    requires a as int == b as int
    ensures a == b
  {
    ByteThere(a);
    ByteThere(b);
  }

  lemma {:induction false} ByteBack(r: nat)
    requires r < 256
    ensures (r as bv8) as int == r
  {
    if r > 0 {
      ByteBack(r - 1);
      var b := (r - 1) as bv8;
      NextByte(b);
      ByteThere(b + 1);
    }
  }

  lemma {:induction false} ValueSnoc(bytes: seq<bv8>, b: bv8)
    ensures Value(bytes + [b]) == 256 * Value(bytes) + b as int
  {
    assert (bytes + [b])[..|bytes|] == bytes;
  }

  lemma {:induction false} ValueOfTwo(a: bv8, b: bv8)
    ensures Value([a, b]) == 256 * (a as int) + b as int
  {
    ValueSnoc([], a);
    ValueSnoc([a], b);
    assert [] + [a] == [a] && [a] + [b] == [a, b];
  }

  lemma {:induction false} ValueOfFour(a: bv8, b: bv8, c: bv8, d: bv8)
    ensures Value([a, b, c, d]) == 256 * (256 * (256 * (a as int) + b as int) + c as int) + d as int
  {
    ValueOfTwo(a, b);
    ValueSnoc([a, b], c);
    assert [a, b] + [c] == [a, b, c];
    ValueSnoc([a, b, c], d);
    assert [a, b, c] + [d] == [a, b, c, d];
  }

  lemma {:induction false} BitsOfFour(a: bv8, b: bv8, c: bv8, d: bv8, x: bv32)
    requires x == ((a as bv32) << 24) | ((b as bv32) << 16) | ((c as bv32) << 8) | (d as bv32)
    ensures x as int == 256 * (256 * (256 * (a as int) + b as int) + c as int) + d as int
  {
  }
}
