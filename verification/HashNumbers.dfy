/** The mixing steps on unsigned machine integers: modular products and sums, rotations and
    shifts as products and quotients by powers of two, and the bitwise exclusive or. */
module HashNumbers {
  import opened Powers
  import opened HashCombine

  /** Exclusive or of the binary digits of two numbers. */
  function XorNumbers(a: nat, b: nat): nat
    decreases a + b
  {
    if a == 0 && b == 0 then 0
    else (if a % 2 == b % 2 then 0 else 1) + 2 * XorNumbers(a / 2, b / 2)
  }

  lemma FirstDigit(x: Word)
    requires x != []
    ensures Value(x) / 2 == Value(x[1..]) && (Value(x) % 2 == 1 <==> x[0])
  {
  }

  lemma {:induction false} ValueOfXor(x: Word, y: Word)
    requires |x| == |y|
    ensures Value(Xor(x, y)) == XorNumbers(Value(x), Value(y))
  {
    if x != [] {
      ValueOfXor(x[1..], y[1..]);
      assert Xor(x, y)[1..] == Xor(x[1..], y[1..]);
      FirstDigit(x);
      FirstDigit(y);
    }
  }

  lemma DigitsAdd(x: Word)
    ensures x == [] ==> Value(x) == 0 && Pow2(|x|) == 1
    ensures x != [] ==> Value(x) == (if x[0] then 1 else 0) + 2 * Value(x[1..])
    ensures x != [] ==> Pow2(|x|) == 2 * Pow2(|x| - 1)
  {
  }

  lemma Doubled(d: nat, u: nat, p: nat, v: nat)
    ensures d + 2 * (u + p * v) == (d + 2 * u) + (2 * p) * v
  {
  }

  lemma {:induction false} ValueOfConcat(x: Word, y: Word)
    ensures Value(x + y) == Value(x) + Pow2(|x|) * Value(y)
  {
    hide Value, Pow2;
    DigitsAdd(x);
    DigitsAdd(x + y);
    if x == [] {
      assert x + y == y;
    } else {
      assert (x + y)[1..] == x[1..] + y;
      ValueOfConcat(x[1..], y);
      Doubled(if x[0] then 1 else 0, Value(x[1..]), Pow2(|x| - 1), Value(y));
    }
  }

  lemma {:induction false} ValueOfZeros(n: nat)
    ensures Value(Zeros(n)) == 0
  {
    if n > 0 {
      assert Zeros(n)[1..] == Zeros(n - 1);
      ValueOfZeros(n - 1);
    }
  }

  lemma SameFactor(a: int, b: int, p: nat)
    requires p > 0 && a * p == b * p
    ensures a == b
  {
    assert (a - b) * p == a * p - b * p;
    if a > b { AtLeast(a - b, p); }
    if a < b {
      assert (b - a) * p == b * p - a * p;
      AtLeast(b - a, p);
    }
  }

  lemma Quotient(u: nat, low: nat, high: nat, p: nat)
    requires low < p && u == low + p * high
    ensures u / p == high && u % p == low
  {
    RemainderIs(u, high, low, p);
    DivMod(u, p);
    SameFactor(u / p, high, p);
  }

  /** The quotient and the remainder by a power of two are the upper and the lower digits. */
  lemma Halves(x: Word, r: nat)
    requires r <= |x|
    ensures Value(x) == Value(x[..r]) + Pow2(r) * Value(x[r..])
    ensures Value(x) / Pow2(r) == Value(x[r..])
  {
    assert x == x[..r] + x[r..];
    ValueOfConcat(x[..r], x[r..]);
    Quotient(Value(x), Value(x[..r]), Value(x[r..]), Pow2(r));
  }

  lemma ValueOfShr(x: Word, r: nat)
    requires r <= |x|
    ensures Value(Shr(x, r)) == Value(x) / Pow2(r)
  {
    Halves(x, r);
    ValueOfConcat(x[r..], Zeros(r));
    ValueOfZeros(r);
  }

  lemma Rotated(u: nat, low: nat, high: nat, p: nat, q: nat)
    requires u == low + q * high
    ensures u * p == low * p + (p * q) * high
  {
  }

  lemma LowPart(low: nat, p: nat, q: nat)
    requires low < q && p > 0
    ensures low * p < p * q
  {
  }

  lemma RotatedParts(u: nat, low: nat, high: nat, p: nat, q: nat)
    requires p > 0 && low < q && high < p && u == low + q * high
    ensures u * p % (p * q) == low * p && u / q == high
  {
    Rotated(u, low, high, p, q);
    LowPart(low, p, q);
    Quotient(u * p, low * p, high, p * q);
    Quotient(u, low, high, q);
  }

  lemma ValueOfRotl(x: Word, r: nat)
    requires r <= |x|
    ensures Value(Rotl(x, r)) == Value(x) * Pow2(r) % Pow2(|x|) + Value(x) / Pow2(|x| - r)
  {
    hide Value, Pow2, Rotl;
    var m := |x| - r;
    RotlMovesParts(x, r);
    Halves(x, m);
    ValueOfConcat(x[m..], x[..m]);
    Pow2Sum(r, m);
    RotatedParts(Value(x), Value(x[..m]), Value(x[m..]), Pow2(r), Pow2(m));
  }

  lemma ValueOfTimes(x: Word, m: nat)
    ensures Value(Times(x, m)) == Value(x) * m % Pow2(|x|)
  {
    hide Value, Pow2, Digits;
    ValueOfDigits(Value(x) * m % Pow2(|x|), |x|);
  }

  lemma ValueOfPlus(x: Word, a: nat)
    ensures Value(Plus(x, a)) == (Value(x) + a) % Pow2(|x|)
  {
    hide Value, Pow2, Digits;
    ValueOfDigits((Value(x) + a) % Pow2(|x|), |x|);
  }

  lemma Carried(a: int, b: int, p: int)
    ensures (a + b) * p == a * p + b * p
  {
  }

  lemma SumOfRemainder(u: nat, a: nat, p: nat)
    requires p > 0
    ensures (u % p + a) % p == (u + a) % p
  {
    DivMod(u, p);
    DivMod(u % p + a, p);
    var k := (u % p + a) / p;
    Carried(u / p, k, p);
    RemainderIs(u + a, u / p + k, (u % p + a) % p, p);
  }

  /** The 32-bit step, in numbers. */
  lemma Mix32InNumbers(h: Word, k: Word)
    requires |h| == |k| == 32
    ensures var size := 0x1_0000_0000;
            var k1 := Value(k) * 0xcc9e2d51 % size;
            var k2 := k1 * 0x8000 % size + k1 / 0x2_0000;
            var k3 := k2 * 0x1b873593 % size;
            var h1 := XorNumbers(Value(h), k3);
            var h2 := h1 * 0x2000 % size + h1 / 0x8_0000;
            Value(Mix32(h, k)) == (h2 * 5 + 0xe6546b64) % size
  {
    hide Value, Times, Plus, Rotl, Xor, Pow2, XorNumbers;
    SmallPowers();
    var w1 := Times(k, C1);
    var w2 := Rotl(w1, 15);
    var w3 := Times(w2, C2);
    var v1 := Xor(h, w3);
    var v2 := Rotl(v1, 13);
    ValueOfTimes(k, C1);
    ValueOfRotl(w1, 15);
    ValueOfTimes(w2, C2);
    ValueOfXor(h, w3);
    ValueOfRotl(v1, 13);
    ValueOfTimes(v2, 5);
    ValueOfPlus(Times(v2, 5), ADDED);
    SumOfRemainder(Value(v2) * 5, ADDED, Pow2(32));
  }

  /** The 64-bit step, in numbers. */
  lemma Mix64InNumbers(h: Word, k: Word)
    requires |h| == |k| == 64
    ensures var size := 0x1_0000_0000_0000_0000;
            var k1 := Value(k) * 0xc6a4a7935bd1e995 % size;
            var k2 := XorNumbers(k1, k1 / 0x8000_0000_0000);
            var k3 := k2 * 0xc6a4a7935bd1e995 % size;
            var h1 := XorNumbers(Value(h), k3);
            var h2 := h1 * 0xc6a4a7935bd1e995 % size;
            Value(Mix64(h, k)) == (h2 + 0xe6546b64) % size
  {
    hide Value, Times, Plus, Xor, Shr, Pow2, XorNumbers;
    SmallPowers();
    var w1 := Times(k, M);
    var w2 := XorShift(w1, 47);
    var w3 := Times(w2, M);
    var v1 := Xor(h, w3);
    var v2 := Times(v1, M);
    ValueOfTimes(k, M);
    ValueOfShr(w1, 47);
    ValueOfXor(w1, Shr(w1, 47));
    ValueOfTimes(w2, M);
    ValueOfXor(h, w3);
    ValueOfTimes(v1, M);
    ValueOfPlus(v2, ADDED);
  }
}
