/** `HashCombine`: a fold of the element hashes with a multiplicative mixing step.  A word is
    its binary digits, lowest first, so that shifts and bitwise operations are the digit-wise
    ones; products and sums go through the number and wrap around at the word size. */
module HashCombine {
  import opened Powers

  type Word = seq<bool>

  function Value(w: Word): (n: nat)
    ensures n < Pow2(|w|)
  {
    if w == [] then 0 else (if w[0] then 1 else 0) + 2 * Value(w[1..])
  }

  function Digits(n: nat, width: nat): (w: Word)
    ensures |w| == width
  {
    if width == 0 then [] else [n % 2 == 1] + Digits(n / 2, width - 1)
  }

  lemma {:induction false} DigitsOfValue(w: Word)
    ensures Digits(Value(w), |w|) == w
  {
    if w != [] {
      DigitsOfValue(w[1..]);
      assert Value(w) / 2 == Value(w[1..]);
    }
  }

  lemma {:induction false} ValueOfDigits(n: nat, width: nat)
    requires n < Pow2(width)
    ensures Value(Digits(n, width)) == n
  {
    if width > 0 {
      ValueOfDigits(n / 2, width - 1);
      assert Digits(n, width)[1..] == Digits(n / 2, width - 1);
    }
  }

  // ----- operations on words -----

  function Zeros(n: nat): (z: Word)
    ensures |z| == n
  {
    seq(n, _ => false)
  }

  function Shl(x: Word, r: nat): (y: Word)
    requires r <= |x|
    ensures |y| == |x|
  {
    Zeros(r) + x[..|x| - r]
  }

  function Shr(x: Word, r: nat): (y: Word)
    requires r <= |x|
    ensures |y| == |x|
  {
    x[r..] + Zeros(r)
  }

  function Or(x: Word, y: Word): (z: Word)
    requires |x| == |y|
    ensures |z| == |x|
  {
    seq(|x|, i requires 0 <= i < |x| => x[i] || y[i])
  }

  function Xor(x: Word, y: Word): (z: Word)
    requires |x| == |y|
    ensures |z| == |x|
  {
    seq(|x|, i requires 0 <= i < |x| => x[i] != y[i])
  }

  function Rotl(x: Word, r: nat): (y: Word)
    requires r <= |x|
    ensures |y| == |x|
  {
    Or(Shl(x, r), Shr(x, |x| - r))
  }

  function XorShift(x: Word, r: nat): (y: Word)
    requires r <= |x|
    ensures |y| == |x|
  {
    Xor(x, Shr(x, r))
  }

  function Times(x: Word, m: nat): (y: Word)
    ensures |y| == |x|
  {
    Digits(Value(x) * m % Pow2(|x|), |x|)
  }

  function Plus(x: Word, a: nat): (y: Word)
    ensures |y| == |x|
  {
    Digits((Value(x) + a) % Pow2(|x|), |x|)
  }

  // ----- every operation of the step can be undone -----

  /** `(x << r) | (x >> (width - r))` moves the two parts of the word past each other. */
  lemma RotlMovesParts(x: Word, r: nat)
    requires r <= |x|
    ensures Rotl(x, r) == x[|x| - r..] + x[..|x| - r]
  {
  }

  lemma RotlInjective(x: Word, y: Word, r: nat)
    requires |x| == |y| && r <= |x| && Rotl(x, r) == Rotl(y, r)
    ensures x == y
  {
    RotlMovesParts(x, r);
    RotlMovesParts(y, r);
    assert x == Rotl(x, r)[r..] + Rotl(x, r)[..r];
    assert y == Rotl(y, r)[r..] + Rotl(y, r)[..r];
  }

  lemma XorInjective(a: Word, b: Word, c: Word)
    requires |a| == |b| == |c|
    ensures Xor(a, c) == Xor(b, c) ==> a == b
    ensures Xor(c, a) == Xor(c, b) ==> a == b
  {
    if Xor(a, c) == Xor(b, c) || Xor(c, a) == Xor(c, b) {
      forall i | 0 <= i < |a| ensures a[i] == b[i] {
        assert Xor(a, c)[i] == (a[i] != c[i]) && Xor(b, c)[i] == (b[i] != c[i]);
        assert Xor(c, a)[i] == (a[i] != c[i]) && Xor(c, b)[i] == (b[i] != c[i]);
      }
    }
  }

  /** A xor-shift by at least half the width leaves the digits it shifts in untouched. */
  lemma XorShiftInjective(x: Word, y: Word, r: nat)
    requires |x| == |y| <= 2 * r && r <= |x| && XorShift(x, r) == XorShift(y, r)
    ensures x == y
  {
    assert forall i | 0 <= i < |x| :: XorShift(x, r)[i] == (x[i] != Shr(x, r)[i]);
    assert forall i | 0 <= i < |x| :: XorShift(y, r)[i] == (y[i] != Shr(y, r)[i]);
    assert forall i | |x| - r <= i < |x| :: !Shr(x, r)[i] && !Shr(y, r)[i];
    assert forall i | |x| - r <= i < |x| :: x[i] == y[i];
    assert forall i | 0 <= i < |x| - r :: Shr(x, r)[i] == x[i + r] && Shr(y, r)[i] == y[i + r];
  }

  lemma SameDigits(a: nat, b: nat, width: nat)
    requires a < Pow2(width) && b < Pow2(width) && Digits(a, width) == Digits(b, width)
    ensures a == b
  {
    ValueOfDigits(a, width);
    ValueOfDigits(b, width);
  }

  lemma SameValue(x: Word, y: Word)
    requires |x| == |y| && Value(x) == Value(y)
    ensures x == y
  {
    DigitsOfValue(x);
    DigitsOfValue(y);
  }

  lemma AtLeast(k: int, m: int)
    requires k >= 1 && m > 0
    ensures k * m >= m
  {
  }

  lemma SameQuotient(q: int, t: int, q': int, t': int, m: int)
    requires m > 0 && q * m + t == q' * m + t' && 0 <= t < m && 0 <= t' < m
    ensures t == t'
  {
    assert (q - q') * m == q * m - q' * m;
    assert (q' - q) * m == q' * m - q * m;
    if q > q' { AtLeast(q - q', m); }
    if q < q' { AtLeast(q' - q, m); }
  }

  lemma DivMod(u: nat, size: nat)
    requires size > 0
    ensures u == (u / size) * size + u % size
  {
  }

  lemma RemainderIs(u: nat, k: int, x: nat, size: nat)
    requires x < size && u == k * size + x
    ensures u % size == x
  {
    DivMod(u, size);
    SameQuotient(u / size, u % size, k, x, size);
  }

  lemma TimesOut(x: nat, m: nat, inverse: nat, q: nat, t: nat, size: nat)
    requires m * inverse == t * size + 1
    ensures (x * m - q * size) * inverse == (x * t - q * inverse) * size + x
  {
    calc {
      (x * m - q * size) * inverse;
      x * (m * inverse) - (q * inverse) * size;
      x * (t * size + 1) - (q * inverse) * size;
      (x * t) * size + x - (q * inverse) * size;
      (x * t - q * inverse) * size + x;
    }
  }

  /** An odd multiplier has an inverse modulo the word size. */
  lemma TimesUndone(x: nat, m: nat, inverse: nat, size: nat)
    requires size > 0 && x < size && m * inverse % size == 1
    ensures (x * m % size) * inverse % size == x
  {
    var t, q, p := m * inverse / size, x * m / size, x * m % size;
    DivMod(m * inverse, size);
    DivMod(x * m, size);
    TimesOut(x, m, inverse, q, t, size);
    RemainderIs(p * inverse, x * t - q * inverse, x, size);
  }

  lemma TimesInjective(x: Word, y: Word, m: nat, inverse: nat)
    requires |x| == |y| && m * inverse % Pow2(|x|) == 1 && Times(x, m) == Times(y, m)
    ensures x == y
  {
    var size := Pow2(|x|);
    SameDigits(Value(x) * m % size, Value(y) * m % size, |x|);
    TimesUndone(Value(x), m, inverse, size);
    TimesUndone(Value(y), m, inverse, size);
    SameValue(x, y);
  }

  lemma PlusUndone(x: nat, y: nat, a: nat, size: nat)
    requires x < size && y < size && (x + a) % size == (y + a) % size
    ensures x == y
  {
    var u, v := x + a, y + a;
    DivMod(u, size);
    DivMod(v, size);
    SameQuotient(u / size, y, v / size, x, size);
  }

  lemma PlusInjective(x: Word, y: Word, a: nat)
    requires |x| == |y| && Plus(x, a) == Plus(y, a)
    ensures x == y
  {
    var size := Pow2(|x|);
    SameDigits((Value(x) + a) % size, (Value(y) + a) % size, |x|);
    PlusUndone(Value(x), Value(y), a, size);
    SameValue(x, y);
  }

  // ----- the mixing step -----

  const C1 := 0xcc9e2d51
  const C2 := 0x1b873593
  const M := 0xc6a4a7935bd1e995
  const ADDED := 0xe6546b64

  function Mix32(h: Word, k: Word): (r: Word)
    requires |h| == |k| == 32
    ensures |r| == 32
  {
    Plus(Times(Rotl(Xor(h, Times(Rotl(Times(k, C1), 15), C2)), 13), 5), ADDED)
  }

  function Mix64(h: Word, k: Word): (r: Word)
    requires |h| == |k| == 64
    ensures |r| == 64
  {
    Plus(Times(Xor(h, Times(XorShift(Times(k, M), 47), M)), M), ADDED)
  }

  /** The two overloads, with their in-place updates of `h` and `k`. */
  method HashCombineSizeT32(h0: Word, k0: Word) returns (h: Word)
    requires |h0| == |k0| == 32
    ensures h == Mix32(h0, k0)
  {
    hide Times, Plus, Rotl, Xor;
    var k := k0;
    h := h0;
    k := Times(k, C1);
    k := Rotl(k, 15);
    k := Times(k, C2);
    h := Xor(h, k);
    h := Rotl(h, 13);
    h := Plus(Times(h, 5), ADDED);
  }

  method HashCombineSizeT64(h0: Word, k0: Word) returns (h: Word)
    requires |h0| == |k0| == 64
    ensures h == Mix64(h0, k0)
  {
    hide Times, Plus, Xor, Shr;
    var k := k0;
    h := h0;
    k := Times(k, M);
    k := Xor(k, Shr(k, 47));
    k := Times(k, M);
    h := Xor(h, k);
    h := Times(h, M);
    h := Plus(h, ADDED);
  }

  lemma WordSizes()
    ensures Pow2(32) == 0x1_0000_0000 && Pow2(64) == 0x1_0000_0000_0000_0000
  {
    assert Pow2(0) == 1;
    EightMore(0);
    EightMore(8);
    EightMore(16);
    EightMore(24);
    EightMore(32);
    EightMore(40);
    EightMore(48);
    EightMore(56);
  }

  lemma Inverses()
    ensures C1 * 0xdee13bb1 % Pow2(32) == 1
    ensures C2 * 0x56ed309b % Pow2(32) == 1
    ensures 5 * 0xcccccccd % Pow2(32) == 1
    ensures M * 0x5f7a0ea7e59b19bd % Pow2(64) == 1
  {
    hide Pow2;
    WordSizes();
  }

  /** The step is injective in the accumulator and in the element hash. */
  lemma Mix32Injective(h: Word, h': Word, k: Word, k': Word)
    requires |h| == |h'| == |k| == |k'| == 32 && Mix32(h, k) == Mix32(h', k')
    ensures k == k' ==> h == h'
    ensures h == h' ==> k == k'
  {
    hide Times, Plus, Rotl, Xor, Pow2;
    Inverses();
    var s, s' := Times(Rotl(Times(k, C1), 15), C2), Times(Rotl(Times(k', C1), 15), C2);
    PlusInjective(Times(Rotl(Xor(h, s), 13), 5), Times(Rotl(Xor(h', s'), 13), 5), ADDED);
    TimesInjective(Rotl(Xor(h, s), 13), Rotl(Xor(h', s'), 13), 5, 0xcccccccd);
    RotlInjective(Xor(h, s), Xor(h', s'), 13);
    XorInjective(h, h', s);
    XorInjective(s, s', h);
    if h == h' {
      TimesInjective(Rotl(Times(k, C1), 15), Rotl(Times(k', C1), 15), C2, 0x56ed309b);
      RotlInjective(Times(k, C1), Times(k', C1), 15);
      TimesInjective(k, k', C1, 0xdee13bb1);
    }
  }

  lemma Mix64Injective(h: Word, h': Word, k: Word, k': Word)
    requires |h| == |h'| == |k| == |k'| == 64 && Mix64(h, k) == Mix64(h', k')
    ensures k == k' ==> h == h'
    ensures h == h' ==> k == k'
  {
    hide Times, Plus, XorShift, Xor, Pow2;
    Inverses();
    var s, s' := Times(XorShift(Times(k, M), 47), M), Times(XorShift(Times(k', M), 47), M);
    PlusInjective(Times(Xor(h, s), M), Times(Xor(h', s'), M), ADDED);
    TimesInjective(Xor(h, s), Xor(h', s'), M, 0x5f7a0ea7e59b19bd);
    XorInjective(h, h', s);
    XorInjective(s, s', h);
    if h == h' {
      TimesInjective(XorShift(Times(k, M), 47), XorShift(Times(k', M), 47), M, 0x5f7a0ea7e59b19bd);
      XorShiftInjective(Times(k, M), Times(k', M), 47);
      TimesInjective(k, k', M, 0x5f7a0ea7e59b19bd);
    }
  }

  // ----- the fold -----

  ghost predicate Words(hashes: seq<Word>, width: nat) {
    forall i | 0 <= i < |hashes| :: |hashes[i]| == width
  }

  /** The combination of a non-empty list on words of `width` bits, 32 or 64. */
  function Fold(hashes: seq<Word>, width: nat): (r: Word)
    requires (width == 32 || width == 64) && hashes != [] && Words(hashes, width)
    ensures |r| == width
  {
    var n := |hashes| - 1;
    if n == 0 then hashes[0]
    else if width == 32 then Mix32(Fold(hashes[..n], 32), hashes[n])
    else Mix64(Fold(hashes[..n], 64), hashes[n])
  }

  lemma FoldOfOne(h: Word, width: nat)
    requires (width == 32 || width == 64) && |h| == width
    ensures Fold([h], width) == h
  {
  }

  /** The accumulator takes in the element hashes from the first to the last. */
  lemma FoldOfMore(hashes: seq<Word>, k: Word, width: nat)
    requires (width == 32 || width == 64) && hashes != [] && Words(hashes, width) && |k| == width
    ensures width == 32 ==> Fold(hashes + [k], width) == Mix32(Fold(hashes, width), k)
    ensures width == 64 ==> Fold(hashes + [k], width) == Mix64(Fold(hashes, width), k)
  {
    assert (hashes + [k])[..|hashes|] == hashes;
  }

  method HashCombine(hashes: seq<Word>, width: nat) returns (result: Word)
    requires (width == 32 || width == 64) && Words(hashes, width)
    ensures result == if hashes == [] then Zeros(width) else Fold(hashes, width)
  {
    hide Mix32, Mix64;
    if hashes == [] {
      return Zeros(width);
    }
    result := hashes[0];
    for i := 1 to |hashes|
      invariant result == Fold(hashes[..i], width)
    {
      assert hashes[..i + 1][..i] == hashes[..i];
      if width == 32 {
        result := HashCombineSizeT32(result, hashes[i]);
      } else {
        result := HashCombineSizeT64(result, hashes[i]);
      }
    }
    assert hashes[..|hashes|] == hashes;
  }

  ghost predicate DifferAt(a: seq<Word>, b: seq<Word>, p: nat) {
    |a| == |b| && p < |a| && forall i | 0 <= i < |a| :: a[i] == b[i] <==> i != p
  }

  /** Lists of element hashes of one length that differ at exactly one position are told
      apart, whatever the length, the position and the word size. */
  lemma {:induction false} SinglePositionChangesShow(a: seq<Word>, b: seq<Word>, p: nat, width: nat)
    requires (width == 32 || width == 64) && Words(a, width) && Words(b, width) && DifferAt(a, b, p)
    ensures Fold(a, width) != Fold(b, width)
  {
    hide Mix32, Mix64;
    var n := |a| - 1;
    if n > 0 {
      if p == n {
        assert a[..n] == b[..n];
      } else {
        SinglePositionChangesShow(a[..n], b[..n], p, width);
      }
      var h, h' := Fold(a[..n], width), Fold(b[..n], width);
      if Fold(a, width) == Fold(b, width) {
        if width == 32 {
          Mix32Injective(h, h', a[n], b[n]);
        } else {
          Mix64Injective(h, h', a[n], b[n]);
        }
      }
    }
  }
}
