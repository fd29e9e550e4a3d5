/** When `==` on values chains and when it agrees with `<`.  Here numbers are doubles: what the
    binary64 format of IEEE 754 can represent. */
module ValueEquality {
  import opened Powers
  import opened Values

  // ----- the numbers of the format -----

  /** `x` is `m` scaled by a power of two, with at most 53 significant binary digits. */
  predicate Scaled(x: real, m: int, k: nat) {
    && m < Pow2(53) && -m < Pow2(53)
    && ((k <= 971 && x == m as real * Pow2(k) as real) || (k <= 1074 && x * Pow2(k) as real == m as real))
  }

  ghost predicate IsDouble(x: real) { exists m: int, k: nat :: Scaled(x, m, k) }

  lemma Sizes()
    ensures Pow2(52) == 4503599627370496 && Pow2(53) == 9007199254740992
    ensures EPSILON * Pow2(52) as real == 1.0
  {
    assert Pow2(0) == 1;
    EightMore(0);
    EightMore(8);
    EightMore(16);
    EightMore(24);
    EightMore(32);
    EightMore(40);
    assert Pow2(52) == 2 * Pow2(51) == 4 * Pow2(50) == 8 * Pow2(49) == 16 * Pow2(48);
    assert Pow2(53) == 2 * Pow2(52);
  }

  lemma Product(a: int, b: int)
    ensures (a * b) as real == a as real * b as real
  {
  }

  lemma Grows(a: int, b: int)
    requires a >= 0 && b >= 1
    ensures a * b >= a
  {
  }

  lemma GrowsReal(x: real, p: real)
    requires x >= 1.0 && p > 0.0
    ensures x * p >= p
  {
  }

  lemma BelowOne(x: real, p: real, m: real)
    requires p > 0.0 && m < p && x * p == m
    ensures x < 1.0
  {
    if x >= 1.0 { GrowsReal(x, p); }
  }

  lemma NegatedProduct(x: real, p: real)
    ensures (-x) * p == -(x * p)
  {
  }

  lemma TooSmall(x: real, m: int, k: nat)
    requires k >= 53 && m < Pow2(53) && -m < Pow2(53) && x * Pow2(k) as real == m as real
    ensures Abs(x) < 1.0
  {
    hide Pow2;
    Pow2Sum(53, k - 53);
    Grows(Pow2(53), Pow2(k - 53));
    BelowOne(x, Pow2(k) as real, m as real);
    NegatedProduct(x, Pow2(k) as real);
    BelowOne(-x, Pow2(k) as real, (-m) as real);
  }

  lemma Regroup(x: real, a: real, b: real)
    ensures x * (b * a) == (x * a) * b
  {
  }

  /** A scaled number of magnitude one or more is a multiple of epsilon. */
  lemma ScaledSteps(x: real, m: int, k: nat) returns (i: int)
    requires Scaled(x, m, k) && Abs(x) >= 1.0
    ensures x * Pow2(52) as real == i as real
  {
    hide Pow2;
    Sizes();
    if x == m as real * Pow2(k) as real {
      i := m * Pow2(k) * Pow2(52);
      Product(m, Pow2(k));
      Product(m * Pow2(k), Pow2(52));
    } else if k <= 52 {
      i := m * Pow2(52 - k);
      Pow2Sum(52 - k, k);
      Product(m, Pow2(52 - k));
      Product(Pow2(52 - k), Pow2(k));
      Regroup(x, Pow2(k) as real, Pow2(52 - k) as real);
    } else {
      TooSmall(x, m, k);
    }
  }

  lemma SameStep(i: int, j: int)
    requires Abs(j as real * EPSILON - i as real * EPSILON) < EPSILON
    ensures i == j
  {
    assert Abs((j - i) as real) < 1.0;
  }

  /** From one upwards, a double within epsilon of another is the same, except just below one. */
  lemma NearUp(x: real, n: real)
    requires IsDouble(x) && IsDouble(n) && n >= 1.0 && Abs(x - n) < EPSILON
    ensures x == n || (n == 1.0 && x < 1.0)
  {
    var m, k :| Scaled(n, m, k);
    var i := ScaledSteps(n, m, k);
    Sizes();
    hide Pow2;
    if x >= 1.0 {
      var m', k' :| Scaled(x, m', k');
      var j := ScaledSteps(x, m', k');
      assert x == j as real * EPSILON && n == i as real * EPSILON;
      SameStep(i, j);
    } else {
      assert n == i as real * EPSILON && n < 1.0 + EPSILON;
      assert i == 4503599627370496;
    }
  }

  lemma Negated(x: real)
    requires IsDouble(x)
    ensures IsDouble(-x)
  {
    var m, k :| Scaled(x, m, k);
    hide Pow2;
    assert (-m) as real == -(m as real);
    assert Scaled(-x, -m, k);
  }

  /** The ranges of int32_t, and of the integers that a double holds without a gap. */
  lemma IntegerRanges()
    ensures INT_MAX + 1 == Pow2(31) && -INT_MIN == Pow2(31) && MAX_SAFE_INTEGER + 1 == Pow2(53)
  {
    SmallPowers();
  }

  predicate AtLeastOne(n: real) { Abs(n) >= 1.0 }

  predicate BeyondOne(n: real) { Abs(n) > 1.0 }

  lemma NearFar(x: real, n: real)
    requires IsDouble(x) && IsDouble(n) && AtLeastOne(n) && Abs(x - n) < EPSILON
    ensures x == n || (Abs(n) == 1.0 && Abs(x) < 1.0 && Abs(x - n) < EPSILON)
  {
    hide IsDouble;
    if n >= 1.0 {
      NearUp(x, n);
    } else {
      Negated(x);
      Negated(n);
      NearUp(-x, -n);
    }
  }

  // ----- numbers inside values -----

  ghost predicate AllNumbers(v: Value, p: real -> bool)
    decreases v
  {
    match v
    case Number(n) => p(n)
    case Array(_) => forall i | 0 <= i < |Cells(v)| :: AllNumbers(Cells(v)[i].value, p)
    case Object(_) => forall i | 0 <= i < |Cells(v)| :: AllNumbers(Cells(v)[i].value, p)
    case _ => true
  }

  lemma {:induction false} AllNumbersImply(v: Value, p: real -> bool, q: real -> bool)
    requires AllNumbers(v, p) && forall n :: p(n) ==> q(n)
    ensures AllNumbers(v, q)
    decreases v
  {
    if Compound(v) {
      forall i | 0 <= i < |Cells(v)| ensures AllNumbers(Cells(v)[i].value, q) {
        AllNumbersImply(Cells(v)[i].value, p, q);
      }
    }
  }

  /** The value with every number replaced. */
  function Mapped(v: Value, f: real -> real): Value {
    match v
    case Number(n) => Number(f(n))
    case Array(a) => Array(seq(|a|, i requires 0 <= i < |a| => Mapped(a[i], f)))
    case Object(o) => Object(map k | k in o :: Mapped(o[k], f))
    case _ => v
  }

  lemma LeastKeyOfSameKeys(o: map<string, Value>, p: map<string, Value>)
    requires o != map[] && p != map[] && o.Keys == p.Keys
    ensures LeastKey(o) == LeastKey(p)
  {
    var j, k := LeastKey(o), LeastKey(p);
    if j != k {
      assert j in p.Keys && k in o.Keys;
      StringTransitive(j, k, j);
      StringIrreflexive(j);
    }
  }

  ghost predicate CellsMapped(x: seq<Cell>, y: seq<Cell>, f: real -> real) {
    |y| == |x| && forall i | 0 <= i < |x| :: y[i] == Cell(x[i].key, Mapped(x[i].value, f))
  }

  ghost predicate MembersMapped(o: map<string, Value>, p: map<string, Value>, f: real -> real) {
    p.Keys == o.Keys && forall k | k in o :: p[k] == Mapped(o[k], f)
  }

  lemma MembersWithout(o: map<string, Value>, p: map<string, Value>, f: real -> real, k: string)
    requires MembersMapped(o, p, f)
    ensures MembersMapped(o - {k}, p - {k}, f)
  {
    hide Mapped;
  }

  lemma OneMoreCell(x: seq<Cell>, y: seq<Cell>, c: Cell, f: real -> real)
    requires CellsMapped(x, y, f)
    ensures CellsMapped([c] + x, [Cell(c.key, Mapped(c.value, f))] + y, f)
  {
    hide Mapped;
  }

  lemma NoCells(f: real -> real)
    ensures CellsMapped([], [], f)
  {
  }

  lemma {:induction false} EntriesMapped(o: map<string, Value>, p: map<string, Value>, f: real -> real)
    requires MembersMapped(o, p, f)
    ensures CellsMapped(Entries(o), Entries(p), f)
    decreases |o|
  {
    hide Entries, LeastKey, Mapped, CellsMapped;
    FirstEntry(o);
    FirstEntry(p);
    if o == map[] {
      assert p.Keys == {};
      assert p == map[];
      NoCells(f);
    } else {
      var k := LeastKey(o);
      assert k in p;
      LeastKeyOfSameKeys(o, p);
      MembersWithout(o, p, f, k);
      EntriesMapped(o - {k}, p - {k}, f);
      OneMoreCell(Entries(o - {k}), Entries(p - {k}), Cell(k, o[k]), f);
    }
  }

  /** Replacing numbers keeps the type, and works on a container cell by cell. */
  lemma MappedCells(v: Value, f: real -> real)
    ensures TypeOf(Mapped(v, f)) == TypeOf(v)
    ensures Compound(v) ==> CellsMapped(Cells(v), Cells(Mapped(v, f)), f)
  {
    if v.Object? { EntriesMapped(v.o, Mapped(v, f).o, f); }
  }

  ghost predicate CloseAt(f: real -> real, g: real -> real, n: real) { Abs(f(n) - g(n)) < EPSILON }

  ghost predicate SameAt(f: real -> real, g: real -> real, n: real) { f(n) == g(n) }

  ghost function Close(f: real -> real, g: real -> real): real -> bool { n => CloseAt(f, g, n) }

  ghost function Same(f: real -> real, g: real -> real): real -> bool { n => SameAt(f, g, n) }

  lemma EqualUnfolded(a: Value, b: Value)
    requires Compound(a) && TypeOf(a) == TypeOf(b)
    ensures var x, y := Cells(a), Cells(b);
            Equal(a, b) <==>
              |x| == |y| && forall i | 0 <= i < |x| :: x[i].key == y[i].key && Equal(x[i].value, y[i].value)
  {
    hide Entries;
  }

  lemma AllNumbersUnfolded(v: Value, p: real -> bool)
    requires Compound(v)
    ensures AllNumbers(v, p) <==> forall i | 0 <= i < |Cells(v)| :: AllNumbers(Cells(v)[i].value, p)
  {
    hide Entries;
  }

  lemma ContainersEqual(v: Value, a: Value, b: Value, p: real -> bool)
    requires Compound(v) && TypeOf(a) == TypeOf(b) == TypeOf(v)
    requires |Cells(a)| == |Cells(b)| == |Cells(v)|
    requires forall i | 0 <= i < |Cells(v)| :: Cells(a)[i].key == Cells(b)[i].key
    requires forall i | 0 <= i < |Cells(v)| ::
               Equal(Cells(a)[i].value, Cells(b)[i].value) <==> AllNumbers(Cells(v)[i].value, p)
    ensures Equal(a, b) <==> AllNumbers(v, p)
  {
    hide Equal, AllNumbers, Cells;
    EqualUnfolded(a, b);
    AllNumbersUnfolded(v, p);
  }

  lemma LeavesEqual(v: Value, f: real -> real, g: real -> real)
    requires !Compound(v)
    ensures Equal(Mapped(v, f), Mapped(v, g)) <==> AllNumbers(v, Close(f, g))
  {
    if v.Number? { assert CloseAt(f, g, v.n) <==> Abs(f(v.n) - g(v.n)) < EPSILON; }
  }

  /** Two replacements give equal values exactly when they are close on every number inside. */
  lemma {:induction false} MappedEqual(v: Value, f: real -> real, g: real -> real)
    ensures Equal(Mapped(v, f), Mapped(v, g)) <==> AllNumbers(v, Close(f, g))
    decreases v
  {
    hide Mapped, Close, Equal, AllNumbers;
    if Compound(v) {
      MappedCells(v, f);
      MappedCells(v, g);
      forall i | 0 <= i < |Cells(v)|
        ensures Equal(Cells(Mapped(v, f))[i].value, Cells(Mapped(v, g))[i].value) <==>
                AllNumbers(Cells(v)[i].value, Close(f, g))
      {
        MappedEqual(Cells(v)[i].value, f, g);
      }
      ContainersEqual(v, Mapped(v, f), Mapped(v, g), Close(f, g));
    } else {
      LeavesEqual(v, f, g);
    }
  }

  lemma {:induction false} MappedSame(v: Value, f: real -> real, g: real -> real)
    requires Mapped(v, f) == Mapped(v, g)
    ensures AllNumbers(v, Same(f, g))
    decreases v
  {
    if Compound(v) {
      MappedCells(v, f);
      MappedCells(v, g);
      forall i | 0 <= i < |Cells(v)| ensures AllNumbers(Cells(v)[i].value, Same(f, g)) {
        assert Cells(Mapped(v, f))[i] == Cells(Mapped(v, g))[i];
        MappedSame(Cells(v)[i].value, f, g);
      }
    }
  }

  lemma {:induction false} MappedNumbers(v: Value, f: real -> real, p: real -> bool)
    requires AllNumbers(v, p) && forall n :: p(n) ==> p(f(n))
    ensures AllNumbers(Mapped(v, f), p)
    decreases v
  {
    if Compound(v) {
      MappedCells(v, f);
      forall i | 0 <= i < |Cells(v)| ensures AllNumbers(Cells(Mapped(v, f))[i].value, p) {
        MappedNumbers(Cells(v)[i].value, f, p);
      }
    }
  }

  function Id(n: real): real { n }

  lemma {:induction false} MappedById(v: Value)
    ensures Mapped(v, Id) == v
  {
    match v {
      case Array(a) =>
        forall i | 0 <= i < |a| ensures Mapped(a[i], Id) == a[i] { MappedById(a[i]); }
        assert Mapped(v, Id).a == a;
      case Object(o) =>
        forall k | k in o ensures Mapped(o[k], Id) == o[k] { MappedById(o[k]); }
        assert Mapped(v, Id).o == o;
      case _ =>
    }
  }

  ghost predicate Doubles(v: Value) { AllNumbers(v, IsDouble) }

  // ----- neighbours that blur -----

  const HALF := EPSILON / 2.0

  /** The multiples of half an epsilon next to a number between zero and one. */
  function Above(n: real): real { ((n / HALF).Floor + 1) as real * HALF }

  function Below(n: real): real { ((n / HALF).Floor - 1) as real * HALF }

  /** Below magnitude one, doubles on both sides that are equal to `n` but not to each other. */
  function Up(n: real): real {
    if Abs(n) >= 1.0 then n else if n >= 0.0 then Above(n) else -Below(-n)
  }

  function Down(n: real): real {
    if Abs(n) >= 1.0 then n else if n >= 0.0 then Below(n) else -Above(-n)
  }

  /** Up to magnitude one, another double that is equal to `n`. */
  function Other(n: real): real {
    if n == 1.0 then 1.0 - HALF else if n == -1.0 then -1.0 + HALF else Up(n)
  }

  lemma GridIsDouble(i: int)
    requires -9007199254740992 <= i <= 9007199254740992
    ensures IsDouble(i as real * HALF)
  {
    Sizes();
    var x := i as real * HALF;
    if i == 9007199254740992 {
      assert Pow2(0) == 1 && x == 1.0;
      assert Scaled(x, 1, 0);
    } else if i == -9007199254740992 {
      assert Pow2(0) == 1 && x == -1.0;
      assert Scaled(x, -1, 0);
    } else {
      assert x * Pow2(53) as real == i as real;
      assert Scaled(x, i, 53);
    }
  }

  lemma AboveBelow(n: real)
    requires 0.0 <= n < 1.0
    ensures IsDouble(Above(n)) && IsDouble(Below(n))
    ensures Below(n) < n < Above(n) && Above(n) - n < EPSILON && n - Below(n) < EPSILON
    ensures Above(n) - Below(n) == EPSILON
  {
    hide IsDouble;
    var i := (n / HALF).Floor;
    assert n / HALF < 9007199254740992.0;
    assert i as real <= n / HALF < (i + 1) as real;
    assert i as real * HALF <= n < (i + 1) as real * HALF;
    GridIsDouble(i + 1);
    GridIsDouble(i - 1);
  }

  lemma UpDown(n: real)
    ensures IsDouble(n) ==> IsDouble(Up(n)) && IsDouble(Down(n))
    ensures Abs(Up(n) - n) < EPSILON && Abs(n - Down(n)) < EPSILON
    ensures Abs(Up(n) - Down(n)) < EPSILON ==> AtLeastOne(n)
    ensures Up(n) == n ==> AtLeastOne(n)
  {
    hide IsDouble, Above, Below;
    if Abs(n) < 1.0 {
      AboveBelow(Abs(n));
      if n < 0.0 {
        Negated(Above(-n));
        Negated(Below(-n));
      }
    }
  }

  lemma OtherIsNear(n: real)
    ensures IsDouble(n) ==> IsDouble(Other(n))
    ensures Abs(n - Other(n)) < EPSILON && (n == Other(n) ==> BeyondOne(n))
  {
    hide IsDouble, Up;
    UpDown(n);
    assert 1.0 - HALF == 9007199254740991 as real * HALF;
    GridIsDouble(9007199254740991);
    GridIsDouble(-9007199254740991);
  }

  // ----- exactly when -----

  lemma {:induction false} EqualBeyondOne(a: Value, b: Value)
    requires Doubles(a) && Doubles(b) && Equal(a, b) && AllNumbers(a, BeyondOne)
    ensures a == b
    decreases a
  {
    match a
    case Number(n) => NearFar(b.n, n);
    case Array(_) => EqualCells(a, b);
    case Object(_) => EqualCells(a, b);
    case _ =>
  }

  lemma {:induction false} EqualCells(a: Value, b: Value)
    requires Compound(a) && Doubles(a) && Doubles(b) && Equal(a, b) && AllNumbers(a, BeyondOne)
    ensures a == b
    decreases a, 0
  {
    hide IsDouble;
    var x, y := Cells(a), Cells(b);
    forall i | 0 <= i < |x| ensures x[i] == y[i] {
      EqualBeyondOne(x[i].value, y[i].value);
    }
    CellsInjective(a, b);
  }

  lemma {:induction false} EqualChains(a: Value, b: Value, c: Value)
    requires Doubles(a) && Doubles(b) && Doubles(c) && Equal(a, b) && Equal(b, c) && AllNumbers(b, AtLeastOne)
    ensures Equal(a, c)
    decreases b
  {
    hide IsDouble;
    if b.Number? {
      NearFar(a.n, b.n);
      NearFar(c.n, b.n);
    } else if Compound(b) {
      forall i | 0 <= i < |Cells(b)| ensures Equal(Cells(a)[i].value, Cells(c)[i].value) {
        EqualChains(Cells(a)[i].value, Cells(b)[i].value, Cells(c)[i].value);
      }
    }
  }

  lemma AllClose(v: Value, f: real -> real, g: real -> real)
    requires Doubles(v) && forall n :: CloseAt(f, g, n)
    ensures Equal(Mapped(v, f), Mapped(v, g))
  {
    AllNumbersImply(v, IsDouble, Close(f, g));
    MappedEqual(v, f, g);
  }

  lemma ChainBroken(b: Value)
    requires Doubles(b) && !AllNumbers(b, AtLeastOne)
    ensures exists a, c :: Doubles(a) && Doubles(c) && Equal(a, b) && Equal(b, c) && !Equal(a, c)
  {
    hide IsDouble, Above, Below, AllNumbers;
    forall n ensures IsDouble(n) ==> IsDouble(Up(n)) && IsDouble(Down(n))
             ensures CloseAt(Up, Id, n) && CloseAt(Id, Down, n)
             ensures CloseAt(Up, Down, n) ==> AtLeastOne(n) {
      UpDown(n);
    }
    var a, c := Mapped(b, Up), Mapped(b, Down);
    MappedNumbers(b, Up, IsDouble);
    MappedNumbers(b, Down, IsDouble);
    MappedById(b);
    AllClose(b, Up, Id);
    AllClose(b, Id, Down);
    MappedEqual(b, Up, Down);
    if Equal(a, c) { AllNumbersImply(b, Close(Up, Down), AtLeastOne); }
  }

  /** `==` chains through a value exactly when every number in it has magnitude at least one. */
  lemma TransitiveExactly(b: Value)
    requires Doubles(b)
    ensures (forall a, c | Doubles(a) && Doubles(c) && Equal(a, b) && Equal(b, c) :: Equal(a, c)) <==>
            AllNumbers(b, AtLeastOne)
  {
    hide Doubles, AllNumbers, Equal;
    if AllNumbers(b, AtLeastOne) {
      forall a, c | Doubles(a) && Doubles(c) && Equal(a, b) && Equal(b, c) ensures Equal(a, c) {
        EqualChains(a, b, c);
      }
    } else {
      ChainBroken(b);
    }
  }

  lemma Blurred(a: Value)
    requires Doubles(a) && !AllNumbers(a, BeyondOne)
    ensures exists b :: Doubles(b) && Equal(a, b) && a != b
  {
    hide IsDouble, Above, Below, AllNumbers;
    forall n ensures (IsDouble(n) ==> IsDouble(Other(n))) && CloseAt(Id, Other, n)
             ensures SameAt(Id, Other, n) ==> BeyondOne(n) {
      OtherIsNear(n);
    }
    var b := Mapped(a, Other);
    MappedNumbers(a, Other, IsDouble);
    MappedById(a);
    AllClose(a, Id, Other);
    if a == b {
      MappedSame(a, Id, Other);
      AllNumbersImply(a, Same(Id, Other), BeyondOne);
    }
  }

  /** `==` on a value agrees with `<`, whatever it is compared to, exactly when every number in
      it has magnitude above one. */
  lemma AgreesExactly(a: Value)
    requires Doubles(a)
    ensures (forall b | Doubles(b) :: Equal(a, b) <==> !Less(a, b) && !Less(b, a)) <==> AllNumbers(a, BeyondOne)
  {
    hide Doubles, AllNumbers, Equal, Less;
    if AllNumbers(a, BeyondOne) {
      forall b | Doubles(b) ensures Equal(a, b) <==> !Less(a, b) && !Less(b, a) {
        StrictTotalOrder(a, b, a);
        EqualReflexive(a);
        if Equal(a, b) { EqualBeyondOne(a, b); }
      }
    } else {
      Blurred(a);
      var b :| Doubles(b) && Equal(a, b) && a != b;
      StrictTotalOrder(a, b, a);
    }
  }

  /** For instance, three doubles in a chain. */
  lemma EqualIsNotTransitive()
    ensures var a, b, c := Number(0.0), Number(0.75 * EPSILON), Number(1.5 * EPSILON);
            Doubles(a) && Doubles(b) && Doubles(c) && Equal(a, b) && Equal(b, c) && !Equal(a, c) && Less(a, b)
  {
    Sizes();
    assert Pow2(54) == 2 * Pow2(53);
    hide Pow2;
    assert Scaled(0.0, 0, 0);
    assert Scaled(0.75 * EPSILON, 3, 54);
    assert Scaled(1.5 * EPSILON, 3, 53);
  }
}
