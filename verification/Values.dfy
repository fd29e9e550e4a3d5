/** JSON-like values, their equality up to epsilon and their order.  Numbers are reals. */
module Values {
  import opened Options

  datatype Value =
    | Null
    | Bool(b: bool)
    | Number(n: real)
    | String(s: string)
    | Array(a: seq<Value>)
    | Object(o: map<string, Value>)

  datatype Type = KNull | KBool | KNumber | KString | KArray | KObject

  function TypeOf(v: Value): Type {
    match v
    case Null => KNull
    case Bool(_) => KBool
    case Number(_) => KNumber
    case String(_) => KString
    case Array(_) => KArray
    case Object(_) => KObject
  }

  /** The underlying integer of the type tag. */
  function Tag(t: Type): nat {
    match t
    case KNull => 0 case KBool => 1 case KNumber => 2 case KString => 3 case KArray => 4 case KObject => 5
  }

  // ----- strings -----

  /** `operator<` of strings: the first difference decides, a proper prefix comes first. */
  predicate StringLess(a: string, b: string) {
    b != [] && (a == [] || a[0] < b[0] || (a[0] == b[0] && StringLess(a[1..], b[1..])))
  }

  lemma {:induction false} StringIrreflexive(a: string)
    ensures !StringLess(a, a)
  {
    if a != [] { StringIrreflexive(a[1..]); }
  }

  lemma {:induction false} StringTransitive(a: string, b: string, c: string)
    requires StringLess(a, b) && StringLess(b, c)
    ensures StringLess(a, c)
  {
    if a != [] && a[0] == b[0] == c[0] { StringTransitive(a[1..], b[1..], c[1..]); }
  }

  lemma {:induction false} StringTotal(a: string, b: string)
    ensures StringLess(a, b) || StringLess(b, a) || a == b
  {
    if a != [] && b != [] && a[0] == b[0] {
      StringTotal(a[1..], b[1..]);
      assert a == [a[0]] + a[1..] && b == [b[0]] + b[1..];
    }
  }

  // ----- the entries of an object in key order -----

  ghost predicate IsLeastKey(o: map<string, Value>, k: string) {
    k in o && forall j | j in o && j != k :: StringLess(k, j)
  }

  lemma {:induction false} LeastKeyExists(o: map<string, Value>) returns (k: string)
    requires o != map[]
    ensures IsLeastKey(o, k)
    decreases |o|
  {
    var j :| j in o;
    if o - {j} == map[] {
      k := j;
      assert (o - {j}).Keys == o.Keys - {j} == {};
      forall i | i in o ensures i == j {
        assert i == j || i in o.Keys - {j};
      }
    } else {
      var m := LeastKeyExists(o - {j});
      StringTotal(j, m);
      if StringLess(j, m) {
        k := j;
        forall i | i in o && i != j ensures StringLess(j, i) {
          assert i in o - {j};
          if i != m { StringTransitive(j, m, i); }
        }
      } else {
        k := m;
        assert forall i | i in o && i != m :: i == j || i in o - {j};
      }
    }
  }

  ghost function LeastKey(o: map<string, Value>): (k: string)
    requires o != map[]
    ensures IsLeastKey(o, k)
  {
    assert exists k :: IsLeastKey(o, k) by { var k := LeastKeyExists(o); }
    var k :| IsLeastKey(o, k);
    k
  }

  /** The elements of an array or the entries of an object, as its iterators give them; the
      elements of an array carry no key. */
  datatype Cell = Cell(key: string, value: Value)

  ghost function Entries(o: map<string, Value>): (cells: seq<Cell>)
    ensures forall i | 0 <= i < |cells| :: cells[i].key in o && o[cells[i].key] == cells[i].value
    decreases |o|
  {
    if o == map[] then []
    else
      var k := LeastKey(o);
      [Cell(k, o[k])] + Entries(o - {k})
  }

  /** The iteration is in key order. */
  lemma {:induction false} EntriesSorted(o: map<string, Value>)
    ensures forall i, j | 0 <= i < j < |Entries(o)| :: StringLess(Entries(o)[i].key, Entries(o)[j].key)
    decreases |o|
  {
    if o != map[] {
      var k := LeastKey(o);
      EntriesSorted(o - {k});
      assert forall j | 0 < j < |Entries(o)| :: Entries(o)[j] == Entries(o - {k})[j - 1];
    }
  }

  lemma FirstEntry(o: map<string, Value>)
    ensures Entries(o) == [] <==> o == map[]
    ensures o != map[] ==> var k := LeastKey(o); Entries(o) == [Cell(k, o[k])] + Entries(o - {k})
  {
  }

  lemma WithoutKey(o: map<string, Value>, k: string)
    requires k in o
    ensures o == (o - {k})[k := o[k]]
  {
  }

  lemma {:induction false} EntriesInjective(o: map<string, Value>, p: map<string, Value>)
    requires Entries(o) == Entries(p)
    ensures o == p
    decreases |o|
  {
    FirstEntry(o);
    FirstEntry(p);
    if o != map[] && p != map[] {
      hide Entries, LeastKey;
      var k := LeastKey(o);
      assert Entries(o)[0] == Entries(p)[0];
      assert Entries(o - {k}) == Entries(o)[1..] == Entries(p)[1..] == Entries(p - {k});
      EntriesInjective(o - {k}, p - {k});
      WithoutKey(o, k);
      WithoutKey(p, k);
    }
  }

  ghost predicate Compound(v: Value) { v.Array? || v.Object? }

  ghost function Cells(v: Value): (cells: seq<Cell>)
    requires Compound(v)
    ensures forall i | 0 <= i < |cells| :: cells[i].value < v
  {
    match v
    case Array(a) => seq(|a|, i requires 0 <= i < |a| => Cell("", a[i]))
    case Object(o) => Entries(o)
  }

  lemma CellsInjective(a: Value, b: Value)
    requires Compound(a) && TypeOf(a) == TypeOf(b) && Cells(a) == Cells(b)
    ensures a == b
  {
    match a
    case Array(x) =>
      assert forall i | 0 <= i < |x| :: x[i] == Cells(a)[i].value && b.a[i] == Cells(b)[i].value;
      assert x == b.a;
    case Object(x) => EntriesInjective(x, b.o);
  }

  // ----- the order -----

  /** `operator<` on values, asked as a < b or, when `flip` is set, as b < a: by type tag and
      then by payload. */
  ghost predicate Before(a: Value, b: Value, flip: bool)
    decreases a, 1, 0
  {
    if TypeOf(a) != TypeOf(b) then
      if flip then Tag(TypeOf(b)) < Tag(TypeOf(a)) else Tag(TypeOf(a)) < Tag(TypeOf(b))
    else match a
      case Null => false
      case Bool(x) => if flip then !b.b && x else !x && b.b
      case Number(x) => if flip then b.n < x else x < b.n
      case String(x) => if flip then StringLess(b.s, x) else StringLess(x, b.s)
      case _ => LexBefore(a, b, flip, 0)
  }

  /** std::lexicographical_compare from position `i` on: it asks for `<` both ways round. */
  ghost predicate LexBefore(a: Value, b: Value, flip: bool, i: nat)
    requires Compound(a) && Compound(b) && i <= |Cells(a)| && i <= |Cells(b)|
    decreases a, 0, |Cells(a)| - i
  {
    var x, y := Cells(a), Cells(b);
    if flip then i < |x| && (i == |y| || CellBefore(a, x[i], y[i], true) ||
                             (!CellBefore(a, x[i], y[i], false) && LexBefore(a, b, true, i + 1)))
    else i < |y| && (i == |x| || CellBefore(a, x[i], y[i], false) ||
                     (!CellBefore(a, x[i], y[i], true) && LexBefore(a, b, false, i + 1)))
  }

  /** `operator<` on pairs. */
  ghost predicate CellBefore(parent: Value, c: Cell, d: Cell, flip: bool)
    requires c.value < parent
    decreases parent, 0, 0
  {
    var k, l := if flip then d.key else c.key, if flip then c.key else d.key;
    StringLess(k, l) || (!StringLess(l, k) && Before(c.value, d.value, flip))
  }

  ghost predicate Less(a: Value, b: Value) { Before(a, b, false) }

  lemma {:induction false} Flipped(a: Value, b: Value, flip: bool)
    ensures Before(a, b, flip) == Before(b, a, !flip)
    decreases a, 1, 0
  {
    if TypeOf(a) == TypeOf(b) && Compound(a) {
      LexFlipped(a, b, flip, 0);
    }
  }

  lemma {:induction false} LexFlipped(a: Value, b: Value, flip: bool, i: nat)
    requires Compound(a) && Compound(b) && i <= |Cells(a)| && i <= |Cells(b)|
    ensures LexBefore(a, b, flip, i) == LexBefore(b, a, !flip, i)
    decreases a, 0, |Cells(a)| - i
  {
    hide CellBefore, Before;
    if i < |Cells(a)| && i < |Cells(b)| {
      CellFlipped(a, b, flip, i);
      CellFlipped(a, b, !flip, i);
      LexFlipped(a, b, flip, i + 1);
    }
  }

  lemma {:induction false} CellFlipped(a: Value, b: Value, flip: bool, i: nat)
    requires Compound(a) && Compound(b) && i < |Cells(a)| && i < |Cells(b)|
    ensures CellBefore(a, Cells(a)[i], Cells(b)[i], flip) == CellBefore(b, Cells(b)[i], Cells(a)[i], !flip)
    decreases a, 0, 0
  {
    Flipped(Cells(a)[i].value, Cells(b)[i].value, flip);
  }

  ghost predicate CellLess(c: Cell, d: Cell) {
    StringLess(c.key, d.key) || (!StringLess(d.key, c.key) && Less(c.value, d.value))
  }

  ghost predicate LexLess(a: Value, b: Value, i: nat)
    requires Compound(a) && Compound(b) && i <= |Cells(a)| && i <= |Cells(b)|
  {
    LexBefore(a, b, false, i)
  }

  /** The comparison unfolded in terms of `<` alone. */
  lemma LexLessUnfolded(a: Value, b: Value, i: nat)
    requires Compound(a) && Compound(b) && i <= |Cells(a)| && i <= |Cells(b)|
    ensures var x, y := Cells(a), Cells(b);
            LexLess(a, b, i) <==>
              i < |y| && (i == |x| || CellLess(x[i], y[i]) || (!CellLess(y[i], x[i]) && LexLess(a, b, i + 1)))
  {
    var x, y := Cells(a), Cells(b);
    if i < |x| && i < |y| {
      Flipped(x[i].value, y[i].value, true);
      assert CellBefore(a, x[i], y[i], true) == CellLess(y[i], x[i]);
      assert CellBefore(a, x[i], y[i], false) == CellLess(x[i], y[i]);
    }
  }

  lemma {:induction false} Irreflexive(a: Value)
    ensures !Less(a, a)
    decreases a, 1, 0
  {
    match a
    case String(s) => StringIrreflexive(s);
    case Array(_) => LexIrreflexive(a, 0);
    case Object(_) => LexIrreflexive(a, 0);
    case _ =>
  }

  lemma {:induction false} LexIrreflexive(a: Value, i: nat)
    requires Compound(a) && i <= |Cells(a)|
    ensures !LexLess(a, a, i)
    decreases a, 0, |Cells(a)| - i
  {
    LexLessUnfolded(a, a, i);
    if i < |Cells(a)| {
      StringIrreflexive(Cells(a)[i].key);
      Irreflexive(Cells(a)[i].value);
      LexIrreflexive(a, i + 1);
    }
  }

  lemma WholeCells(a: Value, b: Value)
    requires Compound(a) && TypeOf(a) == TypeOf(b)
    ensures Cells(a)[0..] == Cells(b)[0..] ==> a == b
  {
    if Cells(a)[0..] == Cells(b)[0..] {
      assert Cells(a)[0..] == Cells(a) && Cells(b)[0..] == Cells(b);
      CellsInjective(a, b);
    }
  }

  /** Any two values are ordered or structurally identical. */
  lemma {:induction false} Total(a: Value, b: Value)
    ensures Less(a, b) || Less(b, a) || a == b
    decreases a, 1, 0
  {
    if TypeOf(a) == TypeOf(b) {
      match a
      case String(s) => StringTotal(s, b.s);
      case Array(_) => LexTotal(a, b, 0); WholeCells(a, b);
      case Object(_) => LexTotal(a, b, 0); WholeCells(a, b);
      case _ =>
    }
  }

  lemma SameFrom(x: seq<Cell>, y: seq<Cell>, i: nat)
    requires i < |x| && i < |y|
    ensures x[i] == y[i] && x[i + 1..] == y[i + 1..] ==> x[i..] == y[i..]
  {
    assert x[i..] == [x[i]] + x[i + 1..] && y[i..] == [y[i]] + y[i + 1..];
  }

  lemma {:induction false} LexTotal(a: Value, b: Value, i: nat)
    requires Compound(a) && Compound(b) && i <= |Cells(a)| && i <= |Cells(b)|
    ensures LexLess(a, b, i) || LexLess(b, a, i) || Cells(a)[i..] == Cells(b)[i..]
    decreases a, 0, |Cells(a)| - i
  {
    var x, y := Cells(a), Cells(b);
    LexLessUnfolded(a, b, i);
    LexLessUnfolded(b, a, i);
    hide LexLess, Less;
    if i < |x| && i < |y| {
      StringTotal(x[i].key, y[i].key);
      Total(x[i].value, y[i].value);
      LexTotal(a, b, i + 1);
      SameFrom(x, y, i);
    }
  }

  lemma CellTotal(c: Cell, d: Cell)
    ensures CellLess(c, d) || CellLess(d, c) || c == d
  {
    StringTotal(c.key, d.key);
    Total(c.value, d.value);
  }

  lemma {:induction false} Transitive(a: Value, b: Value, c: Value)
    requires Less(a, b) && Less(b, c)
    ensures Less(a, c)
    decreases a, 1, 0
  {
    if TypeOf(a) == TypeOf(b) == TypeOf(c) {
      match a
      case String(s) => StringTransitive(s, b.s, c.s);
      case Array(_) => LexTransitive(a, b, c, 0);
      case Object(_) => LexTransitive(a, b, c, 0);
      case _ =>
    }
  }

  lemma CellIrreflexive(c: Cell)
    ensures !CellLess(c, c)
  {
    StringIrreflexive(c.key);
    Irreflexive(c.value);
  }

  lemma {:induction false} LexTransitive(a: Value, b: Value, c: Value, i: nat)
    requires Compound(a) && Compound(b) && Compound(c) && i <= |Cells(a)| && i <= |Cells(b)| && i <= |Cells(c)|
    requires LexLess(a, b, i) && LexLess(b, c, i)
    ensures LexLess(a, c, i)
    decreases a, 0, |Cells(a)| - i
  {
    var x, y, z := Cells(a), Cells(b), Cells(c);
    LexLessUnfolded(a, b, i);
    LexLessUnfolded(b, c, i);
    LexLessUnfolded(a, c, i);
    if i < |x| {
      CellTotal(x[i], y[i]);
      CellTotal(y[i], z[i]);
      if CellLess(x[i], y[i]) && CellLess(y[i], z[i]) {
        CellTransitive(a, x[i], y[i], z[i]);
      } else if x[i] == y[i] == z[i] {
        CellIrreflexive(x[i]);
        LexTransitive(a, b, c, i + 1);
      }
    }
  }

  lemma {:induction false} CellTransitive(parent: Value, c: Cell, d: Cell, e: Cell)
    requires c.value < parent && CellLess(c, d) && CellLess(d, e)
    ensures CellLess(c, e)
    decreases parent, 0, 0
  {
    StringTotal(c.key, d.key);
    StringTotal(d.key, e.key);
    if StringLess(c.key, d.key) && StringLess(d.key, e.key) {
      StringTransitive(c.key, d.key, e.key);
    } else if c.key == d.key == e.key {
      StringIrreflexive(c.key);
      Transitive(c.value, d.value, e.value);
    }
  }

  /** `<` is a strict total order up to structural identity. */
  lemma StrictTotalOrder(a: Value, b: Value, c: Value)
    ensures !Less(a, a)
    ensures Less(a, b) ==> !Less(b, a)
    ensures Less(a, b) && Less(b, c) ==> Less(a, c)
    ensures (!Less(a, b) && !Less(b, a)) <==> a == b
  {
    Irreflexive(a);
    Total(a, b);
    if Less(a, b) && Less(b, c) { Transitive(a, b, c); }
    if Less(a, b) && Less(b, a) { Transitive(a, b, a); }
  }

  // ----- equality -----

  /** The machine epsilon of double. */
  const EPSILON: real := 1.0 / 4503599627370496.0

  function Abs(x: real): real { if x < 0.0 then -x else x }

  /** `operator==`: numbers are equal within epsilon, containers cell by cell. */
  ghost predicate Equal(a: Value, b: Value)
    decreases a
  {
    TypeOf(a) == TypeOf(b) &&
    match a
    case Null => true
    case Bool(x) => x == b.b
    case Number(x) => Abs(x - b.n) < EPSILON
    case String(x) => x == b.s
    case _ =>
      var x, y := Cells(a), Cells(b);
      |x| == |y| && forall i | 0 <= i < |x| :: x[i].key == y[i].key && Equal(x[i].value, y[i].value)
  }

  lemma {:induction false} EqualReflexive(a: Value)
    ensures Equal(a, a)
    decreases a
  {
    if Compound(a) {
      forall i | 0 <= i < |Cells(a)| ensures Equal(Cells(a)[i].value, Cells(a)[i].value) {
        EqualReflexive(Cells(a)[i].value);
      }
    }
  }

  /** Values neither of which is less than the other are equal. */
  lemma NeitherLessIsEqual(a: Value, b: Value)
    requires !Less(a, b) && !Less(b, a)
    ensures Equal(a, b)
  {
    Total(a, b);
    EqualReflexive(a);
  }

  /** Numbers at the same place are the same or at least epsilon apart. */
  ghost predicate Resolved(a: Value, b: Value)
    decreases a
  {
    TypeOf(a) == TypeOf(b) ==>
      match a
      case Number(x) => x == b.n || Abs(x - b.n) >= EPSILON
      case Array(_) => CellsResolved(a, b)
      case Object(_) => CellsResolved(a, b)
      case _ => true
  }

  ghost predicate CellsResolved(a: Value, b: Value)
    requires Compound(a) && Compound(b)
    decreases a, 0
  {
    forall i | 0 <= i < |Cells(a)| && i < |Cells(b)| :: Resolved(Cells(a)[i].value, Cells(b)[i].value)
  }

  lemma {:induction false} ResolvedReflexive(a: Value)
    ensures Resolved(a, a)
    decreases a
  {
    if Compound(a) {
      forall i | 0 <= i < |Cells(a)| ensures Resolved(Cells(a)[i].value, Cells(a)[i].value) {
        ResolvedReflexive(Cells(a)[i].value);
      }
    }
  }

  lemma {:induction false} EqualAndResolved(a: Value, b: Value)
    requires Equal(a, b) && Resolved(a, b)
    ensures a == b
    decreases a
  {
    if Compound(a) {
      var x, y := Cells(a), Cells(b);
      forall i | 0 <= i < |x| ensures x[i] == y[i] {
        assert CellsResolved(a, b);
        EqualAndResolved(x[i].value, y[i].value);
      }
      CellsInjective(a, b);
    }
  }

  /** On a given pair `==` agrees with `<`, that is, it holds exactly when neither value is
      less, if and only if it does not blur two different numbers. */
  lemma AgreesOnPair(a: Value, b: Value)
    ensures (Equal(a, b) <==> !Less(a, b) && !Less(b, a)) <==> (Equal(a, b) ==> Resolved(a, b))
  {
    StrictTotalOrder(a, b, a);
    EqualReflexive(a);
    ResolvedReflexive(a);
    if Equal(a, b) && Resolved(a, b) { EqualAndResolved(a, b); }
  }

  /** All numbers inside are integers. */
  ghost predicate Integral(v: Value)
    decreases v
  {
    match v
    case Number(n) => n.Floor as real == n
    case Array(_) => forall i | 0 <= i < |Cells(v)| :: Integral(Cells(v)[i].value)
    case Object(_) => forall i | 0 <= i < |Cells(v)| :: Integral(Cells(v)[i].value)
    case _ => true
  }

  /** Values without fractions are never blurred, so on them `==` is identity. */
  lemma {:induction false} IntegersAreResolved(a: Value, b: Value)
    requires Integral(a) && Integral(b)
    ensures Resolved(a, b)
    ensures Equal(a, b) <==> a == b
    decreases a
  {
    if TypeOf(a) == TypeOf(b) {
      match a
      case Number(x) => assert -1 < x.Floor - b.n.Floor < 1 ==> x == b.n;
      case Array(_) => IntegerCells(a, b);
      case Object(_) => IntegerCells(a, b);
      case _ =>
    }
    EqualReflexive(a);
    if Equal(a, b) { EqualAndResolved(a, b); }
  }

  lemma {:induction false} IntegerCells(a: Value, b: Value)
    requires Compound(a) && TypeOf(a) == TypeOf(b) && Integral(a) && Integral(b)
    ensures CellsResolved(a, b)
    decreases a, 0
  {
    forall i | 0 <= i < |Cells(a)| && i < |Cells(b)| ensures Resolved(Cells(a)[i].value, Cells(b)[i].value) {
      IntegersAreResolved(Cells(a)[i].value, Cells(b)[i].value);
    }
  }

  // ----- copies -----

  /** `Clone`, container by container. */
  function Clone(v: Value): Value {
    match v
    case Array(a) => Array(seq(|a|, i requires 0 <= i < |a| => Clone(a[i])))
    case Object(o) => Object(map k | k in o :: Clone(o[k]))
    case _ => v
  }

  /** A clone is structurally identical, so it is equal to the original and not ordered
      before or after it. */
  lemma {:induction false} CloneIsIdentical(v: Value)
    ensures Clone(v) == v
    ensures Equal(Clone(v), v) && !Less(Clone(v), v) && !Less(v, Clone(v))
  {
    match v {
      case Array(a) =>
        forall i | 0 <= i < |a| ensures Clone(a[i]) == a[i] { CloneIsIdentical(a[i]); }
        assert Clone(v).a == a;
      case Object(o) =>
        forall k | k in o ensures Clone(o[k]) == o[k] { CloneIsIdentical(o[k]); }
        assert Clone(v).o == o;
      case _ =>
    }
    EqualReflexive(v);
    Irreflexive(v);
  }

  // ----- integers -----

  const INT_MIN := -2147483648
  const INT_MAX := 2147483647
  const MAX_SAFE_INTEGER := 9007199254740991

  /** The conversion of a floating-point number to an integer type: towards zero. */
  function Truncate(x: real): int {
    if x >= 0.0 then x.Floor else -((-x).Floor)
  }

  lemma TruncateTowardsZero(x: real)
    ensures Abs(Truncate(x) as real) <= Abs(x) && Abs(x - Truncate(x) as real) < 1.0
  {
  }

  predicate IsInt(v: Value) {
    v.Number? && INT_MIN as real <= v.n <= INT_MAX as real && Truncate(v.n) as real == v.n
  }

  predicate IsInt64(v: Value) {
    v.Number? && Abs(v.n) <= MAX_SAFE_INTEGER as real && Truncate(v.n) as real == v.n
  }

  /** The value that an integer makes. */
  function OfInt(i: int): Value { Number(i as real) }

  /** Reading the integer gives the one the value was made of. */
  lemma IntegerReadsBack(i: int)
    ensures Truncate(OfInt(i).n) == i
  {
    assert -(i as real) == (-i) as real;
  }

  /** Exactly the values made of integers in range pass as integers. */
  lemma IntegersExactly(v: Value)
    ensures IsInt(v) <==> exists i :: INT_MIN <= i <= INT_MAX && v == OfInt(i)
    ensures IsInt64(v) <==> exists i :: -MAX_SAFE_INTEGER <= i <= MAX_SAFE_INTEGER && v == OfInt(i)
  {
    if v.Number? && Truncate(v.n) as real == v.n {
      assert v == OfInt(Truncate(v.n));
    }
    forall i | v == OfInt(i) ensures v.n == i as real && Truncate(v.n) == i {
      IntegerReadsBack(i);
    }
  }
}
