/** What `<` on values says, in plain terms: which type comes before which, and that containers
    are decided by their first difference. */
module ValueOrder {
  import opened Values

  // ----- strings -----

  ghost predicate StringsSplit(a: string, b: string, i: nat) {
    i <= |a| && i < |b| && a[..i] == b[..i] && (i == |a| || a[i] < b[i])
  }

  lemma HeadsAgree(a: string, b: string, i: nat)
    requires 0 < i <= |a| && i < |b| && a[..i] == b[..i]
    ensures a[0] == b[0]
  {
    assert a[0] == a[..i][0] && b[0] == b[..i][0];
  }

  /** The first difference decides; a proper prefix comes first. */
  lemma {:induction false} StringLessMeans(a: string, b: string)
    ensures StringLess(a, b) <==>
              exists i :: 0 <= i <= |a| && i < |b| && a[..i] == b[..i] && (i == |a| || a[i] < b[i])
  {
    if a != [] && b != [] && a[0] == b[0] {
      StringLessMeans(a[1..], b[1..]);
      if StringLess(a[1..], b[1..]) {
        var i :| 0 <= i <= |a[1..]| && i < |b[1..]| && a[1..][..i] == b[1..][..i] &&
          (i == |a[1..]| || a[1..][i] < b[1..][i]);
        assert a[..i + 1] == [a[0]] + a[1..][..i] && b[..i + 1] == [b[0]] + b[1..][..i];
        assert StringsSplit(a, b, i + 1);
      }
      if i :| 0 <= i <= |a| && i < |b| && a[..i] == b[..i] && (i == |a| || a[i] < b[i]) {
        assert i > 0;
        assert a[1..][..i - 1] == a[..i][1..] && b[1..][..i - 1] == b[..i][1..];
        assert StringsSplit(a[1..], b[1..], i - 1);
      }
    } else if StringLess(a, b) {
      assert a[..0] == b[..0];
    } else if i :| 0 <= i <= |a| && i < |b| && a[..i] == b[..i] && (i == |a| || a[i] < b[i]) {
      if i > 0 { HeadsAgree(a, b, i); }
    }
  }

  // ----- values of different types, and values without parts -----

  /** Null comes before booleans, these before numbers, then strings, arrays and objects. */
  lemma LessAcrossTypes(a: Value, b: Value)
    requires TypeOf(a) != TypeOf(b)
    ensures Less(a, b) <==>
              || a.Null?
              || (a.Bool? && !b.Null?)
              || (a.Number? && (b.String? || b.Array? || b.Object?))
              || (a.String? && (b.Array? || b.Object?))
              || (a.Array? && b.Object?)
  {
  }

  /** False comes before true; numbers and strings compare as such. */
  lemma LessOfLeaves(a: Value, b: Value)
    ensures a.Null? && b.Null? ==> !Less(a, b)
    ensures a.Bool? && b.Bool? ==> (Less(a, b) <==> !a.b && b.b)
    ensures a.Number? && b.Number? ==> (Less(a, b) <==> a.n < b.n)
    ensures a.String? && b.String? ==> (Less(a, b) <==> StringLess(a.s, b.s))
  {
  }

  // ----- containers -----

  ghost predicate CellsSplit(x: seq<Cell>, y: seq<Cell>, i: nat) {
    i <= |x| && i < |y| && x[..i] == y[..i] && (i == |x| || CellLess(x[i], y[i]))
  }

  lemma SplitAgrees(x: seq<Cell>, y: seq<Cell>, k: nat, i: nat)
    requires CellsSplit(x, y, i) && k < i
    ensures x[k] == y[k]
  {
    assert x[k] == x[..i][k] && y[k] == y[..i][k];
  }

  lemma {:induction false} LexMeans(a: Value, b: Value, k: nat)
    requires Compound(a) && Compound(b) && k <= |Cells(a)| && k <= |Cells(b)| && Cells(a)[..k] == Cells(b)[..k]
    ensures LexLess(a, b, k) <==> exists i :: k <= i && CellsSplit(Cells(a), Cells(b), i)
    decreases |Cells(a)| - k
  {
    var x, y := Cells(a), Cells(b);
    hide Cells, LexLess, CellLess;
    LexLessUnfolded(a, b, k);
    if k < |x| && k < |y| {
      CellIrreflexive(x[k]);
      CellTotal(x[k], y[k]);
      if CellLess(x[k], y[k]) {
        assert CellsSplit(x, y, k);
      } else if x[k] == y[k] {
        assert x[..k + 1] == x[..k] + [x[k]] && y[..k + 1] == y[..k] + [y[k]];
        LexMeans(a, b, k + 1);
      } else if i :| k <= i && CellsSplit(x, y, i) {
        if k < i { SplitAgrees(x, y, k, i); }
      }
    } else if k < |y| {
      assert CellsSplit(x, y, k);
    }
  }

  ghost predicate ArraysSplit(x: seq<Value>, y: seq<Value>, i: nat) {
    i <= |x| && i < |y| && x[..i] == y[..i] && (i == |x| || Less(x[i], y[i]))
  }

  lemma SplitArrays(x: seq<Value>, y: seq<Value>, i: nat)
    ensures CellsSplit(Cells(Array(x)), Cells(Array(y)), i) <==> ArraysSplit(x, y, i)
  {
    hide Less;
    var c, d := Cells(Array(x)), Cells(Array(y));
    if i <= |x| && i < |y| {
      assert i < |x| ==> c[i] == Cell("", x[i]) && d[i] == Cell("", y[i]);
      assert forall j | 0 <= j < i :: c[j] == Cell("", x[j]) && d[j] == Cell("", y[j]);
      if c[..i] == d[..i] {
        forall j | 0 <= j < i ensures x[j] == y[j] {
          assert c[j] == c[..i][j] && d[j] == d[..i][j];
        }
        assert x[..i] == y[..i];
      }
      if x[..i] == y[..i] {
        forall j | 0 <= j < i ensures c[j] == d[j] {
          assert x[j] == x[..i][j] && y[j] == y[..i][j];
        }
        assert c[..i] == d[..i];
      }
    }
  }

  /** Arrays compare at the first place where they are not identical; a proper prefix comes
      first. */
  lemma LessOfArrays(x: seq<Value>, y: seq<Value>)
    ensures Less(Array(x), Array(y)) <==>
              exists i :: 0 <= i <= |x| && i < |y| && x[..i] == y[..i] && (i == |x| || Less(x[i], y[i]))
  {
    var a, b := Array(x), Array(y);
    assert Less(a, b) <==> LexLess(a, b, 0);
    assert Cells(a)[..0] == Cells(b)[..0];
    LexMeans(a, b, 0);
    hide Less, LexLess, Cells;
    if i: nat :| CellsSplit(Cells(a), Cells(b), i) {
      SplitArrays(x, y, i);
      assert ArraysSplit(x, y, i);
    }
    if i :| 0 <= i <= |x| && i < |y| && x[..i] == y[..i] && (i == |x| || Less(x[i], y[i])) {
      assert ArraysSplit(x, y, i);
      SplitArrays(x, y, i);
    }
  }

  /** The entries of an object are all of its members. */
  lemma {:induction false} EntriesComplete(o: map<string, Value>, k: string)
    requires k in o
    ensures exists i :: 0 <= i < |Entries(o)| && Entries(o)[i] == Cell(k, o[k])
    decreases |o|
  {
    var least := LeastKey(o);
    FirstEntry(o);
    hide Entries, LeastKey;
    if k == least {
      assert Entries(o)[0] == Cell(k, o[k]);
    } else {
      EntriesComplete(o - {least}, k);
      var i :| 0 <= i < |Entries(o - {least})| && Entries(o - {least})[i] == Cell(k, (o - {least})[k]);
      assert Entries(o)[i + 1] == Cell(k, o[k]);
    }
  }

  lemma CellLessMeans(c: Cell, d: Cell)
    ensures CellLess(c, d) <==> StringLess(c.key, d.key) || (c.key == d.key && Less(c.value, d.value))
  {
    hide Less;
    StringTotal(c.key, d.key);
    StringIrreflexive(c.key);
    if StringLess(c.key, d.key) && StringLess(d.key, c.key) { StringTransitive(c.key, d.key, c.key); }
  }

  ghost predicate EntriesSplit(x: seq<Cell>, y: seq<Cell>, i: nat) {
    && i <= |x| && i < |y| && x[..i] == y[..i]
    && (i == |x| || StringLess(x[i].key, y[i].key) || (x[i].key == y[i].key && Less(x[i].value, y[i].value)))
  }

  lemma SplitEntries(x: seq<Cell>, y: seq<Cell>, i: nat)
    ensures CellsSplit(x, y, i) <==> EntriesSplit(x, y, i)
  {
    if i < |x| && i < |y| { CellLessMeans(x[i], y[i]); }
    hide Less, CellLess, StringLess;
  }

  lemma ObjectCells(o: map<string, Value>)
    ensures Cells(Object(o)) == Entries(o)
  {
  }

  lemma ObjectsLex(o: map<string, Value>, p: map<string, Value>)
    ensures Less(Object(o), Object(p)) <==> exists i: nat :: CellsSplit(Entries(o), Entries(p), i)
  {
    var a, b, x, y := Object(o), Object(p), Entries(o), Entries(p);
    assert Less(a, b) <==> LexLess(a, b, 0);
    ObjectCells(o);
    ObjectCells(p);
    hide Less, LexLess, Cells, Entries, CellsSplit;
    assert Cells(a)[..0] == Cells(b)[..0];
    LexMeans(a, b, 0);
    if i: nat :| CellsSplit(x, y, i) {
      assert 0 <= i && CellsSplit(Cells(a), Cells(b), i);
    }
    if i: nat :| CellsSplit(Cells(a), Cells(b), i) {
      assert CellsSplit(x, y, i);
    }
  }

  /** Objects compare at their first entry, in key order, that is not identical: by key and then
      by value; the one that runs out of entries comes first. */
  lemma LessOfObjects(o: map<string, Value>, p: map<string, Value>)
    ensures Less(Object(o), Object(p)) <==> exists i: nat :: EntriesSplit(Entries(o), Entries(p), i)
  {
    hide Less, Entries, CellsSplit, EntriesSplit;
    var x, y := Entries(o), Entries(p);
    ObjectsLex(o, p);
    if i: nat :| CellsSplit(x, y, i) {
      SplitEntries(x, y, i);
      assert EntriesSplit(x, y, i);
    }
    if i: nat :| EntriesSplit(x, y, i) {
      SplitEntries(x, y, i);
      assert CellsSplit(x, y, i);
    }
  }
}
