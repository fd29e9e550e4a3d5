/** Dotted paths: splitting at '.', and what setting and finding a path mean on values. */
module Paths {
  import opened Options
  import opened Values

  type Keys = ks: seq<string> | ks != [] witness [""]

  // ----- splitting -----

  /** Position of the first '.', or the length of the string. */
  function FindDot(s: string): (i: nat)
    ensures i <= |s| && '.' !in s[..i] && (i < |s| ==> s[i] == '.')
  {
    if s == [] || s[0] == '.' then 0
    else
      var i := 1 + FindDot(s[1..]);
      assert s[..i] == [s[0]] + s[1..][..i - 1];
      i
  }

  function Split(path: string): Keys
    decreases |path|
  {
    var d := FindDot(path);
    if d == |path| then [path] else [path[..d]] + Split(path[d + 1..])
  }

  function Join(ks: Keys): string
    decreases |ks|
  {
    if |ks| == 1 then ks[0] else ks[0] + "." + Join(ks[1..])
  }

  lemma CutAt(s: string, d: nat)
    requires d < |s| && s[d] == '.'
    ensures s == s[..d] + "." + s[d + 1..]
  {
  }

  lemma {:induction false} FirstDot(k: string, rest: string)
    requires '.' !in k
    ensures FindDot(k + "." + rest) == |k|
    ensures FindDot(k) == |k|
  {
    if k != [] {
      FirstDot(k[1..], rest);
      assert k[0] in k;
      assert (k + "." + rest)[1..] == k[1..] + "." + rest;
    }
  }

  lemma SplitWithoutDot(k: string)
    requires FindDot(k) == |k|
    ensures Split(k) == [k]
  {
  }

  lemma SplitAtDot(k: string, rest: string)
    requires '.' !in k
    ensures Split(k + "." + rest) == [k] + Split(rest)
  {
    FirstDot(k, rest);
    assert (k + "." + rest)[..|k|] == k && (k + "." + rest)[|k| + 1..] == rest;
  }

  lemma JoinAtDot(k: string, ks: Keys)
    ensures Join([k] + ks) == k + "." + Join(ks)
  {
    assert ([k] + ks)[1..] == ks;
  }

  lemma JoinOne(k: string)
    ensures Join([k]) == k
  {
  }

  lemma {:induction false} JoinOfSplit(path: string)
    ensures Join(Split(path)) == path
    decreases |path|
  {
    hide Join, Split, FindDot;
    var d := FindDot(path);
    if d < |path| {
      CutAt(path, d);
      SplitAtDot(path[..d], path[d + 1..]);
      JoinOfSplit(path[d + 1..]);
      JoinAtDot(path[..d], Split(path[d + 1..]));
    } else {
      SplitWithoutDot(path);
      JoinOne(path);
    }
  }

  ghost predicate DotFree(ks: seq<string>) {
    forall k | k in ks :: '.' !in k
  }

  /** Splitting undoes joining, for keys without dots; and joining undoes splitting always. */
  lemma {:induction false} SplitOfJoin(ks: Keys)
    requires DotFree(ks)
    ensures Split(Join(ks)) == ks
    decreases |ks|
  {
    assert ks[0] in ks;
    if |ks| == 1 {
      FirstDot(ks[0], "");
    } else {
      var rest := Join(ks[1..]);
      FirstDot(ks[0], rest);
      assert forall k | k in ks[1..] :: k in ks;
      SplitOfJoin(ks[1..]);
      assert Join(ks)[..|ks[0]|] == ks[0] && Join(ks)[|ks[0]| + 1..] == rest;
    }
  }

  lemma {:induction false} SplitIsDotFree(path: string)
    ensures DotFree(Split(path))
    decreases |path|
  {
    var d := FindDot(path);
    if d < |path| { SplitIsDotFree(path[d + 1..]); }
  }

  lemma SplitInjective(p: string, q: string)
    requires Split(p) == Split(q)
    ensures p == q
  {
    JoinOfSplit(p);
    JoinOfSplit(q);
  }

  // ----- setting and finding -----

  /** The value a member lookup may descend into: an object stays, anything else is replaced
      by an empty object. */
  function ChildObject(o: map<string, Value>, key: string): map<string, Value> {
    if key in o && o[key].Object? then o[key].o else map[]
  }

  /** What setting a path does to the members of an object. */
  function Put(o: map<string, Value>, ks: Keys, v: Value): map<string, Value>
    decreases |ks|
  {
    if |ks| == 1 then o[ks[0] := v]
    else o[ks[0] := Object(Put(ChildObject(o, ks[0]), ks[1..], v))]
  }

  function Get(o: map<string, Value>, ks: Keys): Option<Value>
    decreases |ks|
  {
    if ks[0] !in o then None
    else if |ks| == 1 then Some(o[ks[0]])
    else if o[ks[0]].Object? then Get(o[ks[0]].o, ks[1..])
    else None
  }

  /** Lookup inside a value, of a possibly empty list of further keys. */
  function GetIn(v: Value, ks: seq<string>): Option<Value> {
    if ks == [] then Some(v) else if v.Object? then Get(v.o, ks) else None
  }

  lemma GetOne(o: map<string, Value>, k: string)
    ensures Get(o, [k]) == if k in o then Some(o[k]) else None
  {
  }

  /** Looking up a longer path is looking up the rest inside what the first part finds, if that
      is an object. */
  lemma {:induction false} GetComposes(o: map<string, Value>, p: Keys, q: Keys)
    ensures Get(o, p + q) ==
              match Get(o, p)
              case None => None
              case Some(v) => if v.Object? then Get(v.o, q) else None
    decreases |p|
  {
    var both: Keys := p + q;
    if |p| == 1 {
      assert both[1..] == q;
    } else {
      assert both[1..] == p[1..] + q;
      if p[0] in o && o[p[0]].Object? { GetComposes(o[p[0]].o, p[1..], q); }
    }
  }

  ghost predicate Unrelated(p: seq<string>, q: seq<string>) { !(p <= q) && !(q <= p) }

  lemma {:induction false} GetMissing(ks: Keys)
    ensures Get(map[], ks) == None
  {
  }

  /** Setting p and then looking up p, or p extended by more keys. */
  lemma {:induction false} PutThenGetBelow(o: map<string, Value>, p: Keys, v: Value, more: seq<string>)
    ensures Get(Put(o, p, v), p + more) == GetIn(v, more)
    decreases |p|
  {
    var q: Keys := p + more;
    if |p| == 1 {
      assert q[1..] == more;
    } else {
      PutThenGetBelow(ChildObject(o, p[0]), p[1..], v, more);
      assert q[1..] == p[1..] + more;
    }
  }

  /** Looking up a strict prefix of p gives the object that the rest of p was set in. */
  lemma {:induction false} PutThenGetAbove(o: map<string, Value>, q: Keys, more: Keys, v: Value)
    ensures var r := Get(Put(o, q + more, v), q);
            r.Some? && r.value.Object? && Get(r.value.o, more) == Some(v)
    decreases |q|
  {
    var p: Keys := q + more;
    assert p[0] == q[0] && p[1..] == q[1..] + more;
    if |q| == 1 {
      assert p[1..] == more;
      PutThenGetBelow(ChildObject(o, p[0]), more, v, []);
      assert more + [] == more;
    } else {
      PutThenGetAbove(ChildObject(o, p[0]), q[1..], more, v);
    }
  }

  lemma UnrelatedTails(p: Keys, q: Keys)
    requires p[0] == q[0] && Unrelated(p, q)
    ensures |p| > 1 && |q| > 1 && Unrelated(p[1..], q[1..])
  {
    assert p == [p[0]] + p[1..] && q == [p[0]] + q[1..];
  }

  /** Every other path finds what it found before. */
  lemma {:induction false} PutThenGetElsewhere(o: map<string, Value>, p: Keys, q: Keys, v: Value)
    requires Unrelated(p, q)
    ensures Get(Put(o, p, v), q) == Get(o, q)
    decreases |p|
  {
    if p[0] == q[0] {
      UnrelatedTails(p, q);
      PutThenGetElsewhere(ChildObject(o, p[0]), p[1..], q[1..], v);
    }
  }

  /** The second of two settings of one path wins. */
  lemma {:induction false} PutTwice(o: map<string, Value>, p: Keys, v: Value, w: Value)
    ensures Put(Put(o, p, v), p, w) == Put(o, p, w)
    decreases |p|
  {
    if |p| > 1 {
      PutTwice(ChildObject(o, p[0]), p[1..], v, w);
    }
  }

  /** Writing back what was found changes nothing, in the whole tree. */
  lemma {:induction false} PutBack(o: map<string, Value>, p: Keys)
    requires Get(o, p).Some?
    ensures Put(o, p, Get(o, p).value) == o
    decreases |p|
  {
    if |p| > 1 {
      PutBack(o[p[0]].o, p[1..]);
    }
  }

  /** The new value of the member that setting a path replaces; it depends on the old one only. */
  function PutAt(o: map<string, Value>, p: Keys, v: Value): Value {
    if |p| == 1 then v else Object(Put(ChildObject(o, p[0]), p[1..], v))
  }

  lemma PutSplits(o: map<string, Value>, p: Keys, v: Value)
    ensures Put(o, p, v) == o[p[0] := PutAt(o, p, v)]
  {
  }

  lemma PutApart(o: map<string, Value>, p: Keys, q: Keys, v: Value, w: Value)
    requires p[0] != q[0]
    ensures Put(Put(o, p, v), q, w) == o[p[0] := PutAt(o, p, v)][q[0] := PutAt(o, q, w)]
  {
    hide Put;
    PutSplits(o, p, v);
    PutSplits(Put(o, p, v), q, w);
  }

  lemma PutTwoBelow(o: map<string, Value>, p: Keys, q: Keys, v: Value, w: Value)
    requires p[0] == q[0] && |p| > 1 && |q| > 1
    ensures Put(Put(o, p, v), q, w) == o[p[0] := Object(Put(Put(ChildObject(o, p[0]), p[1..], v), q[1..], w))]
  {
    PutSplits(o, p, v);
    PutSplits(Put(o, p, v), q, w);
  }

  /** Settings of unrelated paths commute, in the whole tree. */
  lemma {:induction false} PutsCommute(o: map<string, Value>, p: Keys, q: Keys, v: Value, w: Value)
    requires Unrelated(p, q)
    ensures Put(Put(o, p, v), q, w) == Put(Put(o, q, w), p, v)
    decreases |p|
  {
    hide Put, ChildObject;
    if p[0] == q[0] {
      UnrelatedTails(p, q);
      PutsCommute(ChildObject(o, p[0]), p[1..], q[1..], v, w);
      PutTwoBelow(o, p, q, v, w);
      PutTwoBelow(o, q, p, w, v);
    } else {
      PutApart(o, p, q, v, w);
      PutApart(o, q, p, w, v);
      var a, b := PutAt(o, p, v), PutAt(o, q, w);
      assert o[p[0] := a][q[0] := b] == o[q[0] := b][p[0] := a];
    }
  }

  // ----- the same laws in terms of dotted strings -----

  /** Splitting a path made of two by a '.' splits each of them. */
  lemma {:induction false} SplitOfConcat(p: string, r: string)
    ensures Split(p + "." + r) == Split(p) + Split(r)
    decreases |p|
  {
    hide Split, FindDot;
    var d := FindDot(p);
    if d < |p| {
      SplitAtDot(p[..d], p[d + 1..]);
      SplitAtDot(p[..d], p[d + 1..] + "." + r);
      SplitOfConcat(p[d + 1..], r);
      CutAt(p, d);
      assert p + "." + r == p[..d] + "." + (p[d + 1..] + "." + r);
    } else {
      assert p[..d] == p;
      SplitAtDot(p, r);
      SplitWithoutDot(p);
    }
  }

  lemma {:induction false} JoinOfConcat(ks: Keys, more: Keys)
    ensures Join(ks + more) == Join(ks) + "." + Join(more)
    decreases |ks|
  {
    assert (ks + more)[1..] == ks[1..] + more;
    if |ks| > 1 { JoinOfConcat(ks[1..], more); }
  }

  lemma PrefixAndRest<T>(a: seq<T>, b: seq<T>)
    requires a <= b
    ensures b == a + b[|a|..]
  {
  }

  lemma SplitOfContinued(p: string, q: string)
    requires p + "." <= q
    ensures Split(p) < Split(q) && Split(q) == Split(p) + Split(q[|p| + 1..])
  {
    hide Split, FindDot;
    var start: string := p + ".";
    assert |start| == |p| + 1;
    PrefixAndRest(start, q);
    SplitOfConcat(p, q[|p| + 1..]);
  }

  lemma JoinOfPrefix(p: string, q: string)
    requires Split(p) < Split(q)
    ensures p + "." <= q
  {
    hide Split, Join;
    var more: Keys := Split(q)[|Split(p)|..];
    assert Split(q) == Split(p) + more;
    JoinOfConcat(Split(p), more);
    JoinOfSplit(p);
    JoinOfSplit(q);
    assert q == (p + ".") + Join(more);
  }

  /** The keys of `p` come first among those of `q` exactly when the string `q` starts with `p`
      and a dot. */
  lemma PrefixByDot(p: string, q: string)
    ensures Split(p) < Split(q) <==> p + "." <= q
    ensures p + "." <= q ==> Split(q) == Split(p) + Split(q[|p| + 1..])
  {
    hide Split;
    if p + "." <= q {
      SplitOfContinued(p, q);
    } else if Split(p) < Split(q) {
      JoinOfPrefix(p, q);
    }
  }

  lemma FoundHere(v: Value)
    ensures GetIn(v, []) == Some(v)
  {
  }

  lemma UnrelatedPaths(p: string, q: string)
    ensures Unrelated(Split(p), Split(q)) <==> q != p && !(p + "." <= q) && !(q + "." <= p)
  {
    PrefixByDot(p, q);
    PrefixByDot(q, p);
    if Split(p) == Split(q) { SplitInjective(p, q); }
  }

  /** The full effect of setting path `p` on looking up path `q`, for all trees and strings. */
  lemma SetThenFind(o: map<string, Value>, p: string, q: string, v: Value)
    ensures var r := Get(Put(o, Split(p), v), Split(q));
            && (q == p ==> r == Some(v))
            && (p + "." <= q ==> r == GetIn(v, Split(q[|p| + 1..])))
            && (q + "." <= p ==> r.Some? && r.value.Object?)
            && (q != p && !(p + "." <= q) && !(q + "." <= p) ==> r == Get(o, Split(q)))
  {
    hide Get, Put, GetIn, Split;
    PrefixByDot(p, q);
    PrefixByDot(q, p);
    if q == p {
      PutThenGetBelow(o, Split(p), v, []);
      assert Split(p) + [] == Split(p);
      FoundHere(v);
    } else if p + "." <= q {
      PutThenGetBelow(o, Split(p), v, Split(q[|p| + 1..]));
    } else if q + "." <= p {
      PutThenGetAbove(o, Split(q), Split(p[|q| + 1..]), v);
    } else {
      UnrelatedPaths(p, q);
      PutThenGetElsewhere(o, Split(p), Split(q), v);
    }
  }
}
