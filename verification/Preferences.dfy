/** Preferences: a table of defaults by dotted path, and a tree that holds what was set. */
module Preferences {
  import opened Options
  import opened Values
  import opened Paths
  import opened ValueTree

  // ----- what a history of settings leaves behind -----

  datatype Setting = Setting(path: string, value: Value)

  /** The tree of the store: every setting put into an empty object, in turn. */
  function After(sets: seq<Setting>): map<string, Value> {
    if sets == [] then map[]
    else var s := sets[|sets| - 1]; Put(After(sets[..|sets| - 1]), Split(s.path), s.value)
  }

  /** The flat map that users think of: the last value set on each path. */
  function Flat(sets: seq<Setting>): map<string, Value> {
    if sets == [] then map[]
    else var s := sets[|sets| - 1]; Flat(sets[..|sets| - 1])[s.path := s.value]
  }

  /** Every path was registered, with a default of the type of the value set. */
  ghost predicate WellTyped(d: map<string, Value>, sets: seq<Setting>) {
    forall s | s in sets :: s.path in d && TypeOf(s.value) == TypeOf(d[s.path])
  }

  function Stored(o: map<string, Value>, path: string): Option<Value> { Get(o, Split(path)) }

  function Lookup(m: map<string, Value>, path: string): Option<Value> {
    if path in m then Some(m[path]) else None
  }

  /** No registered path is another one continued after a dot. */
  ghost predicate PrefixFree(paths: set<string>) {
    forall p, q | p in paths && q in paths :: !(p + "." <= q)
  }

  /** The store agrees with the flat map on the registered paths. */
  ghost predicate Agrees(d: map<string, Value>, sets: seq<Setting>) {
    forall p | p in d :: Stored(After(sets), p) == Lookup(Flat(sets), p)
  }

  /** What is found on each registered path has the registered type. */
  ghost predicate TypesKept(d: map<string, Value>, sets: seq<Setting>) {
    forall p | p in d ::
      var r := Stored(After(sets), p);
      r.Some? ==> TypeOf(r.value) == TypeOf(d[p])
  }

  // ----- prefix-free registrations behave as a flat map -----

  lemma AfterOneMore(sets: seq<Setting>, s: Setting)
    ensures After(sets + [s]) == Put(After(sets), Split(s.path), s.value)
  {
    assert (sets + [s])[..|sets|] == sets;
  }

  lemma StoredAfter(sets: seq<Setting>, s: Setting, q: string)
    ensures q == s.path ==> Stored(After(sets + [s]), q) == Some(s.value)
    ensures q != s.path && !(s.path + "." <= q) && !(q + "." <= s.path) ==>
              Stored(After(sets + [s]), q) == Stored(After(sets), q)
  {
    hide Get, Put, Split;
    AfterOneMore(sets, s);
    SetThenFind(After(sets), s.path, q, s.value);
  }

  lemma NothingStored(p: string)
    ensures Stored(map[], p) == None
  {
    GetMissing(Split(p));
  }

  lemma {:induction false} FlatStore(d: map<string, Value>, sets: seq<Setting>)
    requires PrefixFree(d.Keys) && WellTyped(d, sets)
    ensures Agrees(d, sets)
  {
    hide Stored;
    if sets == [] {
      forall p | p in d ensures Stored(After(sets), p) == Lookup(Flat(sets), p) {
        NothingStored(p);
      }
    } else {
      var n := |sets| - 1;
      var s := sets[n];
      assert sets == sets[..n] + [s];
      FlatStore(d, sets[..n]);
      forall p | p in d ensures Stored(After(sets), p) == Lookup(Flat(sets), p) {
        StoredAfter(sets[..n], s, p);
      }
    }
  }

  lemma {:induction false} FlatTypes(d: map<string, Value>, sets: seq<Setting>, p: string)
    requires WellTyped(d, sets) && p in d && p in Flat(sets)
    ensures TypeOf(Flat(sets)[p]) == TypeOf(d[p])
  {
    var n := |sets| - 1;
    assert sets[n] in sets;
    if p != sets[n].path { FlatTypes(d, sets[..n], p); }
  }

  // ----- and others do not -----

  lemma OneSetting(s: Setting)
    ensures After([s]) == Put(map[], Split(s.path), s.value)
    ensures Flat([s]) == map[s.path := s.value]
  {
    AfterOneMore([], s);
    assert [] + [s] == [s] && [s][..0] == [];
  }

  /** Setting `q` turns `p` into an object. */
  lemma TurnsIntoObject(p: string, s: Setting)
    requires p + "." <= s.path
    ensures var r := Stored(After([s]), p); r.Some? && r.value.Object?
    ensures p !in Flat([s])
  {
    hide Get, Put, Split;
    OneSetting(s);
    SetThenFind(map[], s.path, p, s.value);
  }

  /** When `p` is registered as an object, setting it can put anything on `q`. */
  lemma Overwrite(d: map<string, Value>, p: string, q: string) returns (s: Setting)
    requires p in d && q in d && p + "." <= q && d[p].Object?
    ensures s.path == p && s.value.Object? && q !in Flat([s])
    ensures var r := Stored(After([s]), q); r.Some? && TypeOf(r.value) != TypeOf(d[q])
  {
    hide Get, Put, Split;
    var more := q[|p| + 1..];
    var w := if d[q].Bool? then Null else Bool(true);
    s := Setting(p, Object(Put(map[], Split(more), w)));
    OneSetting(s);
    SetThenFind(map[], p, q, s.value);
    SetThenFind(map[], more, more, w);
  }

  /** When `q` continues `p`, one well-typed setting makes one of them find a value of another
      type, and not what the flat map holds. */
  lemma ClashBreaksTypes(d: map<string, Value>, p: string, q: string) returns (s: Setting)
    requires p in d && q in d && p + "." <= q
    ensures WellTyped(d, [s]) && !TypesKept(d, [s]) && !Agrees(d, [s])
  {
    hide Stored, After, Flat;
    if d[p].Object? {
      s := Overwrite(d, p, q);
    } else {
      s := Setting(q, d[q]);
      TurnsIntoObject(p, s);
    }
  }

  /** Preferences keep their types through every well-typed history exactly when no registered
      path continues another. */
  lemma TypesKeptExactly(d: map<string, Value>)
    ensures PrefixFree(d.Keys) <==> forall sets | WellTyped(d, sets) :: TypesKept(d, sets)
  {
    hide Stored;
    if PrefixFree(d.Keys) {
      forall sets | WellTyped(d, sets) ensures TypesKept(d, sets) {
        FlatStore(d, sets);
        forall p | p in d && p in Flat(sets) ensures TypeOf(Flat(sets)[p]) == TypeOf(d[p]) {
          FlatTypes(d, sets, p);
        }
      }
    } else {
      var p, q :| p in d.Keys && q in d.Keys && p + "." <= q;
      var s := ClashBreaksTypes(d, p, q);
    }
  }

  /** They are a flat map through every well-typed history under the same condition. */
  lemma FlatExactly(d: map<string, Value>)
    ensures PrefixFree(d.Keys) <==> forall sets | WellTyped(d, sets) :: Agrees(d, sets)
  {
    if PrefixFree(d.Keys) {
      forall sets | WellTyped(d, sets) ensures Agrees(d, sets) {
        FlatStore(d, sets);
      }
    } else {
      var p, q :| p in d.Keys && q in d.Keys && p + "." <= q;
      var s := ClashBreaksTypes(d, p, q);
    }
  }

  // ----- the class -----

  /** The typed getters, by what they ask of a value. */
  datatype Getter = GetBool | GetInt | GetDouble | GetString | GetArray | GetObject

  predicate Accepts(g: Getter, v: Value) {
    match g
    case GetBool => v.Bool?
    case GetInt => IsInt(v)
    case GetDouble => v.Number?
    case GetString => v.String?
    case GetArray => v.Array?
    case GetObject => v.Object?
  }

  /** The getters for each type of value; an integer in range can be read as either number. */
  lemma GettersOfTypes(v: Value, g: Getter)
    ensures v.Null? ==> !Accepts(g, v)
    ensures v.Bool? ==> (Accepts(g, v) <==> g == GetBool)
    ensures v.Number? ==>
              (Accepts(g, v) <==>
                 g == GetDouble || (g == GetInt && exists i :: INT_MIN <= i <= INT_MAX && v == OfInt(i)))
    ensures v.String? ==> (Accepts(g, v) <==> g == GetString)
    ensures v.Array? ==> (Accepts(g, v) <==> g == GetArray)
    ensures v.Object? ==> (Accepts(g, v) <==> g == GetObject)
  {
    IntegersExactly(v);
  }

  /** What users expect to read: the last value set, or else the default. */
  function Expected(d: map<string, Value>, sets: seq<Setting>, path: string): Value
    requires path in d
  {
    if path in Flat(sets) then Flat(sets)[path] else d[path]
  }

  /** A getter that accepts the default accepts what is expected, unless it asks for an integer
      and a fraction was set. */
  lemma GettersAccept(d: map<string, Value>, sets: seq<Setting>, path: string, g: Getter)
    requires WellTyped(d, sets) && path in d && Accepts(g, d[path])
    ensures Accepts(g, Expected(d, sets, path)) <==>
              g != GetInt || path !in Flat(sets) || IsInt(Flat(sets)[path])
  {
    if path in Flat(sets) { FlatTypes(d, sets, path); }
  }

  /** A preference registered as an integer takes a fraction, which its getter then refuses. */
  lemma FractionTaken()
    ensures var d, sets := map["n" := OfInt(1)], [Setting("n", Number(1.5))];
            WellTyped(d, sets) && PrefixFree(d.Keys) && !Accepts(GetInt, Expected(d, sets, "n"))
  {
    OneSetting(Setting("n", Number(1.5)));
  }

  class Preferences {
    var defaults: map<string, Value>
    const values: Node
    ghost var sets: seq<Setting>

    ghost predicate Valid()
      reads this, values, values.Repr
    {
      && values.Valid() && values.isObject
      && (forall p | p in defaults :: defaults[p] != Null)
      && WellTyped(defaults, sets)
      && values.Model().o == After(sets)
    }

    constructor ()
      ensures Valid() && fresh(values.Repr) && defaults == map[] && sets == []
    {
      var v := new Node.EmptyObject();
      values := v;
      defaults, sets := map[], [];
    }

    method RegisterPreference(path: string, defaultValue: Value)
      requires Valid() && defaultValue != Null && path !in defaults
      modifies this
      ensures Valid() && defaults == old(defaults)[path := defaultValue] && sets == old(sets)
    {
      defaults := defaults[path := defaultValue];
    }

    method SetValue(path: string, value: Node)
      requires Valid() && value.Valid() && value.Repr !! values.Repr
      requires path in defaults && value.Model() != Null && TypeOf(value.Model()) == TypeOf(defaults[path])
      modifies this`sets, values.Repr
      ensures Valid() && fresh(values.Repr - old(values.Repr) - value.Repr)
      ensures sets == old(sets) + [Setting(path, old(value.Model()))]
    {
      hide Node.Valid, Node.Model, Put, Split, After;
      var s := Setting(path, value.Model());
      var r := values.SetPath(path, value);
      AfterOneMore(sets, s);
      sets := sets + [s];
    }

    /** Reads through one of the getters; None when the getter's own check of a stored value
        fails.  On prefix-free registrations the result is what users expect. */
    method Read(path: string, g: Getter) returns (r: Option<Value>)
      requires Valid() && path in defaults && Accepts(g, defaults[path])
      ensures var s := Stored(After(sets), path);
              r == if s == None then Some(defaults[path]) else if Accepts(g, s.value) then s else None
      ensures PrefixFree(defaults.Keys) ==>
                var e := Expected(defaults, sets, path);
                r == if Accepts(g, e) then Some(e) else None
    {
      var stored := values.FindPath(path);
      if PrefixFree(defaults.Keys) {
        FlatStore(defaults, sets);
      }
      if stored == null {
        return Some(defaults[path]);
      }
      var v := stored.Model();
      r := if Accepts(g, v) then Some(v) else None;
    }
  }
}
