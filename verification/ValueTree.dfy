/** The Value class: a tree of objects that own their members, changed in place.  Values that
    are not objects are leaves, held as they are. */
module ValueTree {
  import opened Options
  import opened Values
  import opened Paths

  /** The nodes from a root down to one of its objects, and the keys that lead there. */
  ghost predicate Spine(nodes: seq<Node>, keys: seq<string>)
    reads nodes
  {
    && |nodes| == |keys| + 1
    && forall i | 0 <= i < |keys| ::
         nodes[i].isObject && keys[i] in nodes[i].children && nodes[i].children[keys[i]] == nodes[i + 1]
  }

  ghost predicate Nested(nodes: seq<Node>, keys: seq<string>)
    reads nodes, set n, o | n in nodes && o in n.Repr :: o
  {
    && Spine(nodes, keys)
    && (forall j | 0 <= j < |nodes| :: nodes[j].Valid() && nodes[j].Repr <= nodes[0].Repr)
    && (forall i, j | 0 <= i < j < |nodes| :: nodes[j].Repr <= nodes[i].Repr && nodes[i] !in nodes[j].Repr)
  }

  lemma SpineOutside(nodes: seq<Node>, keys: seq<string>, value: Node)
    requires Nested(nodes, keys) && value.Repr !! nodes[0].Repr
    ensures forall j | 0 <= j < |nodes| :: nodes[j] !in value.Repr && nodes[j].Repr !! value.Repr
    ensures forall i, j | 0 <= i < j < |nodes| :: nodes[i] != nodes[j]
  {
    forall j | 0 <= j < |nodes| ensures nodes[j] !in value.Repr && nodes[j].Repr !! value.Repr {
      assert nodes[j].Valid() && nodes[j].Repr <= nodes[0].Repr;
    }
  }

  /** What a change below has done to the nodes of a spine: its last node has a new member
      `value`, all its nodes own the tree of `value`, and nothing else has changed. */
  twostate predicate Grafted(new nodes: seq<Node>, new keys: seq<string>, new key: string, value: Node)
    requires old(allocated(nodes)) && |nodes| == |keys| + 1
    reads nodes, nodes[0].Repr, value, value.Repr
  {
    var n := |keys|;
    && (forall j | 0 <= j <= n :: nodes[j].Repr == old(nodes[j].Repr) + old(value.Repr)
          && nodes[j].isObject == old(nodes[j].isObject))
    && (forall j | 0 <= j < n :: nodes[j].children == old(nodes[j].children))
    && nodes[n].children == old(nodes[n].children)[key := value]
    && (forall o | o in old(nodes[0].Repr) && o !in nodes :: unchanged(o))
    && (forall o | o in old(value.Repr) :: unchanged(o))
  }

  method Graft(currentObject: Node, key: string, value: Node, ghost nodes: seq<Node>, ghost keys: seq<string>)
    requires Nested(nodes, keys) && |nodes| == |keys| + 1 && nodes[|keys|] == currentObject && currentObject.isObject
    requires value.Valid() && value.Repr !! nodes[0].Repr
    modifies nodes
    ensures Grafted(nodes, keys, key, value)
  {
    hide Node.Valid, Node.Model;
    SpineOutside(nodes, keys, value);
    var r := currentObject.SetKey(key, value);
    ghost var owned := old(value.Repr);
    forall n | n in nodes && n != currentObject {
      n.Repr := n.Repr + owned;
    }
  }

  /** The last node of a spine holds what its keys find. */
  lemma {:induction false} SpineModel(nodes: seq<Node>, keys: seq<string>)
    requires Spine(nodes, keys) && nodes[0].Valid()
    ensures nodes[|keys|].Valid() && GetIn(nodes[0].Model(), keys) == Some(nodes[|keys|].Model())
    decreases |keys|
  {
    if keys != [] {
      nodes[0].Member(keys[0]);
      SpineModel(nodes[1..], keys[1..]);
    }
  }

  /** Down a spine the trees shrink, and no node is in the tree of one below it. */
  lemma {:induction false} SpineNested(nodes: seq<Node>, keys: seq<string>, j: nat)
    requires Spine(nodes, keys) && nodes[0].Valid() && j < |nodes|
    ensures nodes[j].Valid() && nodes[j].Repr <= nodes[0].Repr
    ensures forall i | 0 <= i < j :: nodes[j].Repr <= nodes[i].Repr && nodes[i] !in nodes[j].Repr
  {
    if j > 0 {
      SpineNested(nodes, keys, j - 1);
      nodes[j - 1].Member(keys[j - 1]);
    }
  }

  lemma SpineIsNested(nodes: seq<Node>, keys: seq<string>)
    requires Spine(nodes, keys) && nodes[0].Valid()
    ensures Nested(nodes, keys)
  {
    forall j | 0 <= j < |nodes|
      ensures nodes[j].Valid() && nodes[j].Repr <= nodes[0].Repr
      ensures forall i | 0 <= i < j :: nodes[j].Repr <= nodes[i].Repr && nodes[i] !in nodes[j].Repr
    {
      SpineNested(nodes, keys, j);
    }
  }

  twostate lemma Untouched(c: Node)
    requires old(c.Valid()) && forall o | o in old(c.Repr) :: unchanged(o)
    ensures c.Valid() && c.Repr == old(c.Repr) && c.Model() == old(c.Model())
  {
  }

  /** `v` with the member that `ks` leads to replaced. */
  function Replace(v: Value, ks: seq<string>, x: Value): Value {
    if ks == [] then x
    else if v.Object? && ks[0] in v.o then Object(v.o[ks[0] := Replace(v.o[ks[0]], ks[1..], x)])
    else v
  }

  twostate predicate Kept(c: Node)
    reads c, c.Repr
  {
    old(c.Valid()) && c.Valid() && c.Repr == old(c.Repr) && c.Model() == old(c.Model())
  }

  /** Members off the spine are in no spine node's way: they are kept as they were. */
  twostate lemma SiblingsKept(new nodes: seq<Node>, new keys: seq<string>, new key: string, value: Node, new i: nat)
    requires old(allocated(nodes)) && |nodes| == |keys| + 1
    requires old(Nested(nodes, keys)) && old(nodes[|keys|].isObject) && i <= |keys|
    requires Grafted(nodes, keys, key, value)
    ensures forall k | k in old(nodes[i].children) && (i < |keys| ==> k != keys[i]) :: Kept(old(nodes[i].children[k]))
  {
    assert old(nodes[i].Valid() && nodes[i].isObject);
    forall k | k in old(nodes[i].children) && (i < |keys| ==> k != keys[i])
      ensures Kept(old(nodes[i].children[k]))
    {
      var c := old(nodes[i].children[k]);
      forall j | 0 <= j < |nodes| ensures nodes[j] !in old(c.Repr) {
        if j <= i {
          assert old(c.Repr <= nodes[i].Repr);
        } else {
          assert old(nodes[j].Repr <= nodes[i + 1].Repr);
          assert old(nodes[j] in nodes[j].Repr);
          assert old(nodes[i].children[keys[i]] == nodes[i + 1]);
        }
      }
      assert forall o | o in old(c.Repr) :: o in old(nodes[0].Repr) && o !in nodes && unchanged(o);
      assert c.Valid() && c.Model() == old(c.Model());
    }
  }

  /** A node's member `l` is now `child`, its other members were kept, and it owns what
      `value` owned as well. */
  twostate predicate Rejoined(n: Node, new l: string, new child: Node, new value: Node)
    requires old(allocated(child)) && old(allocated(value))
    reads n, n.Repr, child, child.Repr
  {
    && old(n.Valid()) && old(n.isObject) && n.isObject
    && n.children == old(n.children)[l := child] && n.Repr == old(n.Repr) + old(value.Repr)
    && child.Valid() && child in n.Repr && child.Repr <= n.Repr && n !in child.Repr
    && forall k | k in old(n.children) && k != l ::
         var c := old(n.children[k]);
         c in n.Repr && c.Repr <= n.Repr && Kept(c) && child.Repr !! c.Repr
  }

  twostate lemma RejoinedIsValid(n: Node, new l: string, new child: Node, new value: Node)
    requires old(allocated(child)) && old(allocated(value)) && Rejoined(n, l, child, value)
    ensures n.Valid()
  {
    forall k | k in n.children
      ensures n.children[k] in n.Repr && n.children[k].Repr <= n.Repr
      ensures n !in n.children[k].Repr && n.children[k].Valid()
    {
      if k != l { assert Kept(old(n.children[k])); }
    }
    forall j, k | j in n.children && k in n.children && j != k
      ensures n.children[j].Repr !! n.children[k].Repr
    {
      if j != l { assert Kept(old(n.children[j])); }
      if k != l { assert Kept(old(n.children[k])); }
    }
  }

  twostate lemma RejoinedModel(n: Node, new l: string, new child: Node, new value: Node)
    requires old(allocated(child)) && old(allocated(value)) && Rejoined(n, l, child, value)
    ensures n.Valid() && n.Model() == Object(old(n.Model()).o[l := child.Model()])
  {
    RejoinedIsValid(n, l, child, value);
    hide Node.Valid;
    forall k | k in n.children ensures n.Model().o[k] == old(n.Model()).o[l := child.Model()][k] {
      if k != l { assert Kept(old(n.children[k])); }
    }
    assert n.Model().o == old(n.Model()).o[l := child.Model()];
  }

  twostate lemma RegraftedLast(new nodes: seq<Node>, new keys: seq<string>, new key: string, value: Node)
    requires old(allocated(nodes)) && |nodes| == |keys| + 1
    requires old(Nested(nodes, keys)) && old(nodes[|keys|].isObject) && old(value.Valid())
    requires old(value.Repr) !! old(nodes[0].Repr) && Grafted(nodes, keys, key, value)
    ensures nodes[|keys|].Valid()
    ensures nodes[|keys|].Model() == Object(old(nodes[|keys|].Model()).o[key := old(value.Model())])
  {
    var last := nodes[|keys|];
    Untouched(value);
    SiblingsKept(nodes, keys, key, value, |keys|);
    assert old(last.Repr <= nodes[0].Repr);
    assert old(last.Valid());
    hide Kept;
    assert Rejoined(last, key, value, value);
    RejoinedModel(last, key, value, value);
  }

  twostate lemma RegraftedAbove(new nodes: seq<Node>, new keys: seq<string>, new key: string, value: Node, new i: nat)
    requires old(allocated(nodes)) && |nodes| == |keys| + 1 && i < |keys|
    requires old(Nested(nodes, keys)) && old(nodes[|keys|].isObject) && old(value.Valid())
    requires old(value.Repr) !! old(nodes[0].Repr) && Grafted(nodes, keys, key, value)
    requires nodes[i + 1].Valid()
    ensures nodes[i].Valid() && old(nodes[i].isObject) && keys[i] in old(nodes[i].children)
    ensures nodes[i].Model() == Object(old(nodes[i].Model()).o[keys[i] := nodes[i + 1].Model()])
    ensures keys[i] in old(nodes[i].Model()).o && old(nodes[i].Model()).o[keys[i]] == old(nodes[i + 1].Model())
  {
    var n, child := nodes[i], nodes[i + 1];
    SiblingsKept(nodes, keys, key, value, i);
    assert old(n.Valid() && n.isObject && n.children[keys[i]] == child);
    assert old(n.Repr <= nodes[0].Repr) && old(child.Repr <= n.Repr) && old(n !in child.Repr);
    assert n !in old(value.Repr);
    assert n.children == n.children[keys[i] := child];
    hide Kept;
    assert Rejoined(n, keys[i], child, value);
    RejoinedModel(n, keys[i], child, value);
  }

  /** Every tree on the spine is valid again, and its model has the new member below. */
  twostate lemma {:induction false} Regrafted(new nodes: seq<Node>, new keys: seq<string>, new key: string, value: Node,
                                                new i: nat)
    requires old(allocated(nodes)) && |nodes| == |keys| + 1 && i <= |keys|
    requires old(Nested(nodes, keys)) && old(nodes[|keys|].isObject) && old(value.Valid())
    requires old(value.Repr) !! old(nodes[0].Repr) && Grafted(nodes, keys, key, value)
    ensures nodes[i].Valid() && old(allocated(nodes[i]))
    ensures nodes[i].Model() ==
            Replace(old(nodes[i].Model()), keys[i..], Object(old(nodes[|keys|].Model()).o[key := old(value.Model())]))
    decreases |keys| - i
  {
    if i == |keys| {
      RegraftedLast(nodes, keys, key, value);
    } else {
      Regrafted(nodes, keys, key, value, i + 1);
      RegraftedAbove(nodes, keys, key, value, i);
      assert keys[i..][1..] == keys[i + 1..];
    }
  }

  /** Along objects, replacing what `ks` leads to is setting a path. */
  lemma {:induction false} ReplaceIsPut(v: Value, ks: seq<string>, key: string, x: Value)
    requires v.Object? && GetIn(v, ks).Some? && GetIn(v, ks).value.Object?
    ensures Replace(v, ks, Object(GetIn(v, ks).value.o[key := x])) == Object(Put(v.o, ks + [key], x))
    decreases |ks|
  {
    if ks == [] {
      assert [] + [key] == [key];
    } else {
      assert (ks + [key])[1..] == ks[1..] + [key];
      ReplaceIsPut(v.o[ks[0]], ks[1..], key, x);
    }
  }

  /** SetKey on an object down in a tree.  The rest is ghost: the trees above come to own
      what the new member owns, and are valid again. */
  method Attach(currentObject: Node, key: string, value: Node, ghost nodes: seq<Node>, ghost keys: seq<string>)
    requires Spine(nodes, keys) && |nodes| == |keys| + 1 && nodes[|keys|] == currentObject && currentObject.isObject
    requires nodes[0].Valid() && nodes[0].isObject && value.Valid() && value.Repr !! nodes[0].Repr
    modifies nodes
    ensures nodes[0].Valid() && nodes[0].isObject && nodes[0].Repr == old(nodes[0].Repr) + old(value.Repr)
    ensures Spine(nodes, keys) && currentObject.isObject
    ensures key in currentObject.children && currentObject.children[key] == value
    ensures value.Valid() && value.Model() == old(value.Model()) && value.Repr == old(value.Repr)
    ensures value.isObject == old(value.isObject)
    ensures nodes[0].Model() == Object(Put(old(nodes[0].Model()).o, keys + [key], old(value.Model())))
  {
    hide Node.Valid, Node.Model, Replace, GetIn, Put, Nested;
    SpineIsNested(nodes, keys);
    SpineModel(nodes, keys);
    ReplaceIsPut(nodes[0].Model(), keys, key, value.Model());
    Graft(currentObject, key, value, nodes, keys);
    Untouched(value);
    Regrafted(nodes, keys, key, value, 0);
    assert keys[0..] == keys;
  }

  lemma SpineLonger(nodes: seq<Node>, keys: seq<string>, key: string)
    requires Spine(nodes, keys) && nodes[|keys|].isObject && key in nodes[|keys|].children
    ensures Spine(nodes + [nodes[|keys|].children[key]], keys + [key])
  {
  }

  lemma SplitDown(path: string, keys: seq<string>)
    requires FindDot(path) < |path|
    ensures var d := FindDot(path); keys + Split(path) == keys + [path[..d]] + Split(path[d + 1..])
  {
    hide Split, FindDot;
    CutAt(path, FindDot(path));
    SplitAtDot(path[..FindDot(path)], path[FindDot(path) + 1..]);
  }

  lemma OneNodeSpine(n: Node)
    ensures Spine([n], [])
  {
  }

  lemma SpineInside(nodes: seq<Node>, keys: seq<string>)
    requires Spine(nodes, keys) && nodes[0].Valid()
    ensures forall n | n in nodes :: n in nodes[0].Repr
  {
    hide Spine;
    SpineIsNested(nodes, keys);
  }

  lemma OneLess(o: map<string, Value>, todo: set<string>, key: string)
    requires key in todo && key in o
    ensures o - (todo - {key}) == (o - todo)[key := o[key]]
  {
  }

  /** An empty object put where none was makes no difference to a setting below it. */
  lemma {:induction false} PutMissing(o: map<string, Value>, ks: seq<string>, key: string, more: Keys, v: Value)
    requires GetIn(Object(o), ks).Some? && GetIn(Object(o), ks).value.Object?
    requires var m := GetIn(Object(o), ks).value.o; !(key in m && m[key].Object?)
    ensures Put(Put(o, ks + [key], Object(map[])), ks + [key] + more, v) == Put(o, ks + [key] + more, v)
    decreases |ks|
  {
    var p: Keys := ks + [key];
    var q: Keys := p + more;
    if ks == [] {
      assert p == [key] && q[1..] == more;
    } else {
      assert p[1..] == ks[1..] + [key] && q[1..] == ks[1..] + [key] + more;
      PutMissing(o[ks[0]].o, ks[1..], key, more, v);
    }
  }

  lemma GetDown(o: map<string, Value>, path: string)
    requires FindDot(path) < |path|
    ensures var d := FindDot(path);
            Get(o, Split(path)) ==
            if path[..d] in o && o[path[..d]].Object? then Get(o[path[..d]].o, Split(path[d + 1..])) else None
  {
    var d := FindDot(path);
    assert Split(path)[1..] == Split(path[d + 1..]);
  }

  class Node {
    var isObject: bool
    var isArray: bool                // when this is not an object
    var leaf: Value                  // the value when this is neither
    var elements: seq<Node>          // the elements of an array
    var children: map<string, Node>  // the members of an object

    ghost var Repr: set<Node>

    /** Each member or element is a tree of its own, apart from this node and from the others. */
    ghost predicate Valid()
      reads this, Repr
      ensures Valid() ==> this in Repr
      decreases Repr
    {
      && this in Repr
      && (!isObject && !isArray ==> !leaf.Object? && !leaf.Array?)
      && (!isObject && isArray ==>
            && (forall i | 0 <= i < |elements| ::
                  && elements[i] in Repr
                  && elements[i].Repr <= Repr
                  && this !in elements[i].Repr
                  && elements[i].Valid())
            && (forall i, j | 0 <= i < j < |elements| :: elements[i].Repr !! elements[j].Repr))
      && (isObject ==>
            && (forall k | k in children ::
                  && children[k] in Repr
                  && children[k].Repr <= Repr
                  && this !in children[k].Repr
                  && children[k].Valid())
            && (forall j, k | j in children && k in children && j != k ::
                  children[j].Repr !! children[k].Repr))
    }

    function Model(): (v: Value)
      requires Valid()
      reads this, Repr
      ensures v.Object? <==> isObject
      decreases Repr, 1
    {
      if isObject then Object(map k | k in children :: children[k].Model())
      else if isArray then Array(ElementModels(|elements|))
      else leaf
    }

    function ElementModels(n: nat): (models: seq<Value>)
      requires Valid() && !isObject && isArray && n <= |elements|
      reads this, Repr
      ensures |models| == n && forall i | 0 <= i < n :: models[i] == elements[i].Model()
      decreases Repr, 0, n
    {
      if n == 0 then [] else ElementModels(n - 1) + [elements[n - 1].Model()]
    }

    constructor Leaf(v: Value)
      requires !v.Object? && !v.Array?
      ensures Valid() && fresh(Repr) && Model() == v
    {
      isObject, isArray, leaf, elements, children := false, false, v, [], map[];
      Repr := {this};
    }

    constructor ArrayOf(nodes: seq<Node>)
      requires forall i | 0 <= i < |nodes| :: nodes[i].Valid()
      requires forall i, j | 0 <= i < j < |nodes| :: nodes[i].Repr !! nodes[j].Repr
      ensures Valid() && Repr == {this} + set i, o | 0 <= i < |nodes| && o in nodes[i].Repr :: o
      ensures Model().Array? && |Model().a| == |nodes|
      ensures forall i | 0 <= i < |nodes| :: nodes[i].Valid() && Model().a[i] == nodes[i].Model()
    {
      isObject, isArray, leaf, elements, children := false, true, Null, nodes, map[];
      Repr := {this} + set i, o | 0 <= i < |nodes| && o in nodes[i].Repr :: o;
    }

    constructor EmptyObject()
      ensures Valid() && fresh(Repr) && Repr == {this} && isObject && Model() == Object(map[])
    {
      isObject, isArray, leaf, elements, children := true, false, Null, [], map[];
      Repr := {this};
    }

    lemma OwnModel()
      requires Valid()
      ensures if isObject then Model().Object? && Model().o.Keys == children.Keys
              else if isArray then Model() == Array(ElementModels(|elements|))
              else !leaf.Object? && !leaf.Array? && Model() == leaf
    {
    }

    /** A valid object's members are valid, and its model is made of theirs. */
    lemma Member(k: string)
      requires Valid() && isObject && k in children
      ensures children[k].Valid() && k in Model().o && Model().o[k] == children[k].Model()
      ensures children[k].isObject <==> Model().o[k].Object?
      ensures children[k] in Repr && children[k].Repr <= Repr && this !in children[k].Repr
    {
    }

    method FindKey(key: string) returns (r: Node?)
      requires Valid() && isObject
      ensures r == null <==> Get(Model().o, [key]) == None
      ensures r != null ==> key in children && r == children[key] && Get(Model().o, [key]) == Some(r.Model())
    {
      if key !in children {
        return null;
      }
      r := children[key];
    }

    method OwnType() returns (t: Type)
      requires Valid()
      ensures t == TypeOf(Model())
    {
      t := if isObject then KObject else if isArray then KArray else TypeOf(leaf);
    }

    /** Like FindKey, but only a member of the given type. */
    method FindKeyOfType(key: string, t: Type) returns (r: Node?)
      requires Valid() && isObject
      ensures r == null <==> !(key in Model().o && TypeOf(Model().o[key]) == t)
      ensures r != null ==> key in children && r == children[key] && TypeOf(r.Model()) == t
    {
      r := FindKey(key);
      if r != null {
        var own := r.OwnType();
        if own != t {
          r := null;
        }
      }
    }

    /** Inserts or replaces a member; the value given is taken over. */
    method SetKey(key: string, value: Node) returns (r: Node)
      requires Valid() && isObject && value.Valid() && value.Repr !! Repr
      modifies this
      ensures Valid() && isObject && Repr == old(Repr) + value.Repr
      ensures r == value && children == old(children)[key := r]
      ensures Model() == Object(old(Model()).o[key := value.Model()])
    {
      children := children[key := value];
      Repr := Repr + value.Repr;
      r := value;
    }

    method RemoveKey(key: string) returns (removed: bool)
      requires Valid() && isObject
      modifies this
      ensures Valid() && isObject && Repr == old(Repr)
      ensures removed <==> key in old(Model()).o
      ensures Model() == Object(old(Model()).o - {key})
    {
      if key !in children {
        assert Model().o - {key} == Model().o;
        return false;
      }
      children := children - {key};
      removed := true;
      assert Valid();
      hide Valid;
      forall k | k in children ensures Model().o[k] == old(Model()).o[k] {
        assert children[k] == old(children[k]);
      }
      assert Model().o == old(Model()).o - {key};
    }

    /** Puts a copy of one member into `copy`. */
    method CloneMember(key: string, copy: Node)
      requires Valid() && isObject && key in children && copy.Valid() && copy.isObject && copy.Repr !! Repr
      modifies copy
      ensures copy.Valid() && copy.isObject && fresh(copy.Repr - old(copy.Repr))
      ensures key in old(Model()).o && copy.Model() == Object(old(copy.Model()).o[key := old(Model()).o[key]])
      decreases Repr, 0
    {
      hide Valid, Model;
      Member(key);
      assert this in Repr;
      var member := children[key].Clone();
      var slot := copy.SetKey(key, member);
    }

    method CloneObject() returns (r: Node)
      requires Valid() && isObject
      ensures r.Valid() && fresh(r.Repr) && r.Model() == Model()
      decreases Repr, 1
    {
      hide Valid, Model;
      OwnModel();
      ghost var members := Model().o;
      r := new Node.EmptyObject();
      var todo := children.Keys;
      assert members - todo == map[];
      while todo != {}
        invariant todo <= members.Keys && r.Valid() && r.isObject && fresh(r.Repr)
        invariant r.Model() == Object(members - todo)
        decreases todo
      {
        var key :| key in todo;
        Untouched(this);
        CloneMember(key, r);
        OneLess(members, todo, key);
        todo := todo - {key};
      }
      assert members - {} == members;
      Untouched(this);
    }

    lemma Element(i: nat)
      requires Valid() && !isObject && isArray && i < |elements|
      ensures elements[i].Valid() && elements[i] in Repr && elements[i].Repr < Repr
    {
    }

    method CloneArray() returns (r: Node)
      requires Valid() && !isObject && isArray
      ensures r.Valid() && fresh(r.Repr) && r.Model() == Model()
      decreases Repr, 1
    {
      hide Valid, Model, ElementModels;
      OwnModel();
      var copies: seq<Node> := [];
      for i := 0 to |elements|
        invariant |copies| == i
        invariant forall j | 0 <= j < i ::
                    copies[j].Valid() && fresh(copies[j].Repr) && copies[j].Model() == ElementModels(|elements|)[j]
        invariant forall j, k | 0 <= j < k < i :: copies[j].Repr !! copies[k].Repr
      {
        Untouched(this);
        Element(i);
        var copy := elements[i].Clone();
        copies := copies + [copy];
      }
      Untouched(this);
      r := new Node.ArrayOf(copies);
      assert r.Model().a == Model().a;
    }

    /** A deep copy: a tree of new nodes that holds the same value. */
    method Clone() returns (r: Node)
      requires Valid()
      ensures r.Valid() && fresh(r.Repr) && r.Model() == Model()
      decreases Repr, 2
    {
      hide Valid, Model, ElementModels;
      OwnModel();
      if isObject {
        r := CloneObject();
      } else if isArray {
        r := CloneArray();
      } else {
        r := new Node.Leaf(leaf);
      }
    }

    /** Walks down the objects that the keys of the path name. */
    method FindPath(path: string) returns (r: Node?)
      requires Valid() && isObject
      ensures r == null <==> Get(Model().o, Split(path)) == None
      ensures r != null ==> r.Valid() && Get(Model().o, Split(path)) == Some(r.Model())
    {
      hide Get, Split, Valid, Model;
      var currentPath, currentObject: Node := path, this;
      var d := FindDot(currentPath);
      while d != |currentPath|
        invariant d == FindDot(currentPath)
        invariant currentObject.Valid() && currentObject.isObject
        invariant Get(currentObject.Model().o, Split(currentPath)) == Get(Model().o, Split(path))
        decreases |currentPath|
      {
        var key := currentPath[..d];
        var child := currentObject.FindKeyOfType(key, KObject);
        GetDown(currentObject.Model().o, currentPath);
        if child == null {
          return null;
        }
        currentObject.Member(key);
        currentObject := child;
        currentPath := currentPath[d + 1..];
        d := FindDot(currentPath);
      }
      SplitWithoutDot(currentPath);
      r := currentObject.FindKey(currentPath);
      if r != null {
        currentObject.Member(currentPath);
      }
    }

    /** Like FindPath, but creates the objects that are missing on the way, over anything that
        is not an object. */
    method SetPath(path: string, value: Node) returns (r: Node)
      requires Valid() && isObject && value.Valid() && value.Repr !! Repr
      modifies Repr
      ensures Valid() && isObject && fresh(Repr - old(Repr) - value.Repr)
      ensures Model() == Object(Put(old(Model()).o, Split(path), old(value.Model())))
      ensures r == value && value.Valid() && value.Model() == old(value.Model())
    {
      hide Valid, Model, Get, GetIn, Put, Split, Spine, FindDot;
      var currentPath, currentObject: Node := path, this;
      ghost var nodes: seq<Node>, keys: seq<string> := [this], [];
      ghost var before, v := Model().o, value.Model();
      OneNodeSpine(this);
      var d := FindDot(currentPath);
      while d != |currentPath|
        invariant d == FindDot(currentPath)
        invariant Valid() && isObject && fresh(Repr - old(Repr))
        invariant Spine(nodes, keys) && |nodes| == |keys| + 1 && nodes[0] == this && nodes[|keys|] == currentObject
        invariant currentObject.isObject
        invariant value.Valid() && value.Model() == v && value.Repr == old(value.Repr) && value.Repr !! Repr
        invariant Split(path) == keys + Split(currentPath)
        invariant Put(Model().o, Split(path), v) == Put(before, Split(path), v)
        decreases |currentPath|
      {
        var key := currentPath[..d];
        SpineModel(nodes, keys);
        SplitDown(currentPath, keys);
        var child := currentObject.FindKeyOfType(key, KObject);
        if child == null {
          var added := new Node.EmptyObject();
          PutMissing(Model().o, keys, key, Split(currentPath[d + 1..]), v);
          SpineInside(nodes, keys);
          Attach(currentObject, key, added, nodes, keys);
          child := added;
        }
        SpineLonger(nodes, keys, key);
        nodes, keys := nodes + [child], keys + [key];
        currentObject := child;
        currentPath := currentPath[d + 1..];
        d := FindDot(currentPath);
      }
      SplitWithoutDot(currentPath);
      SpineInside(nodes, keys);
      Attach(currentObject, currentPath, value, nodes, keys);
      r := value;
    }
  }
}
