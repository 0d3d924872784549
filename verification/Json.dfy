/** Parsed JSON, and the order in which a stack walk meets the objects of a tree. */
module Json {
  import opened Common

  /** An object keeps its values in `items`, the value of `keys[i]` at position i; keys are unique. */
  datatype Json =
    | Null
    | Bool(b: bool)
    | Num(n: int)
    | Str(s: string)
    | Arr(items: seq<Json>)
    | Obj(items: seq<Json>, keys: seq<string>)
  {
    predicate Branches() {
      Arr? || Obj?
    }

    /** The property named key; None is JavaScript's undefined. */
    function Get(key: string): Option<Json> {
      if Obj? then Lookup(keys, items, key) else None
    }

    /** The first of these keys that is defined. */
    function Pick(names: seq<string>): Option<Json> {
      if |names| == 0 then None
      else if Get(names[0]).Some? then Get(names[0])
      else Pick(names[1..])
    }
  }

  function Lookup(keys: seq<string>, items: seq<Json>, key: string): Option<Json> {
    if |keys| == 0 || |items| == 0 then None
    else if keys[0] == key then Some(items[0])
    else Lookup(keys[1..], items[1..], key)
  }

  /** Property access that passes undefined and null on as undefined. */
  function PickIn(o: Option<Json>, names: seq<string>): Option<Json> {
    if o.Some? then o.value.Pick(names) else None
  }

  // ----- properties, told apart from how they are looked up -----

  /** v is the value of j's first property of this name. */
  ghost predicate Field(j: Json, key: string, v: Json) {
    && j.Obj?
    && exists i :: 0 <= i < |j.keys| && i < |j.items| && j.keys[i] == key && j.items[i] == v
                   && forall k :: 0 <= k < i ==> j.keys[k] != key
  }

  ghost predicate Has(j: Json, key: string) {
    exists v :: Field(j, key, v)
  }

  /** x is the value of the first of these names that j has, or None when it has none. */
  ghost predicate Chosen(j: Json, names: seq<string>, x: Option<Json>) {
    if |names| == 0 then x.None?
    else if Has(j, names[0]) then x.Some? && Field(j, names[0], x.value)
    else Chosen(j, names[1..], x)
  }

  lemma {:induction false} LookupIs(keys: seq<string>, items: seq<Json>, key: string, v: Json)
    ensures Lookup(keys, items, key) == Some(v) <==>
              exists i :: 0 <= i < |keys| && i < |items| && keys[i] == key && items[i] == v
                          && forall k :: 0 <= k < i ==> keys[k] != key
  {
    if |keys| > 0 && |items| > 0 && keys[0] != key {
      LookupIs(keys[1..], items[1..], key, v);
      if i :| 0 <= i < |keys| && i < |items| && keys[i] == key && items[i] == v && forall k :: 0 <= k < i ==> keys[k] != key {
        assert keys[1..][i - 1] == key && items[1..][i - 1] == v;
        assert forall k :: 0 <= k < i - 1 ==> keys[1..][k] == keys[k + 1];
      }
      if i :| 0 <= i < |keys[1..]| && i < |items[1..]| && keys[1..][i] == key && items[1..][i] == v
              && forall k :: 0 <= k < i ==> keys[1..][k] != key {
        assert keys[i + 1] == key && items[i + 1] == v;
        assert forall k :: 1 <= k < i + 1 ==> keys[k] == keys[1..][k - 1];
      }
    }
  }

  lemma GetIs(j: Json, key: string)
    ensures forall v :: j.Get(key) == Some(v) <==> Field(j, key, v)
    ensures j.Get(key).Some? <==> Has(j, key)
  {
    if j.Obj? {
      forall v ensures j.Get(key) == Some(v) <==> Field(j, key, v) {
        LookupIs(j.keys, j.items, key, v);
      }
    }
    if j.Get(key).Some? {
      assert Field(j, key, j.Get(key).value);
    }
  }

  lemma {:induction false} PickIs(j: Json, names: seq<string>, x: Option<Json>)
    ensures j.Pick(names) == x <==> Chosen(j, names, x)
  {
    if |names| > 0 {
      GetIs(j, names[0]);
      PickIs(j, names[1..], x);
    }
  }

  /** The number of nodes. */
  function Size(j: Json): (n: nat)
    ensures n >= 1
    decreases j
  {
    if j.Branches() then 1 + Sizes(j.items) else 1
  }

  function Sizes(js: seq<Json>): nat
    decreases js
  {
    if |js| == 0 then 0 else Sizes(js[..|js| - 1]) + Size(js[|js| - 1])
  }

  lemma {:induction false} SizesAppend(xs: seq<Json>, ys: seq<Json>)
    ensures Sizes(xs + ys) == Sizes(xs) + Sizes(ys)
    decreases |ys|
  {
    if |ys| == 0 {
      assert xs + ys == xs;
    } else {
      var n := |ys| - 1;
      assert (xs + ys)[..|xs| + n] == xs + ys[..n];
      SizesAppend(xs, ys[..n]);
    }
  }

  /** The objects of a tree in the order a walk that pops the last pushed node meets them. */
  function Visit(j: Json): seq<Json>
    decreases j
  {
    (if j.Obj? then [j] else []) + (if j.Branches() then VisitAll(j.items) else [])
  }

  function VisitAll(js: seq<Json>): seq<Json>
    decreases js
  {
    if |js| == 0 then [] else Visit(js[|js| - 1]) + VisitAll(js[..|js| - 1])
  }

  lemma VisitLast(js: seq<Json>, x: Json)
    ensures VisitAll(js + [x]) == Visit(x) + VisitAll(js)
  {
    assert (js + [x])[..|js|] == js;
  }

  lemma SplitLast<T>(xs: seq<T>, ys: seq<T>)
    requires |ys| > 0
    ensures xs + ys[..|ys| - 1] + [ys[|ys| - 1]] == xs + ys && ys[..|ys| - 1] + [ys[|ys| - 1]] == ys
  {
  }

  lemma {:induction false} VisitAppend(xs: seq<Json>, ys: seq<Json>)
    ensures VisitAll(xs + ys) == VisitAll(ys) + VisitAll(xs)
    decreases |ys|
  {
    hide Visit;
    if |ys| == 0 {
      assert xs + ys == xs;
    } else {
      hide VisitAll;
      var n := |ys| - 1;
      VisitAppend(xs, ys[..n]);
      VisitLast(xs + ys[..n], ys[n]);
      VisitLast(ys[..n], ys[n]);
      SplitLast(xs, ys);
      assert Visit(ys[n]) + (VisitAll(ys[..n]) + VisitAll(xs)) == Visit(ys[n]) + VisitAll(ys[..n]) + VisitAll(xs);
    }
  }

  /** One turn of a walk: the popped node's children replace it on the stack. */
  lemma WalkStep(stack: seq<Json>)
    requires |stack| > 0
    ensures var n := |stack| - 1;
            var pushed := if stack[n].Branches() then stack[..n] + stack[n].items else stack[..n];
            && Sizes(pushed) < Sizes(stack)
            && VisitAll(stack) == (if stack[n].Obj? then [stack[n]] else []) + VisitAll(pushed)
  {
    var n := |stack| - 1;
    if stack[n].Branches() {
      SizesAppend(stack[..n], stack[n].items);
      VisitAppend(stack[..n], stack[n].items);
    }
  }

  lemma WalkFromRoot(j: Json)
    ensures VisitAll([j]) == Visit(j)
  {
    assert [j][..0] == [];
    assert VisitAll([]) == [];
  }

  // ----- positions -----

  /** The node reached from j by taking the child at each index of path. */
  function At(j: Json, path: seq<nat>): Option<Json>
    decreases |path|
  {
    if |path| == 0 then Some(j)
    else if j.Branches() && path[0] < |j.items| then At(j.items[path[0]], path[1..])
    else None
  }

  /** o is an object somewhere in j. */
  ghost predicate Holds(j: Json, o: Json) {
    o.Obj? && exists path :: At(j, path) == Some(o)
  }

  /** A walk meets exactly the objects that occur at some position, at any depth. */
  lemma VisitMeetsAll(j: Json, o: Json)
    ensures o in Visit(j) <==> Holds(j, o)
  {
    if o in Visit(j) {
      var path := PathTo(j, o);
    }
    if Holds(j, o) {
      var path :| At(j, path) == Some(o);
      Reaches(j, path, o);
    }
  }

  lemma {:induction false} PathTo(j: Json, o: Json) returns (path: seq<nat>)
    requires o in Visit(j)
    ensures o.Obj? && At(j, path) == Some(o)
    decreases j
  {
    if j.Obj? && o == j {
      path := [];
    } else {
      var i := IndexOf(j.items, o);
      var rest := PathTo(j.items[i], o);
      path := [i] + rest;
      assert path[1..] == rest;
    }
  }

  lemma {:induction false} IndexOf(js: seq<Json>, o: Json) returns (i: nat)
    requires o in VisitAll(js)
    ensures i < |js| && o in Visit(js[i])
    decreases |js|
  {
    i := |js| - 1;
    if o !in Visit(js[i]) {
      i := IndexOf(js[..i], o);
    }
  }

  lemma {:induction false} Reaches(j: Json, path: seq<nat>, o: Json)
    requires o.Obj? && At(j, path) == Some(o)
    ensures o in Visit(j)
    decreases |path|
  {
    if |path| > 0 {
      Reaches(j.items[path[0]], path[1..], o);
      VisitedBelow(j.items, path[0], o);
    }
  }

  lemma {:induction false} VisitedBelow(js: seq<Json>, i: nat, o: Json)
    requires i < |js| && o in Visit(js[i])
    ensures o in VisitAll(js)
    decreases |js|
  {
    if i < |js| - 1 {
      VisitedBelow(js[..|js| - 1], i, o);
    }
  }
}
