/** The check that a value is JSON before it is stored: a depth-first search of an object graph that
    may share objects and may be cyclic. */
module JsonValidation {
  import opened Prelude

  datatype Value =
    | Null
    | Str(text: string)
    | Boolean(flag: bool)
    | Number(finite: bool)
    | Other(typeName: string)
    | Ref(id: nat)

  datatype Shape = ArrayObject | PlainObject | ClassInstance

  /** An object with its children in iteration order. */
  datatype Node = Node(shape: Shape, children: seq<Value>)

  type Heap = map<nat, Node>

  datatype JsonError =
    | NotFinite
    | NotJsonType(name: string)
    | Cyclic
    | NotPlain

  ghost predicate Closed(heap: Heap) {
    forall o <- heap :: forall child <- heap[o].children :: InHeap(heap, child)
  }

  ghost predicate InHeap(heap: Heap, v: Value) {
    v.Ref? ==> v.id in heap
  }

  class WeakSet {
    var members: set<nat>

    constructor ()
      ensures members == {}
    {
      members := {};
    }
  }

  predicate LeafOk(v: Value) {
    v.Null? || v.Str? || v.Boolean? || (v.Number? && v.finite)
  }

  /** What the search decides below `ancestors`. */
  ghost predicate Accepts(heap: Heap, v: Value, ancestors: set<nat>)
    decreases |heap.Keys - ancestors|
  {
    if !v.Ref? then LeafOk(v)
    else
      && v.id in heap && v.id !in ancestors && !heap[v.id].shape.ClassInstance?
      && (
        OneFewer(heap, ancestors, v.id);
        forall i :: 0 <= i < |heap[v.id].children| ==> Accepts(heap, heap[v.id].children[i], ancestors + {v.id}))
  }

  lemma {:induction false} OneFewer(heap: Heap, ancestors: set<nat>, o: nat)
    requires o in heap && o !in ancestors
    ensures |heap.Keys - (ancestors + {o})| < |heap.Keys - ancestors|
  {
    assert heap.Keys - (ancestors + {o}) == (heap.Keys - ancestors) - {o};
  }

  /** The fault that the search meets first, going through children in their order. */
  ghost function Fault(heap: Heap, v: Value, ancestors: set<nat>): Option<JsonError>
    decreases |heap.Keys - ancestors|, 0
  {
    match v
    case Null => None
    case Str(_) => None
    case Boolean(_) => None
    case Number(finite) => if finite then None else Some(NotFinite)
    case Other(typeName) => Some(NotJsonType(typeName))
    case Ref(o) =>
      if o in ancestors then Some(Cyclic)
      else if o !in heap then None
      else if heap[o].shape.ClassInstance? then Some(NotPlain)
      else
        OneFewer(heap, ancestors, o);
        FirstFault(heap, heap[o].children, ancestors + {o})
  }

  ghost function FirstFault(heap: Heap, vs: seq<Value>, ancestors: set<nat>): Option<JsonError>
    decreases |heap.Keys - ancestors|, |vs|
  {
    if vs == [] then None
    else if Fault(heap, vs[0], ancestors).Some? then Fault(heap, vs[0], ancestors)
    else FirstFault(heap, vs[1..], ancestors)
  }

  /** The first fault of several values is that of the first faulty one. */
  lemma {:induction false} FirstFaultIsFirst(heap: Heap, vs: seq<Value>, ancestors: set<nat>, n: nat)
    requires n <= |vs| && forall i :: 0 <= i < n ==> Fault(heap, vs[i], ancestors).None?
    ensures n == |vs| ==> FirstFault(heap, vs, ancestors).None?
    ensures n < |vs| && Fault(heap, vs[n], ancestors).Some? ==>
              FirstFault(heap, vs, ancestors) == Fault(heap, vs[n], ancestors)
    decreases n
  {
    if n > 0 { FirstFaultIsFirst(heap, vs[1..], ancestors, n - 1); }
  }

  /** The search itself. It ends on every finite graph, because each recursive call has one more object
      on its path; on success it leaves the ancestors as it found them. */
  method ValidateJson(heap: Heap, value: Value, ancestors: WeakSet) returns (r: Result<(), JsonError>)
    requires Closed(heap) && InHeap(heap, value)
    modifies ancestors
    ensures r.Ok? <==> Accepts(heap, value, old(ancestors.members))
    ensures r.Ok? ==> ancestors.members == old(ancestors.members)
    ensures r.Err? ==> Blames(heap, value, old(ancestors.members), r.error)
    ensures Fault(heap, value, old(ancestors.members)) == if r.Ok? then None else Some(r.error)
    decreases |heap.Keys - ancestors.members|
  {
    if value.Null? || value.Str? || value.Boolean? { return Ok(()); }
    if value.Number? {
      if !value.finite { return Err(NotFinite); }
      return Ok(());
    }
    if !value.Ref? { return Err(NotJsonType(value.typeName)); }
    var o := value.id;
    ghost var before := ancestors.members;
    assert Walk(heap, [o]);
    if o in ancestors.members {
      assert BlamedAt(heap, [o], before, Cyclic);
      return Err(Cyclic);
    }
    if heap[o].shape.ClassInstance? {
      assert BlamedAt(heap, [o], before, NotPlain);
      return Err(NotPlain);
    }
    ancestors.members := ancestors.members + {o};
    OneFewer(heap, before, o);
    var children := heap[o].children;
    for i := 0 to |children|
      invariant ancestors.members == before + {o}
      invariant forall j :: 0 <= j < i ==> Accepts(heap, children[j], before + {o})
      invariant forall j :: 0 <= j < i ==> Fault(heap, children[j], before + {o}).None?
    {
      assert children[i] in heap[o].children;
      r := ValidateJson(heap, children[i], ancestors);
      if r.Err? {
        BlameFromChild(heap, o, children[i], before, r.error);
        FirstFaultIsFirst(heap, children, before + {o}, i);
        return;
      }
    }
    FirstFaultIsFirst(heap, children, before + {o}, |children|);
    ancestors.members := ancestors.members - {o};
    return Ok(());
  }

  // --- Walks ---

  ghost predicate Linked(heap: Heap, w: seq<nat>, i: nat)
    requires i < |w| - 1
  {
    w[i] in heap && w[i + 1] in heap && Ref(w[i + 1]) in heap[w[i]].children
  }

  ghost predicate Walk(heap: Heap, w: seq<nat>) {
    && |w| > 0 && w[0] in heap
    && forall i :: 0 <= i < |w| - 1 ==> Linked(heap, w, i)
  }

  function Last(w: seq<nat>): nat
    requires |w| > 0
  {
    w[|w| - 1]
  }

  ghost predicate Reaches(heap: Heap, a: nat, b: nat) {
    exists w :: Walk(heap, w) && w[0] == a && Last(w) == b
  }

  ghost predicate ReachesItself(heap: Heap, o: nat) {
    exists w :: Walk(heap, w) && |w| > 1 && w[0] == o && Last(w) == o
  }

  /** An array or plain object whose direct leaves are all JSON. */
  ghost predicate NodeOk(heap: Heap, o: nat) {
    && o in heap && !heap[o].shape.ClassInstance?
    && forall child <- heap[o].children :: child.Ref? || LeafOk(child)
  }

  /** What it means for a value to be JSON, with no reference to any search. */
  ghost predicate IsJson(heap: Heap, v: Value) {
    if !v.Ref? then LeafOk(v)
    else forall b :: Reaches(heap, v.id, b) ==> NodeOk(heap, b) && !ReachesItself(heap, b)
  }

  lemma {:induction false} StepFirst(heap: Heap, o: nat, w: seq<nat>)
    requires o in heap && Walk(heap, w) && Ref(w[0]) in heap[o].children
    ensures Walk(heap, [o] + w) && Last([o] + w) == Last(w)
    ensures ([o] + w)[..|w|] == [o] + w[..|w| - 1]
  {
    var x := [o] + w;
    forall i | 0 <= i < |x| - 1 ensures Linked(heap, x, i) {
      if i > 0 { assert Linked(heap, w, i - 1); }
    }
  }

  lemma {:induction false} Suffix(heap: Heap, w: seq<nat>, i: nat)
    requires Walk(heap, w) && i < |w|
    ensures Walk(heap, w[i..]) && Last(w[i..]) == Last(w)
  {
    var s := w[i..];
    if i > 0 { assert Linked(heap, w, i - 1); }
    forall k | 0 <= k < |s| - 1 ensures Linked(heap, s, k) {
      assert Linked(heap, w, i + k);
    }
  }

  lemma {:induction false} Joined(heap: Heap, w: seq<nat>, c: seq<nat>)
    requires Walk(heap, w) && Walk(heap, c) && |c| > 1 && Last(w) == c[0]
    ensures Walk(heap, w + c[1..]) && Last(w + c[1..]) == Last(c)
  {
    var j := w + c[1..];
    forall i | 0 <= i < |j| - 1 ensures Linked(heap, j, i) {
      if i < |w| - 1 {
        assert Linked(heap, w, i);
      } else {
        assert Linked(heap, c, i - (|w| - 1));
      }
    }
  }

  // --- Errors blame a real place ---

  /** The end of walk `w`, searched below `ancestors`, deserves error `e`. */
  ghost predicate BlamedAt(heap: Heap, w: seq<nat>, ancestors: set<nat>, e: JsonError)
    requires |w| > 0
  {
    && Walk(heap, w) && Last(w) in heap
    && match e
       case Cyclic => Last(w) in ancestors || Last(w) in w[..|w| - 1]
       case NotPlain => heap[Last(w)].shape.ClassInstance?
       case NotFinite => Number(false) in heap[Last(w)].children
       case NotJsonType(name) => Other(name) in heap[Last(w)].children
  }

  ghost predicate Blames(heap: Heap, v: Value, ancestors: set<nat>, e: JsonError) {
    match v
    case Ref(o) => exists w :: |w| > 0 && w[0] == o && BlamedAt(heap, w, ancestors, e)
    case _ => (v == Number(false) && e == NotFinite) || (v.Other? && e == NotJsonType(v.typeName))
  }

  lemma {:induction false} BlameFromChild(heap: Heap, o: nat, child: Value, ancestors: set<nat>, e: JsonError)
    requires o in heap && child in heap[o].children && Blames(heap, child, ancestors + {o}, e)
    ensures Blames(heap, Ref(o), ancestors, e)
  {
    if child.Ref? {
      var w :| |w| > 0 && w[0] == child.id && BlamedAt(heap, w, ancestors + {o}, e);
      StepFirst(heap, o, w);
      assert BlamedAt(heap, [o] + w, ancestors, e) by {
        if e.Cyclic? {
          assert ([o] + w)[..|w|] == [o] + w[..|w| - 1];
          assert ([o] + w)[..|w|][0] == o;
        }
      }
    } else {
      assert BlamedAt(heap, [o], ancestors, e);
    }
  }

  // --- The search decides exactly IsJson ---

  /** No walk from `o` ends in a bad node, in an ancestor, or where it has been before. */
  ghost predicate GoodWalks(heap: Heap, o: nat, ancestors: set<nat>) {
    forall w :: Walk(heap, w) && w[0] == o ==> GoodEnd(heap, w, ancestors)
  }

  ghost predicate GoodEnd(heap: Heap, w: seq<nat>, ancestors: set<nat>)
    requires |w| > 0
  {
    NodeOk(heap, Last(w)) && Last(w) !in ancestors && Last(w) !in w[..|w| - 1]
  }

  lemma {:induction false} AcceptedWalkIsGood(heap: Heap, ancestors: set<nat>, w: seq<nat>)
    requires Walk(heap, w) && Accepts(heap, Ref(w[0]), ancestors)
    ensures GoodEnd(heap, w, ancestors)
    decreases |w|
  {
    var o := w[0];
    forall child | child in heap[o].children ensures child.Ref? || LeafOk(child) {
      var i :| 0 <= i < |heap[o].children| && heap[o].children[i] == child;
      assert Accepts(heap, heap[o].children[i], ancestors + {o});
    }
    if |w| > 1 {
      var rest := w[1..];
      Suffix(heap, w, 1);
      assert Linked(heap, w, 0);
      var i :| 0 <= i < |heap[o].children| && heap[o].children[i] == Ref(w[1]);
      AcceptedWalkIsGood(heap, ancestors + {o}, rest);
      assert w[..|w| - 1] == [o] + rest[..|rest| - 1];
    }
  }

  lemma {:induction false} GoodWalksAreAccepted(heap: Heap, o: nat, ancestors: set<nat>)
    requires Closed(heap) && o in heap && GoodWalks(heap, o, ancestors)
    ensures Accepts(heap, Ref(o), ancestors)
    decreases |heap.Keys - ancestors|
  {
    assert Walk(heap, [o]) && GoodEnd(heap, [o], ancestors);
    OneFewer(heap, ancestors, o);
    forall i | 0 <= i < |heap[o].children| ensures Accepts(heap, heap[o].children[i], ancestors + {o}) {
      var child := heap[o].children[i];
      assert child in heap[o].children && InHeap(heap, child);
      if child.Ref? {
        forall w | Walk(heap, w) && w[0] == child.id ensures GoodEnd(heap, w, ancestors + {o}) {
          StepFirst(heap, o, w);
          assert GoodEnd(heap, [o] + w, ancestors);
          assert ([o] + w)[..|w|][0] == o;
          forall x | x in w[..|w| - 1] ensures x in ([o] + w)[..|w|] {}
        }
        GoodWalksAreAccepted(heap, child.id, ancestors + {o});
      }
    }
  }

  /** A walk to a node that reaches itself extends to one that comes back to it. */
  lemma {:induction false} CycleSpoils(heap: Heap, w: seq<nat>) returns (j: seq<nat>)
    requires Walk(heap, w) && ReachesItself(heap, Last(w))
    ensures Walk(heap, j) && j[0] == w[0] && Last(j) in j[..|j| - 1]
  {
    var c :| Walk(heap, c) && |c| > 1 && c[0] == Last(w) && Last(c) == Last(w);
    Joined(heap, w, c);
    j := w + c[1..];
    assert j[..|j| - 1][|w| - 1] == Last(w);
  }

  /** A walk that comes back to a node contains a cycle through that node. */
  lemma {:induction false} ReturnIsCycle(heap: Heap, w: seq<nat>)
    requires Walk(heap, w) && Last(w) in w[..|w| - 1]
    ensures ReachesItself(heap, Last(w))
  {
    var i :| 0 <= i < |w| - 1 && w[..|w| - 1][i] == Last(w);
    Suffix(heap, w, i);
    assert Walk(heap, w[i..]) && w[i..][0] == Last(w);
  }

  lemma {:induction false} GoodWalksIffJson(heap: Heap, o: nat)
    requires o in heap
    ensures GoodWalks(heap, o, {}) <==> IsJson(heap, Ref(o))
  {
    if GoodWalks(heap, o, {}) {
      forall b | Reaches(heap, o, b) ensures NodeOk(heap, b) && !ReachesItself(heap, b) {
        var w :| Walk(heap, w) && w[0] == o && Last(w) == b;
        assert GoodEnd(heap, w, {});
        if ReachesItself(heap, b) {
          var j := CycleSpoils(heap, w);
        }
      }
    }
    if IsJson(heap, Ref(o)) {
      forall w | Walk(heap, w) && w[0] == o ensures GoodEnd(heap, w, {}) {
        assert Reaches(heap, o, Last(w));
        if Last(w) in w[..|w| - 1] {
          ReturnIsCycle(heap, w);
        }
      }
    }
  }

  /** The search accepts a value exactly if every leaf it reaches is null, a string, a boolean or a
      finite number, every object it reaches is an array or a plain object, and none of them
      reaches itself. Objects may be shared. */
  lemma {:induction false} AcceptsIffJson(heap: Heap, v: Value)
    requires Closed(heap) && InHeap(heap, v)
    ensures Accepts(heap, v, {}) <==> IsJson(heap, v)
  {
    if v.Ref? {
      GoodWalksIffJson(heap, v.id);
      if Accepts(heap, v, {}) {
        forall w | Walk(heap, w) && w[0] == v.id ensures GoodEnd(heap, w, {}) {
          AcceptedWalkIsGood(heap, {}, w);
        }
      } else if GoodWalks(heap, v.id, {}) {
        GoodWalksAreAccepted(heap, v.id, {});
      }
    }
  }

  // --- JSON values unfold into finite trees ---

  datatype Json =
    | JNull
    | JString(text: string)
    | JBoolean(flag: bool)
    | JNumber
    | JArray(items: seq<Json>)
    | JObject(values: seq<Json>)

  /** Following all references from `v` gives the finite tree `j`. */
  ghost predicate Unfolds(heap: Heap, v: Value, j: Json)
    decreases j
  {
    match v
    case Null => j == JNull
    case Str(text) => j == JString(text)
    case Boolean(flag) => j == JBoolean(flag)
    case Number(finite) => finite && j == JNumber
    case Other(_) => false
    case Ref(o) =>
      && o in heap
      && var children := heap[o].children;
         match heap[o].shape
         case ArrayObject =>
           && j.JArray? && |j.items| == |children|
           && forall i :: 0 <= i < |children| ==> Unfolds(heap, children[i], j.items[i])
         case PlainObject =>
           && j.JObject? && |j.values| == |children|
           && forall i :: 0 <= i < |children| ==> Unfolds(heap, children[i], j.values[i])
         case ClassInstance => false
  }

  function Parts(j: Json): seq<Json> {
    match j
    case JArray(items) => items
    case JObject(values) => values
    case _ => []
  }

  function Size(j: Json): nat
    decreases j, 1
  {
    match j
    case JArray(items) => 1 + Sizes(items)
    case JObject(values) => 1 + Sizes(values)
    case _ => 1
  }

  function Sizes(js: seq<Json>): nat
    decreases js, 0
  {
    if js == [] then 0 else Size(js[0]) + Sizes(js[1..])
  }

  lemma {:induction false} PartIsSmaller(js: seq<Json>, i: nat)
    requires i < |js|
    ensures Size(js[i]) <= Sizes(js)
    decreases i
  {
    if i > 0 { PartIsSmaller(js[1..], i - 1); }
  }

  /** A value unfolds into one tree at most. */
  lemma {:induction false} OneTree(heap: Heap, v: Value, j: Json, k: Json)
    requires Unfolds(heap, v, j) && Unfolds(heap, v, k)
    ensures j == k
    decreases j
  {
    if v.Ref? {
      forall i | 0 <= i < |Parts(j)| ensures Parts(j)[i] == Parts(k)[i] {
        OneTree(heap, heap[v.id].children[i], Parts(j)[i], Parts(k)[i]);
      }
      assert Parts(j) == Parts(k);
    }
  }

  lemma {:induction false} AcceptedUnfolds(heap: Heap, v: Value, ancestors: set<nat>) returns (j: Json)
    requires Accepts(heap, v, ancestors)
    ensures Unfolds(heap, v, j)
    decreases |heap.Keys - ancestors|, 0
  {
    match v
    case Null => j := JNull;
    case Str(text) => j := JString(text);
    case Boolean(flag) => j := JBoolean(flag);
    case Number(_) => j := JNumber;
    case Ref(o) =>
      OneFewer(heap, ancestors, o);
      var js := AllUnfold(heap, heap[o].children, ancestors + {o});
      j := if heap[o].shape.ArrayObject? then JArray(js) else JObject(js);
  }

  lemma {:induction false} AllUnfold(heap: Heap, vs: seq<Value>, ancestors: set<nat>) returns (js: seq<Json>)
    requires forall i :: 0 <= i < |vs| ==> Accepts(heap, vs[i], ancestors)
    ensures |js| == |vs| && forall i :: 0 <= i < |vs| ==> Unfolds(heap, vs[i], js[i])
    decreases |heap.Keys - ancestors|, |vs|
  {
    js := [];
    if vs != [] {
      var j := AcceptedUnfolds(heap, vs[0], ancestors);
      var rest := AllUnfold(heap, vs[1..], ancestors);
      js := [j] + rest;
      forall i | 0 < i < |vs| ensures Unfolds(heap, vs[i], js[i]) {
        assert Unfolds(heap, vs[1..][i - 1], rest[i - 1]);
      }
    }
  }

  /** The ancestors unfold into larger trees than `j`. */
  ghost predicate Above(heap: Heap, ancestors: set<nat>, j: Json) {
    forall a <- ancestors :: exists k :: Unfolds(heap, Ref(a), k) && Size(k) > Size(j)
  }

  lemma {:induction false} NotAboveItself(heap: Heap, o: nat, j: Json, ancestors: set<nat>)
    requires Unfolds(heap, Ref(o), j) && Above(heap, ancestors, j)
    ensures o !in ancestors
  {
    if o in ancestors {
      var k :| Unfolds(heap, Ref(o), k) && Size(k) > Size(j);
      OneTree(heap, Ref(o), j, k);
      assert false;
    }
  }

  lemma {:induction false} AboveParts(heap: Heap, o: nat, j: Json, ancestors: set<nat>, i: nat)
    requires Unfolds(heap, Ref(o), j) && Above(heap, ancestors, j) && i < |Parts(j)|
    ensures Above(heap, ancestors + {o}, Parts(j)[i])
  {
    PartIsSmaller(Parts(j), i);
    forall a | a in ancestors + {o} ensures exists k :: Unfolds(heap, Ref(a), k) && Size(k) > Size(Parts(j)[i]) {
      if a in ancestors {
        var k :| Unfolds(heap, Ref(a), k) && Size(k) > Size(j);
      } else {
        assert Unfolds(heap, Ref(a), j);
      }
    }
  }

  lemma {:induction false} UnfoldedIsAccepted(heap: Heap, v: Value, j: Json, ancestors: set<nat>)
    requires Unfolds(heap, v, j) && Above(heap, ancestors, j)
    ensures Accepts(heap, v, ancestors)
    decreases j
  {
    if v.Ref? {
      NotAboveItself(heap, v.id, j, ancestors);
      OneFewer(heap, ancestors, v.id);
      forall i | 0 <= i < |heap[v.id].children| ensures Accepts(heap, heap[v.id].children[i], ancestors + {v.id}) {
        AboveParts(heap, v.id, j, ancestors, i);
        UnfoldedIsAccepted(heap, heap[v.id].children[i], Parts(j)[i], ancestors + {v.id});
      }
    }
  }

  /** A value is JSON exactly if it unfolds into a finite tree of JSON values. */
  lemma {:induction false} JsonIffUnfolds(heap: Heap, v: Value)
    requires Closed(heap) && InHeap(heap, v)
    ensures IsJson(heap, v) <==> exists j :: Unfolds(heap, v, j)
  {
    AcceptsIffJson(heap, v);
    if Accepts(heap, v, {}) {
      var j := AcceptedUnfolds(heap, v, {});
      assert Unfolds(heap, v, j);
    } else {
      forall j ensures !Unfolds(heap, v, j) {
        if Unfolds(heap, v, j) { UnfoldedIsAccepted(heap, v, j, {}); }
      }
    }
  }

  /** The check as callers use it, starting with no ancestors. */
  method CheckJson(heap: Heap, value: Value) returns (r: Result<(), JsonError>)
    requires Closed(heap) && InHeap(heap, value)
    ensures r.Ok? <==> IsJson(heap, value)
    ensures r.Ok? <==> exists j :: Unfolds(heap, value, j)
    ensures r.Err? ==> Blames(heap, value, {}, r.error)
    ensures Fault(heap, value, {}) == if r.Ok? then None else Some(r.error)
  {
    var ancestors := new WeakSet();
    r := ValidateJson(heap, value, ancestors);
    AcceptsIffJson(heap, value);
    JsonIffUnfolds(heap, value);
  }
}
