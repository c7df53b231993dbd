/** Comparison of object graphs that may be cyclic. */
module DeepEqual {
  import opened Collections

  type Id = nat

  datatype Number = Value(value: real) | NotANumber

  /** A float, a NaN, an array of a plain dtype, an array of object references, or a value of some other type. */
  datatype Obj =
    | Float(value: real)
    | NaN
    | Numbers(dtype: int, shape: seq<nat>, data: seq<Number>)
    | Array(shape: seq<nat>, items: seq<Id>)
    | Other(kind: int, content: int)

  type Heap = map<Id, Obj>

  function Size(shape: seq<nat>): nat {
    if shape == [] then 1 else Size(shape[..|shape| - 1]) * shape[|shape| - 1]
  }

  ghost predicate ObjWf(h: Heap, o: Obj) {
    o.Array? ==> |o.items| == Size(o.shape) && forall i :: 0 <= i < |o.items| ==> o.items[i] in h
  }

  /** References lead to objects, and an array has as many items as its shape says. */
  ghost predicate Wf(h: Heap) { forall x :: x in h ==> ObjWf(h, h[x]) }

  predicate SameType(a: Obj, b: Obj) {
    || ((a.Float? || a.NaN?) && (b.Float? || b.NaN?))
    || ((a.Numbers? || a.Array?) && (b.Numbers? || b.Array?))
    || (a.Other? && b.Other? && a.kind == b.kind)
  }

  /** Equal as far as one level shows: values with NaN equal to NaN, dtypes and shapes of arrays. */
  predicate Matches(a: Obj, b: Obj) {
    if a.Array? then b.Array? && a.shape == b.shape else a == b
  }

  /** Equal down to k levels. */
  ghost predicate SameTo(h: Heap, a: Id, b: Id, k: nat)
    requires Wf(h) && a in h && b in h
    decreases k, 0
  {
    k > 0 ==> Matches(h[a], h[b]) && (h[a].Array? ==> SameItems(h, a, b, k - 1))
  }

  ghost predicate SameItems(h: Heap, a: Id, b: Id, k: nat)
    requires Wf(h) && a in h && b in h && h[a].Array? && Matches(h[a], h[b])
    decreases k, 2
  {
    forall i :: 0 <= i < |h[a].items| ==> SameItem(h, a, b, i, k)
  }

  ghost predicate SameItem(h: Heap, a: Id, b: Id, i: nat, k: nat)
    requires Wf(h) && a in h && b in h && h[a].Array? && Matches(h[a], h[b]) && i < |h[a].items|
    decreases k, 1
  {
    ItemIn(h, a, i);
    ItemIn(h, b, i);
    SameTo(h, h[a].items[i], h[b].items[i], k)
  }

  lemma ItemIn(h: Heap, a: Id, i: nat)
    requires Wf(h) && a in h && h[a].Array?
    ensures |h[a].items| == Size(h[a].shape)
    ensures i < |h[a].items| ==> h[a].items[i] in h
  {
  }

  /** Structural equality: no finite unfolding tells the two apart. */
  ghost predicate Same(h: Heap, a: Id, b: Id)
    requires Wf(h) && a in h && b in h
  {
    forall k: nat :: SameTo(h, a, b, k)
  }

  // ----- the comparison

  /** What the comparison answers, given the objects already on the path. */
  ghost predicate Answer(h: Heap, a: Id, b: Id, seen: set<Id>)
    requires Wf(h) && a in h && b in h
    decreases |h.Keys - seen|, 0
  {
    && SameType(h[a], h[b])
    && (a !in seen ==>
          && Matches(h[a], h[b])
          && (h[a].Array? ==> (Shrinks(h, a, seen); ItemsAnswer(h, a, b, seen + {a}))))
  }

  ghost predicate ItemsAnswer(h: Heap, a: Id, b: Id, seen: set<Id>)
    requires Wf(h) && a in h && b in h && h[a].Array? && Matches(h[a], h[b])
    decreases |h.Keys - seen|, 2
  {
    forall i :: 0 <= i < |h[a].items| ==> ItemAnswer(h, a, b, i, seen)
  }

  ghost predicate ItemAnswer(h: Heap, a: Id, b: Id, i: nat, seen: set<Id>)
    requires Wf(h) && a in h && b in h && h[a].Array? && Matches(h[a], h[b]) && i < |h[a].items|
    decreases |h.Keys - seen|, 1
  {
    ItemIn(h, a, i);
    ItemIn(h, b, i);
    Answer(h, h[a].items[i], h[b].items[i], seen)
  }

  lemma Shrinks(h: Heap, a: Id, seen: set<Id>)
    requires a in h && a !in seen
    ensures |h.Keys - (seen + {a})| < |h.Keys - seen|
  {
    assert h.Keys - (seen + {a}) == (h.Keys - seen) - {a};
  }

  /** The caller's set of object ids. */
  class Visited {
    var ids: set<Id>

    constructor ()
      ensures ids == {}
    {
      ids := {};
    }
  }

  /** Terminates on every graph and hands the visited set back as it was. */
  method Compare(h: Heap, a: Id, b: Id, visited: Visited) returns (r: bool)
    requires Wf(h) && a in h && b in h
    modifies visited
    ensures visited.ids == old(visited.ids)
    ensures r <==> Answer(h, a, b, old(visited.ids))
    ensures a !in old(visited.ids) && h[a].Float? ==> (r <==> h[b].Float? && h[a].value == h[b].value)
    ensures a !in old(visited.ids) && h[a].NaN? ==> (r <==> h[b].NaN?)
    ensures a !in old(visited.ids) && h[a].Other? ==>
              (r <==> h[b].Other? && h[a].kind == h[b].kind && h[a].content == h[b].content)
    ensures a !in old(visited.ids) && h[a].Numbers? ==>
              (r <==> && h[b].Numbers? && h[a].dtype == h[b].dtype && h[a].shape == h[b].shape
                      && |h[a].data| == |h[b].data|
                      && forall i :: 0 <= i < |h[a].data| ==>
                                       if h[a].data[i].NotANumber? then h[b].data[i].NotANumber?
                                       else h[b].data[i].Value? && h[a].data[i].value == h[b].data[i].value)
    ensures a !in old(visited.ids) && h[a].Array? && r ==> h[b].Array? && h[a].shape == h[b].shape
    ensures a in old(visited.ids) ==>
              (r <==> || ((h[a].Float? || h[a].NaN?) && (h[b].Float? || h[b].NaN?))
                      || ((h[a].Numbers? || h[a].Array?) && (h[b].Numbers? || h[b].Array?))
                      || (h[a].Other? && h[b].Other? && h[a].kind == h[b].kind))
    decreases |h.Keys - visited.ids|, 0
  {
    if !SameType(h[a], h[b]) {
      return false;
    }
    if a in visited.ids {
      return true;
    }
    ghost var before := visited.ids;
    LeafAnswers(h, a, b, before);
    visited.ids := visited.ids + {a};
    Shrinks(h, a, before);
    if h[a].NaN? && h[b].NaN? {
      r := true;
    } else if h[a].Numbers? || h[a].Array? {
      r := CompareArrays(h, a, b, visited);
    } else {
      r := h[a] == h[b];
    }
    visited.ids := visited.ids - {a};
    assert visited.ids == before;
  }

  method CompareArrays(h: Heap, a: Id, b: Id, visited: Visited) returns (r: bool)
    requires Wf(h) && a in h && b in h && SameType(h[a], h[b]) && (h[a].Numbers? || h[a].Array?)
    modifies visited
    ensures visited.ids == old(visited.ids)
    ensures r <==> Matches(h[a], h[b]) && (h[a].Array? ==> ItemsAnswer(h, a, b, old(visited.ids)))
    decreases |h.Keys - visited.ids|, 1
  {
    if h[a].Numbers? != h[b].Numbers? || h[a].shape != h[b].shape {
      return false;
    }
    if h[a].Numbers? {
      return h[a] == h[b];
    }
    ItemIn(h, a, 0);
    ItemIn(h, b, 0);
    for i := 0 to |h[a].items|
      invariant visited.ids == old(visited.ids)
      invariant forall j :: 0 <= j < i ==> ItemAnswer(h, a, b, j, old(visited.ids))
    {
      ItemIn(h, a, i);
      ItemIn(h, b, i);
      var same := Compare(h, h[a].items[i], h[b].items[i], visited);
      if !same {
        assert !ItemAnswer(h, a, b, i, old(visited.ids));
        return false;
      }
      assert ItemAnswer(h, a, b, i, old(visited.ids));
    }
    r := true;
  }

  // ----- what equal means, one level at a time

  /** Numbers of a plain array, equal when NaN is equal to NaN. */
  lemma NumbersEqual(s: seq<Number>, t: seq<Number>)
    ensures s == t <==>
            && |s| == |t|
            && forall i :: 0 <= i < |s| ==>
                             if s[i].NotANumber? then t[i].NotANumber? else t[i].Value? && s[i].value == t[i].value
  {
    if && |s| == |t|
       && forall i :: 0 <= i < |s| ==>
                        if s[i].NotANumber? then t[i].NotANumber? else t[i].Value? && s[i].value == t[i].value
    {
      forall i | 0 <= i < |s| ensures s[i] == t[i] {}
    }
  }

  /** Leaves met for the first time: floats by value, NaN with NaN only, plain arrays by dtype, shape and every item
      with NaN equal to NaN, other values by kind and content. */
  lemma LeafAnswers(h: Heap, a: Id, b: Id, seen: set<Id>)
    requires Wf(h) && a in h && b in h && a !in seen
    ensures h[a].Float? ==> (Answer(h, a, b, seen) <==> h[b].Float? && h[a].value == h[b].value)
    ensures h[a].NaN? ==> (Answer(h, a, b, seen) <==> h[b].NaN?)
    ensures h[a].Other? ==>
              (Answer(h, a, b, seen) <==> h[b].Other? && h[a].kind == h[b].kind && h[a].content == h[b].content)
    ensures h[a].Numbers? ==>
              (Answer(h, a, b, seen) <==>
               && h[b].Numbers? && h[a].dtype == h[b].dtype && h[a].shape == h[b].shape
               && |h[a].data| == |h[b].data|
               && forall i :: 0 <= i < |h[a].data| ==>
                                if h[a].data[i].NotANumber? then h[b].data[i].NotANumber?
                                else h[b].data[i].Value? && h[a].data[i].value == h[b].data[i].value)
  {
    if h[a].Numbers? && h[b].Numbers? { NumbersEqual(h[a].data, h[b].data); }
  }

  /** An array met for the first time: an array of the same shape whose items compare equal with it on the path. */
  lemma ArrayAnswers(h: Heap, a: Id, b: Id, seen: set<Id>)
    requires Wf(h) && a in h && b in h && a !in seen && h[a].Array?
    ensures (forall i :: 0 <= i < |h[a].items| ==> h[a].items[i] in h)
            && (h[b].Array? && h[a].shape == h[b].shape ==> |h[b].items| == |h[a].items|)
            && (h[b].Array? ==> forall i :: 0 <= i < |h[b].items| ==> h[b].items[i] in h)
    ensures Answer(h, a, b, seen) <==>
            && h[b].Array? && h[a].shape == h[b].shape
            && forall i :: 0 <= i < |h[a].items| ==> Answer(h, h[a].items[i], h[b].items[i], seen + {a})
  {
    assert ObjWf(h, h[a]) && ObjWf(h, h[b]);
    AnswerUnfolds(h, a, b, seen);
    if h[b].Array? && h[a].shape == h[b].shape {
      forall i | 0 <= i < |h[a].items|
        ensures ItemAnswer(h, a, b, i, seen + {a}) <==> Answer(h, h[a].items[i], h[b].items[i], seen + {a})
      {
        ItemUnfolds(h, a, b, i, seen + {a});
      }
      hide Answer, ItemAnswer, Wf;
    }
  }

  lemma AnswerUnfolds(h: Heap, a: Id, b: Id, seen: set<Id>)
    requires Wf(h) && a in h && b in h && a !in seen && h[a].Array?
    ensures Answer(h, a, b, seen) <==>
            h[b].Array? && h[a].shape == h[b].shape && ItemsAnswer(h, a, b, seen + {a})
  {
    Shrinks(h, a, seen);
    hide ItemsAnswer;
  }

  lemma ItemUnfolds(h: Heap, a: Id, b: Id, i: nat, seen: set<Id>)
    requires Wf(h) && a in h && b in h && h[a].Array? && Matches(h[a], h[b]) && i < |h[a].items|
    ensures i < |h[b].items| && h[a].items[i] in h && h[b].items[i] in h
    ensures ItemAnswer(h, a, b, i, seen) <==> Answer(h, h[a].items[i], h[b].items[i], seen)
  {
    ItemIn(h, a, i);
    ItemIn(h, b, i);
    hide Answer;
  }

  /** Structural equality of leaves, the same conditions. */
  lemma SameLeaves(h: Heap, a: Id, b: Id)
    requires Wf(h) && a in h && b in h
    ensures h[a].Float? ==> (Same(h, a, b) <==> h[b].Float? && h[a].value == h[b].value)
    ensures h[a].NaN? ==> (Same(h, a, b) <==> h[b].NaN?)
    ensures h[a].Other? ==>
              (Same(h, a, b) <==> h[b].Other? && h[a].kind == h[b].kind && h[a].content == h[b].content)
    ensures h[a].Numbers? ==>
              (Same(h, a, b) <==>
               && h[b].Numbers? && h[a].dtype == h[b].dtype && h[a].shape == h[b].shape
               && |h[a].data| == |h[b].data|
               && forall i :: 0 <= i < |h[a].data| ==>
                                if h[a].data[i].NotANumber? then h[b].data[i].NotANumber?
                                else h[b].data[i].Value? && h[a].data[i].value == h[b].data[i].value)
  {
    if h[a].Numbers? && h[b].Numbers? { NumbersEqual(h[a].data, h[b].data); }
    if !h[a].Array? {
      assert SameTo(h, a, b, 1) <==> Matches(h[a], h[b]);
      assert Matches(h[a], h[b]) ==> forall k: nat :: SameTo(h, a, b, k);
    }
  }

  /** Structural equality of arrays: the same shape, and items structurally equal one by one. */
  lemma SameArrays(h: Heap, a: Id, b: Id)
    requires Wf(h) && a in h && b in h && h[a].Array?
    ensures (forall i :: 0 <= i < |h[a].items| ==> h[a].items[i] in h)
            && (h[b].Array? && h[a].shape == h[b].shape ==> |h[b].items| == |h[a].items|)
            && (h[b].Array? ==> forall i :: 0 <= i < |h[b].items| ==> h[b].items[i] in h)
    ensures Same(h, a, b) <==>
            && h[b].Array? && h[a].shape == h[b].shape
            && forall i :: 0 <= i < |h[a].items| ==> Same(h, h[a].items[i], h[b].items[i])
  {
    assert ObjWf(h, h[a]) && ObjWf(h, h[b]);
    if Same(h, a, b) {
      assert SameTo(h, a, b, 1);
      forall i | 0 <= i < |h[a].items| ensures Same(h, h[a].items[i], h[b].items[i]) { SameBelow(h, a, b, i); }
    }
    if h[b].Array? && h[a].shape == h[b].shape
       && (forall i :: 0 <= i < |h[a].items| ==> Same(h, h[a].items[i], h[b].items[i])) {
      forall k: nat ensures SameTo(h, a, b, k) {
        if k > 0 {
          var l := k - 1;
          forall i | 0 <= i < |h[a].items| ensures SameItem(h, a, b, i, l) {
            assert Same(h, h[a].items[i], h[b].items[i]);
          }
        }
      }
    }
  }

  // ----- a difference that is found is real

  lemma ItemSame(h: Heap, a: Id, b: Id, i: nat, k: nat)
    requires Wf(h) && a in h && b in h && h[a].Array? && Matches(h[a], h[b]) && i < |h[a].items|
    ensures i < |h[b].items| && h[a].items[i] in h && h[b].items[i] in h
    ensures SameTo(h, a, b, k + 1) ==> SameTo(h, h[a].items[i], h[b].items[i], k)
  {
    ItemIn(h, a, i);
    ItemIn(h, b, i);
    assert SameItems(h, a, b, k) ==> SameItem(h, a, b, i, k);
  }

  lemma SameBelow(h: Heap, a: Id, b: Id, i: nat)
    requires Wf(h) && a in h && b in h && Same(h, a, b) && h[a].Array? && i < |h[a].items|
    ensures Matches(h[a], h[b])
    ensures h[a].items[i] in h && i < |h[b].items| && h[b].items[i] in h && Same(h, h[a].items[i], h[b].items[i])
  {
    assert SameTo(h, a, b, 1);
    ItemIn(h, a, i);
    ItemIn(h, b, i);
    forall k: nat ensures SameTo(h, h[a].items[i], h[b].items[i], k) {
      assert SameTo(h, a, b, k + 1);
      ItemSame(h, a, b, i, k);
    }
  }

  /** Structurally equal objects always compare equal, on cyclic graphs too and whatever was visited. */
  lemma SameAnswersTrue(h: Heap, a: Id, b: Id, seen: set<Id>)
    requires Wf(h) && a in h && b in h && Same(h, a, b)
    ensures Answer(h, a, b, seen)
    decreases |h.Keys - seen|
  {
    assert SameTo(h, a, b, 1);
    if a !in seen && h[a].Array? {
      Shrinks(h, a, seen);
      forall i | 0 <= i < |h[a].items| ensures ItemAnswer(h, a, b, i, seen + {a}) {
        SameBelow(h, a, b, i);
        SameAnswersTrue(h, h[a].items[i], h[b].items[i], seen + {a});
      }
    }
  }

  lemma {:induction false} SameSelf(h: Heap, a: Id, k: nat)
    requires Wf(h) && a in h
    ensures SameTo(h, a, a, k)
    decreases k
  {
    if k > 0 && h[a].Array? {
      var l := k - 1;
      forall i | 0 <= i < |h[a].items| ensures SameItem(h, a, a, i, l) {
        ItemIn(h, a, i);
        SameSelf(h, h[a].items[i], l);
      }
    }
  }

  // ----- an acyclic left operand

  predicate Edge(h: Heap, x: Id, y: Id) { x in h && h[x].Array? && y in h[x].items }

  ghost predicate Walk(h: Heap, p: seq<Id>) {
    p != [] && p[0] in h && forall j :: 0 < j < |p| ==> Edge(h, p[j - 1], p[j])
  }

  lemma Apart(p: seq<Id>, i: nat, j: nat)
    requires Distinct(p)
    ensures i < j < |p| ==> p[i] != p[j]
  {
  }

  /** No walk from a comes back to where it was. */
  ghost predicate Acyclic(h: Heap, a: Id) { forall p: seq<Id> :: Walk(h, p) && p[0] == a ==> Distinct(p) }

  function Ids(p: seq<Id>): set<Id> { set x | x in p }

  lemma WalkNext(h: Heap, p: seq<Id>, i: nat)
    requires Wf(h) && Walk(h, p) && p[|p| - 1] in h && h[p[|p| - 1]].Array? && i < |h[p[|p| - 1]].items|
    ensures Walk(h, p + [h[p[|p| - 1]].items[i]])
  {
    var q := p + [h[p[|p| - 1]].items[i]];
    forall j | 0 < j < |q| ensures Edge(h, q[j - 1], q[j]) {
      if j < |p| { assert Edge(h, p[j - 1], p[j]); }
    }
  }

  /** Below an acyclic object the path never meets itself, so an answer of true is earned at every level. */
  lemma EarnedAnswer(h: Heap, p: seq<Id>, b: Id, k: nat)
    requires Wf(h) && Walk(h, p) && Acyclic(h, p[0]) && p[|p| - 1] in h && b in h
    requires Answer(h, p[|p| - 1], b, Ids(p[..|p| - 1]))
    ensures SameTo(h, p[|p| - 1], b, k)
    decreases k
  {
    var a := p[|p| - 1];
    assert Distinct(p);
    var seen := Ids(p[..|p| - 1]);
    assert a !in seen;
    if k > 0 && h[a].Array? {
      assert seen + {a} == Ids(p);
      var l := k - 1;
      forall i | 0 <= i < |h[a].items| ensures SameItem(h, a, b, i, l) {
        ItemIn(h, a, i);
        ItemIn(h, b, i);
        assert ItemAnswer(h, a, b, i, seen + {a});
        WalkNext(h, p, i);
        var q := p + [h[a].items[i]];
        assert q[..|q| - 1] == p;
        EarnedAnswer(h, q, h[b].items[i], l);
      }
    }
  }

  /** On an acyclic left operand the comparison decides structural equality, whatever the right operand. */
  lemma AcyclicDecides(h: Heap, a: Id, b: Id)
    requires Wf(h) && a in h && b in h && Acyclic(h, a)
    ensures Answer(h, a, b, {}) <==> Same(h, a, b)
  {
    if Same(h, a, b) { SameAnswersTrue(h, a, b, {}); }
    if Answer(h, a, b, {}) {
      assert Ids([a][..0]) == {};
      forall k: nat ensures SameTo(h, a, b, k) { EarnedAnswer(h, [a], b, k); }
    }
  }

  // ----- a cyclic left operand

  ghost predicate Extends(h: Heap, g: Heap) { forall x :: x in h ==> x in g && g[x] == h[x] }

  /** Objects added elsewhere give no new walks. */
  lemma {:induction false} WalkBack(h: Heap, g: Heap, p: seq<Id>)
    requires Wf(h) && Extends(h, g) && Walk(g, p) && p[0] in h
    ensures Walk(h, p) && p[|p| - 1] in h
    decreases |p|
  {
    var n := |p| - 1;
    if n > 0 {
      WalkBack(h, g, p[..n]);
      assert Edge(g, p[n - 1], p[n]);
      forall j | 0 < j < |p| ensures Edge(h, p[j - 1], p[j]) {
        if j < n { assert Edge(h, p[..n][j - 1], p[..n][j]); }
      }
    }
  }

  lemma AcyclicExtends(h: Heap, g: Heap, a: Id)
    requires Wf(h) && a in h && Extends(h, g) && Acyclic(h, a)
    ensures Acyclic(g, a)
  {
    forall p: seq<Id> | Walk(g, p) && p[0] == a ensures Distinct(p) { WalkBack(h, g, p); }
  }

  /** A walk that ends where it has been, and nowhere before. */
  ghost predicate Lasso(h: Heap, p: seq<Id>) {
    Walk(h, p) && p[|p| - 1] in p[..|p| - 1] && Distinct(p[..|p| - 1])
  }

  lemma {:induction false} FirstReturn(h: Heap, p: seq<Id>) returns (q: seq<Id>)
    requires Walk(h, p) && !Distinct(p)
    ensures Lasso(h, q) && q[0] == p[0]
    decreases |p|
  {
    var n := |p| - 1;
    if Distinct(p[..n]) {
      q := p;
      var i, j :| 0 <= i < j < |p| && p[i] == p[j];
      Apart(p[..n], i, j);
      assert p[..n][i] == p[n];
    } else {
      assert n > 0;
      WalkPrefix(h, p, n);
      q := FirstReturn(h, p[..n]);
    }
  }

  lemma WalkPrefix(h: Heap, p: seq<Id>, n: nat)
    requires Walk(h, p) && 0 < n <= |p|
    ensures Walk(h, p[..n])
  {
    forall j | 0 < j < n ensures Edge(h, p[..n][j - 1], p[..n][j]) { assert Edge(h, p[j - 1], p[j]); }
  }

  lemma {:induction false} Bound(ids: set<Id>) returns (n: nat)
    ensures forall x :: x in ids ==> x < n
    decreases |ids|
  {
    if ids == {} {
      n := 0;
    } else {
      var x :| x in ids;
      var m := Bound(ids - {x});
      assert forall y :: y in ids ==> y == x || y in ids - {x};
      n := if x < m then m else x + 1;
    }
  }

  ghost function Step(h: Heap, x: Id, y: Id): (i: nat)
    requires Edge(h, x, y)
    ensures i < |h[x].items| && h[x].items[i] == y
  {
    var i :| 0 <= i < |h[x].items| && h[x].items[i] == y;
    i
  }

  /** The j-th object of a copy of the walk: it leads on to the next copy, and the last one has another shape. */
  ghost function CopyOf(h: Heap, p: seq<Id>, n: nat, j: nat): Obj
    requires Wf(h) && Lasso(h, p) && j < |p|
  {
    ArrayOn(h, p, j);
    if j == |p| - 1 then Array(h[p[j]].shape + [1], h[p[j]].items)
    else EdgeAt(h, p, j); Array(h[p[j]].shape, h[p[j]].items[Step(h, p[j], p[j + 1]) := n + j + 1])
  }

  lemma EdgeAt(h: Heap, p: seq<Id>, j: nat)
    requires Walk(h, p) && j < |p| - 1
    ensures Edge(h, p[j], p[j + 1])
  {
    var i := j + 1;
    assert Edge(h, p[i - 1], p[i]);
  }

  lemma ArrayOn(h: Heap, p: seq<Id>, j: nat)
    requires Wf(h) && Lasso(h, p) && j < |p|
    ensures p[j] in h && h[p[j]].Array?
  {
    var m := |p| - 1;
    var i :| 0 <= i < m && p[..m][i] == p[m];
    EdgeAt(h, p, i);
    if j < m { EdgeAt(h, p, j); }
  }

  ghost function WithCopy(h: Heap, p: seq<Id>, n: nat): Heap
    requires Wf(h) && Lasso(h, p)
  {
    h + map x | x in Span(n, |p|) :: CopyOf(h, p, n, x - n)
  }

  ghost function Span(n: nat, m: nat): (r: set<Id>)
    ensures forall x :: x in r <==> n <= x < n + m
  {
    if m == 0 then {} else Span(n, m - 1) + {n + m - 1}
  }

  lemma CopyWf(h: Heap, p: seq<Id>, n: nat)
    requires Wf(h) && Lasso(h, p) && forall x :: x in h ==> x < n
    ensures Wf(WithCopy(h, p, n)) && Extends(h, WithCopy(h, p, n))
    ensures forall j :: 0 <= j < |p| ==> AtCopy(h, p, n, j)
  {
    hide ObjWf, CopyOf, Lasso;
    var g := WithCopy(h, p, n);
    forall x | x in g ensures ObjWf(g, g[x]) {
      if x in h {
        StillWf(h, g, h[x]);
      } else {
        CopyObjWf(h, p, n, x - n);
      }
    }
    forall j | 0 <= j < |p| ensures AtCopy(h, p, n, j) {}
  }

  lemma StillWf(h: Heap, g: Heap, o: Obj)
    requires ObjWf(h, o) && Extends(h, g)
    ensures ObjWf(g, o)
  {
  }

  ghost predicate AtCopy(h: Heap, p: seq<Id>, n: nat, j: nat)
    requires Wf(h) && Lasso(h, p) && j < |p|
  {
    n + j in WithCopy(h, p, n) && WithCopy(h, p, n)[n + j] == CopyOf(h, p, n, j)
  }

  lemma CopyObjWf(h: Heap, p: seq<Id>, n: nat, j: nat)
    requires Wf(h) && Lasso(h, p) && j < |p| && forall x :: x in h ==> x < n
    ensures ObjWf(WithCopy(h, p, n), CopyOf(h, p, n, j))
  {
    ArrayOn(h, p, j);
    var o := h[p[j]];
    assert ObjWf(h, o);
    assert (o.shape + [1])[..|o.shape|] == o.shape;
  }

  /** The copy beside the original: the same items except the one on the walk, which is the next copy. */
  ghost predicate Beside(g: Heap, p: seq<Id>, n: nat, j: nat, s: nat) {
    && j < |p| - 1 && p[j] in g && n + j in g && g[p[j]].Array? && g[n + j].Array?
    && g[p[j]].shape == g[n + j].shape && s < |g[p[j]].items| == |g[n + j].items|
    && g[p[j]].items[s] == p[j + 1] && g[n + j].items[s] == n + j + 1
    && forall i :: 0 <= i < |g[p[j]].items| && i != s ==> g[p[j]].items[i] == g[n + j].items[i]
  }

  lemma CopyBeside(h: Heap, p: seq<Id>, n: nat, j: nat) returns (s: nat)
    requires Wf(h) && Lasso(h, p) && j < |p| && forall x :: x in h ==> x < n
    ensures Wf(WithCopy(h, p, n))
    ensures j < |p| - 1 ==> Beside(WithCopy(h, p, n), p, n, j, s)
    ensures var g := WithCopy(h, p, n);
            p[j] in g && n + j in g && g[p[j]].Array? && g[n + j].Array?
            && (j == |p| - 1 ==> g[p[j]].shape != g[n + j].shape)
  {
    CopyWf(h, p, n);
    assert AtCopy(h, p, n, j);
    ArrayOn(h, p, j);
    s := 0;
    if j < |p| - 1 {
      EdgeAt(h, p, j);
      s := Step(h, p[j], p[j + 1]);
    } else {
      assert |h[p[j]].shape + [1]| != |h[p[j]].shape|;
    }
  }

  lemma SelfAnswers(g: Heap, c: Id, seen: set<Id>)
    requires Wf(g) && c in g
    ensures Answer(g, c, c, seen)
  {
    forall k: nat ensures SameTo(g, c, c, k) { SameSelf(g, c, k); }
    SameAnswersTrue(g, c, c, seen);
  }

  lemma BesideAnswers(g: Heap, p: seq<Id>, n: nat, j: nat, s: nat, seen: set<Id>)
    requires Wf(g) && Beside(g, p, n, j, s) && p[j] !in seen && p[j + 1] in g && n + j + 1 in g
    requires Answer(g, p[j + 1], n + j + 1, seen + {p[j]})
    ensures Answer(g, p[j], n + j, seen)
  {
    var a, b := p[j], n + j;
    forall i | 0 <= i < |g[a].items| ensures ItemAnswer(g, a, b, i, seen + {a}) {
      ItemIn(g, a, i);
      ItemIn(g, b, i);
      if i != s { SelfAnswers(g, g[a].items[i], seen + {a}); }
    }
  }

  ghost predicate BesideSome(g: Heap, p: seq<Id>, n: nat, j: nat) { exists s :: Beside(g, p, n, j, s) }

  /** A walk and its copy, arrays throughout, unlike only in the shape of the last. */
  ghost predicate Twins(g: Heap, p: seq<Id>, n: nat) {
    && p != []
    && (forall j :: 0 <= j < |p| - 1 ==> BesideSome(g, p, n, j))
    && LastTwins(g, p[|p| - 1], n + |p| - 1)
  }

  ghost predicate LastTwins(g: Heap, a: Id, b: Id) {
    a in g && b in g && g[a].Array? && g[b].Array? && g[a].shape != g[b].shape
  }

  lemma CopyTwins(h: Heap, p: seq<Id>, n: nat)
    requires Wf(h) && Lasso(h, p) && forall x :: x in h ==> x < n
    ensures Wf(WithCopy(h, p, n)) && Twins(WithCopy(h, p, n), p, n)
  {
    var m := |p| - 1;
    assert m >= 0;
    hide WithCopy, Wf, Lasso, Beside;
    var _ := CopyBeside(h, p, n, m);
    forall j | 0 <= j < m ensures BesideSome(WithCopy(h, p, n), p, n, j) {
      var s := CopyBeside(h, p, n, j);
    }
  }

  lemma TwinsIn(g: Heap, p: seq<Id>, n: nat, j: nat)
    requires Twins(g, p, n) && j < |p|
    ensures p[j] in g && n + j in g
  {
    if j < |p| - 1 { assert BesideSome(g, p, n, j); }
  }

  /** Against the copy the comparison walks round once, meets the path and is satisfied. */
  lemma {:induction false} TwinsFool(g: Heap, p: seq<Id>, n: nat, j: nat)
    requires Wf(g) && Twins(g, p, n) && j < |p| && p[|p| - 1] in p[..|p| - 1] && Distinct(p[..|p| - 1])
    ensures p[j] in g && n + j in g && Answer(g, p[j], n + j, Ids(p[..j]))
    decreases |p| - j
  {
    TwinsIn(g, p, n, j);
    hide Wf, Beside, Answer, Distinct;
    if j < |p| - 1 {
      assert BesideSome(g, p, n, j);
      TwinsFool(g, p, n, j + 1);
      NotBefore(p, j);
      assert Ids(p[..j]) + {p[j]} == Ids(p[..j + 1]);
      var s :| Beside(g, p, n, j, s);
      BesideAnswers(g, p, n, j, s, Ids(p[..j]));
    } else {
      EndAnswers(g, p[j], n + j, Ids(p[..j]));
    }
  }

  lemma EndAnswers(g: Heap, a: Id, b: Id, seen: set<Id>)
    requires Wf(g) && a in g && b in g && g[a].Array? && g[b].Array? && a in seen
    ensures Answer(g, a, b, seen)
  {
  }

  lemma NotBefore(p: seq<Id>, j: nat)
    requires j < |p| - 1 && Distinct(p[..|p| - 1])
    ensures p[j] !in Ids(p[..j])
  {
    forall i | 0 <= i < j ensures p[i] != p[j] { Apart(p[..|p| - 1], i, j); }
  }

  /** Yet the copy has another shape at its end. */
  lemma {:induction false} TwinsDiffer(g: Heap, p: seq<Id>, n: nat, j: nat)
    requires Wf(g) && Twins(g, p, n) && j < |p|
    ensures p[j] in g && n + j in g && !SameTo(g, p[j], n + j, |p| - j)
    decreases |p| - j
  {
    TwinsIn(g, p, n, j);
    hide Wf, Beside, SameTo;
    if j < |p| - 1 {
      assert BesideSome(g, p, n, j);
      TwinsDiffer(g, p, n, j + 1);
      var s :| Beside(g, p, n, j, s);
      BesideDiffers(g, p, n, j, s, |p| - j - 1);
    } else {
      EndDiffers(g, p[j], n + j);
    }
  }

  lemma BesideDiffers(g: Heap, p: seq<Id>, n: nat, j: nat, s: nat, k: nat)
    requires Wf(g) && Beside(g, p, n, j, s) && p[j + 1] in g && n + j + 1 in g && !SameTo(g, p[j + 1], n + j + 1, k)
    ensures !SameTo(g, p[j], n + j, k + 1)
  {
    ItemSame(g, p[j], n + j, s, k);
  }

  lemma EndDiffers(g: Heap, a: Id, b: Id)
    requires Wf(g) && a in g && b in g && g[a].Array? && g[b].Array? && g[a].shape != g[b].shape
    ensures !SameTo(g, a, b, 1)
  {
  }

  ghost predicate Decided(g: Heap, a: Id, b: Id)
    requires Wf(g) && a in g && b in g
  {
    Answer(g, a, b, {}) <==> Same(g, a, b)
  }

  lemma CycleUndecided(g: Heap, p: seq<Id>, n: nat)
    requires Wf(g) && Twins(g, p, n) && p[|p| - 1] in p[..|p| - 1] && Distinct(p[..|p| - 1])
    ensures p[0] in g && n in g && !Decided(g, p[0], n)
  {
    TwinsFool(g, p, n, 0);
    TwinsDiffer(g, p, n, 0);
    assert Ids(p[..0]) == {};
  }

  /** The comparison is right for every right operand, present or yet to be built, if and only if no cycle can be
      reached from the left one. */
  lemma DecidesIffAcyclic(h: Heap, a: Id)
    requires Wf(h) && a in h
    ensures Acyclic(h, a) <==> forall g, b :: Wf(g) && Extends(h, g) && b in g ==> Decided(g, a, b)
  {
    if Acyclic(h, a) {
      forall g, b | Wf(g) && Extends(h, g) && b in g ensures Decided(g, a, b) {
        AcyclicExtends(h, g, a);
        AcyclicDecides(g, a, b);
      }
    } else {
      var w: seq<Id> :| Walk(h, w) && w[0] == a && !Distinct(w);
      var p := FirstReturn(h, w);
      var n := Bound(h.Keys);
      CopyWf(h, p, n);
      CopyTwins(h, p, n);
      CycleUndecided(WithCopy(h, p, n), p, n);
    }
  }

  /** An array that holds itself passes for one that holds an array of another shape. */
  lemma SelfReference()
    ensures var h: Heap := map[0 := Array([1], [0]), 1 := Array([1], [2]), 2 := Array([1, 1], [2])];
            Wf(h) && Answer(h, 0, 1, {}) && !Same(h, 0, 1)
  {
    var h: Heap := map[0 := Array([1], [0]), 1 := Array([1], [2]), 2 := Array([1, 1], [2])];
    assert [1][..0] == [] && [1, 1][..1] == [1];
    assert Size([1]) == 1 && Size([1, 1]) == 1;
    var seen: set<Id> := {};
    EndAnswers(h, 0, 2, seen + {0});
    assert ItemAnswer(h, 0, 1, 0, seen + {0});
    assert ItemsAnswer(h, 0, 1, seen + {0});
    EndDiffers(h, 0, 2);
    ItemSame(h, 0, 1, 0, 1);
    assert !SameTo(h, 0, 1, 2);
  }
}
