/** Experts over expert-parallel ranks: which rank copies which expert, and the element count
    the converter checks after every layer. */
module ExpertPartition {
  import opened Arithmetic
  import opened Collections

  /** The experts of a rank: [rank * local, (rank + 1) * local) with local = experts // ranks. */
  predicate OnRank(e: int, rank: int, n: nat, ep: nat)
    requires ep > 0
  {
    rank * (n / ep) <= e < (rank + 1) * (n / ep)
  }

  ghost predicate Placed(e: int, n: nat, ep: nat)
    requires ep > 0
  {
    exists rank :: 0 <= rank < ep && OnRank(e, rank, n, ep)
  }

  lemma RankUnique(e: int, r: int, q: int, n: nat, ep: nat)
    requires ep > 0 && OnRank(e, r, n, ep) && OnRank(e, q, n, ep)
    ensures r == q
  {
    DivMonotone(0, n, ep);
    MulLe(r + 1, q, n / ep);
    MulLe(q + 1, r, n / ep);
  }

  lemma PlacedBelow(e: nat, n: nat, ep: nat)
    requires ep > 0
    ensures Placed(e, n, ep) <==> e < ep * (n / ep)
  {
    DivMonotone(0, n, ep);
    var local := n / ep;
    if rank :| 0 <= rank < ep && OnRank(e, rank, n, ep) {
      MulLe(rank + 1, ep, local);
    }
    if e < ep * local {
      assert local != 0;
      DivBounds(e, local);
      DivMonotone(0, e, local);
      var rank := e / local;
      MulNext(rank, local);
      MulLe(ep, rank, local);
      assert OnRank(e, rank, n, ep);
    }
  }

  /** Every expert is copied by exactly one rank if and only if the ranks divide the experts. */
  lemma EveryExpertPlaced(n: nat, ep: nat)
    requires ep > 0
    ensures (forall e :: 0 <= e < n ==> Placed(e, n, ep)) <==> n % ep == 0
  {
    hide Placed;
    DivBounds(n, ep);
    DivMonotone(0, n, ep);
    MulLe(0, n / ep, ep);
    var placed := (n / ep) * ep;
    forall e | 0 <= e < n ensures Placed(e, n, ep) <==> e < placed { PlacedBelow(e, n, ep); }
    if n % ep != 0 { assert !Placed(placed, n, ep); }
  }

  // ----- the copy loop

  /** An expert's gate, up and down projections, flattened. */
  datatype Expert<T> = Expert(gate: seq<T>, up: seq<T>, down: seq<T>)

  ghost predicate Sized<T>(x: Expert<T>, w: nat) { |x.gate| == |x.up| == |x.down| == w }

  function Elements<T>(xs: seq<Expert<T>>): nat {
    if xs == [] then 0 else
      var x := xs[|xs| - 1];
      Elements(xs[..|xs| - 1]) + |x.gate| + |x.up| + |x.down|
  }

  lemma {:induction false} UniformElements<T>(xs: seq<Expert<T>>, w: nat)
    requires forall i :: 0 <= i < |xs| ==> Sized(xs[i], w)
    ensures Elements(xs) == 3 * w * |xs|
  {
    if xs != [] {
      UniformElements(xs[..|xs| - 1], w);
      assert Sized(xs[|xs| - 1], w);
      MulNext(|xs| - 1, 3 * w);
    }
  }

  lemma ElementsNext<T>(xs: seq<Expert<T>>, lo: nat, i: nat)
    requires lo <= i < |xs|
    ensures Elements(xs[lo..i + 1]) == Elements(xs[lo..i]) + |xs[i].gate| + |xs[i].up| + |xs[i].down|
  {
    assert xs[lo..i + 1][..i - lo] == xs[lo..i];
  }

  /** A slot of the rank holds expert e, which is the rank's own. */
  ghost predicate CopiedTo<T(!new)>(experts: seq<Expert<T>>, ep: nat, e: int, rank: int, fc1: seq<T>, fc2: seq<T>)
    requires ep > 0
  {
    && 0 <= e < |experts| && OnRank(e, rank, |experts|, ep)
    && fc1 == experts[e].gate + experts[e].up && fc2 == experts[e].down
  }

  lemma RankRange(n: nat, ep: nat, rank: nat)
    requires rank < ep
    ensures 0 <= n / ep && 0 <= rank * (n / ep) && rank * (n / ep) + n / ep == (rank + 1) * (n / ep) <= n
  {
    DivBounds(n, ep);
    DivMonotone(0, n, ep);
    MulNext(rank, n / ep);
    MulLe(0, rank, n / ep);
    MulLe(rank + 1, ep, n / ep);
  }

  /** The grouped-GEMM path on one rank: fused gate and up into fc1, down into fc2, elements counted.  The size of the
      last down projection is kept, from an earlier layer if this rank has no expert. */
  method CopyExperts<T(!new)>(experts: seq<Expert<T>>, ep: nat, rank: nat, fc1: array<seq<T>>, fc2: array<seq<T>>,
                              before: Option<nat>)
    returns (numel: nat, last: Option<nat>)
    requires rank < ep && fc1 != fc2
    requires fc1.Length == fc2.Length == |experts| / ep
    modifies fc1, fc2
    ensures forall l :: 0 <= l < fc1.Length ==>
                          CopiedTo(experts, ep, rank * (|experts| / ep) + l, rank, fc1[l], fc2[l])
    ensures var start := rank * (|experts| / ep);
            && 0 <= start && start + |experts| / ep <= |experts|
            && numel == Elements(experts[start..start + |experts| / ep])
            && last == if |experts| / ep == 0 then before else Some(|experts[start + |experts| / ep - 1].down|)
  {
    hide Elements;
    var n, local := |experts|, |experts| / ep;
    RankRange(n, ep, rank);
    var start, end := rank * local, (rank + 1) * local;
    numel, last := 0, before;
    ghost var copied := 0;
    assert Elements(experts[start..start]) == 0 by { NoElements(experts[start..start]); }
    for i := 0 to n
      invariant copied == Min(if i < start then 0 else i - start, local)
      invariant numel == Elements(experts[start..start + copied])
      invariant last == if copied == 0 then before else Some(|experts[start + copied - 1].down|)
      invariant forall l :: 0 <= l < copied ==> CopiedTo(experts, ep, start + l, rank, fc1[l], fc2[l])
    {
      if !(i < start || i >= end) {
        fc1[i - start] := experts[i].gate + experts[i].up;
        fc2[i - start] := experts[i].down;
        ElementsNext(experts, start, i);
        last := Some(|experts[i].down|);
        numel := numel + |experts[i].gate + experts[i].up| + |experts[i].down|;
        copied := copied + 1;
      }
    }
  }

  lemma NoElements<T>(xs: seq<Expert<T>>)
    requires xs == []
    ensures Elements(xs) == 0
  {
  }

  /** Five experts on two ranks: the last one is on neither. */
  lemma LostExpert()
    ensures !Placed(4, 5, 2)
  {
    PlacedBelow(4, 5, 2);
  }

  // ----- the element count

  datatype Verdict = Passed | Mismatch | Unset   // Unset: the size of a down projection is read before it was set

  /** The converter's check on one MoE layer: elements copied on this rank, `other` of them outside
      the experts, against the layer's size less the experts of the other ranks. */
  predicate CountMatches(other: int, all: int, w: int, n: int, ep: int, copied: int)
    requires ep > 0
  {
    other + copied == (other + all) - (w * 3 * n) / ep * (ep - 1)
  }

  /** On experts of one size the check passes exactly when the ranks divide the experts. */
  lemma CheckDetectsLostExperts(other: int, w: nat, n: nat, ep: nat)
    requires ep > 0 && w > 0
    ensures CountMatches(other, 3 * w * n, w, n, ep, 3 * w * (n / ep)) <==> n % ep == 0
  {
    DivBounds(n, ep);
    var m, s, t := n / ep, n % ep, 3 * w;
    assert w * 3 * n == t * n;
    DivBounds(t * s, ep);
    MulLe(0, t, s);
    DivMonotone(0, t * s, ep);
    var q := (t * s) / ep;
    assert t * n == t * s + (t * m) * ep;
    DivShift(t * s, t * m, ep);
    assert (t * m + q) * (ep - 1) == t * m * ep + q * ep - t * m - q;
    assert (t * s) % ep == t * s - q * ep;
    MulLe(1, s, t);
    if s > 0 { assert t * s > 0 && (q > 0 || t * s - q * ep > 0); }
  }

  ghost predicate AllSized<T>(xs: seq<Expert<T>>, w: nat) { forall i :: 0 <= i < |xs| ==> Sized(xs[i], w) }

  /** Copy and check one layer.  On experts of one size w it passes exactly when the ranks divide the experts and there
      is at least one expert per rank: with fewer, no size was ever set unless an earlier layer set it. */
  method ConvertExperts<T(!new)>(experts: seq<Expert<T>>, other: nat, ep: nat, rank: nat, fc1: array<seq<T>>,
                                 fc2: array<seq<T>>, before: Option<nat>, ghost w: nat)
    returns (verdict: Verdict, last: Option<nat>)
    requires rank < ep && fc1 != fc2
    requires fc1.Length == fc2.Length == |experts| / ep
    modifies fc1, fc2
    ensures verdict == Unset <==> |experts| < ep && before == None
    ensures verdict == Unset <==> last == None
    ensures last.Some? ==>
              var n, start := |experts|, rank * (|experts| / ep);
              && 0 <= start <= start + n / ep <= n
              && (verdict == Passed <==>
                  other + Elements(experts[start..start + n / ep])
                  == other + Elements(experts) - last.value * 3 * n / ep * (ep - 1))
    ensures AllSized(experts, w) && w > 0 && (before == None || before == Some(w)) ==>
              && (last == None || last == Some(w))
              && (verdict == Passed <==> |experts| % ep == 0 && (|experts| >= ep || before == Some(w)))
  {
    hide Elements;
    var n := |experts|;
    RankRange(n, ep, rank);
    LocalNone(n, ep);
    var numel;
    numel, last := CopyExperts(experts, ep, rank, fc1, fc2, before);
    if AllSized(experts, w) {
      var start := rank * (n / ep);
      UniformElements(experts, w);
      UniformElements(experts[start..start + n / ep], w);
      if w > 0 { CheckDetectsLostExperts(other, w, n, ep); }
    }
    if last == None {
      return Unset, last;
    }
    verdict := if CountMatches(other, Elements(experts), last.value, n, ep, numel) then Passed else Mismatch;
  }

  lemma LocalNone(n: nat, ep: nat)
    requires ep > 0
    ensures n / ep == 0 <==> n < ep
  {
    DivBounds(n, ep);
    if n >= ep { DivMonotone(ep, n, ep); DivUnique(ep, ep, 1); }
  }
}
