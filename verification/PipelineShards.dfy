/** How many layers every pipeline stage gets. */
module PipelineShards {
  import opened Arithmetic
  import opened Collections

  datatype Outcome = BadArguments | NoStrategy | Shards(sizes: seq<nat>)

  /** Layers left for the first and last stage together when every middle stage gets m. */
  function Ends(layers: int, pp: int, m: int): int { layers - m * (pp - 2) }

  /** Both end stages get at least one layer and at most as many as a middle stage. */
  predicate Candidate(layers: int, pp: int, m: int) {
    var ends := Ends(layers, pp, m);
    var first := ends / 2;
    var last := ends - ends / 2;
    0 < first <= m && 0 < last <= m
  }

  function Uneven(layers: int, pp: int, m: int): int {
    var first := Ends(layers, pp, m) / 2;
    if first < m then m - first else first - m
  }

  function Strategy(layers: nat, pp: nat, m: nat): seq<nat>
    requires pp >= 3 && Candidate(layers, pp, m)
  {
    var ends := Ends(layers, pp, m);
    [ends / 2] + seq(pp - 2, _ => m) + [ends - ends / 2]
  }

  /** A split that works: one entry per stage, no empty stage, all layers used. */
  ghost predicate Splits(sizes: seq<nat>, layers: nat, pp: nat) {
    |sizes| == pp && Sum(sizes) == layers && forall i :: 0 <= i < pp ==> sizes[i] > 0
  }

  /** A split with equal middle stages, ends that differ by at most one, the last not smaller, and no end larger than a
      middle stage or empty. */
  ghost predicate Even(sizes: seq<nat>, layers: nat, pp: nat) {
    && |sizes| == pp >= 3 && Sum(sizes) == layers
    && (forall i :: 0 < i < pp - 1 ==> sizes[i] == sizes[1])
    && 0 < sizes[0] <= sizes[pp - 1] <= sizes[0] + 1 && sizes[pp - 1] <= sizes[1]
  }

  /** The even splits are the strategies, one for each candidate. */
  lemma EvenIsStrategy(sizes: seq<nat>, layers: nat, pp: nat)
    requires Even(sizes, layers, pp)
    ensures sizes[1] < layers && Candidate(layers, pp, sizes[1]) && sizes == Strategy(layers, pp, sizes[1])
  {
    var m, n := sizes[1], pp - 2;
    assert sizes[..pp - 1] == [sizes[0]] + seq(n, _ => m);
    SumConstant(n, m, sizes[0]);
    assert m * n == n * m;
    MulLe(1, n, m);
  }

  lemma StrategyIsEven(layers: nat, pp: nat, m: nat)
    requires pp >= 3 && Candidate(layers, pp, m)
    ensures Even(Strategy(layers, pp, m), layers, pp) && Strategy(layers, pp, m)[1] == m
  {
    StrategySplits(layers, pp, m);
  }

  lemma {:induction false} SumConstant(n: nat, m: nat, first: nat)
    ensures Sum([first] + seq(n, _ => m)) == first + n * m
  {
    var s := [first] + seq(n, _ => m);
    if n == 0 {
      assert s[..0] == [];
    } else {
      assert s[..n] == [first] + seq(n - 1, _ => m);
      SumConstant(n - 1, m, first);
      MulNext(n - 1, m);
    }
  }

  lemma StrategySplits(layers: nat, pp: nat, m: nat)
    requires pp >= 3 && Candidate(layers, pp, m)
    ensures Splits(Strategy(layers, pp, m), layers, pp)
  {
    var ends := Ends(layers, pp, m);
    var s := Strategy(layers, pp, m);
    var front := [ends / 2] + seq(pp - 2, _ => m);
    assert s[..pp - 1] == front;
    SumConstant(pp - 2, m, ends / 2);
    assert m * (pp - 2) == (pp - 2) * m;
    forall i | 0 <= i < pp ensures s[i] > 0 {
      assert s[i] == if i == 0 then ends / 2 else if i < pp - 1 then m else ends - ends / 2;
    }
  }

  /** The candidates, without the halves. */
  lemma CandidateBounds(layers: int, pp: int, m: int)
    ensures Candidate(layers, pp, m) <==> m * (pp - 2) <= layers - 2 && layers <= m * pp
  {
    assert m * (pp - 2) == m * pp - 2 * m;
  }

  /** Some split exists exactly when the smallest middle size that can hold the layers works. */
  lemma SomeCandidate(layers: nat, pp: nat)
    requires 3 <= pp <= layers
    ensures (exists m :: 0 <= m < layers && Candidate(layers, pp, m)) <==> CeilDiv(layers, pp) * (pp - 2) <= layers - 2
  {
    hide Candidate;
    var c := CeilDiv(layers, pp);
    DivBounds(layers + pp - 1, pp);
    CandidateBounds(layers, pp, c);
    if m :| 0 <= m < layers && Candidate(layers, pp, m) {
      CandidateBounds(layers, pp, m);
      MulLe(m + 1, c, pp);
      MulNext(m, pp);
      MulLe(c, m, pp - 2);
    }
    if c * (pp - 2) <= layers - 2 {
      MulLe(layers, c, pp - 2);
      MulLe(1, pp - 2, layers);
      assert Candidate(layers, pp, c);
    }
  }

  method FindCandidates(layers: nat, pp: nat) returns (found: seq<nat>)
    ensures forall i :: 0 <= i < |found| ==> found[i] < layers && Candidate(layers, pp, found[i])
    ensures forall k :: 0 <= k < layers && Candidate(layers, pp, k) ==> k in found
    ensures forall i, j :: 0 <= i < j < |found| ==> found[i] < found[j]
  {
    hide Candidate;
    found := [];
    for m := 0 to layers
      invariant forall i :: 0 <= i < |found| ==> found[i] < m && Candidate(layers, pp, found[i])
      invariant forall k :: 0 <= k < m && Candidate(layers, pp, k) ==> k in found
      invariant forall i, j :: 0 <= i < j < |found| ==> found[i] < found[j]
    {
      if Candidate(layers, pp, m) {
        found := found + [m];
      }
    }
  }

  method PickMostEven(layers: nat, pp: nat, found: seq<nat>) returns (best: nat)
    requires found != []
    requires forall i, j :: 0 <= i < j < |found| ==> found[i] < found[j]
    ensures best in found
    ensures forall k :: k in found ==>
                          Uneven(layers, pp, best) <= Uneven(layers, pp, k)
                          && (k < best ==> Uneven(layers, pp, best) < Uneven(layers, pp, k))
  {
    hide Uneven;
    best := found[0];
    for i := 1 to |found|
      invariant best in found[..i]
      invariant forall k :: 0 <= k < i ==>
                              Uneven(layers, pp, best) <= Uneven(layers, pp, found[k])
                              && (found[k] < best ==> Uneven(layers, pp, best) < Uneven(layers, pp, found[k]))
    {
      if Uneven(layers, pp, found[i]) < Uneven(layers, pp, best) {
        best := found[i];
      }
    }
  }

  method DynamicShards(layers: int, pp: int) returns (r: Outcome)
    ensures r.BadArguments? <==> layers < pp || pp < 1
    ensures r.NoStrategy? <==> 3 <= pp <= layers && CeilDiv(layers, pp) * (pp - 2) > layers - 2
    ensures r.Shards? ==> Splits(r.sizes, layers, pp)
    ensures r.Shards? && pp == 2 ==> r.sizes[0] <= r.sizes[1] <= r.sizes[0] + 1
    ensures 3 <= pp <= layers ==> (r.NoStrategy? <==> forall sizes: seq<nat> :: !Even(sizes, layers, pp))
    ensures r.Shards? && pp >= 3 ==> Even(r.sizes, layers, pp)
    ensures r.Shards? && pp >= 3 ==>
              forall sizes: seq<nat> :: Even(sizes, layers, pp) ==> NoMoreEven(r.sizes, sizes)
  {
    hide Candidate, Uneven, Strategy, Even;
    if layers < pp || pp < 1 {
      return BadArguments;
    }
    if pp == 1 {
      var one: seq<nat> := [layers];
      assert one[..0] == [];
      assert Sum(one) == layers;
      return Shards(one);
    }
    if pp == 2 {
      var halves: seq<nat> := [layers / 2, layers - layers / 2];
      assert halves[..1][..0] == [];
      assert Sum(halves[..1]) == layers / 2;
      return Shards(halves);
    }
    hide Splits;
    SomeCandidate(layers, pp);
    var found := FindCandidates(layers, pp);
    forall sizes: seq<nat> | Even(sizes, layers, pp) ensures found != [] { EvenFound(sizes, layers, pp, found); }
    if found == [] {
      return NoStrategy;
    }
    assert Candidate(layers, pp, found[0]);
    var best := PickMostEven(layers, pp, found);
    StrategySplits(layers, pp, best);
    StrategyIsEven(layers, pp, best);
    r := Shards(Strategy(layers, pp, best));
    forall sizes: seq<nat> | Even(sizes, layers, pp) ensures NoMoreEven(r.sizes, sizes) {
      EvenFound(sizes, layers, pp, found);
      UnevenIs(layers, pp, best);
      UnevenIs(layers, pp, sizes[1]);
    }
  }

  /** A most even split among the even ones has the least difference, and among those the smallest middle. */
  ghost predicate NoMoreEven(best: seq<nat>, sizes: seq<nat>) {
    && |best| > 1 && |sizes| > 1
    && best[1] + sizes[0] <= sizes[1] + best[0]
    && (best[1] + sizes[0] == sizes[1] + best[0] ==> best[1] <= sizes[1])
  }

  lemma EvenFound(sizes: seq<nat>, layers: nat, pp: nat, found: seq<nat>)
    requires Even(sizes, layers, pp) && forall k :: 0 <= k < layers && Candidate(layers, pp, k) ==> k in found
    ensures |sizes| > 1 && sizes[1] in found && Candidate(layers, pp, sizes[1]) && pp >= 3
    ensures sizes == Strategy(layers, pp, sizes[1])
  {
    hide Strategy;
    EvenIsStrategy(sizes, layers, pp);
  }

  lemma UnevenIs(layers: nat, pp: nat, m: nat)
    requires pp >= 3 && Candidate(layers, pp, m)
    ensures |Strategy(layers, pp, m)| == pp && Strategy(layers, pp, m)[1] == m
    ensures Uneven(layers, pp, m) == m - Strategy(layers, pp, m)[0]
  {
  }

  /** Five layers on four stages: the search comes up empty and the lookup of its first result fails. */
  lemma FiveLayersFourStages()
    ensures forall m :: 0 <= m < 5 ==> !Candidate(5, 4, m)
  {
  }
}
