/** Pipeline stages and layer numbers: the converter hands every stage a run of layers, the merger
    renumbers the layers it finds in (virtual stage, stage, local) order. */
module LayerMerge {
  import opened Arithmetic
  import opened Collections

  /** A parameter of a stage's state dict: bound to a local layer, or not. */
  datatype Key =
    | LayerKey(layer: nat, param: string)
    | PlainKey(param: string)
    | HeadKey(param: string)     // the output layer, skipped when embeddings are tied
    | ExtraState(param: string)  // skipped

  datatype HfKey = HfLayer(layer: nat, param: string) | HfPlain(param: string)

  datatype Entry<T> = Entry(key: Key, value: T)
  type Stage<T> = seq<Entry<T>>

  predicate Kept(key: Key, tied: bool) {
    !key.ExtraState? && !(tied && key.HeadKey?)
  }

  function Rename(key: Key, layersCum: nat): HfKey {
    match key
    case LayerKey(l, p) => HfLayer(l + layersCum, p)
    case PlainKey(p) => HfPlain(p)
    case HeadKey(p) => HfPlain(p)
    case ExtraState(p) => HfPlain(p)
  }

  /** The largest local layer number among the first n entries, 0 if there is none. */
  function Top<T>(stage: Stage<T>, n: nat): nat
    requires n <= |stage|
  {
    if n == 0 then 0
    else
      var t := Top(stage, n - 1);
      if stage[n - 1].key.LayerKey? && stage[n - 1].key.layer > t then stage[n - 1].key.layer else t
  }

  /** How far the running layer count moves past a stage. */
  function Height<T>(stage: Stage<T>): nat { Top(stage, |stage|) + 1 }

  function Offset<T>(stages: seq<Stage<T>>, i: nat): nat
    requires i <= |stages|
  {
    if i == 0 then 0 else Offset(stages, i - 1) + Height(stages[i - 1])
  }

  ghost predicate DistinctKeys<T>(stage: Stage<T>) {
    forall i, j :: 0 <= i < j < |stage| ==> stage[i].key != stage[j].key
  }

  lemma {:induction false} TopIsMax<T>(stage: Stage<T>, n: nat, i: nat)
    requires i < n <= |stage| && stage[i].key.LayerKey?
    ensures stage[i].key.layer <= Top(stage, n)
  {
    if i < n - 1 { TopIsMax(stage, n - 1, i); }
  }

  lemma {:induction false} OffsetApart<T>(stages: seq<Stage<T>>, i: nat, j: nat)
    requires i < j <= |stages|
    ensures Offset(stages, i) + Height(stages[i]) <= Offset(stages, j)
    decreases j
  {
    if i < j - 1 { OffsetApart(stages, i, j - 1); }
  }

  /** Two layer entries never get the same global name unless they are the same entry. */
  lemma NoCollision<T>(stages: seq<Stage<T>>, i: nat, a: nat, j: nat, b: nat)
    requires i < |stages| && j < |stages| && a < |stages[i]| && b < |stages[j]|
    requires DistinctKeys(stages[i]) && stages[i][a].key.LayerKey? && stages[j][b].key.LayerKey?
    requires Rename(stages[i][a].key, Offset(stages, i)) == Rename(stages[j][b].key, Offset(stages, j))
    ensures i == j && a == b
  {
    TopIsMax(stages[i], |stages[i]|, a);
    TopIsMax(stages[j], |stages[j]|, b);
    if i < j { OffsetApart(stages, i, j); }
    if j < i { OffsetApart(stages, j, i); }
  }

  // ----- the merge loop

  /** Entry i is the last of the first n entries of the stage to write name k. */
  ghost predicate Writes<T>(stage: Stage<T>, n: nat, cum: nat, tied: bool, i: int, k: HfKey) {
    && 0 <= i < n <= |stage| && Kept(stage[i].key, tied) && Rename(stage[i].key, cum) == k
    && forall j :: i < j < n && Kept(stage[j].key, tied) ==> Rename(stage[j].key, cum) != k
  }

  ghost predicate Silent<T>(stage: Stage<T>, n: nat, cum: nat, tied: bool, k: HfKey) {
    n <= |stage| && forall j :: 0 <= j < n && Kept(stage[j].key, tied) ==> Rename(stage[j].key, cum) != k
  }

  /** What the first n entries of a stage do to name k: the last kept entry of that name is there, or nothing
      changed. */
  ghost predicate NameMerged<T>(stage: Stage<T>, n: nat, cum: nat, tied: bool, sd: map<HfKey, T>, sd': map<HfKey, T>,
                                k: HfKey) {
    || (exists i :: Writes(stage, n, cum, tied, i, k) && k in sd' && sd'[k] == stage[i].value)
    || (Silent(stage, n, cum, tied, k) && (k in sd' <==> k in sd) && (k in sd ==> sd'[k] == sd[k]))
  }

  ghost predicate StageMerged<T>(stage: Stage<T>, n: nat, cum: nat, tied: bool, sd: map<HfKey, T>, sd': map<HfKey, T>) {
    forall k :: NameMerged(stage, n, cum, tied, sd, sd', k)
  }

  lemma NameStep<T>(stage: Stage<T>, n: nat, cum: nat, tied: bool, sd: map<HfKey, T>, sd': map<HfKey, T>, k: HfKey)
    requires n < |stage| && NameMerged(stage, n, cum, tied, sd, sd', k)
    ensures var next := if Kept(stage[n].key, tied) then sd'[Rename(stage[n].key, cum) := stage[n].value] else sd';
            NameMerged(stage, n + 1, cum, tied, sd, next, k)
  {
    hide Rename, Kept;
    if Kept(stage[n].key, tied) && Rename(stage[n].key, cum) == k {
      assert Writes(stage, n + 1, cum, tied, n, k);
    } else if i :| Writes(stage, n, cum, tied, i, k) && k in sd' && sd'[k] == stage[i].value {
      assert Writes(stage, n + 1, cum, tied, i, k);
    }
  }

  /** One stage: add its entries under their global names and report the layers it held. */
  method MergeStage<T>(stage: Stage<T>, layersCum: nat, tied: bool, sd: map<HfKey, T>)
    returns (sd': map<HfKey, T>, handled: nat)
    ensures handled == Top(stage, |stage|)
    ensures StageMerged(stage, |stage|, layersCum, tied, sd, sd')
  {
    hide NameMerged, Rename;
    sd', handled := sd, 0;
    forall k ensures NameMerged(stage, 0, layersCum, tied, sd, sd, k) { NothingYet(stage, layersCum, tied, sd, k); }
    for n := 0 to |stage|
      invariant handled == Top(stage, n)
      invariant StageMerged(stage, n, layersCum, tied, sd, sd')
    {
      var key := stage[n].key;
      ghost var next := if Kept(key, tied) then sd'[Rename(key, layersCum) := stage[n].value] else sd';
      ghost var m := n + 1;
      forall k ensures NameMerged(stage, m, layersCum, tied, sd, next, k) {
        NameStep(stage, n, layersCum, tied, sd, sd', k);
      }
      if Kept(key, tied) {
        if key.LayerKey? {
          handled := if key.layer > handled then key.layer else handled;
        }
        sd' := sd'[Rename(key, layersCum) := stage[n].value];
      }
    }
  }

  lemma NothingYet<T>(stage: Stage<T>, cum: nat, tied: bool, sd: map<HfKey, T>, k: HfKey)
    ensures NameMerged(stage, 0, cum, tied, sd, sd, k)
  {
  }

  ghost predicate Origin<T>(stages: seq<Stage<T>>, tied: bool, i: int, a: int, k: HfKey) {
    && 0 <= i < |stages| && 0 <= a < |stages[i]| && Kept(stages[i][a].key, tied)
    && k == Rename(stages[i][a].key, Offset(stages, i))
  }

  /** Entry a of stage i is the last kept entry of all stages that has the global name k. */
  ghost predicate LastWriter<T>(stages: seq<Stage<T>>, tied: bool, i: int, a: int, k: HfKey) {
    && Origin(stages, tied, i, a, k)
    && forall j, b :: Origin(stages, tied, j, b, k) ==> j < i || (j == i && b <= a)
  }

  /** The merged state dict of a list of stages: exactly the global names of the kept entries, each with the value of
      its last writer. */
  ghost predicate Holds<T>(stages: seq<Stage<T>>, tied: bool, sd: map<HfKey, T>) {
    forall k :: if k in sd then Valued(stages, tied, k, sd[k]) else NoOrigin(stages, tied, k)
  }

  ghost predicate Valued<T>(stages: seq<Stage<T>>, tied: bool, k: HfKey, v: T) {
    exists i, a :: LastWriter(stages, tied, i, a, k) && stages[i][a].value == v
  }

  ghost predicate NoOrigin<T>(stages: seq<Stage<T>>, tied: bool, k: HfKey) {
    forall i, a :: !Origin(stages, tied, i, a, k)
  }

  lemma {:induction false} OffsetPrefix<T>(stages: seq<Stage<T>>, stage: Stage<T>, i: nat)
    requires i <= |stages|
    ensures Offset(stages + [stage], i) == Offset(stages, i)
  {
    if i > 0 { OffsetPrefix(stages, stage, i - 1); }
  }

  /** The origins of a name in one stage more: those before, and those of the new stage. */
  lemma OriginStep<T>(stages: seq<Stage<T>>, stage: Stage<T>, tied: bool, i: int, a: int, k: HfKey)
    ensures Origin(stages + [stage], tied, i, a, k) <==>
            Origin(stages, tied, i, a, k)
            || (i == |stages| && 0 <= a < |stage| && Kept(stage[a].key, tied)
                && k == Rename(stage[a].key, Offset(stages, |stages|)))
  {
    hide Offset, Rename, Kept;
    if 0 <= i <= |stages| { OffsetPrefix(stages, stage, i); }
  }

  lemma NameHolds<T>(stages: seq<Stage<T>>, stage: Stage<T>, tied: bool, sd: map<HfKey, T>, sd': map<HfKey, T>,
                     k: HfKey)
    requires if k in sd then Valued(stages, tied, k, sd[k]) else NoOrigin(stages, tied, k)
    requires NameMerged(stage, |stage|, Offset(stages, |stages|), tied, sd, sd', k)
    ensures if k in sd' then Valued(stages + [stage], tied, k, sd'[k]) else NoOrigin(stages + [stage], tied, k)
  {
    hide Offset, Rename, Kept, Origin;
    var all: seq<Stage<T>>, n, cum := stages + [stage], |stages|, Offset(stages, |stages|);
    forall i, a { OriginStep(stages, stage, tied, i, a, k); }
    OriginsInRange(stages, tied, k);
    if b :| Writes(stage, |stage|, cum, tied, b, k) && k in sd' && sd'[k] == stage[b].value {
      assert Origin(all, tied, n, b, k);
      assert LastWriter(all, tied, n, b, k);
      assert all[n][b].value == sd'[k];
    } else if k in sd {
      var i, a :| LastWriter(stages, tied, i, a, k) && stages[i][a].value == sd[k];
      assert LastWriter(all, tied, i, a, k);
      assert all[i] == stages[i];
    }
  }

  lemma OriginsInRange<T>(stages: seq<Stage<T>>, tied: bool, k: HfKey)
    ensures forall i, a :: Origin(stages, tied, i, a, k) ==> 0 <= i < |stages| && 0 <= a < |stages[i]|
  {
  }

  lemma HoldsStep<T>(stages: seq<Stage<T>>, stage: Stage<T>, tied: bool, sd: map<HfKey, T>, sd': map<HfKey, T>)
    requires Holds(stages, tied, sd)
    requires StageMerged(stage, |stage|, Offset(stages, |stages|), tied, sd, sd')
    ensures Holds(stages + [stage], tied, sd')
  {
    hide Offset, Valued, NoOrigin, NameMerged;
    forall k
      ensures if k in sd' then Valued(stages + [stage], tied, k, sd'[k]) else NoOrigin(stages + [stage], tied, k)
    {
      assert NameMerged(stage, |stage|, Offset(stages, |stages|), tied, sd, sd', k);
      NameHolds(stages, stage, tied, sd, sd', k);
    }
  }

  /** A layer entry is the only one of its global name, so it is there with its own value. */
  lemma StoredEntry<T>(stages: seq<Stage<T>>, tied: bool, sd: map<HfKey, T>, i: nat, a: nat)
    requires Holds(stages, tied, sd) && i < |stages| && a < |stages[i]| && stages[i][a].key.LayerKey?
    requires DistinctKeys(stages[i])
    ensures var k := HfLayer(Offset(stages, i) + stages[i][a].key.layer, stages[i][a].key.param);
            k in sd && sd[k] == stages[i][a].value
  {
    hide Offset, DistinctKeys;
    var k := Rename(stages[i][a].key, Offset(stages, i));
    assert Origin(stages, tied, i, a, k);
    var j, b :| LastWriter(stages, tied, j, b, k) && stages[j][b].value == sd[k];
    NoCollision(stages, i, a, j, b);
  }

  /** Every layer name in the result is that of some layer entry, renumbered by the stages before its own. */
  lemma LayerNames<T>(stages: seq<Stage<T>>, tied: bool, sd: map<HfKey, T>, k: HfKey)
    requires Holds(stages, tied, sd) && k in sd && k.HfLayer?
    ensures exists i, a :: && 0 <= i < |stages| && 0 <= a < |stages[i]| && stages[i][a].key.LayerKey?
                           && stages[i][a].key.param == k.param && Offset(stages, i) + stages[i][a].key.layer == k.layer
                           && stages[i][a].value == sd[k]
  {
    hide Offset;
    var i, a :| LastWriter(stages, tied, i, a, k) && stages[i][a].value == sd[k];
  }

  /** A name outside the layers is there exactly if some entry outside the layers has it, output heads counting only
      when embeddings are not tied and extra state never; its value is that of the last such entry. */
  lemma PlainNames<T>(stages: seq<Stage<T>>, tied: bool, sd: map<HfKey, T>, p: string)
    requires Holds(stages, tied, sd)
    ensures HfPlain(p) in sd <==>
            exists i, a :: && 0 <= i < |stages| && 0 <= a < |stages[i]|
                           && (stages[i][a].key == PlainKey(p) || (!tied && stages[i][a].key == HeadKey(p)))
    ensures HfPlain(p) in sd ==>
            exists i, a :: && 0 <= i < |stages| && 0 <= a < |stages[i]| && stages[i][a].value == sd[HfPlain(p)]
                           && (stages[i][a].key == PlainKey(p) || (!tied && stages[i][a].key == HeadKey(p)))
                           && forall j, b ::
                                && 0 <= j < |stages| && 0 <= b < |stages[j]|
                                && (stages[j][b].key == PlainKey(p) || (!tied && stages[j][b].key == HeadKey(p)))
                                ==> j < i || (j == i && b <= a)
  {
    hide Offset;
    var k := HfPlain(p);
    forall i, a | 0 <= i < |stages| && 0 <= a < |stages[i]|
      ensures Origin(stages, tied, i, a, k) <==>
              stages[i][a].key == PlainKey(p) || (!tied && stages[i][a].key == HeadKey(p))
    {
    }
    if k in sd {
      var i, a :| LastWriter(stages, tied, i, a, k) && stages[i][a].value == sd[k];
      hide Kept, Rename, Origin;
      assert Origin(stages, tied, i, a, k);
      forall j, b | && 0 <= j < |stages| && 0 <= b < |stages[j]|
                    && (stages[j][b].key == PlainKey(p) || (!tied && stages[j][b].key == HeadKey(p)))
        ensures j < i || (j == i && b <= a)
      {
        assert Origin(stages, tied, j, b, k);
      }
    }
  }

  // ----- all stages

  /** The stages of virtual rank v, pipeline rank by pipeline rank. */
  function Column<T>(grid: seq<seq<Stage<T>>>, v: nat, p: nat): (r: seq<Stage<T>>)
    requires p <= |grid| && forall i :: 0 <= i < |grid| ==> v < |grid[i]|
    ensures |r| == p
  {
    seq(p, i requires 0 <= i < p => grid[i][v])
  }

  /** (virtual stage, stage) order: grid[p][v] for all p, then the next v. */
  function InOrder<T>(grid: seq<seq<Stage<T>>>, v: nat): seq<Stage<T>>
    requires forall i :: 0 <= i < |grid| ==> v <= |grid[i]|
  {
    if v == 0 then [] else InOrder(grid, v - 1) + Column(grid, v - 1, |grid|)
  }

  /** Stage p of virtual stage v comes at place v * stages + p. */
  lemma {:induction false} InOrderAt<T>(grid: seq<seq<Stage<T>>>, n: nat, v: nat, p: nat)
    requires (forall i :: 0 <= i < |grid| ==> n <= |grid[i]|) && v < n && p < |grid|
    ensures |InOrder(grid, n)| == n * |grid| && 0 <= v * |grid| + p < n * |grid|
    ensures InOrder(grid, n)[v * |grid| + p] == grid[p][v]
    decreases n
  {
    InOrderLength(grid, n - 1);
    MulLe(0, v, |grid|);
    MulLe(v + 1, n, |grid|);
    MulNext(v, |grid|);
    MulNext(n - 1, |grid|);
    if v < n - 1 {
      MulLe(v + 1, n - 1, |grid|);
      InOrderAt(grid, n - 1, v, p);
    }
  }

  lemma {:induction false} InOrderLength<T>(grid: seq<seq<Stage<T>>>, n: nat)
    requires forall i :: 0 <= i < |grid| ==> n <= |grid[i]|
    ensures |InOrder(grid, n)| == n * |grid|
  {
    if n > 0 {
      InOrderLength(grid, n - 1);
      MulNext(n - 1, |grid|);
    }
  }

  /** The list has stage p of virtual stage v where the loops come to it. */
  ghost predicate Listed<T>(grid: seq<seq<Stage<T>>>, stages: seq<Stage<T>>, v: nat, p: nat)
    requires p < |grid| && v < |grid[p]|
  {
    0 <= v * |grid| + p < |stages| && stages[v * |grid| + p] == grid[p][v]
  }

  lemma InOrderAll<T>(grid: seq<seq<Stage<T>>>, n: nat)
    requires forall i :: 0 <= i < |grid| ==> n <= |grid[i]|
    ensures |InOrder(grid, n)| == n * |grid|
    ensures forall v, p :: 0 <= v < n && 0 <= p < |grid| ==> Listed(grid, InOrder(grid, n), v, p)
  {
    InOrderLength(grid, n);
    hide InOrder, Listed;
    forall v, p | 0 <= v < n && 0 <= p < |grid| ensures Listed(grid, InOrder(grid, n), v, p) {
      ListedAt(grid, n, v, p);
    }
  }

  lemma ListedAt<T>(grid: seq<seq<Stage<T>>>, n: nat, v: nat, p: nat)
    requires (forall i :: 0 <= i < |grid| ==> n <= |grid[i]|) && v < n && p < |grid|
    ensures Listed(grid, InOrder(grid, n), v, p)
  {
    hide InOrder;
    InOrderAt(grid, n, v, p);
  }

  lemma AllPlainNames<T>(stages: seq<Stage<T>>, tied: bool, sd: map<HfKey, T>)
    requires Holds(stages, tied, sd)
    ensures forall p :: HfPlain(p) in sd <==>
                        exists i, a :: && 0 <= i < |stages| && 0 <= a < |stages[i]|
                                       && (stages[i][a].key == PlainKey(p) || (!tied && stages[i][a].key == HeadKey(p)))
  {
    hide Holds;
    forall p ensures HfPlain(p) in sd <==>
                     exists i, a :: && 0 <= i < |stages| && 0 <= a < |stages[i]|
                                    && (stages[i][a].key == PlainKey(p) || (!tied && stages[i][a].key == HeadKey(p)))
    {
      PlainNames(stages, tied, sd, p);
    }
  }

  /** The merger.  `stages` lists the stages in the order of the loops. */
  method MergeStateDicts<T>(grid: seq<seq<Stage<T>>>, tied: bool)
    returns (sd: map<HfKey, T>, ghost stages: seq<Stage<T>>)
    requires grid != [] && (forall p :: 0 <= p < |grid| ==> |grid[p]| == |grid[0]|)
    ensures |stages| == |grid[0]| * |grid|
    ensures forall v, p :: 0 <= v < |grid[0]| && 0 <= p < |grid| ==> Listed(grid, stages, v, p)
    ensures Holds(stages, tied, sd)
    ensures forall p :: HfPlain(p) in sd <==>
                        exists i, a :: && 0 <= i < |stages| && 0 <= a < |stages[i]|
                                       && (stages[i][a].key == PlainKey(p) || (!tied && stages[i][a].key == HeadKey(p)))
  {
    hide Holds, Offset, Listed;
    sd := map[];
    var layersCum: nat := 0;
    ghost var done: seq<Stage<T>> := [];
    HoldsNothing<T>(tied);
    for v := 0 to |grid[0]|
      invariant done == InOrder(grid, v)
      invariant layersCum == Offset(done, |done|) && Holds(done, tied, sd)
    {
      ghost var before := done;
      for p := 0 to |grid|
        invariant done == before + Column(grid, v, p)
        invariant layersCum == Offset(done, |done|) && Holds(done, tied, sd)
      {
        var stage := grid[p][v];
        var sd', handled := MergeStage(stage, layersCum, tied, sd);
        HoldsStep(done, stage, tied, sd, sd');
        OffsetNext(done, stage);
        assert Column(grid, v, p + 1) == Column(grid, v, p) + [stage];
        layersCum := layersCum + handled + 1;
        sd, done := sd', done + [stage];
      }
    }
    stages := done;
    InOrderAll(grid, |grid[0]|);
    AllPlainNames(stages, tied, sd);
  }

  lemma HoldsNothing<T>(tied: bool)
    ensures Holds<T>([], tied, map[]) && Offset<T>([], 0) == 0
  {
  }

  lemma OffsetNext<T>(stages: seq<Stage<T>>, stage: Stage<T>)
    ensures Offset(stages + [stage], |stages| + 1) == Offset(stages, |stages|) + Top(stage, |stage|) + 1
  {
    OffsetPrefix(stages, stage, |stages|);
  }

  // ----- the numbers

  /** A stage that holds layers 0..n-1, each under some parameter. */
  ghost predicate HoldsLayers<T>(stage: Stage<T>, n: nat) {
    && (forall a :: 0 <= a < |stage| && stage[a].key.LayerKey? ==> stage[a].key.layer < n)
    && forall l :: 0 <= l < n ==> HasLayer(stage, l)
  }

  ghost predicate HasLayer<T>(stage: Stage<T>, l: nat) {
    exists a :: 0 <= a < |stage| && stage[a].key.LayerKey? && stage[a].key.layer == l
  }

  lemma {:induction false} TopBound<T>(stage: Stage<T>, k: nat, n: nat)
    requires k <= |stage| && forall a :: 0 <= a < k && stage[a].key.LayerKey? ==> stage[a].key.layer < n
    ensures n == 0 ==> Top(stage, k) == 0
    ensures n > 0 ==> Top(stage, k) < n
  {
    if k > 0 { TopBound(stage, k - 1, n); }
  }

  /** An empty stage still moves the count by one. */
  lemma HeightOf<T>(stage: Stage<T>, n: nat)
    requires HoldsLayers(stage, n)
    ensures Height(stage) == if n == 0 then 1 else n
  {
    TopBound(stage, |stage|, n);
    if n > 0 {
      assert HasLayer(stage, n - 1);
      var a :| 0 <= a < |stage| && stage[a].key.LayerKey? && stage[a].key.layer == n - 1;
      TopIsMax(stage, |stage|, a);
    }
  }

  /** The number the merger gives to the first layer of stage i. */
  function Start(ns: seq<nat>, i: nat): nat
    requires i <= |ns|
  {
    if i == 0 then 0 else Start(ns, i - 1) + if ns[i - 1] == 0 then 1 else ns[i - 1]
  }

  lemma {:induction false} OffsetIsStart<T>(stages: seq<Stage<T>>, ns: seq<nat>, i: nat)
    requires |stages| == |ns| && i <= |ns| && forall k :: 0 <= k < |ns| ==> HoldsLayers(stages[k], ns[k])
    ensures Offset(stages, i) == Start(ns, i)
  {
    hide Height, HoldsLayers;
    if i > 0 {
      OffsetIsStart(stages, ns, i - 1);
      HeightOf(stages[i - 1], ns[i - 1]);
    }
  }

  ghost predicate Numbered(ns: seq<nat>, i: int, l: int, g: int) {
    0 <= i < |ns| && 0 <= l < ns[i] && Start(ns, i) + l == g
  }

  ghost predicate Taken(ns: seq<nat>, g: int) {
    exists i, l :: Numbered(ns, i, l, g)
  }

  /** No stage without layers comes before a stage with layers. */
  ghost predicate Packed(ns: seq<nat>) {
    forall i, j :: 0 <= i < j < |ns| && ns[j] > 0 ==> ns[i] > 0
  }

  lemma {:induction false} StartMonotone(ns: seq<nat>, i: nat, j: nat)
    requires i < j <= |ns|
    ensures Start(ns, i) + (if ns[i] == 0 then 1 else ns[i]) <= Start(ns, j)
    decreases j
  {
    if i < j - 1 { StartMonotone(ns, i, j - 1); }
  }

  lemma {:induction false} StartPrefix(ns: seq<nat>, k: nat, i: nat)
    requires i <= k <= |ns|
    ensures Start(ns[..k], i) == Start(ns, i)
  {
    if i > 0 { StartPrefix(ns, k, i - 1); }
  }

  /** Before any empty stage the merger's count is the converter's cumulative sum. */
  lemma {:induction false} StartIsCumsum(ns: seq<nat>, i: nat)
    requires i <= |ns| && forall k :: 0 <= k < i ==> ns[k] > 0
    ensures Start(ns, i) == Sum(ns[..i])
  {
    if i > 0 {
      StartIsCumsum(ns, i - 1);
      assert ns[..i][..i - 1] == ns[..i - 1];
    }
  }

  /** Numbers are unique, empty stages or not. */
  lemma NumberedOnce(ns: seq<nat>, i: nat, l: nat, j: nat, m: nat, g: nat)
    requires Numbered(ns, i, l, g) && Numbered(ns, j, m, g)
    ensures i == j && l == m
  {
    if i < j { StartMonotone(ns, i, j); }
    if j < i { StartMonotone(ns, j, i); }
  }

  lemma {:induction false} PackedCovers(ns: seq<nat>, g: nat)
    requires Packed(ns) && g < Sum(ns)
    ensures Taken(ns, g)
  {
    var n := |ns| - 1;
    if g < Sum(ns[..n]) {
      PackedCovers(ns[..n], g);
      var i, l :| Numbered(ns[..n], i, l, g);
      StartPrefix(ns, n, i);
      assert Numbered(ns, i, l, g);
    } else {
      assert ns[n] > 0;
      StartIsCumsum(ns, n);
      assert Numbered(ns, n, g - Sum(ns[..n]), g);
    }
  }

  lemma PackedInRange(ns: seq<nat>, i: nat, l: nat)
    requires Packed(ns) && i < |ns| && l < ns[i]
    ensures Start(ns, i) + l < Sum(ns)
  {
    StartIsCumsum(ns, i);
    SumStep(ns, i);
    SumMonotone(ns, i + 1);
  }

  lemma SumStep(ns: seq<nat>, i: nat)
    requires i < |ns|
    ensures Sum(ns[..i + 1]) == Sum(ns[..i]) + ns[i]
  {
    assert ns[..i + 1][..i] == ns[..i];
  }

  lemma {:induction false} SumMonotone(ns: seq<nat>, i: nat)
    requires i <= |ns|
    ensures Sum(ns[..i]) <= Sum(ns)
    decreases |ns| - i
  {
    if i == |ns| {
      assert ns[..i] == ns;
    } else {
      SumStep(ns, i);
      SumMonotone(ns, i + 1);
    }
  }

  /** The first empty stage before a non-empty one leaves a hole in the numbering. */
  lemma HoleAtEmpty(ns: seq<nat>, e: nat, j: nat)
    requires e < j < |ns| && ns[e] == 0 && ns[j] > 0 && forall k :: 0 <= k < e ==> ns[k] > 0
    ensures Start(ns, e) < Sum(ns)
    ensures !Taken(ns, Start(ns, e))
  {
    StartIsCumsum(ns, e);
    SumPrefix(ns, e, j);
    SumStep(ns, j);
    SumMonotone(ns, j + 1);
    forall i, l | Numbered(ns, i, l, Start(ns, e)) ensures false {
      if i < e { StartMonotone(ns, i, e); } else { StartMonotone(ns, e, i); }
    }
  }

  lemma {:induction false} SumPrefix(ns: seq<nat>, i: nat, j: nat)
    requires i <= j <= |ns|
    ensures Sum(ns[..i]) <= Sum(ns[..j])
  {
    assert ns[..j][..i] == ns[..i];
    SumMonotone(ns[..j], i);
  }

  lemma {:induction false} FirstEmpty(ns: seq<nat>, i: nat) returns (e: nat)
    requires i < |ns| && ns[i] == 0
    ensures e <= i && ns[e] == 0 && forall k :: 0 <= k < e ==> ns[k] > 0
  {
    if k :| 0 <= k < i && ns[k] == 0 {
      e := FirstEmpty(ns, k);
    } else {
      e := i;
    }
  }

  /** The renumbering is a bijection onto 0..L-1 exactly when no stage without layers precedes a
      stage with layers. */
  lemma RenumberingIsBijective(ns: seq<nat>)
    ensures Packed(ns) <==> forall g :: 0 <= g < Sum(ns) ==> Taken(ns, g)
    ensures Packed(ns) ==> forall i, l, g :: Numbered(ns, i, l, g) ==> 0 <= g < Sum(ns)
  {
    hide Taken, Packed;
    if Packed(ns) {
      forall g | 0 <= g < Sum(ns) ensures Taken(ns, g) { PackedCovers(ns, g); }
      forall i, l, g | Numbered(ns, i, l, g) ensures 0 <= g < Sum(ns) { PackedInRange(ns, i, l); }
    } else {
      var i, j := NotPacked(ns);
      var e := FirstEmpty(ns, i);
      HoleAtEmpty(ns, e, j);
    }
  }

  /** An empty stage before a stage with one layer: nothing gets number 0. */
  lemma EmptyStageFirst()
    ensures Sum([0, 1]) == 1 && !Taken([0, 1], 0)
  {
    var ns: seq<nat> := [0, 1];
    assert ns[..1] == [0] && ns[..1][..0] == [];
    assert Start(ns, 0) == 0 && Sum(ns[..1]) == 0;
    HoleAtEmpty(ns, 0, 1);
  }

  lemma NotPacked(ns: seq<nat>) returns (i: nat, j: nat)
    requires !Packed(ns)
    ensures i < j < |ns| && ns[j] > 0 && ns[i] == 0
  {
    i, j :| 0 <= i < j < |ns| && ns[j] > 0 && ns[i] == 0;
  }

  // ----- the converter's split

  /** np.cumsum of the stage sizes. */
  method Cumsum(ns: seq<nat>) returns (cum: seq<nat>)
    ensures |cum| == |ns| && forall i :: 0 <= i < |ns| ==> cum[i] == Sum(ns[..i + 1])
  {
    cum := [];
    var total := 0;
    for i := 0 to |ns|
      invariant |cum| == i && total == Sum(ns[..i])
      invariant forall k :: 0 <= k < i ==> cum[k] == Sum(ns[..k + 1])
    {
      SumStep(ns, i);
      total := total + ns[i];
      cum := cum + [total];
    }
  }

  /** The layers rank i converts: from its predecessor's cumulative count to its own. */
  method LayerRange(ns: seq<nat>, i: nat) returns (start: nat, end: nat)
    requires i < |ns|
    ensures start == Sum(ns[..i]) && end == start + ns[i] <= Sum(ns)
  {
    var cum := Cumsum(ns);
    SumStep(ns, i);
    SumMonotone(ns, i + 1);
    start := if i == 0 then 0 else cum[i - 1];
    end := cum[i];
  }

  // ----- converting and merging

  /** A parameter of a layer; layers may differ in the parameters they have, as dense and MoE layers do. */
  datatype Param<T> = Param(name: string, value: T)
  type Layer<T> = seq<Param<T>>

  ghost predicate DistinctNames<T>(layer: Layer<T>) {
    forall i, j :: 0 <= i < j < |layer| ==> layer[i].name != layer[j].name
  }

  /** Every layer has a parameter and none twice. */
  ghost predicate Layers<T>(layers: seq<Layer<T>>) {
    forall g :: 0 <= g < |layers| ==> layers[g] != [] && DistinctNames(layers[g])
  }

  function LayerEntry<T>(l: nat, p: Param<T>): Entry<T> { Entry(LayerKey(l, p.name), p.value) }

  function LayerEntries<T>(l: nat, layer: Layer<T>): (r: Stage<T>)
    ensures |r| == |layer| && forall q :: 0 <= q < |layer| ==> r[q] == LayerEntry(l, layer[q])
  {
    seq(|layer|, q requires 0 <= q < |layer| => LayerEntry(l, layer[q]))
  }

  /** The layer entries of a stage, layer by layer under local numbers. */
  function StageOf<T>(rows: seq<Layer<T>>): Stage<T> {
    if rows == [] then [] else StageOf(rows[..|rows| - 1]) + LayerEntries(|rows| - 1, rows[|rows| - 1])
  }

  /** Entries that belong to no layer: embeddings, final norm, output head, extra state. */
  ghost predicate Outside<T>(extra: Stage<T>) {
    DistinctKeys(extra) && forall a :: 0 <= a < |extra| ==> !extra[a].key.LayerKey?
  }

  lemma {:induction false} StageEntry<T>(rows: seq<Layer<T>>, l: nat, q: nat) returns (a: nat)
    requires l < |rows| && q < |rows[l]|
    ensures a < |StageOf(rows)| && StageOf(rows)[a] == LayerEntry(l, rows[l][q])
    decreases |rows|
  {
    var n := |rows| - 1;
    if l < n {
      a := StageEntry(rows[..n], l, q);
    } else {
      a := |StageOf(rows[..n])| + q;
    }
  }

  lemma {:induction false} EntryPlace<T>(rows: seq<Layer<T>>, a: nat) returns (l: nat, q: nat)
    requires a < |StageOf(rows)|
    ensures l < |rows| && q < |rows[l]| && StageOf(rows)[a] == LayerEntry(l, rows[l][q])
    decreases |rows|
  {
    var n := |rows| - 1;
    var before := StageOf(rows[..n]);
    if a < |before| {
      l, q := EntryPlace(rows[..n], a);
    } else {
      l, q := n, a - |before|;
    }
  }

  lemma {:induction false} RowsDistinct<T>(rows: seq<Layer<T>>)
    requires Layers(rows)
    ensures DistinctKeys(StageOf(rows))
    decreases |rows|
  {
    if rows != [] {
      var n := |rows| - 1;
      RowsDistinct(rows[..n]);
      var before, last := StageOf(rows[..n]), LayerEntries(n, rows[n]);
      forall i | 0 <= i < |before| ensures before[i].key.LayerKey? && before[i].key.layer < n {
        var l, q := EntryPlace(rows[..n], i);
      }
      forall i, j | 0 <= i < j < |last| ensures last[i].key != last[j].key {
        assert DistinctNames(rows[n]);
      }
      DistinctJoin(before, last);
    }
  }

  lemma DistinctJoin<T>(s: Stage<T>, t: Stage<T>)
    requires DistinctKeys(s) && DistinctKeys(t) && forall i, j :: 0 <= i < |s| && 0 <= j < |t| ==> s[i].key != t[j].key
    ensures DistinctKeys(s + t)
  {
  }

  lemma StageDistinct<T>(rows: seq<Layer<T>>, extra: Stage<T>)
    requires Layers(rows) && Outside(extra)
    ensures DistinctKeys(StageOf(rows) + extra)
  {
    RowsDistinct(rows);
    forall i | 0 <= i < |StageOf(rows)| ensures StageOf(rows)[i].key.LayerKey? {
      var l, q := EntryPlace(rows, i);
    }
    DistinctJoin(StageOf(rows), extra);
  }

  lemma StageHolds<T>(rows: seq<Layer<T>>, extra: Stage<T>)
    requires Layers(rows) && Outside(extra)
    ensures HoldsLayers(StageOf(rows) + extra, |rows|)
  {
    hide StageOf;
    var stage: Stage<T> := StageOf(rows) + extra;
    forall a | 0 <= a < |stage| && stage[a].key.LayerKey? ensures stage[a].key.layer < |rows| {
      assert a < |StageOf(rows)|;
      var l, q := EntryPlace(rows, a);
    }
    forall l | 0 <= l < |rows| ensures HasLayer(stage, l) {
      var a := StageEntry(rows, l, 0);
      assert stage[a].key.LayerKey? && stage[a].key.layer == l;
    }
  }

  /** The layers of stage i: its share of the cumulative sum. */
  function Share<T>(layers: seq<Layer<T>>, ns: seq<nat>, i: nat): (r: seq<Layer<T>>)
    requires i < |ns| && Sum(ns) == |layers|
    ensures |r| == ns[i]
  {
    ShareBounds(ns, i);
    var start := Sum(ns[..i]);
    layers[start..start + ns[i]]
  }

  lemma ShareBounds(ns: seq<nat>, i: nat)
    requires i < |ns|
    ensures 0 <= Sum(ns[..i]) <= Sum(ns[..i]) + ns[i] <= Sum(ns)
  {
    SumStep(ns, i);
    SumMonotone(ns, i + 1);
  }

  lemma ShareAt<T>(layers: seq<Layer<T>>, ns: seq<nat>, i: nat, l: nat)
    requires i < |ns| && Sum(ns) == |layers| && l < ns[i]
    ensures Sum(ns[..i]) + l < |layers| && Share(layers, ns, i)[l] == layers[Sum(ns[..i]) + l]
  {
    ShareBounds(ns, i);
    hide Sum;
    SliceAt(layers, Sum(ns[..i]), ns[i], l);
  }

  lemma SliceAt<T>(s: seq<T>, start: nat, n: nat, l: nat)
    requires start + n <= |s| && l < n
    ensures s[start..start + n][l] == s[start + l]
  {
  }

  /** Stage i of a conversion: the layers of its share, and its other entries. */
  ghost predicate ConvertedStage<T>(layers: seq<Layer<T>>, ns: seq<nat>, extras: seq<Stage<T>>, i: nat, stage: Stage<T>)
    requires i < |ns| == |extras| && Sum(ns) == |layers|
  {
    stage == StageOf(Share(layers, ns, i)) + extras[i]
  }

  /** What the converter is given: layers split over non-empty stages, each with entries outside the layers. */
  ghost predicate Job<T>(layers: seq<Layer<T>>, ns: seq<nat>, extras: seq<Stage<T>>) {
    && |ns| == |extras| && Sum(ns) == |layers| && Layers(layers)
    && forall i :: 0 <= i < |ns| ==> ns[i] > 0 && Outside(extras[i])
  }

  ghost predicate Converted<T>(layers: seq<Layer<T>>, ns: seq<nat>, extras: seq<Stage<T>>, stages: seq<Stage<T>>)
    requires |ns| == |extras| && Sum(ns) == |layers|
  {
    |stages| == |ns| && forall i :: 0 <= i < |ns| ==> ConvertedStage(layers, ns, extras, i, stages[i])
  }

  lemma StageFacts<T>(layers: seq<Layer<T>>, ns: seq<nat>, extras: seq<Stage<T>>, i: nat, stage: Stage<T>)
    requires Job(layers, ns, extras) && i < |ns| && ConvertedStage(layers, ns, extras, i, stage)
    ensures DistinctKeys(stage) && HoldsLayers(stage, ns[i])
  {
    hide DistinctKeys, HoldsLayers, StageOf, Share, DistinctNames;
    var rows := Share(layers, ns, i);
    forall l | 0 <= l < |rows| ensures rows[l] != [] && DistinctNames(rows[l]) { ShareAt(layers, ns, i, l); }
    StageDistinct(rows, extras[i]);
    StageHolds(rows, extras[i]);
  }

  lemma ConvertedOffset<T>(layers: seq<Layer<T>>, ns: seq<nat>, extras: seq<Stage<T>>, stages: seq<Stage<T>>, i: nat)
    requires Job(layers, ns, extras) && Converted(layers, ns, extras, stages) && i <= |ns|
    ensures Offset(stages, i) == Sum(ns[..i])
  {
    hide Offset, Start, HoldsLayers, ConvertedStage, Outside, DistinctKeys, Layers;
    forall k | 0 <= k < |ns| ensures HoldsLayers(stages[k], ns[k]) {
      StageFacts(layers, ns, extras, k, stages[k]);
    }
    OffsetIsStart(stages, ns, i);
    StartIsCumsum(ns, i);
  }

  ghost predicate Restored<T>(layers: seq<Layer<T>>, sd: map<HfKey, T>, g: nat, q: nat)
    requires g < |layers| && q < |layers[g]|
  {
    var k := HfLayer(g, layers[g][q].name);
    k in sd && sd[k] == layers[g][q].value
  }

  /** The name is that of a parameter of one of the layers. */
  ghost predicate OwnName<T>(layers: seq<Layer<T>>, k: HfKey) {
    k.HfLayer? && k.layer < |layers| && exists q :: 0 <= q < |layers[k.layer]| && layers[k.layer][q].name == k.param
  }

  /** Parameter q of layer l of stage i comes back under the layer's own number. */
  lemma StageRestored<T>(layers: seq<Layer<T>>, ns: seq<nat>, extras: seq<Stage<T>>, stages: seq<Stage<T>>, tied: bool,
                         sd: map<HfKey, T>, i: nat, l: nat, q: nat)
    requires Job(layers, ns, extras) && Converted(layers, ns, extras, stages) && Holds(stages, tied, sd)
    requires i < |ns| && l < ns[i] && Sum(ns[..i]) + l < |layers| && q < |layers[Sum(ns[..i]) + l]|
    ensures Restored(layers, sd, Sum(ns[..i]) + l, q)
  {
    hide Offset, Sum, Holds, StageOf, Share, DistinctKeys, HoldsLayers, Layers, Outside;
    ConvertedOffset(layers, ns, extras, stages, i);
    StageFacts(layers, ns, extras, i, stages[i]);
    ShareAt(layers, ns, i, l);
    var a := StageEntry(Share(layers, ns, i), l, q);
    assert stages[i][a] == LayerEntry(l, layers[Sum(ns[..i]) + l][q]);
    StoredEntry(stages, tied, sd, i, a);
  }

  /** Converting over non-empty stages and merging puts every parameter of every layer back under its own number. */
  lemma MergeInvertsConvert<T>(layers: seq<Layer<T>>, ns: seq<nat>, extras: seq<Stage<T>>, stages: seq<Stage<T>>,
                               tied: bool, sd: map<HfKey, T>, g: nat, q: nat)
    requires Job(layers, ns, extras) && Converted(layers, ns, extras, stages) && Holds(stages, tied, sd)
    requires g < |layers| && q < |layers[g]|
    ensures Restored(layers, sd, g, q)
  {
    hide Holds, Converted, Layers, Outside, Sum, Start;
    PackedCovers(ns, g);
    var i, l :| Numbered(ns, i, l, g);
    StartIsCumsum(ns, i);
    StageRestored(layers, ns, extras, stages, tied, sd, i, l, q);
  }

  /** And nothing but these has a layer name. */
  lemma OnlyConverted<T>(layers: seq<Layer<T>>, ns: seq<nat>, extras: seq<Stage<T>>, stages: seq<Stage<T>>, tied: bool,
                         sd: map<HfKey, T>, k: HfKey)
    requires Job(layers, ns, extras) && Converted(layers, ns, extras, stages) && Holds(stages, tied, sd)
    requires k in sd && k.HfLayer?
    ensures OwnName(layers, k)
  {
    hide Offset, Sum, StageOf, Share, Layers;
    var i, a :| LastWriter(stages, tied, i, a, k) && stages[i][a].value == sd[k];
    assert ConvertedStage(layers, ns, extras, i, stages[i]);
    var rows := Share(layers, ns, i);
    assert stages[i][a].key.LayerKey?;
    assert a < |StageOf(rows)| by { assert Outside(extras[i]); }
    var l, q := EntryPlace(rows, a);
    ShareAt(layers, ns, i, l);
    ConvertedOffset(layers, ns, extras, stages, i);
    assert layers[Sum(ns[..i]) + l][q].name == k.param;
  }

  method Convert<T>(layers: seq<Layer<T>>, ns: seq<nat>, extras: seq<Stage<T>>) returns (grid: seq<seq<Stage<T>>>)
    requires |ns| == |extras| && Sum(ns) == |layers|
    ensures |grid| == |ns| && (forall p :: 0 <= p < |grid| ==> |grid[p]| == 1)
    ensures forall i :: 0 <= i < |ns| ==> ConvertedStage(layers, ns, extras, i, grid[i][0])
  {
    hide StageOf;
    grid := [];
    for i := 0 to |ns|
      invariant |grid| == i && forall p :: 0 <= p < i ==> |grid[p]| == 1
      invariant forall p :: 0 <= p < i ==> ConvertedStage(layers, ns, extras, p, grid[p][0])
    {
      var start, end := LayerRange(ns, i);
      grid := grid + [[StageOf(layers[start..end]) + extras[i]]];
    }
  }

  /** The converter's split over pipeline ranks put through the merger with one virtual stage, end to end. */
  method ConvertAndMergeLayers<T>(layers: seq<Layer<T>>, ns: seq<nat>, extras: seq<Stage<T>>, tied: bool)
    returns (sd: map<HfKey, T>)
    requires ns != [] && Job(layers, ns, extras)
    ensures forall g, q :: 0 <= g < |layers| && 0 <= q < |layers[g]| ==> Restored(layers, sd, g, q)
    ensures forall k :: k in sd && k.HfLayer? ==> OwnName(layers, k)
  {
    hide ConvertedStage, Outside, Layers, Holds, Sum, Restored, OwnName;
    var grid := Convert(layers, ns, extras);
    ghost var stages;
    sd, stages := MergeStateDicts(grid, tied);
    assert |grid[0]| == 1;
    forall p | 0 <= p < |grid| ensures stages[p] == grid[p][0] {
      assert Listed(grid, stages, 0, p);
    }
    assert Converted(layers, ns, extras, stages);
    forall g, q | 0 <= g < |layers| && 0 <= q < |layers[g]| ensures Restored(layers, sd, g, q) {
      MergeInvertsConvert(layers, ns, extras, stages, tied, sd, g, q);
    }
    forall k | k in sd && k.HfLayer? ensures OwnName(layers, k) {
      OnlyConverted(layers, ns, extras, stages, tied, sd, k);
    }
  }
}
