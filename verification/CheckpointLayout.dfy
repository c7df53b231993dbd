/** The row layout of fused attention and MLP weights: the converter interleaves Q, K and V by
    key-value group, tensor-parallel ranks hold contiguous shards, and the merger takes the
    shards apart again.  Rows are of any type, so weights and biases are covered alike. */
module CheckpointLayout {
  import opened Arithmetic
  import opened Tensors

  /** Block g: the rows of query group g, then its key rows, then its value rows. */
  function Blocks<T>(qs: seq<seq<T>>, ks: seq<seq<T>>, vs: seq<seq<T>>): (r: seq<seq<T>>)
    requires |qs| == |ks| == |vs|
    ensures |r| == |qs|
  {
    seq(|qs|, g requires 0 <= g < |qs| => qs[g] + ks[g] + vs[g])
  }

  /** Sizes of a projection: groups key-value heads of headDim rows, perGroup query heads each. */
  ghost predicate Shaped<T>(q: seq<T>, k: seq<T>, v: seq<T>, groups: nat, perGroup: nat, headDim: nat) {
    && groups > 0 && perGroup > 0 && headDim > 0
    && |q| == groups * (headDim * perGroup) && |k| == |v| == groups * headDim
  }

  lemma ShapedPieces<T>(q: seq<T>, k: seq<T>, v: seq<T>, groups: nat, perGroup: nat, headDim: nat)
    requires Shaped(q, k, v, groups, perGroup, headDim)
    ensures headDim * perGroup > 0
    ensures |Pieces(q, headDim * perGroup)| == |Pieces(k, headDim)| == |Pieces(v, headDim)| == groups
    ensures Uniform(Pieces(q, headDim * perGroup), headDim * perGroup)
    ensures Uniform(Pieces(k, headDim), headDim) && Uniform(Pieces(v, headDim), headDim)
  {
    MulLe(1, headDim, perGroup);
    PiecesUniform(q, headDim * perGroup, groups);
    PiecesUniform(k, headDim, groups);
    PiecesUniform(v, headDim, groups);
  }

  function BlocksOf<T>(q: seq<T>, k: seq<T>, v: seq<T>, groups: nat, perGroup: nat, headDim: nat): (r: seq<seq<T>>)
    requires Shaped(q, k, v, groups, perGroup, headDim)
    ensures |r| == groups
  {
    ShapedPieces(q, k, v, groups, perGroup, headDim);
    Blocks(Pieces(q, headDim * perGroup), Pieces(k, headDim), Pieces(v, headDim))
  }

  /** The converter: view by group, concatenate along the second dimension, flatten. */
  function Interleave<T>(q: seq<T>, k: seq<T>, v: seq<T>, groups: nat, perGroup: nat, headDim: nat): seq<T>
    requires Shaped(q, k, v, groups, perGroup, headDim)
  {
    Concat(BlocksOf(q, k, v, groups, perGroup, headDim))
  }

  /** Contiguous row shards, one per tensor-parallel rank. */
  function Shards<T>(rows: seq<T>, tp: nat): seq<seq<T>>
    requires tp > 0 && |rows| / tp > 0
  {
    Pieces(rows, |rows| / tp)
  }

  // ----- the merger

  datatype Merged<T> = Failed | Qkv(q: seq<T>, k: seq<T>, v: seq<T>)

  /** The same row range of every chunk. */
  function Cut<T>(chunks: seq<seq<T>>, lo: nat, hi: nat): (r: seq<seq<T>>)
    requires lo <= hi && forall i :: 0 <= i < |chunks| ==> hi <= |chunks[i]|
    ensures |r| == |chunks|
  {
    seq(|chunks|, i requires 0 <= i < |chunks| => chunks[i][lo..hi])
  }

  function AllChunks<T>(shards: seq<seq<T>>, n: nat): seq<seq<T>>
    requires n > 0
  {
    if shards == [] then []
    else AllChunks(shards[..|shards| - 1], n) + TorchChunk(shards[|shards| - 1], n)
  }

  /** Row counts of one chunk's query, and of its key and value, as the merger computes them. */
  function SplitSizes(shardRows: nat, heads: nat, kvHeads: nat, n: nat): (nat, nat)
    requires kvHeads > 0 && n > 0
  {
    var perGroup := Quotient(heads, kvHeads);
    var kvPerShard := Quotient(shardRows, perGroup + 2);
    MulLe(0, kvPerShard, perGroup);
    (Quotient(kvPerShard * perGroup, n), Quotient(kvPerShard, n))
  }

  function Quotient(x: nat, y: nat): nat
    requires y > 0
  {
    DivMonotone(0, x, y);
    x / y
  }

  lemma CutAppend<T>(x: seq<seq<T>>, y: seq<seq<T>>, lo: nat, hi: nat, c: nat)
    requires Uniform(x, c) && Uniform(y, c) && lo <= hi <= c
    ensures Uniform(x + y, c) && Cut(x + y, lo, hi) == Cut(x, lo, hi) + Cut(y, lo, hi)
  {
  }

  /** The inner loop: split every chunk of one shard into its query, key and value rows. */
  method CutChunks<T>(chunks: seq<seq<T>>, a: nat, h: nat)
    returns (ok: bool, qs: seq<seq<T>>, ks: seq<seq<T>>, vs: seq<seq<T>>)
    ensures ok <==> Uniform(chunks, a + h + h)
    ensures ok ==> qs == Cut(chunks, 0, a) && ks == Cut(chunks, a, a + h) && vs == Cut(chunks, a + h, a + h + h)
  {
    ok, qs, ks, vs := true, [], [], [];
    for c := 0 to |chunks|
      invariant Uniform(chunks[..c], a + h + h) && |qs| == |ks| == |vs| == c
      invariant forall i :: 0 <= i < c ==>
                              && qs[i] == chunks[i][..a] && ks[i] == chunks[i][a..a + h]
                              && vs[i] == chunks[i][a + h..a + h + h]
    {
      var chunk := chunks[c];
      if a + h + h != |chunk| {
        return false, qs, ks, vs;
      }
      qs, ks, vs := qs + [chunk[..a]], ks + [chunk[a..a + h]], vs + [chunk[a + h..]];
    }
  }

  method MergeQkv<T>(tpData: seq<seq<T>>, heads: nat, kvHeads: nat, tp: nat) returns (r: Merged<T>)
    requires tpData != [] && kvHeads > 0 && tp > 0
    ensures r.Qkv? <==>
            && heads % kvHeads == 0 && |tpData[0]| % (Quotient(heads, kvHeads) + 2) == 0 && Quotient(kvHeads, tp) > 0
            && var (a, h) := SplitSizes(|tpData[0]|, heads, kvHeads, Quotient(kvHeads, tp));
               Uniform(AllChunks(tpData, Quotient(kvHeads, tp)), a + h + h)
    ensures r.Qkv? ==>
              var (a, h) := SplitSizes(|tpData[0]|, heads, kvHeads, Quotient(kvHeads, tp));
              var chunks := AllChunks(tpData, Quotient(kvHeads, tp));
              && r.q == Concat(Cut(chunks, 0, a))
              && r.k == Concat(Cut(chunks, a, a + h))
              && r.v == Concat(Cut(chunks, a + h, a + h + h))
  {
    hide TorchChunk, SplitSizes, AllChunks, Quotient, Concat;
    var n := Quotient(kvHeads, tp);
    if heads % kvHeads != 0 || |tpData[0]| % (Quotient(heads, kvHeads) + 2) != 0 || n == 0 {
      return Failed;
    }
    var (a, h) := SplitSizes(|tpData[0]|, heads, kvHeads, n);
    var qs, ks, vs := [], [], [];
    ghost var seen := [];
    AllChunksStart(tpData, n);
    for t := 0 to |tpData|
      invariant seen == AllChunks(tpData[..t], n)
      invariant Uniform(seen, a + h + h)
      invariant qs == Cut(seen, 0, a) && ks == Cut(seen, a, a + h) && vs == Cut(seen, a + h, a + h + h)
    {
      var chunks := TorchChunk(tpData[t], n);
      AllChunksStep(tpData, n, t);
      var ok, qs', ks', vs' := CutChunks(chunks, a, h);
      if !ok {
        AllChunksPrefix(tpData, n, t + 1);
        NotUniform(seen, chunks, AllChunks(tpData, n), a + h + h);
        return Failed;
      }
      CutAppend(seen, chunks, 0, a, a + h + h);
      CutAppend(seen, chunks, a, a + h, a + h + h);
      CutAppend(seen, chunks, a + h, a + h + h, a + h + h);
      qs, ks, vs, seen := qs + qs', ks + ks', vs + vs', seen + chunks;
    }
    assert tpData[..|tpData|] == tpData;
    r := Qkv(Concat(qs), Concat(ks), Concat(vs));
  }

  lemma NotUniform<T>(x: seq<seq<T>>, y: seq<seq<T>>, all: seq<seq<T>>, c: nat)
    requires x + y <= all && !Uniform(y, c)
    ensures !Uniform(all, c)
  {
    var i :| 0 <= i < |y| && |y[i]| != c;
    assert all[|x| + i] == y[i];
  }

  lemma AllChunksStart<T>(shards: seq<seq<T>>, n: nat)
    requires n > 0
    ensures AllChunks(shards[..0], n) == []
  {
  }

  lemma AllChunksStep<T>(shards: seq<seq<T>>, n: nat, t: nat)
    requires n > 0 && t < |shards|
    ensures AllChunks(shards[..t + 1], n) == AllChunks(shards[..t], n) + TorchChunk(shards[t], n)
  {
    assert shards[..t + 1][..t] == shards[..t];
  }

  lemma {:induction false} AllChunksPrefix<T>(shards: seq<seq<T>>, n: nat, t: nat)
    requires n > 0 && t <= |shards|
    ensures AllChunks(shards[..t], n) <= AllChunks(shards, n)
    decreases |shards| - t
  {
    if t == |shards| {
      assert shards[..t] == shards;
    } else {
      AllChunksStep(shards, n, t);
      AllChunksPrefix(shards, n, t + 1);
    }
  }

  // ----- round trip

  lemma CutBlocks<T>(qs: seq<seq<T>>, ks: seq<seq<T>>, vs: seq<seq<T>>, a: nat, h: nat)
    requires |qs| == |ks| == |vs| && Uniform(qs, a) && Uniform(ks, h) && Uniform(vs, h)
    ensures var blocks := Blocks(qs, ks, vs);
            && Uniform(blocks, a + h + h)
            && Cut(blocks, 0, a) == qs && Cut(blocks, a, a + h) == ks && Cut(blocks, a + h, a + h + h) == vs
  {
    var blocks := Blocks(qs, ks, vs);
    forall g | 0 <= g < |qs|
      ensures |blocks[g]| == a + h + h && blocks[g][0..a] == qs[g]
              && blocks[g][a..a + h] == ks[g] && blocks[g][a + h..a + h + h] == vs[g]
    {}
  }

  lemma BlockRows<T>(q: seq<T>, k: seq<T>, v: seq<T>, groups: nat, perGroup: nat, headDim: nat)
    requires Shaped(q, k, v, groups, perGroup, headDim)
    ensures var a := headDim * perGroup;
            var blocks := BlocksOf(q, k, v, groups, perGroup, headDim);
            && a > 0 && Uniform(blocks, a + headDim + headDim)
            && Concat(Cut(blocks, 0, a)) == q
            && Concat(Cut(blocks, a, a + headDim)) == k
            && Concat(Cut(blocks, a + headDim, a + headDim + headDim)) == v
  {
    hide Concat, Pieces, Blocks, Cut, Uniform;
    ShapedPieces(q, k, v, groups, perGroup, headDim);
    var a, h := headDim * perGroup, headDim;
    CutBlocks(Pieces(q, a), Pieces(k, h), Pieces(v, h), a, h);
    ConcatOfPieces(q, a);
    ConcatOfPieces(k, h);
    ConcatOfPieces(v, h);
  }

  /** Chunking every shard by its number of groups gives the blocks back, in order. */
  lemma {:induction false} AllChunksOfGroups<T>(groups: seq<seq<seq<T>>>, n: nat, b: nat)
    requires n > 0 && b > 0
    requires forall t :: 0 <= t < |groups| ==> |groups[t]| == n && Uniform(groups[t], b)
    ensures AllChunks(ConcatEach(groups), n) == Concat(groups)
  {
    if groups != [] {
      var m := |groups| - 1;
      AllChunksOfGroups(groups[..m], n, b);
      assert ConcatEach(groups)[..m] == ConcatEach(groups[..m]);
      ChunkOfConcat(groups[m], b);
    }
  }

  /** The size arithmetic of the merger, for n groups per shard. */
  lemma ShardSizes(n: nat, perGroup: nat, headDim: nat, heads: nat, kvHeads: nat)
    requires n > 0 && perGroup > 0 && headDim > 0 && kvHeads > 0 && heads == kvHeads * perGroup
    ensures heads % kvHeads == 0 && Quotient(heads, kvHeads) == perGroup
    ensures var rows := n * (headDim * perGroup + headDim + headDim);
            rows >= 0 && rows % (perGroup + 2) == 0
            && SplitSizes(rows, heads, kvHeads, n) == (headDim * perGroup, headDim)
  {
    DivUnique(kvHeads * perGroup, kvHeads, perGroup);
    var rows, kv := n * (headDim * perGroup + headDim + headDim), n * headDim;
    RowsOfShard(n, perGroup, headDim);
    MulLe(0, kv, perGroup + 2);
    DivUnique(rows, perGroup + 2, kv);
    Commute(n, headDim, perGroup);
    DivUnique(kv * perGroup, n, headDim * perGroup);
    DivUnique(kv, n, headDim);
  }

  lemma RowsOfShard(n: nat, perGroup: nat, headDim: nat)
    ensures n * (headDim * perGroup + headDim + headDim) == n * headDim * (perGroup + 2)
  {
    assert headDim * perGroup + headDim + headDim == headDim * (perGroup + 2);
    Commute(n, headDim, perGroup + 2);
  }

  lemma Commute(x: int, y: int, z: int)
    ensures x * y * z == (y * z) * x && x * (y * z) == x * y * z && x * y == y * x
  {
  }

  /** The chunks the merger sees are the blocks the converter made. */
  lemma ChunksAreBlocks<T>(blocks: seq<seq<T>>, b: nat, tp: nat, n: nat)
    requires tp > 0 && n > 0 && b > 0 && Uniform(blocks, b) && |blocks| == tp * n
    ensures |Concat(blocks)| / tp == n * b > 0
    ensures AllChunks(Shards(Concat(blocks), tp), n) == blocks
    ensures |Shards(Concat(blocks), tp)| == tp && Uniform(Shards(Concat(blocks), tp), n * b)
  {
    hide AllChunks, Pieces, Concat;
    ConcatLength(blocks, b);
    MulLe(1, n, b);
    Commute(tp, n, b);
    DivUnique(|Concat(blocks)|, tp, n * b);
    ShardsAreBlocks(blocks, b, n, tp);
    PiecesUniform(blocks, n, tp);
    PiecesUniform(Concat(blocks), n * b, tp);
    var groups := Pieces(blocks, n);
    ConcatOfPieces(blocks, n);
    GroupsUniform(blocks, n, b);
    AllChunksOfGroups(groups, n, b);
  }

  lemma {:induction false} GroupsUniform<T>(blocks: seq<seq<T>>, n: nat, b: nat)
    requires n > 0 && Uniform(blocks, b)
    ensures forall t :: 0 <= t < |Pieces(blocks, n)| ==> Uniform(Pieces(blocks, n)[t], b)
    decreases |blocks|
  {
    if |blocks| > n {
      GroupsUniform(blocks[n..], n, b);
    }
  }

  /** Interleave, shard over any tp that divides the group count, merge: exactly Q, K and V. */
  lemma MergeInvertsInterleave<T>(q: seq<T>, k: seq<T>, v: seq<T>, kvHeads: nat, perGroup: nat, headDim: nat,
                                  heads: nat, tp: nat, n: nat)
    requires Shaped(q, k, v, kvHeads, perGroup, headDim) && heads == kvHeads * perGroup
    requires tp > 0 && n > 0 && kvHeads == tp * n
    ensures |Interleave(q, k, v, kvHeads, perGroup, headDim)| / tp > 0 && Quotient(kvHeads, tp) == n
    ensures var data := Shards(Interleave(q, k, v, kvHeads, perGroup, headDim), tp);
            && |data| == tp
            && heads % kvHeads == 0 && |data[0]| % (Quotient(heads, kvHeads) + 2) == 0
            && var (a, h) := SplitSizes(|data[0]|, heads, kvHeads, n);
            && Uniform(AllChunks(data, n), a + h + h)
            && Concat(Cut(AllChunks(data, n), 0, a)) == q
            && Concat(Cut(AllChunks(data, n), a, a + h)) == k
            && Concat(Cut(AllChunks(data, n), a + h, a + h + h)) == v
  {
    hide AllChunks, Concat, Cut, BlocksOf, Shards, SplitSizes;
    var blocks := BlocksOf(q, k, v, kvHeads, perGroup, headDim);
    BlockRows(q, k, v, kvHeads, perGroup, headDim);
    DivUnique(kvHeads, tp, n) by { Commute(tp, n, 1); }
    ChunksAreBlocks(blocks, headDim * perGroup + headDim + headDim, tp, n);
    ShardSizes(n, perGroup, headDim, heads, kvHeads);
  }

  /** The converter's layout put through the merger, end to end. */
  method ConvertAndMerge<T>(q: seq<T>, k: seq<T>, v: seq<T>, kvHeads: nat, perGroup: nat, headDim: nat, tp: nat)
    returns (r: Merged<T>)
    requires Shaped(q, k, v, kvHeads, perGroup, headDim) && tp > 0 && kvHeads % tp == 0
    ensures r == Qkv(q, k, v)
  {
    hide Interleave, Shards, SplitSizes, AllChunks, Cut, Concat, Quotient;
    ghost var n := kvHeads / tp;
    DivBounds(kvHeads, tp);
    Commute(n, tp, 1);
    MulLe(n, 0, tp);
    MulLe(1, kvHeads, perGroup);
    MergeInvertsInterleave(q, k, v, kvHeads, perGroup, headDim, kvHeads * perGroup, tp, n);
    var rows := Interleave(q, k, v, kvHeads, perGroup, headDim);
    r := MergeQkv(Shards(rows, tp), kvHeads * perGroup, kvHeads, tp);
  }

  /** Interleaving moves rows without looking at them: row i of the fused weight and entry i of
      the fused bias come from the same original row. */
  lemma InterleaveMovesRows<T, U>(q: seq<T>, k: seq<T>, v: seq<T>, groups: nat, perGroup: nat, headDim: nat, f: T -> U)
    requires Shaped(q, k, v, groups, perGroup, headDim)
    ensures Shaped(Map(q, f), Map(k, f), Map(v, f), groups, perGroup, headDim)
    ensures Interleave(Map(q, f), Map(k, f), Map(v, f), groups, perGroup, headDim)
            == Map(Interleave(q, k, v, groups, perGroup, headDim), f)
  {
    hide Concat, Pieces;
    ShapedPieces(q, k, v, groups, perGroup, headDim);
    var a, h := headDim * perGroup, headDim;
    var qs, ks, vs := Pieces(q, a), Pieces(k, h), Pieces(v, h);
    MapPieces(q, a, f);
    MapPieces(k, h, f);
    MapPieces(v, h, f);
    MapConcat(Blocks(qs, ks, vs), f);
    MapBlocks(qs, ks, vs, f);
  }

  lemma MapBlocks<T, U>(qs: seq<seq<T>>, ks: seq<seq<T>>, vs: seq<seq<T>>, f: T -> U)
    requires |qs| == |ks| == |vs|
    ensures MapEach(Blocks(qs, ks, vs), f) == Blocks(MapEach(qs, f), MapEach(ks, f), MapEach(vs, f))
  {
    forall g | 0 <= g < |qs|
      ensures Map(qs[g] + ks[g] + vs[g], f) == Map(qs[g], f) + Map(ks[g], f) + Map(vs[g], f)
    {
      MapAppend(qs[g] + ks[g], vs[g], f);
      MapAppend(qs[g], ks[g], f);
    }
  }

  /** The rows of Q, K and V at the index the interleaved layout gives them. */
  lemma InterleaveIndex<T>(q: seq<T>, k: seq<T>, v: seq<T>, groups: nat, m: nat, i: nat, j: nat, r: nat)
    requires Shaped(q, k, v, groups, 1, m) && i < 3 && j < groups && r < m
    ensures var out := Interleave(q, k, v, groups, 1, m);
            var source := if i == 0 then q else if i == 1 then k else v;
            && 0 <= j * (m + m + m) + (i * m + r) < |out| && 0 <= j * m + r < |source|
            && out[j * (m + m + m) + (i * m + r)] == source[j * m + r]
  {
    hide Concat, Pieces, Uniform;
    ShapedPieces(q, k, v, groups, 1, m);
    var source := if i == 0 then q else if i == 1 then k else v;
    PiecesIndex(q, m, groups, j, r);
    PiecesIndex(k, m, groups, j, r);
    PiecesIndex(v, m, groups, j, r);
    CutBlocks(Pieces(q, m), Pieces(k, m), Pieces(v, m), m, m);
    var blocks := BlocksOf(q, k, v, groups, 1, m);
    assert m * 1 == m && blocks[j] == Pieces(q, m)[j] + Pieces(k, m)[j] + Pieces(v, m)[j];
    assert i * m == if i == 0 then 0 else if i == 1 then m else m + m;
    assert blocks[j][i * m + r] == Pieces(source, m)[j][r];
    ConcatIndex(blocks, m + m + m, j, i * m + r);
  }

  /** Where the converter puts the rows, for any number of query heads in a group: group g takes the rows from
      g * (perGroup + 2) * headDim on, its queries first, then its keys, then its values. */
  lemma InterleavePlaces<T>(q: seq<T>, k: seq<T>, v: seq<T>, groups: nat, perGroup: nat, headDim: nat, g: nat, r: nat)
    requires Shaped(q, k, v, groups, perGroup, headDim) && g < groups
    ensures var out, a, h := Interleave(q, k, v, groups, perGroup, headDim), headDim * perGroup, headDim;
            var start := g * (a + h + h);
            && (r < a ==> 0 <= start + r < |out| && 0 <= g * a + r < |q| && out[start + r] == q[g * a + r])
            && (r < h ==> 0 <= start + a + r < |out| && 0 <= g * h + r < |k| && out[start + a + r] == k[g * h + r])
            && (r < h ==> && 0 <= start + a + h + r < |out| && 0 <= g * h + r < |v|
                          && out[start + a + h + r] == v[g * h + r])
  {
    hide Concat, Pieces, Uniform, Cut;
    var a, h := headDim * perGroup, headDim;
    ShapedPieces(q, k, v, groups, perGroup, headDim);
    var qs, ks, vs := Pieces(q, a), Pieces(k, h), Pieces(v, h);
    CutBlocks(qs, ks, vs, a, h);
    var blocks := BlocksOf(q, k, v, groups, perGroup, headDim);
    assert blocks[g] == qs[g] + ks[g] + vs[g];
    if r < a {
      PiecesIndex(q, a, groups, g, r);
      ConcatIndex(blocks, a + h + h, g, r);
    }
    if r < h {
      PiecesIndex(q, a, groups, g, 0);
      PiecesIndex(k, h, groups, g, r);
      PiecesIndex(v, h, groups, g, r);
      ConcatIndex(blocks, a + h + h, g, a + r);
      ConcatIndex(blocks, a + h + h, g, a + h + r);
    }
  }

  lemma TransposeIndex(i: nat, j: nat, groups: nat, m: nat)
    ensures (j * 3 + i) * m == j * (m + m + m) + i * m
    ensures (i * groups + j) * m == i * (groups * m) + j * m
  {
  }

  /** The vision converter views the fused tensor as [3, groups, m], swaps the first two
      dimensions and flattens: row (i, j, r) goes to (j, i, r), which is the interleaved layout. */
  lemma VisionTranspose<T>(fused: seq<T>, groups: nat, m: nat, n: nat, i: nat, j: nat, r: nat)
    requires groups > 0 && m > 0 && n == groups * m && |fused| == n + n + n && i < 3 && j < groups && r < m
    ensures Shaped(fused[..n], fused[n..n + n], fused[n + n..], groups, 1, m)
    ensures var out := Interleave(fused[..n], fused[n..n + n], fused[n + n..], groups, 1, m);
            && 0 <= (j * 3 + i) * m + r < |out| && 0 <= (i * groups + j) * m + r < |fused|
            && out[(j * 3 + i) * m + r] == fused[(i * groups + j) * m + r]
  {
    hide Interleave;
    assert m * 1 == m;
    var q, k, v := fused[..n], fused[n..n + n], fused[n + n..];
    TransposeIndex(i, j, groups, m);
    InterleaveIndex(q, k, v, groups, m, i, j, r);
    assert i * n == if i == 0 then 0 else if i == 1 then n else n + n;
  }

  // ----- gate and up

  datatype GateUp<T> = BadSplit | Both(gate: seq<T>, up: seq<T>)

  /** Half number i of every shard, as chunk(2) gives it. */
  function Halves<T>(tpData: seq<seq<T>>, i: nat): (r: seq<seq<T>>)
    ensures |r| == |tpData|
  {
    seq(|tpData|, t requires 0 <= t < |tpData| =>
      var c := TorchChunk(tpData[t], 2); if i < |c| then c[i] else [])
  }

  /** chunk(2) of every shard, first halves and second halves concatenated. */
  method MergeGateUp<T>(tpData: seq<seq<T>>) returns (r: GateUp<T>)
    ensures r.Both? <==> forall t :: 0 <= t < |tpData| ==> |TorchChunk(tpData[t], 2)| == 2
    ensures r.Both? ==> r.gate == Concat(Halves(tpData, 0)) && r.up == Concat(Halves(tpData, 1))
  {
    hide TorchChunk, Concat;
    var gateList, upList := [], [];
    for t := 0 to |tpData|
      invariant gateList == Halves(tpData, 0)[..t] && upList == Halves(tpData, 1)[..t]
      invariant forall u :: 0 <= u < t ==> |TorchChunk(tpData[u], 2)| == 2
    {
      var halves := TorchChunk(tpData[t], 2);
      if |halves| != 2 {
        return BadSplit;
      }
      gateList, upList := gateList + [halves[0]], upList + [halves[1]];
    }
    assert Halves(tpData, 0)[..|tpData|] == Halves(tpData, 0) && Halves(tpData, 1)[..|tpData|] == Halves(tpData, 1);
    r := Both(Concat(gateList), Concat(upList));
  }

  /** The fused MLP weight of every rank: its gate rows, then its up rows. */
  function GateUpShards<T>(gate: seq<T>, up: seq<T>, w: nat): seq<seq<T>>
    requires w > 0 && |gate| == |up|
  {
    var gates, ups := Pieces(gate, w), Pieces(up, w);
    seq(|gates|, t requires 0 <= t < |gates| => gates[t] + if t < |ups| then ups[t] else [])
  }

  /** Rank t holds gate rows t * w to t * w + w and then the same up rows. */
  lemma GateUpPlace<T>(gate: seq<T>, up: seq<T>, w: nat, tp: nat, t: nat)
    requires w > 0 && tp > 0 && |gate| == |up| == tp * w && t < tp
    ensures 0 <= t * w && t * w + w <= |gate| && |GateUpShards(gate, up, w)| == tp
    ensures GateUpShards(gate, up, w)[t] == gate[t * w..t * w + w] + up[t * w..t * w + w]
  {
    hide Pieces;
    PiecesUniform(gate, w, tp);
    PiecesUniform(up, w, tp);
    MulLe(0, t, w);
    MulLe(t + 1, tp, w);
    MulNext(t, w);
    var x, y := Pieces(gate, w)[t], Pieces(up, w)[t];
    forall r | 0 <= r < w ensures x[r] == gate[t * w + r] && y[r] == up[t * w + r] {
      PiecesIndex(gate, w, tp, t, r);
      PiecesIndex(up, w, tp, t, r);
    }
    assert x == gate[t * w..t * w + w] && y == up[t * w..t * w + w];
  }

  lemma HalvesOf<T>(x: seq<T>, y: seq<T>)
    requires |x| == |y| > 0
    ensures TorchChunk(x + y, 2) == [x, y]
  {
    ChunkOfConcat([x, y], |x|);
    ConcatOne(x);
    assert [x, y][..1] == [x];
  }

  /** Gate and up, split over tp ranks of w rows each and merged, come back whole. */
  lemma GateUpRoundTrip<T>(gate: seq<T>, up: seq<T>, w: nat, tp: nat)
    requires w > 0 && tp > 0 && |gate| == |up| == tp * w
    ensures var data := GateUpShards(gate, up, w);
            && |data| == tp
            && (forall t :: 0 <= t < tp ==> |TorchChunk(data[t], 2)| == 2)
            && Concat(Halves(data, 0)) == gate && Concat(Halves(data, 1)) == up
  {
    hide TorchChunk, Concat, Pieces;
    PiecesUniform(gate, w, tp);
    PiecesUniform(up, w, tp);
    var data := GateUpShards(gate, up, w);
    forall t | 0 <= t < tp ensures TorchChunk(data[t], 2) == [Pieces(gate, w)[t], Pieces(up, w)[t]] {
      HalvesOf(Pieces(gate, w)[t], Pieces(up, w)[t]);
    }
    assert Halves(data, 0) == Pieces(gate, w) && Halves(data, 1) == Pieces(up, w);
    ConcatOfPieces(gate, w);
    ConcatOfPieces(up, w);
  }
}
