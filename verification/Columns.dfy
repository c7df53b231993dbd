/** Operations on one column of a batch, as torch and numpy define them along the first dimension. */
module Columns {
  import opened Arithmetic
  import opened Tensors

  /** The entries at the given positions. */
  function Gather<T>(s: seq<T>, at: seq<nat>): (r: seq<T>)
    requires forall j :: 0 <= j < |at| ==> at[j] < |s|
    ensures |r| == |at| && forall j :: 0 <= j < |at| ==> r[j] == s[at[j]]
  {
    seq(|at|, j requires 0 <= j < |at| => s[at[j]])
  }

  // ----- cutting

  /** Where torch.chunk cuts n rows into k: multiples of the rounded-up size. */
  function TorchCut(n: nat, k: nat, i: nat): (r: nat)
    requires k > 0
    ensures r <= n
  {
    MulLe(0, i, CeilDiv(n, k));
    Min(i * CeilDiv(n, k), n)
  }

  /** How many pieces torch.chunk makes of n rows when asked for k. */
  function PieceCount(n: nat, k: nat): nat
    requires k > 0
  {
    if n == 0 then k else
      CeilStep(n, k);
      CeilDiv(n, CeilDiv(n, k))
  }

  /** Where numpy.array_split cuts n rows into k: the first n % k pieces get one row more. */
  function NumpyCut(n: nat, k: nat, i: nat): nat
    requires k > 0
  {
    DivMonotone(0, n, k);
    MulLe(0, i, n / k);
    i * (n / k) + Min(i, n % k)
  }

  lemma {:induction false} PiecesCount<T>(s: seq<T>, c: nat)
    requires c > 0 && s != []
    ensures |Pieces(s, c)| == CeilDiv(|s|, c)
    decreases |s|
  {
    CeilStep(|s|, c);
    if |s| <= c {
      DivUnique(|s| - 1, c, 0);
    } else {
      PiecesCount(s[c..], c);
    }
  }

  lemma DropSlice<T>(s: seq<T>, c: nat, lo: nat, hi: nat)
    requires lo <= hi && c + hi <= |s|
    ensures s[c..][lo..hi] == s[c + lo..c + hi]
  {
  }

  lemma {:induction false} PieceIs<T>(s: seq<T>, c: nat, i: nat)
    requires c > 0 && i < |Pieces(s, c)|
    ensures 0 <= i * c <= Min((i + 1) * c, |s|) && Pieces(s, c)[i] == s[i * c..Min((i + 1) * c, |s|)]
    decreases |s|
  {
    MulNext(i, c);
    MulLe(0, i, c);
    if |s| > c && i > 0 {
      PieceIs(s[c..], c, i - 1);
      MulNext(i - 1, c);
      DropSlice(s, c, (i - 1) * c, Min(i * c, |s| - c));
    }
  }

  lemma PiecesAt<T>(s: seq<T>, c: nat, i: nat)
    requires c > 0 && s != []
    ensures |Pieces(s, c)| == CeilDiv(|s|, c)
    ensures i < |Pieces(s, c)| ==>
            0 <= i * c <= Min((i + 1) * c, |s|) && Pieces(s, c)[i] == s[i * c..Min((i + 1) * c, |s|)]
  {
    PiecesCount(s, c);
    if i < |Pieces(s, c)| { PieceIs(s, c, i); }
  }

  lemma TorchChunkAt<T>(s: seq<T>, k: nat, i: nat)
    requires k > 0
    ensures |TorchChunk(s, k)| == PieceCount(|s|, k)
    ensures i < PieceCount(|s|, k) ==>
              TorchCut(|s|, k, i) <= TorchCut(|s|, k, i + 1)
              && TorchChunk(s, k)[i] == s[TorchCut(|s|, k, i)..TorchCut(|s|, k, i + 1)]
  {
    MulNext(i, CeilDiv(|s|, k));
    if s != [] {
      CeilStep(|s|, k);
      PiecesAt(s, CeilDiv(|s|, k), i);
    }
  }

  /** torch.chunk delivers the number of pieces asked for exactly when the last one is not empty. */
  lemma ChunkDelivers(n: nat, k: nat)
    requires k > 0
    ensures PieceCount(n, k) == k <==> n == 0 || (k - 1) * CeilDiv(n, k) < n
  {
    if n > 0 {
      CeilStep(n, k);
      var c := CeilDiv(n, k);
      CeilStep(n, c);
      DivBounds(n - 1, c);
      DivBounds(n + k - 1, k);
      var q := (n - 1) / c;
      assert c * k == k * c && k * c >= n;
      MulNext(k - 1, c);
      MulLe(k, q, c);
      MulLe(q + 1, k - 1, c);
      MulNext(q, c);
    }
  }

  /** The last cut is the end. */
  lemma CutsEnd(n: nat, k: nat)
    requires k > 0
    ensures TorchCut(n, k, 0) == 0 && TorchCut(n, k, k) == n
    ensures NumpyCut(n, k, 0) == 0 && NumpyCut(n, k, k) == n
  {
    DivBounds(n + k - 1, k);
    DivBounds(n, k);
    assert CeilDiv(n, k) * k == k * CeilDiv(n, k);
    assert (n / k) * k == k * (n / k);
  }

  lemma NumpyCutStep(n: nat, k: nat, i: nat)
    requires i < k
    ensures NumpyCut(n, k, i) <= NumpyCut(n, k, i + 1) <= n
  {
    CutsEnd(n, k);
    DivMonotone(0, n, k);
    MulNext(i, n / k);
    MulLe(i + 1, k, n / k);
  }

  /** numpy's pieces: n / k rows each, the rows left over going one by one to the first pieces. */
  lemma NumpyPieces<T>(s: seq<T>, k: nat, i: nat)
    requires i < k
    ensures NumpyCut(|s|, k, i + 1) == NumpyCut(|s|, k, i) + |s| / k + (if i < |s| % k then 1 else 0)
    ensures NumpyCut(|s|, k, i) <= NumpyCut(|s|, k, i + 1) <= |s|
    ensures ArraySplit(s, k)[i] == s[NumpyCut(|s|, k, i)..NumpyCut(|s|, k, i + 1)]
    ensures |ArraySplit(s, k)[i]| == |s| / k + if i < |s| % k then 1 else 0
  {
    NumpyCutStep(|s|, k, i);
    MulNext(i, |s| / k);
    hide NumpyCut;
  }

  /** Equal pieces: both libraries cut at multiples of n / k, and torch delivers all k. */
  lemma EqualCuts(n: nat, k: nat, i: nat)
    requires k > 0 && n % k == 0 && i <= k
    ensures PieceCount(n, k) == k
    ensures TorchCut(n, k, i) == NumpyCut(n, k, i) == i * (n / k)
  {
    DivBounds(n, k);
    DivMonotone(0, n, k);
    var c := n / k;
    DivUnique(n + k - 1, k, c);
    assert CeilDiv(n, k) == c;
    assert c * k == k * c;
    MulLe(0, i, c);
    MulLe(i, k, c);
    MulNext(k - 1, c);
    ChunkDelivers(n, k);
    if c == 0 { assert n == 0; }
  }

  /** numpy.array_split(s, cuts): slices between consecutive cuts, clamped to the array. */
  function Between<T>(s: seq<T>, lo: nat, hi: nat): seq<T> {
    var to' := Min(hi, |s|);
    if lo <= to' then s[lo..to'] else []
  }

  function SplitAt<T>(s: seq<T>, cuts: seq<nat>): (r: seq<seq<T>>)
    ensures |r| == |cuts| + 1
  {
    seq(|cuts| + 1, i requires 0 <= i <= |cuts| =>
      Between(s, if i == 0 then 0 else cuts[i - 1], if i == |cuts| then |s| else cuts[i]))
  }

  function ArraySplit<T>(s: seq<T>, k: nat): (r: seq<seq<T>>)
    requires k > 0
    ensures |r| == k
  {
    seq(k, i requires 0 <= i < k => Between(s, NumpyCut(|s|, k, i), NumpyCut(|s|, k, i + 1)))
  }

  // ----- repeating

  /** tensor.repeat_interleave(t), np.repeat(a, t): every row t times in a row. */
  function RepeatInterleave<T>(s: seq<T>, t: nat): (r: seq<T>)
    ensures |r| == |s| * t
  {
    MulLe(0, |s|, t);
    seq(|s| * t, j requires 0 <= j < |s| * t => s[Source(|s|, t, j)])
  }

  function Source(n: nat, t: nat, j: nat): (r: nat)
    requires j < n * t
    ensures r < n
  {
    assert t > 0;
    DivBounds(j, t);
    DivMonotone(0, j, t);
    MulLe(n, j / t, t);
    j / t
  }

  /** expand and reshape, np.tile: the whole column t times. */
  function Tile<T>(s: seq<T>, t: nat): (r: seq<T>)
    ensures |r| == t * |s|
  {
    MulLe(0, t, |s|);
    seq(t * |s|, j requires 0 <= j < t * |s| => assert |s| > 0; s[j % |s|])
  }

  /** The repeat that is not interleaved is the column one time after the other. */
  lemma {:induction false} TileCopies<T>(s: seq<T>, t: nat)
    ensures Tile(s, t) == Concat(seq(t, _ => s))
  {
    if t > 0 {
      TileCopies(s, t - 1);
      var copies := seq(t, _ => s);
      assert copies[..t - 1] == seq(t - 1, _ => s);
      MulNext(t - 1, |s|);
      MulLe(0, t - 1, |s|);
      forall j | 0 <= j < |Tile(s, t)| ensures Tile(s, t)[j] == (Tile(s, t - 1) + s)[j] {
        if j >= (t - 1) * |s| { DivUnique(j, |s|, t - 1); }
      }
    }
  }

  /** Row i comes out at places i * t to i * t + t when interleaved, and at every |s|-th place from i otherwise. */
  lemma RepeatPlaces<T>(s: seq<T>, t: nat, i: nat, j: nat)
    requires i < |s| && j < t
    ensures 0 <= i * t + j < |RepeatInterleave(s, t)| && RepeatInterleave(s, t)[i * t + j] == s[i]
    ensures 0 <= j * |s| + i < |Tile(s, t)| && Tile(s, t)[j * |s| + i] == s[i]
  {
    MulLe(0, i, t);
    MulLe(i + 1, |s|, t);
    MulNext(i, t);
    DivUnique(i * t + j, t, i);
    MulLe(0, j, |s|);
    MulLe(j + 1, t, |s|);
    MulNext(j, |s|);
    DivUnique(j * |s| + i, |s|, j);
  }

  /** The repeat by counts has row i as many times in a row as its count says. */
  lemma {:induction false} EachCopies<T>(s: seq<T>, times: seq<nat>)
    requires |times| == |s|
    ensures RepeatEach(s, times) == Concat(seq(|s|, i requires 0 <= i < |s| => seq(times[i], _ => s[i])))
  {
    if s != [] {
      var n := |s| - 1;
      var parts := seq(|s|, i requires 0 <= i < |s| => seq(times[i], _ => s[i]));
      EachCopies(s[..n], times[..n]);
      assert parts[..n] == seq(n, i requires 0 <= i < n => seq(times[..n][i], _ => s[..n][i]));
    }
  }

  /** tensor.repeat_interleave(times) with one count for each row. */
  function RepeatEach<T>(s: seq<T>, times: seq<nat>): seq<T>
    requires |times| == |s|
  {
    if s == [] then [] else
      var n := |s| - 1;
      RepeatEach(s[..n], times[..n]) + seq(times[n], _ => s[n])
  }

  /** Per-row counts that are all t are the interleaved repeat. */
  lemma {:induction false} ConstantCounts<T>(s: seq<T>, t: nat)
    ensures RepeatEach(s, seq(|s|, _ => t)) == RepeatInterleave(s, t)
  {
    if s != [] {
      var n := |s| - 1;
      var times := seq(|s|, _ => t);
      assert times[..n] == seq(n, _ => t);
      ConstantCounts(s[..n], t);
      MulNext(n, t);
      MulLe(0, n, t);
      var l, r := RepeatEach(s, times), RepeatInterleave(s, t);
      forall j | 0 <= j < |r| ensures l[j] == r[j] {
        if j >= n * t { DivUnique(j, t, n); }
      }
    }
  }

  /** Which row every row of a per-row repeat comes from. */
  lemma {:induction false} RepeatEachGathers<T>(s: seq<T>, times: seq<nat>)
    requires |times| == |s|
    ensures var at := RepeatEach<nat>(Identity(|s|), times);
            (forall j :: 0 <= j < |at| ==> at[j] < |s|) && RepeatEach(s, times) == Gather(s, at)
  {
    if s != [] {
      var n := |s| - 1;
      RepeatEachGathers(s[..n], times[..n]);
      assert Identity(|s|)[..n] == Identity(n);
    }
  }

  function Identity(n: nat): (r: seq<nat>)
    ensures |r| == n && forall i :: 0 <= i < n ==> r[i] == i
  {
    seq(n, i => i)
  }

  /** Interleaved repeat commutes with taking a run of rows. */
  lemma RepeatOfSlice<T>(s: seq<T>, t: nat, a: nat, b: nat)
    requires a <= b <= |s|
    ensures 0 <= a * t <= b * t <= |s| * t
    ensures RepeatInterleave(s[a..b], t) == RepeatInterleave(s, t)[a * t..b * t]
  {
    MulLe(0, a, t);
    MulLe(a, b, t);
    MulLe(b, |s|, t);
    assert (b - a) * t == b * t - a * t;
    forall j | 0 <= j < (b - a) * t
      ensures RepeatInterleave(s[a..b], t)[j] == RepeatInterleave(s, t)[a * t + j]
    {
      DivShift(j, a, t);
    }
  }

  // ----- folding

  /** view(n, -1): n runs of equal length. */
  function FoldRows<T>(s: seq<T>, n: nat): (r: seq<seq<T>>)
    requires n > 0 && |s| % n == 0
    ensures |r| == n && Uniform(r, |s| / n)
  {
    FoldSize(|s|, n);
    if s == [] then seq(n, _ => []) else
      PiecesUniform(s, |s| / n, n);
      Pieces(s, |s| / n)
  }

  lemma FoldSize(m: nat, n: nat)
    requires n > 0 && m % n == 0
    ensures 0 <= m / n && m == n * (m / n) && (m == 0 <==> m / n == 0)
  {
    DivBounds(m, n);
    DivMonotone(0, m, n);
    assert (m / n) * n == n * (m / n);
  }

  /** Unfolding gives back what was folded. */
  lemma UnfoldFold<T>(s: seq<T>, n: nat)
    requires n > 0 && |s| % n == 0
    ensures Concat(FoldRows(s, n)) == s
  {
    FoldSize(|s|, n);
    if s == [] {
      ConcatLength(FoldRows(s, n), 0);
    } else {
      ConcatOfPieces(s, |s| / n);
    }
  }

  /** Folding gives back what was unfolded, when the parts are equally long. */
  lemma FoldUnfold<T>(parts: seq<seq<T>>, c: nat)
    requires parts != [] && Uniform(parts, c)
    ensures |Concat(parts)| % |parts| == 0 && FoldRows(Concat(parts), |parts|) == parts
  {
    ConcatLength(parts, c);
    var n := |parts|;
    assert n * c == c * n;
    DivUnique(n * c, n, c);
    if c > 0 {
      MulLe(1, n, c);
      PiecesOfConcat(parts, c);
    }
  }
}
