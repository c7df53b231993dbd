/** Handing a batch to a group of workers: pad, chunk, work, join, unpad; and the same through futures. */
module Dispatch {
  import opened Arithmetic
  import opened Collections
  import opened Tensors
  import opened Columns
  import opened DataProto
  import opened BatchConcat

  // ----- padding

  /** m rows that cycle through s. */
  function Cycled<T>(s: seq<T>, m: nat): (r: seq<T>)
    requires s != [] || m == 0
    ensures |r| == m && forall i :: 0 <= i < m ==> r[i] == s[i % |s|]
  {
    seq(m, i requires 0 <= i < m => s[i % |s|])
  }

  lemma CycledWhole<T>(s: seq<T>)
    ensures Cycled(s, |s|) == s
  {
    forall i | 0 <= i < |s| ensures i % |s| == i { DivUnique(i, |s|, 0); }
  }

  lemma CycledNext<T>(s: seq<T>, q: nat, t: nat)
    requires s != [] && t <= |s|
    ensures 0 <= q * |s| && Cycled(s, q * |s| + t) == Cycled(s, q * |s|) + s[..t]
  {
    MulLe(0, q, |s|);
    var l, r := Cycled(s, q * |s| + t), Cycled(s, q * |s|) + s[..t];
    forall x | 0 <= x < |l| ensures l[x] == r[x] {
      if x >= q * |s| { DivUnique(x, |s|, q); }
    }
  }

  ghost predicate Like(d: Data, e: Data) { Aligned(e) && SameShape(d, e) && e.meta == d.meta }

  ghost predicate AllLike(d: Data, data: seq<Data>) { forall i :: 0 <= i < |data| ==> Like(d, data[i]) }

  /** Batches of one shape and meta always join. */
  lemma LikeJoin(d: Data, data: seq<Data>)
    requires data != [] && AllLike(d, data)
    ensures AllAligned(data) && AllFit(data) && Joinable(data)
  {
    forall i | 0 <= i < |data| ensures Aligned(data[i]) && Fits(data[0], data[i]) {
      assert Like(d, data[i]) && Like(d, data[0]);
    }
    assert MetasAgree(Metas(data));
    if data[0].batch.Some? { JoinableTensors(data); } else { JoinableObjects(data); }
  }

  /** The rows after joining batches that fit. */
  lemma JoinRows(data: seq<Data>)
    requires data != [] && AllAligned(data) && AllFit(data) && Joinable(data)
    ensures ConcatSpec(data).Ok?
    ensures var r := ConcatSpec(data).value;
            Aligned(r) && SameShape(data[0], r) && Rows(r) == Concat(RowsEach(data))
  {
    MergedRows(data, MergedMeta(Metas(data)));
  }

  function PadSize(n: nat, divisor: nat): (r: nat)
    requires divisor > 0
    ensures r < divisor && (n + r) % divisor == 0
  {
    DivBounds(n, divisor);
    MulNext(n / divisor, divisor);
    if n % divisor == 0 then 0 else
      DivUnique(n + divisor - n % divisor, divisor, n / divisor + 1);
      divisor - n % divisor
  }

  lemma LikeSelf(d: Data)
    requires Aligned(d)
    ensures AllLike(d, [d]) && AllAligned([d]) && Concat(RowsEach([d])) == Rows(d)
  {
    assert RowsEach([d]) == [Rows(d)];
    ConcatOne(Rows(d));
  }

  lemma AppendPart(d: Data, parts: seq<Data>, e: Data)
    requires AllLike(d, parts) && AllAligned(parts) && Like(d, e)
    ensures AllLike(d, parts + [e]) && AllAligned(parts + [e])
    ensures Concat(RowsEach(parts + [e])) == Concat(RowsEach(parts)) + Rows(e)
  {
    hide SameShape, RowAt, Len;
    assert RowsEach(parts + [e])[..|parts|] == RowsEach(parts);
  }

  ghost predicate Padded(d: Data, parts: seq<Data>, m: nat)
    requires Aligned(d) && Len(d) > 0
  {
    AllLike(d, parts) && parts != [] && AllAligned(parts) && Concat(RowsEach(parts)) == Cycled(Rows(d), m)
  }

  lemma PaddedOnce(d: Data)
    requires Aligned(d) && Len(d) > 0
    ensures Padded(d, [d], Len(d))
  {
    LikeSelf(d);
    CycledWhole(Rows(d));
  }

  lemma PaddedNext(d: Data, parts: seq<Data>, q: nat, take: nat)
    requires Aligned(d) && Len(d) > 0 && 0 <= q * Len(d) && Padded(d, parts, q * Len(d)) && take <= Len(d)
    ensures Padded(d, parts + [Slice(d, 0, take)], q * Len(d) + take)
  {
    hide RowAt, Slice, Aligned, SameShape, AllLike, AllAligned, RowsEach, Cycled;
    SliceRows(d, 0, take);
    SliceMeta(d, 0, take);
    CycledNext(Rows(d), q, take);
    AppendPart(d, parts, Slice(d, 0, take));
  }

  /** data[:take], a few times over. */
  method Paddings(d: Data, n: nat, pad: nat) returns (parts: seq<Data>)
    requires Aligned(d) && n == Len(d) > 0
    ensures Padded(d, parts, n + pad)
  {
    hide Slice, Aligned, Padded;
    parts := [d];
    PaddedOnce(d);
    var remaining := pad;
    ghost var q := 1;
    while remaining > 0
      invariant 0 <= remaining <= pad && Padded(d, parts, n + pad - remaining)
      invariant remaining > 0 ==> n + pad - remaining == q * n
    {
      var take := if remaining < n then remaining else n;
      PaddedNext(d, parts, q, take);
      MulNext(q, n);
      parts := parts + [Slice(d, 0, take)];
      remaining, q := remaining - take, q + 1;
    }
  }

  lemma SliceMeta(d: Data, a: nat, b: nat)
    ensures Slice(d, a, b).meta == d.meta
  {
  }

  lemma {:induction false} MergedCopies(metas: seq<Meta>, m: Meta)
    requires metas != [] && forall i :: 0 <= i < |metas| ==> metas[i] == m
    ensures MergedMeta(metas) == m - {METRICS}
  {
    var n := |metas| - 1;
    if n == 0 {
      assert metas[..n] == [];
    } else {
      MergedCopies(metas[..n], m);
    }
  }

  lemma SameMetas(d: Data, parts: seq<Data>)
    requires parts != [] && AllLike(d, parts)
    ensures MergedMeta(Metas(parts)) == d.meta - {METRICS}
  {
    forall i | 0 <= i < |parts| ensures Metas(parts)[i] == d.meta { assert Like(d, parts[i]); }
    MergedCopies(Metas(parts), d.meta);
  }

  /** The padded batch has a multiple of the divisor rows, and row i is row i mod n of the original. */
  method Pad(d: Data, divisor: nat) returns (r: Outcome<(Data, nat)>)
    requires Aligned(d)
    ensures r.Fail? <==> divisor == 0
    ensures r.Ok? ==> r.value.1 == PadSize(Len(d), divisor)
    ensures r.Ok? ==> Aligned(r.value.0) && SameShape(d, r.value.0)
    ensures r.Ok? && Len(d) > 0 ==> Rows(r.value.0) == Cycled(Rows(d), Len(d) + r.value.1)
    ensures r.Ok? && r.value.1 == 0 ==> r.value.0 == d
    ensures r.Ok? && r.value.1 > 0 ==> r.value.0.meta == d.meta - {METRICS}
  {
    hide RowAt, Aligned, Joinable, MergedBatch, StackedColumns, MergedMeta;
    if divisor == 0 {
      return Fail;
    }
    var n := Length(d);
    CycledWhole(Rows(d));
    DivUnique(0, divisor, 0);
    if n % divisor != 0 {
      var pad := divisor - n % divisor;
      var parts := Paddings(d, n, pad);
      LikeJoin(d, parts);
      JoinRows(parts);
      var joined := ConcatData(parts);
      assert Like(d, parts[0]);
      SameMetas(d, parts);
      r := Ok((joined.value, pad));
    } else {
      r := Ok((d, 0));
    }
  }

  /** data[:-pad] */
  method Unpad(d: Data, pad: nat) returns (r: Data)
    requires Aligned(d)
    ensures Aligned(r) && SameShape(d, r) && r.meta == d.meta
    ensures Rows(r) == Rows(d)[..if pad <= Len(d) then Len(d) - pad else 0]
  {
    hide RowAt, Aligned, Len;
    r := d;
    assert Rows(d)[..Len(d)] == Rows(d);
    if pad != 0 {
      var n := Length(d);
      var end := if pad < n then n - pad else 0;
      SliceRows(d, 0, end);
      r := Slice(d, 0, end);
    }
  }

  // ----- a round through the workers

  /** The worker computes every row of its result from the row of its argument by f, and its results have the
      same columns and agree on meta information when its arguments do. */
  ghost predicate RowWise(worker: Data -> Data, f: Row -> Row) {
    && (forall x :: Aligned(x) ==> Aligned(worker(x)) && Rows(worker(x)) == Map(Rows(x), f))
    && (forall x, y :: Aligned(x) && Like(x, y) ==>
                         SameShape(worker(x), worker(y)) && MetasAgree([worker(x).meta, worker(y).meta]))
  }

  lemma LikeEachOther(d: Data, x: Data, y: Data)
    requires Like(d, x) && Like(d, y)
    ensures Like(x, y)
  {
  }

  lemma WorkedJoin(d: Data, data: seq<Data>, worker: Data -> Data, f: Row -> Row, out: seq<Data>)
    requires RowWise(worker, f) && data != [] && AllLike(d, data) && |out| == |data|
    requires forall i :: 0 <= i < |data| ==> out[i] == worker(data[i])
    ensures AllAligned(data) && AllAligned(out) && AllFit(out) && Joinable(out)
    ensures RowsEach(out) == MapEach(RowsEach(data), f)
  {
    hide RowAt, Aligned, SameShape, MetasAgree, Len;
    forall i, j | 0 <= i < |data| && 0 <= j < |data|
      ensures Aligned(data[i]) && Aligned(out[i]) && Rows(out[i]) == Map(Rows(data[i]), f)
      ensures SameShape(out[i], out[j]) && MetasAgree([out[i].meta, out[j].meta])
    {
      assert Like(d, data[i]) && Like(d, data[j]);
      LikeEachOther(d, data[i], data[j]);
    }
    assert AllAligned(data) && AllAligned(out);
    WorkedFit(out);
  }

  lemma WorkedFit(out: seq<Data>)
    requires out != [] && AllAligned(out)
    requires forall i, j :: 0 <= i < |out| && 0 <= j < |out| ==> SameShape(out[i], out[j])
    requires forall i, j :: 0 <= i < |out| && 0 <= j < |out| ==> MetasAgree([out[i].meta, out[j].meta])
    ensures AllFit(out) && Joinable(out)
  {
    forall i | 0 <= i < |out| ensures Fits(out[0], out[i]) { assert SameShape(out[0], out[i]); }
    var metas := Metas(out);
    forall i, j, k | 0 <= i < |metas| && 0 <= j < |metas| && k in metas[i] && k in metas[j] && k != METRICS
      ensures metas[i][k] == metas[j][k]
    {
      var two := [out[i].meta, out[j].meta];
      assert MetasAgree(two) && k in two[0] && k in two[1];
    }
    if out[0].batch.Some? { JoinableTensors(out); } else { JoinableObjects(out); }
  }

  method WorkOn(pieces: seq<Data>, worker: Data -> Data) returns (out: seq<Data>)
    ensures |out| == |pieces| && forall i :: 0 <= i < |pieces| ==> out[i] == worker(pieces[i])
  {
    out := [];
    for i := 0 to |pieces|
      invariant |out| == i && forall j :: 0 <= j < i ==> out[j] == worker(pieces[j])
    {
      out := out + [worker(pieces[i])];
    }
  }

  /** Equal pieces of a batch: all of its shape, together its rows. */
  lemma EqualPieces(d: Data, k: nat)
    requires Aligned(d) && k > 0 && Len(d) % k == 0
    ensures AllLike(d, Chunked(d, k)) && AllAligned(Chunked(d, k)) && Concat(RowsEach(Chunked(d, k))) == Rows(d)
    ensures forall auto :: Chunkable(d, k, auto)
  {
    EqualCuts(Len(d), k, 0);
    forall i | 0 <= i < k ensures Like(d, Chunked(d, k)[i]) { PieceRows(d, k, i); }
    PiecesMakeWhole(d, k, RowsEach(Chunked(d, k)));
  }

  /** Pad to the number of workers, chunk, let every worker do its piece, join and unpad: the same rows as the
      worker's function on every original row, whatever the number of rows and of workers. */
  method RunWorkers(d: Data, workers: nat, worker: Data -> Data, autoPadding: bool,
                    ghost f: Row -> Row) returns (r: Outcome<Data>)
    requires Aligned(d) && RowWise(worker, f)
    ensures r.Fail? <==> workers == 0
    ensures r.Ok? ==> Aligned(r.value) && Rows(r.value) == Map(Rows(d), f)
  {
    hide RowAt, Aligned, RowWise, Joinable, Merged, Chunkable, Chunked, AllLike, AllFit, SameShape;
    if workers == 0 {
      return Fail;
    }
    var padded := Pad(d, workers);
    var (p, pad) := padded.value;
    PaddedLength(d, p, pad, workers);
    EqualPieces(p, workers);
    var pieces := Chunk(p, workers, autoPadding);
    var out := WorkOn(pieces.value, worker);
    WorkedJoin(p, pieces.value, worker, f, out);
    JoinRows(out);
    MapConcat(RowsEach(pieces.value), f);
    var joined := ConcatData(out);
    assert Rows(joined.value) == Map(Rows(p), f);
    var res := Unpad(joined.value, pad);
    UnpaddedRows(d, p, pad, f);
    r := Ok(res);
  }

  lemma PaddedLength(d: Data, p: Data, pad: nat, workers: nat)
    requires Aligned(d) && Aligned(p) && workers > 0 && pad == PadSize(Len(d), workers)
    requires Len(d) > 0 ==> Rows(p) == Cycled(Rows(d), Len(d) + pad)
    requires pad == 0 ==> p == d
    ensures Len(p) == Len(d) + pad && Len(p) % workers == 0
  {
    if Len(d) > 0 {
      assert |Rows(p)| == Len(d) + pad;
    } else {
      DivUnique(0, workers, 0);
    }
  }

  lemma UnpaddedRows(d: Data, p: Data, pad: nat, f: Row -> Row)
    requires Aligned(d) && Aligned(p) && Len(p) == Len(d) + pad
    requires Len(d) > 0 ==> Rows(p) == Cycled(Rows(d), Len(d) + pad)
    requires pad == 0 ==> p == d
    ensures Map(Rows(p), f)[..Len(d)] == Map(Rows(d), f)
  {
    if Len(d) > 0 {
      forall i | 0 <= i < Len(d) ensures Rows(p)[i] == Rows(d)[i] { DivUnique(i, Len(d), 0); }
    }
  }

  // ----- futures

  /** Results still on the workers, and which piece of their join is wanted. */
  datatype Future = Future(parts: seq<Data>, pick: Option<(nat, nat)>)

  function ChunkFuture(f: Future, k: nat): (r: seq<Future>)
    ensures |r| == k
  {
    seq(k, i requires 0 <= i < k => Future(f.parts, Some((i, k))))
  }

  /** Aligned parts; a join without a tensor batch in the first one, whose lengths nobody checks, comes out aligned. */
  ghost predicate Dependable(parts: seq<Data>) {
    AllAligned(parts)
    && (Joinable(parts) && parts[0].batch.None? ==> Aligned(Merged(parts, MergedMeta(Metas(parts)))))
  }

  lemma JoinAligned(parts: seq<Data>)
    requires Dependable(parts) && Joinable(parts)
    ensures Aligned(Merged(parts, MergedMeta(Metas(parts))))
  {
    if parts[0].batch.Some? {
      JoinableTensors(parts);
      MergedRows(parts, MergedMeta(Metas(parts)));
    }
  }

  ghost function PickSpec(d: Data, i: nat, k: nat, autoPadding: bool): Outcome<Data> {
    var pieces := ChunkSpec(d, k, autoPadding);
    if pieces.Ok? && i < |pieces.value| then Ok(pieces.value[i]) else Fail
  }

  method Get(f: Future, autoPadding: bool) returns (r: Outcome<Data>)
    requires Dependable(f.parts)
    ensures r == GetSpec(f, autoPadding)
  {
    hide Joinable, Merged, MergedMeta, Chunkable, Chunked;
    var joined := ConcatData(f.parts);
    if joined.Fail? || f.pick.None? {
      return joined;
    }
    JoinAligned(f.parts);
    var pieces := Chunk(joined.value, f.pick.value.1, autoPadding);
    if pieces.Ok? && f.pick.value.0 < |pieces.value| {
      r := Ok(pieces.value[f.pick.value.0]);
    } else {
      r := Fail;
    }
  }

  ghost function GetSpec(f: Future, autoPadding: bool): Outcome<Data> {
    var joined := ConcatSpec(f.parts);
    if joined.Fail? || f.pick.None? then joined else PickSpec(joined.value, f.pick.value.0, f.pick.value.1, autoPadding)
  }

  /** Chunking a future and getting every piece, beside joining now and chunking the join: the same pieces, and a
      failure of all for a failure of either. */
  method LazyAndEager(f: Future, k: nat, autoPadding: bool)
    returns (lazy: seq<Outcome<Data>>, whole: Outcome<Data>, eager: Outcome<seq<Data>>)
    requires Dependable(f.parts) && f.pick.None? && k > 0
    ensures |lazy| == k && (eager.Ok? ==> whole.Ok? && |eager.value| == k)
    ensures whole == ConcatSpec(f.parts) && (whole.Ok? ==> eager == ChunkSpec(whole.value, k, autoPadding))
    ensures forall i :: 0 <= i < k ==> lazy[i] == if eager.Ok? then Ok(eager.value[i]) else Fail
  {
    hide Joinable, Merged, MergedMeta, Chunkable, Chunked;
    whole := ConcatData(f.parts);
    eager := Fail;
    if whole.Ok? {
      JoinAligned(f.parts);
      eager := Chunk(whole.value, k, autoPadding);
    }
    var futures := ChunkFuture(f, k);
    lazy := [];
    for i := 0 to k
      invariant |lazy| == i
      invariant forall j :: 0 <= j < i ==> lazy[j] == if eager.Ok? then Ok(eager.value[j]) else Fail
    {
      var got := Get(futures[i], autoPadding);
      lazy := lazy + [got];
    }
  }

  /** The i-th piece of a chunking is all of the batch. */
  ghost predicate IsEverything(d: Data, m: nat, j: nat)
    requires m > 0
  {
    CutAt(d, m, j) == 0 && CutAt(d, m, j + 1) == Len(d)
  }

  /** A piece that is chunked again forgets that it was a piece: the result is the chunks of that piece if and only
      if the piece was everything. */
  lemma NestedChunk(f: Future, k: nat, j: nat, m: nat, autoPadding: bool)
    requires Dependable(f.parts) && Joinable(f.parts) && f.pick == Some((j, m)) && j < m
    requires Chunkable(ConcatSpec(f.parts).value, m, autoPadding)
    requires Chunkable(PieceAt(ConcatSpec(f.parts).value, m, j), k, autoPadding)
    ensures var d := ConcatSpec(f.parts).value;
            && GetSpec(f, autoPadding) == Ok(PieceAt(d, m, j))
            && ((forall i :: 0 <= i < k ==>
                               GetSpec(ChunkFuture(f, k)[i], autoPadding) == Ok(PieceAt(PieceAt(d, m, j), k, i)))
                <==> IsEverything(d, m, j) || Len(d) == 0)
  {
    var d := ConcatSpec(f.parts).value;
    var piece := PieceAt(d, m, j);
    JoinAligned(f.parts);
    GotPiece(f, d, j, m, autoPadding);
    hide Joinable, Merged, MergedMeta, PieceAt, IsEverything, Dependable, AllAligned;
    if IsEverything(d, m, j) || Len(d) == 0 {
      WholePiece(d, m, j, autoPadding);
      forall i | 0 <= i < k ensures GetSpec(ChunkFuture(f, k)[i], autoPadding) == Ok(PieceAt(piece, k, i)) {
        GotPiece(ChunkFuture(f, k)[i], d, i, k, autoPadding);
      }
    }
    if forall i :: 0 <= i < k ==> GetSpec(ChunkFuture(f, k)[i], autoPadding) == Ok(PieceAt(piece, k, i)) {
      assert GetSpec(ChunkFuture(f, k)[0], autoPadding).Ok?;
      assert Chunkable(d, k, autoPadding);
      forall i | 0 <= i < k ensures PieceAt(d, k, i) == PieceAt(piece, k, i) {
        GotPiece(ChunkFuture(f, k)[i], d, i, k, autoPadding);
      }
      SamePieces(d, piece, m, j, k, autoPadding);
    }
  }

  lemma GotPiece(f: Future, d: Data, i: nat, k: nat, autoPadding: bool)
    requires ConcatSpec(f.parts) == Ok(d) && f.pick == Some((i, k)) && i < k && Chunkable(d, k, autoPadding)
    ensures GetSpec(f, autoPadding) == Ok(PieceAt(d, k, i))
  {
    hide ConcatSpec;
  }

  lemma WholePiece(d: Data, m: nat, j: nat, autoPadding: bool)
    requires Aligned(d) && j < m && Chunkable(d, m, autoPadding) && (IsEverything(d, m, j) || Len(d) == 0)
    ensures PieceAt(d, m, j) == d
  {
    hide PieceAt, PieceCount, CutAt, Aligned, Len, RowAt, SameShape;
    PieceRows(d, m, j);
    assert Rows(PieceAt(d, m, j)) == Rows(d);
    SameShapeFlip(d, PieceAt(d, m, j));
    RowsDetermine(PieceAt(d, m, j), d);
  }

  ghost function PieceRowsEach(d: Data, k: nat, autoPadding: bool): (r: seq<seq<Row>>)
    requires Aligned(d) && Chunkable(d, k, autoPadding)
    ensures |r| == k && forall i :: 0 <= i < k ==> Aligned(PieceAt(d, k, i)) && r[i] == Rows(PieceAt(d, k, i))
  {
    seq(k, i requires 0 <= i < k => PieceRows(d, k, i); Rows(PieceAt(d, k, i)))
  }

  /** Equal pieces come from equally many rows. */
  lemma SamePieces(d: Data, piece: Data, m: nat, j: nat, k: nat, autoPadding: bool)
    requires Aligned(d) && j < m && Chunkable(d, m, autoPadding) && piece == PieceAt(d, m, j)
    requires Chunkable(d, k, autoPadding) && Chunkable(piece, k, autoPadding)
    requires forall i :: 0 <= i < k ==> PieceAt(d, k, i) == PieceAt(piece, k, i)
    ensures IsEverything(d, m, j)
  {
    hide RowAt, Aligned, SameShape;
    PieceRows(d, m, j);
    var a, b := PieceRowsEach(d, k, autoPadding), PieceRowsEach(piece, k, autoPadding);
    hide PieceAt, CutAt, PieceRowsEach;
    assert a == b;
    PiecesMakeWhole(d, k, a);
    PiecesMakeWhole(piece, k, b);
    assert |Rows(piece)| == |Rows(d)|;
  }

  /** Half of four rows, chunked in two: the lazy pieces are the halves of all four rows. */
  lemma NestedChunkLoses()
    ensures var d := Data(None, map["x" := [Scalar(0), Scalar(1), Scalar(2), Scalar(3)]], map[]);
            var f := Future([d], Some((0, 2)));
            && ConcatSpec([d]) == Ok(d) && GetSpec(f, false) == Ok(PieceAt(d, 2, 0))
            && exists i :: 0 <= i < 2 && GetSpec(ChunkFuture(f, 2)[i], false) != Ok(PieceAt(PieceAt(d, 2, 0), 2, i))
  {
    var d := Data(None, map["x" := [Scalar(0), Scalar(1), Scalar(2), Scalar(3)]], map[]);
    var f := Future([d], Some((0, 2)));
    FourRows(d);
    OneJoins(d);
    HalfOfFour(d);
    hide ConcatSpec, GetSpec, PieceAt, Chunkable, Dependable, IsEverything, Joinable;
    assert Joinable([d]) by { LikeSelf(d); LikeJoin(d, [d]); }
    NestedChunk(f, 2, 0, 2, false);
  }

  lemma HalfOfFour(d: Data)
    requires Aligned(d) && d.batch.None? && Len(d) == 4
    ensures Chunkable(d, 2, false) && Chunkable(PieceAt(d, 2, 0), 2, false) && !IsEverything(d, 2, 0)
  {
    hide PieceAt, RowAt, Aligned;
    PieceRows(d, 2, 0);
    assert |Rows(PieceAt(d, 2, 0))| == 2;
  }

  lemma FourRows(d: Data)
    requires d == Data(None, map["x" := [Scalar(0), Scalar(1), Scalar(2), Scalar(3)]], map[])
    ensures Aligned(d) && Len(d) == 4
  {
    assert "x" in d.objects;
  }

  /** A single part without meta information joins to itself. */
  lemma OneJoins(d: Data)
    requires Aligned(d) && d.meta == map[]
    ensures ConcatSpec([d]) == Ok(d) && Dependable([d])
  {
    LikeSelf(d);
    LikeJoin(d, [d]);
    MergedOne(d);
    MergedEmpty(Metas([d]));
  }

  lemma SameShapeFlip(d: Data, e: Data)
    requires SameShape(d, e)
    ensures SameShape(e, d)
  {
  }
}
