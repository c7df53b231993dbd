/** A batch with tensor columns and object columns that must stay row-aligned. */
module DataProto {
  import opened Arithmetic
  import opened Collections
  import opened Tensors
  import opened Columns

  datatype Outcome<T> = Fail | Ok(value: T)

  /** What a column holds for one row: a scalar or object, or a tensor of such. */
  datatype Cell = Scalar(value: int) | Stack(parts: seq<Cell>)

  type Dict = map<string, seq<Cell>>

  datatype Table = Table(size: nat, columns: Dict)

  datatype Data = Data(batch: Option<Table>, objects: Dict, meta: map<string, int>)

  datatype Row = Row(tensors: map<string, Cell>, objects: map<string, Cell>)

  function TensorColumns(d: Data): Dict { if d.batch.Some? then d.batch.value.columns else map[] }

  /** The batch size, else the length of an object column, else 0. */
  ghost function Len(d: Data): nat {
    if d.batch.Some? then d.batch.value.size
    else if d.objects != map[] then var k :| k in d.objects; |d.objects[k]|
    else 0
  }

  ghost predicate AllOf(columns: Dict, n: nat) { forall k :: k in columns ==> |columns[k]| == n }

  ghost predicate Aligned(d: Data) { AllOf(TensorColumns(d), Len(d)) && AllOf(d.objects, Len(d)) }

  lemma AlignedBy(d: Data, n: nat)
    requires AllOf(TensorColumns(d), n) && AllOf(d.objects, n)
    requires d.batch.Some? ==> d.batch.value.size == n
    requires d.batch.None? && d.objects == map[] ==> n == 0
    ensures Aligned(d) && Len(d) == n
  {
  }

  ghost function RowAt(d: Data, i: nat): Row
    requires Aligned(d) && i < Len(d)
  {
    Row(map k | k in TensorColumns(d) :: TensorColumns(d)[k][i], map k | k in d.objects :: d.objects[k][i])
  }

  /** The batch as its rows: what alignment makes of the columns. */
  ghost function Rows(d: Data): (r: seq<Row>)
    requires Aligned(d)
    ensures |r| == Len(d) && forall i :: 0 <= i < Len(d) ==> r[i] == RowAt(d, i)
  {
    seq(Len(d), i requires 0 <= i < Len(d) => RowAt(d, i))
  }

  ghost predicate SameShape(d: Data, e: Data) {
    && (d.batch.Some? <==> e.batch.Some?) && TensorColumns(d).Keys == TensorColumns(e).Keys
    && d.objects.Keys == e.objects.Keys
  }

  /** Rows, columns and meta determine a batch. */
  lemma RowsDetermine(d: Data, e: Data)
    requires Aligned(d) && Aligned(e) && SameShape(d, e) && d.meta == e.meta && Rows(d) == Rows(e)
    ensures d == e
  {
    assert |Rows(d)| == Len(d) == Len(e);
    forall k | k in TensorColumns(d) ensures TensorColumns(d)[k] == TensorColumns(e)[k] {
      forall i | 0 <= i < Len(d) ensures TensorColumns(d)[k][i] == TensorColumns(e)[k][i] {
        assert Rows(d)[i].tensors[k] == Rows(e)[i].tensors[k];
      }
    }
    forall k | k in d.objects ensures d.objects[k] == e.objects[k] {
      forall i | 0 <= i < Len(d) ensures d.objects[k][i] == e.objects[k][i] {
        assert Rows(d)[i].objects[k] == Rows(e)[i].objects[k];
      }
    }
    assert TensorColumns(d) == TensorColumns(e) && d.objects == e.objects;
  }

  // ----- the constructor's check

  predicate Consistent(d: Data) {
    d.batch.Some? ==> forall k :: k in d.objects ==> |d.objects[k]| == d.batch.value.size
  }

  /** A tensor dictionary keeps its own columns at the batch size. */
  ghost predicate TableValid(d: Data) { d.batch.Some? ==> AllOf(d.batch.value.columns, d.batch.value.size) }

  /** The check accepts exactly the aligned batches when there is a tensor batch; without one it accepts anything. */
  lemma CheckMeansAligned(d: Data)
    requires TableValid(d)
    ensures d.batch.Some? ==> (Consistent(d) <==> Aligned(d))
    ensures d.batch.None? ==>
            && Consistent(d)
            && (Aligned(d) <==>
                forall j, k :: j in d.objects && k in d.objects ==> |d.objects[j]| == |d.objects[k]|)
  {
    if d.batch.None? && d.objects != map[] {
      var c :| c in d.objects && Len(d) == |d.objects[c]|;
    }
  }

  /** Two object columns of different length pass the check when there is no tensor batch. */
  lemma RaggedAccepted()
    ensures var d := Data(None, map["x" := [Scalar(0)], "y" := []], map[]);
            Consistent(d) && !Aligned(d)
  {
    var d := Data(None, map["x" := [Scalar(0)], "y" := []], map[]);
    CheckMeansAligned(d);
    assert "x" in d.objects && "y" in d.objects;
  }

  // ----- rows picked by position

  ghost predicate Positions(at: seq<nat>, n: nat) { forall j :: 0 <= j < |at| ==> at[j] < n }

  ghost predicate PickedColumns(c: Dict, r: Dict, at: seq<nat>, n: nat)
    requires AllOf(c, n) && Positions(at, n)
  {
    r.Keys == c.Keys && forall k :: k in c ==> r[k] == Gather(c[k], at)
  }

  ghost predicate Picked(d: Data, r: Data, at: seq<nat>)
    requires Aligned(d) && Positions(at, Len(d))
  {
    && (r.batch.Some? <==> d.batch.Some?)
    && (r.batch.Some? ==> r.batch.value.size == |at|)
    && PickedColumns(TensorColumns(d), TensorColumns(r), at, Len(d))
    && PickedColumns(d.objects, r.objects, at, Len(d))
  }

  /** Columns picked at the same positions are rows picked at those positions. */
  lemma PickedRows(d: Data, r: Data, at: seq<nat>)
    requires Aligned(d) && Positions(at, Len(d)) && Picked(d, r, at)
    ensures Aligned(r) && SameShape(d, r) && Len(r) == |at| && Rows(r) == Gather(Rows(d), at)
  {
    assert r.objects == map[] ==> d.objects == map[];
    assert at != [] ==> at[0] < Len(d);
    AlignedBy(r, |at|);
    forall j | 0 <= j < |at| ensures Rows(r)[j] == Rows(d)[at[j]] {
      assert RowAt(r, j).tensors == RowAt(d, at[j]).tensors;
      assert RowAt(r, j).objects == RowAt(d, at[j]).objects;
    }
  }

  // ----- slicing

  function SliceColumns(c: Dict, a: nat, b: nat): Dict {
    map k | k in c :: Between(c[k], a, b)
  }

  /** data[a:b]: both ends clamped to the batch. */
  function Slice(d: Data, a: nat, b: nat): Data {
    var batch := if d.batch.Some? then
                   var t := d.batch.value;
                   Some(Table(|Between(Identity(t.size), a, b)|, SliceColumns(t.columns, a, b)))
                 else None;
    Data(batch, SliceColumns(d.objects, a, b), d.meta)
  }

  lemma SliceRows(d: Data, a: nat, b: nat)
    requires Aligned(d)
    ensures Aligned(Slice(d, a, b)) && SameShape(d, Slice(d, a, b))
    ensures Rows(Slice(d, a, b)) == Between(Rows(d), a, b)
  {
    hide RowAt, Between, SliceColumns, PickedColumns, Positions, SameShape;
    var n := Len(d);
    BetweenGathers(Rows(d), a, b);
    SlicedColumns(TensorColumns(d), n, a, b);
    SlicedColumns(d.objects, n, a, b);
    NothingSliced(a, b);
    PickedRows(d, Slice(d, a, b), Between(Identity(n), a, b));
  }

  /** Row i of a slice is row a + i, up to the end of the slice or of the batch. */
  lemma SliceRowAt(d: Data, a: nat, b: nat, i: nat)
    requires Aligned(d)
    ensures Aligned(Slice(d, a, b)) && Slice(d, a, b).meta == d.meta
    ensures i < Len(Slice(d, a, b)) <==> a + i < b && a + i < Len(d)
    ensures a + i < b && a + i < Len(d) ==> Rows(Slice(d, a, b))[i] == Rows(d)[a + i]
  {
    SliceRows(d, a, b);
    hide RowAt, SliceColumns, Aligned, Len;
    assert |Rows(Slice(d, a, b))| == Len(Slice(d, a, b));
  }

  lemma BetweenGathers<T>(s: seq<T>, a: nat, b: nat)
    ensures var at := Between(Identity(|s|), a, b); Positions(at, |s|) && Between(s, a, b) == Gather(s, at)
  {
  }

  lemma SlicedColumns(c: Dict, n: nat, a: nat, b: nat)
    requires AllOf(c, n)
    ensures var at := Between(Identity(n), a, b); Positions(at, n) && PickedColumns(c, SliceColumns(c, a, b), at, n)
  {
    BetweenGathers(Identity(n), a, b);
    hide Between;
    forall k | k in c { BetweenGathers(c[k], a, b); }
  }

  lemma NothingSliced(a: nat, b: nat)
    ensures SliceColumns(map[], a, b) == map[]
  {
  }

  // ----- chunk

  /** Where the i-th cut of a chunked batch falls: torch cuts the tensors, numpy an object-only batch. */
  ghost function CutAt(d: Data, k: nat, i: nat): nat
    requires k > 0
  {
    if d.batch.Some? then TorchCut(Len(d), k, i) else NumpyCut(Len(d), k, i)
  }

  const AUTO_PADDING_KEY := "_verl_auto_padding"

  /** Enabled for all batches or by the batch's own meta information. */
  predicate PaddingEnabled(d: Data, autoPadding: bool) {
    autoPadding || (AUTO_PADDING_KEY in d.meta && d.meta[AUTO_PADDING_KEY] != 0)
  }

  /** Unequal pieces need auto padding, and even then torch has to deliver as many as asked. */
  ghost predicate Chunkable(d: Data, k: nat, autoPadding: bool) {
    k > 0 && (PaddingEnabled(d, autoPadding) || Len(d) % k == 0) && (d.batch.Some? ==> PieceCount(Len(d), k) == k)
  }

  ghost function PieceAt(d: Data, k: nat, i: nat): Data
    requires k > 0
  {
    Slice(d, CutAt(d, k, i), CutAt(d, k, i + 1))
  }

  ghost function Chunked(d: Data, k: nat): (r: seq<Data>)
    requires k > 0
    ensures |r| == k && forall i :: 0 <= i < k ==> r[i] == PieceAt(d, k, i)
  {
    seq(k, i requires 0 <= i < k => PieceAt(d, k, i))
  }

  ghost function ChunkSpec(d: Data, k: nat, autoPadding: bool): Outcome<seq<Data>> {
    if Chunkable(d, k, autoPadding) then Ok(Chunked(d, k)) else Fail
  }

  /** TensorDict.chunk. */
  function ChunkTable(t: Table, k: nat): (r: seq<Table>)
    requires k > 0
    requires forall key :: key in t.columns ==> |t.columns[key]| == t.size
    ensures |r| == PieceCount(t.size, k)
  {
    seq(PieceCount(t.size, k), i requires 0 <= i < PieceCount(t.size, k) =>
      TableChunk(t, k, i))
  }

  function TableChunk(t: Table, k: nat, i: nat): Table
    requires k > 0 && i < PieceCount(t.size, k)
    requires forall key :: key in t.columns ==> |t.columns[key]| == t.size
  {
    TorchChunkAt(Identity(t.size), k, i);
    Table(|TorchChunk(Identity(t.size), k)[i]|,
          map key | key in t.columns :: TorchChunkAt(t.columns[key], k, i); TorchChunk(t.columns[key], k)[i])
  }

  lemma TableChunkIsSlice(d: Data, k: nat, i: nat)
    requires Aligned(d) && d.batch.Some? && k > 0 && i < PieceCount(Len(d), k)
    ensures Some(TableChunk(d.batch.value, k, i)) == Slice(d, TorchCut(Len(d), k, i), TorchCut(Len(d), k, i + 1)).batch
    ensures TableChunk(d.batch.value, k, i).size == TorchCut(Len(d), k, i + 1) - TorchCut(Len(d), k, i)
  {
    var t := d.batch.value;
    TorchChunkAt(Identity(t.size), k, i);
    forall key | key in t.columns { TorchChunkAt(t.columns[key], k, i); }
    assert TableChunk(t, k, i).columns == SliceColumns(t.columns, TorchCut(Len(d), k, i), TorchCut(Len(d), k, i + 1));
  }

  method Length(d: Data) returns (n: nat)
    requires Aligned(d)
    ensures n == Len(d)
  {
    if d.batch.Some? {
      n := d.batch.value.size;
    } else if d.objects != map[] {
      var k :| k in d.objects;
      n := |d.objects[k]|;
    } else {
      n := 0;
    }
  }

  /** np.cumsum of the piece sizes, without the last. */
  method ChunkIndices(d: Data, pieces: seq<Table>, k: nat) returns (cuts: seq<nat>)
    requires Aligned(d) && d.batch.Some? && k > 0 && pieces == ChunkTable(d.batch.value, k) && |pieces| == k
    ensures CutsOf(d, k, cuts)
  {
    cuts := [];
    var sum := 0;
    CutsEnd(Len(d), k);
    for i := 0 to |pieces| - 1
      invariant |cuts| == i && sum == TorchCut(Len(d), k, i)
      invariant forall j :: 0 <= j < i ==> cuts[j] == TorchCut(Len(d), k, j + 1)
    {
      TableChunkIsSlice(d, k, i);
      sum := sum + pieces[i].size;
      cuts := cuts + [sum];
    }
  }

  /** The object columns of piece i, for the keys handled so far. */
  ghost function PartOf(d: Data, k: nat, i: nat, keys: set<string>): Dict
    requires k > 0
  {
    map key | key in keys && key in d.objects :: Between(d.objects[key], CutAt(d, k, i), CutAt(d, k, i + 1))
  }

  ghost predicate Filled(d: Data, k: nat, keys: set<string>, parts: seq<Dict>)
    requires k > 0
  {
    |parts| == k && forall i :: 0 <= i < k ==> parts[i] == PartOf(d, k, i, keys)
  }

  ghost predicate CutsOf(d: Data, k: nat, cuts: seq<nat>)
    requires k > 0
  {
    d.batch.Some? ==> |cuts| == k - 1 && forall i :: 0 <= i < |cuts| ==> cuts[i] == TorchCut(Len(d), k, i + 1)
  }

  function SplitObjects(d: Data, k: nat, key: string, cuts: seq<nat>): seq<seq<Cell>>
    requires k > 0 && key in d.objects
  {
    if d.batch.Some? then SplitAt(d.objects[key], cuts) else ArraySplit(d.objects[key], k)
  }

  /** The split of one object column falls where the tensor columns were cut. */
  lemma SplitFallsOnCuts(d: Data, k: nat, key: string, cuts: seq<nat>)
    requires Aligned(d) && k > 0 && key in d.objects && CutsOf(d, k, cuts)
    ensures var parts := SplitObjects(d, k, key, cuts);
            |parts| == k && forall i :: 0 <= i < k ==> parts[i] == PartOf(d, k, i, {key})[key]
  {
    CutsEnd(Len(d), k);
    hide Between, TorchCut, NumpyCut;
    forall i | 0 <= i < k ensures SplitObjects(d, k, key, cuts)[i] == PartOf(d, k, i, {key})[key] {
      SplitFallsAt(d, k, key, cuts, i);
    }
  }

  lemma SplitFallsAt(d: Data, k: nat, key: string, cuts: seq<nat>, i: nat)
    requires Aligned(d) && i < k && key in d.objects && CutsOf(d, k, cuts)
    ensures var parts := SplitObjects(d, k, key, cuts);
            |parts| == k && parts[i] == Between(d.objects[key], CutAt(d, k, i), CutAt(d, k, i + 1))
  {
    CutsEnd(Len(d), k);
    hide Between, TorchCut, NumpyCut;
  }

  method ChunkObjects(d: Data, k: nat, cuts: seq<nat>) returns (parts: seq<Dict>)
    requires Aligned(d) && k > 0 && CutsOf(d, k, cuts)
    ensures Filled(d, k, d.objects.Keys, parts)
  {
    hide Aligned, CutAt, CutsOf, Between, SplitObjects;
    parts := seq(k, _ => map[]);
    var rest := d.objects.Keys;
    while rest != {}
      invariant rest <= d.objects.Keys && Filled(d, k, d.objects.Keys - rest, parts)
      decreases |rest|
    {
      var key :| key in rest;
      var pieces := SplitObjects(d, k, key, cuts);
      SplitFallsOnCuts(d, k, key, cuts);
      ghost var before := parts;
      for i := 0 to k
        invariant |parts| == k
        invariant forall j :: 0 <= j < i ==> parts[j] == before[j][key := pieces[j]]
        invariant forall j :: i <= j < k ==> parts[j] == before[j]
      {
        parts := parts[i := parts[i][key := pieces[i]]];
      }
      rest := rest - {key};
      forall i | 0 <= i < k ensures parts[i] == PartOf(d, k, i, d.objects.Keys - rest) {
        assert before[i] == PartOf(d, k, i, d.objects.Keys - rest - {key});
      }
    }
    assert d.objects.Keys - rest == d.objects.Keys;
  }

  lemma PieceAssembled(d: Data, k: nat, i: nat)
    requires Aligned(d) && k > 0 && i < k && (d.batch.Some? ==> PieceCount(Len(d), k) == k)
    ensures PieceAt(d, k, i)
            == Data(if d.batch.Some? then Some(TableChunk(d.batch.value, k, i)) else None,
                PartOf(d, k, i, d.objects.Keys), d.meta)
  {
    if d.batch.Some? { TableChunkIsSlice(d, k, i); }
    assert PartOf(d, k, i, d.objects.Keys) == SliceColumns(d.objects, CutAt(d, k, i), CutAt(d, k, i + 1));
  }

  method Chunk(d: Data, k: nat, autoPadding: bool) returns (r: Outcome<seq<Data>>)
    requires Aligned(d)
    ensures r == ChunkSpec(d, k, autoPadding)
    ensures r.Ok? <==>
            && k > 0
            && (autoPadding || ("_verl_auto_padding" in d.meta && d.meta["_verl_auto_padding"] != 0) || Len(d) % k == 0)
            && (d.batch.Some? ==> Len(d) == 0 || (k - 1) * CeilDiv(Len(d), k) < Len(d))
  {
    if k > 0 { ChunkDelivers(Len(d), k); }
    hide PieceCount, PieceAt, PartOf, TableChunk, CeilDiv;
    var n := Length(d);
    if k == 0 || (!PaddingEnabled(d, autoPadding) && n % k != 0) {
      return Fail;
    }
    var tables: seq<Table>, cuts: seq<nat> := [], [];
    if d.batch.Some? {
      tables := ChunkTable(d.batch.value, k);
      if |tables| != k {
        return Fail;
      }
      cuts := ChunkIndices(d, tables, k);
    }
    var parts := ChunkObjects(d, k, cuts);
    var output := [];
    for i := 0 to k
      invariant |output| == i
      invariant forall j :: 0 <= j < i ==> output[j] == PieceAt(d, k, j)
    {
      PieceAssembled(d, k, i);
      output := output + [Data(if d.batch.Some? then Some(tables[i]) else None, parts[i], d.meta)];
    }
    assert output == Chunked(d, k);
    r := Ok(output);
  }

  /** Five rows with tensors cannot be chunked in four, padding enabled or not. */
  lemma FiveRowsInFour(d: Data, autoPadding: bool)
    requires Aligned(d) && d.batch.Some? && Len(d) == 5
    ensures ChunkSpec(d, 4, autoPadding) == Fail
  {
    ChunkDelivers(5, 4);
    assert CeilDiv(5, 4) == 2;
  }

  // ----- the rows of the pieces

  lemma CutsStep(d: Data, k: nat, i: nat)
    requires i < k && (d.batch.Some? ==> PieceCount(Len(d), k) == k)
    ensures CutAt(d, k, i) <= CutAt(d, k, i + 1) <= Len(d)
    ensures CutAt(d, k, 0) == 0 && CutAt(d, k, k) == Len(d)
  {
    CutsEnd(Len(d), k);
    NumpyCutStep(Len(d), k, i);
    TorchChunkAt(Identity(Len(d)), k, i);
  }

  /** Tensor and object columns are cut at the same rows: every piece holds a run of whole rows. */
  lemma PieceRows(d: Data, k: nat, i: nat)
    requires Aligned(d) && i < k && (d.batch.Some? ==> PieceCount(Len(d), k) == k)
    ensures Aligned(PieceAt(d, k, i)) && SameShape(d, PieceAt(d, k, i)) && PieceAt(d, k, i).meta == d.meta
    ensures CutAt(d, k, i) <= CutAt(d, k, i + 1) <= Len(d)
    ensures Rows(PieceAt(d, k, i)) == Rows(d)[CutAt(d, k, i)..CutAt(d, k, i + 1)]
    ensures Rows(PieceAt(d, k, i)) == if d.batch.Some? then TorchChunkAt(Rows(d), k, i); TorchChunk(Rows(d), k)[i]
            else ArraySplit(Rows(d), k)[i]
  {
    CutsStep(d, k, i);
    SliceRows(d, CutAt(d, k, i), CutAt(d, k, i + 1));
    TorchChunkAt(Rows(d), k, i);
  }

  ghost predicate RunOf<T>(s: seq<T>, lo: nat, hi: nat, part: seq<T>) { lo <= hi <= |s| && part == s[lo..hi] }

  lemma {:induction false} ConcatOfCuts<T>(s: seq<T>, cuts: seq<nat>, parts: seq<seq<T>>)
    requires |cuts| == |parts| + 1 && cuts[0] == 0
    requires forall i :: 0 <= i < |parts| ==> RunOf(s, cuts[i], cuts[i + 1], parts[i])
    ensures cuts[|parts|] <= |s| && Concat(parts) == s[..cuts[|parts|]]
  {
    if parts != [] {
      var n := |parts| - 1;
      ConcatOfCuts(s, cuts[..n + 1], parts[..n]);
    }
  }

  /** Chunking loses and reorders nothing. */
  lemma PiecesMakeWhole(d: Data, k: nat, parts: seq<seq<Row>>)
    requires Aligned(d) && k > 0 && (d.batch.Some? ==> PieceCount(Len(d), k) == k)
    requires |parts| == k
    requires forall i :: 0 <= i < k ==> Aligned(PieceAt(d, k, i)) && parts[i] == Rows(PieceAt(d, k, i))
    ensures Concat(parts) == Rows(d)
  {
    hide PieceAt, CutAt, PieceCount, RowAt, Aligned, Concat, SameShape;
    var cuts := seq(k + 1, i requires 0 <= i <= k => CutAt(d, k, i));
    CutsStep(d, k, 0);
    forall i | 0 <= i < k ensures RunOf(Rows(d), cuts[i], cuts[i + 1], parts[i]) {
      PieceRows(d, k, i);
    }
    ConcatOfCuts(Rows(d), cuts, parts);
    assert Rows(d)[..Len(d)] == Rows(d);
  }

  // ----- split

  /** [data[i : i + size] for i in range(0, len(data), size)] */
  ghost function Split(d: Data, size: nat): (r: seq<Data>)
    requires size > 0
    ensures |r| == CeilDiv(Len(d), size)
  {
    seq(CeilDiv(Len(d), size), i requires 0 <= i < CeilDiv(Len(d), size) =>
      MulLe(0, i, size); Slice(d, i * size, i * size + size))
  }

  lemma SplitRows(d: Data, size: nat, i: nat)
    requires Aligned(d) && size > 0 && i < CeilDiv(Len(d), size)
    ensures Aligned(Split(d, size)[i]) && SameShape(d, Split(d, size)[i]) && Split(d, size)[i].meta == d.meta
    ensures |Pieces(Rows(d), size)| == |Split(d, size)| && Rows(Split(d, size)[i]) == Pieces(Rows(d), size)[i]
  {
    hide RowAt, Aligned, SameShape, Len, Pieces;
    CeilStep(Len(d), size);
    MulLe(0, i, size);
    MulNext(i, size);
    assert Split(d, size)[i] == Slice(d, i * size, i * size + size);
    hide Split, Slice;
    SliceRows(d, i * size, i * size + size);
    PiecesAt(Rows(d), size, i);
  }

  /** A batch with rows is the join of its splits; an empty one splits into nothing. */
  lemma SplitsMakeWhole(d: Data, size: nat, parts: seq<seq<Row>>)
    requires Aligned(d) && size > 0 && |parts| == |Split(d, size)|
    requires forall i :: 0 <= i < |parts| ==> Aligned(Split(d, size)[i]) && parts[i] == Rows(Split(d, size)[i])
    ensures Concat(parts) == Rows(d) && (parts == [] <==> Len(d) == 0)
  {
    hide Split, RowAt, Pieces, Aligned, Len;
    CeilStep(Len(d), size);
    if Len(d) > 0 {
      SplitRows(d, size, 0);
      forall i | 0 <= i < |parts| ensures parts[i] == Pieces(Rows(d), size)[i] {
        SplitRows(d, size, i);
      }
      assert parts == Pieces(Rows(d), size);
      ConcatOfPieces(Rows(d), size);
    }
  }
}
