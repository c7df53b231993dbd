/** Batches that grow or fold: repeat, per-row repeat, column chunks, fold and unfold. */
module Expand {
  import opened Arithmetic
  import opened Collections
  import opened Tensors
  import opened Columns
  import opened DataProto

  // ----- repeat

  function Repeated<T>(s: seq<T>, t: nat, interleave: bool): seq<T> {
    if interleave then RepeatInterleave(s, t) else Tile(s, t)
  }

  function RepeatColumns(c: Dict, t: nat, interleave: bool): Dict {
    map k | k in c :: Repeated(c[k], t, interleave)
  }

  function Repeat(d: Data, t: nat, interleave: bool): Data {
    var batch := if d.batch.Some?
                 then
                   var b := d.batch.value;
                   MulLe(0, b.size, t);
                   Some(Table(b.size * t, RepeatColumns(b.columns, t, interleave)))
                 else None;
    Data(batch, RepeatColumns(d.objects, t, interleave), d.meta)
  }

  lemma RepeatGathers<T>(s: seq<T>, t: nat, interleave: bool)
    ensures var at := Repeated<nat>(Identity(|s|), t, interleave);
            Positions(at, |s|) && |at| == |s| * t && Repeated(s, t, interleave) == Gather(s, at)
  {
    assert |s| * t == t * |s|;
  }

  lemma RepeatedColumns(c: Dict, n: nat, t: nat, interleave: bool)
    requires AllOf(c, n)
    ensures var at := Repeated<nat>(Identity(n), t, interleave);
            Positions(at, n) && PickedColumns(c, RepeatColumns(c, t, interleave), at, n)
  {
    RepeatGathers(Identity(n), t, interleave);
    hide Repeated;
    forall k | k in c { RepeatGathers(c[k], t, interleave); }
  }

  /** Repeating every column repeats whole rows. */
  lemma RepeatRows(d: Data, t: nat, interleave: bool)
    requires Aligned(d)
    ensures Aligned(Repeat(d, t, interleave)) && SameShape(d, Repeat(d, t, interleave))
    ensures Rows(Repeat(d, t, interleave)) == Repeated(Rows(d), t, interleave)
  {
    hide RowAt, Repeated, RepeatColumns, PickedColumns, Positions;
    RepeatGathers(Rows(d), t, interleave);
    RepeatedColumns(TensorColumns(d), Len(d), t, interleave);
    RepeatedColumns(d.objects, Len(d), t, interleave);
    assert d.batch.None? ==> TensorColumns(d) == map[] == RepeatColumns(TensorColumns(d), t, interleave) by {
      NoColumns(t, interleave);
    }
    PickedRows(d, Repeat(d, t, interleave), Repeated<nat>(Identity(Len(d)), t, interleave));
  }

  /** Copy j of row i of a repeated batch: next to its other copies when interleaved, in copy j of the batch if not. */
  lemma RepeatedRowAt(d: Data, t: nat, i: nat, j: nat)
    requires Aligned(d) && i < Len(d) && j < t
    ensures Aligned(Repeat(d, t, true)) && Aligned(Repeat(d, t, false))
    ensures Len(Repeat(d, t, true)) == Len(Repeat(d, t, false)) == Len(d) * t
    ensures 0 <= i * t + j < Len(d) * t && Rows(Repeat(d, t, true))[i * t + j] == Rows(d)[i]
    ensures 0 <= j * Len(d) + i < Len(d) * t && Rows(Repeat(d, t, false))[j * Len(d) + i] == Rows(d)[i]
  {
    hide *;
    RepeatRows(d, t, true);
    RepeatRows(d, t, false);
    RepeatedPlaces(Rows(d), t, i, j);
    RowCount(d);
    RowCount(Repeat(d, t, true));
    RowCount(Repeat(d, t, false));
  }

  lemma RowCount(d: Data)
    requires Aligned(d)
    ensures |Rows(d)| == Len(d)
  {
  }

  lemma RepeatedPlaces<T>(s: seq<T>, t: nat, i: nat, j: nat)
    requires i < |s| && j < t
    ensures |Repeated(s, t, true)| == |Repeated(s, t, false)| == |s| * t
    ensures 0 <= i * t + j < |s| * t && Repeated(s, t, true)[i * t + j] == s[i]
    ensures 0 <= j * |s| + i < |s| * t && Repeated(s, t, false)[j * |s| + i] == s[i]
  {
    RepeatPlaces(s, t, i, j);
    hide RepeatInterleave, Tile;
    assert t * |s| == |s| * t;
  }

  lemma NoColumns(t: nat, interleave: bool)
    ensures RepeatColumns(map[], t, interleave) == map[]
  {
  }

  /** Interleaved repeat commutes with equal chunking. */
  lemma RepeatCommutesWithChunk(d: Data, t: nat, k: nat, i: nat)
    requires Aligned(d) && i < k && Len(d) % k == 0
    ensures Len(Repeat(d, t, true)) % k == 0
    ensures Repeat(PieceAt(d, k, i), t, true) == PieceAt(Repeat(d, t, true), k, i)
  {
    hide RepeatColumns, RowAt, PieceAt, TorchCut, NumpyCut, PieceCount, Aligned;
    var r := Repeat(d, t, true);
    RepeatRows(d, t, true);
    RepeatedLength(d, r, t);
    RepeatCuts(Len(d), t, k, i);
    RepeatCuts(Len(d), t, k, i + 1);
    RepeatedPiece(d, r, t, k, i, CutAt(d, k, i), CutAt(d, k, i + 1));
  }

  lemma RepeatedLength(d: Data, r: Data, t: nat)
    requires Aligned(d) && Aligned(r) && Rows(r) == RepeatInterleave(Rows(d), t)
    ensures Len(r) == Len(d) * t
  {
    assert |Rows(r)| == |Rows(d)| * t;
  }

  /** The cuts of t times as many rows are t times the cuts. */
  lemma RepeatCuts(n: nat, t: nat, k: nat, i: nat)
    requires k > 0 && n % k == 0 && i <= k
    ensures 0 <= n * t && (n * t) % k == 0 && PieceCount(n, k) == k == PieceCount(n * t, k)
    ensures TorchCut(n * t, k, i) == TorchCut(n, k, i) * t && NumpyCut(n * t, k, i) == NumpyCut(n, k, i) * t
  {
    hide TorchCut, NumpyCut, PieceCount;
    FoldSize(n, k);
    MulLe(0, n, t);
    var c := n / k;
    Regroup(k, c, t);
    Regroup(i, c, t);
    DivUnique(n * t, k, c * t);
    EqualCuts(n, k, i);
    EqualCuts(n * t, k, i);
  }

  lemma Regroup(k: int, c: int, t: int)
    ensures (k * c) * t == (c * t) * k == k * (c * t)
  {
  }

  lemma RepeatedPiece(d: Data, r: Data, t: nat, k: nat, i: nat, a: nat, b: nat)
    requires Aligned(d) && Aligned(r) && i < k && r == Repeat(d, t, true) && SameShape(d, r)
    requires Rows(r) == RepeatInterleave(Rows(d), t)
    requires PieceCount(Len(d), k) == k == PieceCount(Len(r), k)
    requires CutAt(d, k, i) == a && CutAt(d, k, i + 1) == b && CutAt(r, k, i) == a * t && CutAt(r, k, i + 1) == b * t
    ensures Repeat(PieceAt(d, k, i), t, true) == PieceAt(r, k, i)
  {
    var p, q := PieceAt(d, k, i), PieceAt(r, k, i);
    assert r.meta == d.meta && Repeat(p, t, true).meta == p.meta;
    hide PieceAt, RowAt, CutAt, Aligned, Len, PieceCount, SameShape, Repeat, RepeatInterleave;
    PieceRows(d, k, i);
    PieceRows(r, k, i);
    RepeatRows(p, t, true);
    RepeatOfSlice(Rows(d), t, a, b);
    SameShapes(d, p, Repeat(p, t, true), r, q);
    RowsDetermine(Repeat(p, t, true), q);
  }

  lemma SameShapes(d: Data, p: Data, pr: Data, r: Data, q: Data)
    requires SameShape(d, p) && SameShape(p, pr) && SameShape(d, r) && SameShape(r, q)
    ensures SameShape(pr, q)
  {
  }

  // ----- one count per row

  /** repeat_interleave with a vector of counts; a single count is broadcast to all rows. */
  function RepeatCounted(s: seq<Cell>, times: seq<nat>): Outcome<seq<Cell>> {
    if |times| == |s| then Ok(RepeatEach(s, times))
    else if |times| == 1 then Ok(RepeatInterleave(s, times[0]))
    else Fail
  }

  predicate Countable(c: Dict, times: seq<nat>) { forall k :: k in c ==> RepeatCounted(c[k], times).Ok? }

  function CountedColumns(c: Dict, times: seq<nat>): Dict
    requires Countable(c, times)
  {
    map k | k in c :: RepeatCounted(c[k], times).value
  }

  function SampleLevelRepeat(d: Data, times: seq<nat>): Outcome<Data> {
    if !Countable(TensorColumns(d), times) || !Countable(d.objects, times) then Fail else
      var objects := CountedColumns(d.objects, times);
      if d.batch.None? then Ok(Data(None, objects, d.meta)) else
        var table := Table(Sum(times), CountedColumns(d.batch.value.columns, times));
        var r := Data(Some(table), objects, d.meta);
        if (forall k :: k in table.columns ==> |table.columns[k]| == table.size) && Consistent(r) then Ok(r) else Fail
  }

  lemma {:induction false} RepeatEachLength<T>(s: seq<T>, times: seq<nat>)
    requires |times| == |s|
    ensures |RepeatEach(s, times)| == Sum(times)
  {
    if s != [] {
      RepeatEachLength(s[..|s| - 1], times[..|s| - 1]);
    }
  }

  ghost function Counted(d: Data, times: seq<nat>): Data
    requires Aligned(d) && |times| == Len(d)
  {
    var batch := if d.batch.Some? then Some(Table(Sum(times), EachColumns(d.batch.value.columns, times))) else None;
    Data(batch, EachColumns(d.objects, times), d.meta)
  }

  ghost function EachColumns(c: Dict, times: seq<nat>): Dict
    requires AllOf(c, |times|)
  {
    map k | k in c :: RepeatEach(c[k], times)
  }

  /** With one count per row the repeat succeeds and copies whole rows, each its own number of times. */
  lemma SampleLevelRows(d: Data, times: seq<nat>)
    requires Aligned(d) && |times| == Len(d)
    ensures SampleLevelRepeat(d, times) == Ok(Counted(d, times))
    ensures Aligned(Counted(d, times)) && SameShape(d, Counted(d, times))
    ensures Rows(Counted(d, times)) == RepeatEach(Rows(d), times)
  {
    CountedSucceeds(d, times);
    var n := Len(d);
    var at := RepeatEach<nat>(Identity(n), times);
    RepeatEachGathers(Rows(d), times);
    RepeatEachLength(Identity(n), times);
    hide RowAt, RepeatEach, SampleLevelRepeat;
    forall s: seq<Cell> | |s| == n ensures RepeatEach(s, times) == Gather(s, at) { RepeatEachGathers(s, times); }
    PickedRows(d, Counted(d, times), at);
  }

  /** Any other number of counts than one, or one for each row, fails as soon as there is a column. */
  lemma CountsMustMatch(d: Data, times: seq<nat>)
    requires Aligned(d) && |times| != 1 && |times| != Len(d)
    ensures SampleLevelRepeat(d, times).Ok? <==> TensorColumns(d) == map[] && d.objects == map[]
  {
    hide RepeatEach;
    if TensorColumns(d) != map[] { var k :| k in TensorColumns(d); }
    if d.objects != map[] { var k :| k in d.objects; }
  }

  lemma CountedSucceeds(d: Data, times: seq<nat>)
    requires Aligned(d) && |times| == Len(d)
    ensures SampleLevelRepeat(d, times) == Ok(Counted(d, times))
  {
    hide RepeatEach;
    forall s: seq<Cell> | |s| == Len(d) ensures |RepeatEach(s, times)| == Sum(times) { RepeatEachLength(s, times); }
    assert CountedColumns(d.objects, times) == EachColumns(d.objects, times);
    assert CountedColumns(TensorColumns(d), times) == EachColumns(TensorColumns(d), times);
  }

  /** The same count for every row is the interleaved repeat. */
  lemma ConstantTimes(d: Data, t: nat)
    requires Aligned(d)
    ensures SampleLevelRepeat(d, seq(Len(d), _ => t)) == Ok(Repeat(d, t, true))
  {
    var n := Len(d);
    var times := seq(n, _ => t);
    SampleLevelRows(d, times);
    RepeatRows(d, t, true);
    assert times == seq(|Rows(d)|, _ => t);
    ConstantCounts(Rows(d), t);
    hide RowAt, Aligned, Len;
    RowsDetermine(Counted(d, times), Repeat(d, t, true));
  }

  lemma OneCount(s: seq<Cell>, t: nat)
    ensures RepeatCounted(s, [t]) == Ok(RepeatInterleave(s, t))
  {
    if |s| == 1 {
      ConstantCounts(s, t);
      assert seq(1, _ => t) == [t];
    }
  }

  lemma OneCountColumns(c: Dict, t: nat)
    ensures Countable(c, [t]) && CountedColumns(c, [t]) == RepeatColumns(c, t, true)
  {
    hide RepeatCounted;
    forall k | k in c { OneCount(c[k], t); }
  }

  /** A single count is broadcast to all rows.  An object-only batch is then repeated, but the size of a tensor batch
      is taken from the counts, so it works exactly when one row's copies are all of them or there is no column. */
  lemma BroadcastCount(d: Data, t: nat)
    requires Aligned(d)
    ensures d.batch.None? ==> SampleLevelRepeat(d, [t]) == Ok(Repeat(d, t, true))
    ensures d.batch.Some? ==>
              (SampleLevelRepeat(d, [t]).Ok? <==> Len(d) * t == t || (TensorColumns(d) == map[] && d.objects == map[]))
    ensures d.batch.Some? && Len(d) * t == t ==> SampleLevelRepeat(d, [t]) == Ok(Repeat(d, t, true))
  {
    OneCountColumns(TensorColumns(d), t);
    OneCountColumns(d.objects, t);
    hide CountedColumns, Countable;
    assert Sum([t]) == t by { assert [t][..0] == []; }
    forall k | k in TensorColumns(d) ensures |RepeatColumns(TensorColumns(d), t, true)[k]| == Len(d) * t {}
    forall k | k in d.objects ensures |RepeatColumns(d.objects, t, true)[k]| == Len(d) * t {}
    if TensorColumns(d) != map[] {
      var k :| k in TensorColumns(d);
      assert k in RepeatColumns(TensorColumns(d), t, true);
    }
    if d.objects != map[] {
      var k :| k in d.objects;
      assert k in RepeatColumns(d.objects, t, true);
    }
  }

  // ----- folding rows into rows of rows

  function StackAll(parts: seq<seq<Cell>>): (r: seq<Cell>)
    ensures |r| == |parts| && forall i :: 0 <= i < |parts| ==> r[i] == Stack(parts[i])
  {
    seq(|parts|, i requires 0 <= i < |parts| => Stack(parts[i]))
  }

  /** What flattening two dimensions makes of a row; a column of one dimension flattens to itself. */
  function PartsOf(c: Cell): seq<Cell> { if c.Stack? then c.parts else [c] }

  function PartsAll(s: seq<Cell>): (r: seq<seq<Cell>>)
    ensures |r| == |s| && forall i :: 0 <= i < |s| ==> r[i] == PartsOf(s[i])
  {
    seq(|s|, i requires 0 <= i < |s| => PartsOf(s[i]))
  }

  function FoldColumn(s: seq<Cell>, n: nat): seq<Cell>
    requires n > 0 && |s| % n == 0
  {
    StackAll(FoldRows(s, n))
  }

  function UnfoldColumn(s: seq<Cell>): seq<Cell> { Concat(PartsAll(s)) }

  function FoldColumns(c: Dict, n: nat, size: nat): Dict
    requires n > 0 && size % n == 0 && forall k :: k in c ==> |c[k]| == size
  {
    map k | k in c :: FoldColumn(c[k], n)
  }

  function UnfoldColumns(c: Dict): Dict { map k | k in c :: UnfoldColumn(c[k]) }

  lemma FoldIndex<T>(s: seq<T>, n: nat, g: nat, r: nat)
    requires n > 0 && |s| % n == 0 && g < n && r < |s| / n
    ensures 0 <= g * (|s| / n) + r < |s| && |FoldRows(s, n)[g]| == |s| / n
            && FoldRows(s, n)[g][r] == s[g * (|s| / n) + r]
  {
    FoldSize(|s|, n);
    PiecesIndex(s, |s| / n, n, g, r);
  }

  /** Folded row i of every column holds the same run of original rows. */
  lemma FoldedCell(s: seq<Cell>, n: nat, i: nat)
    requires n > 0 && |s| % n == 0 && i < n
    ensures 0 <= i * (|s| / n) <= (i + 1) * (|s| / n) <= |s|
    ensures |FoldColumn(s, n)| == n && FoldColumn(s, n)[i] == Stack(s[i * (|s| / n)..(i + 1) * (|s| / n)])
  {
    var c := |s| / n;
    FoldSize(|s|, n);
    MulLe(0, i, c);
    MulLe(i + 1, n, c);
    MulNext(i, c);
    assert |FoldRows(s, n)[i]| == c;
    forall r | 0 <= r < c ensures FoldRows(s, n)[i][r] == s[i * c + r] { FoldIndex(s, n, i, r); }
    assert FoldRows(s, n)[i] == s[i * c..(i + 1) * c];
  }

  lemma UnfoldFoldColumns(c: Dict, n: nat, size: nat)
    requires n > 0 && size % n == 0 && forall k :: k in c ==> |c[k]| == size
    ensures UnfoldColumns(FoldColumns(c, n, size)) == c
  {
    forall k | k in c ensures UnfoldColumn(FoldColumn(c[k], n)) == c[k] { UnfoldFoldColumn(c[k], n); }
  }

  lemma UnfoldFoldColumn(s: seq<Cell>, n: nat)
    requires n > 0 && |s| % n == 0
    ensures |FoldColumn(s, n)| == n && Wide(FoldColumn(s, n), |s| / n) && UnfoldColumn(FoldColumn(s, n)) == s
  {
    UnfoldFold(s, n);
    hide FoldRows;
    assert PartsAll(StackAll(FoldRows(s, n))) == FoldRows(s, n);
  }

  lemma FoldUnfoldColumn(s: seq<Cell>, w: nat)
    requires s != [] && Wide(s, w)
    ensures |UnfoldColumn(s)| == |s| * w && (|s| * w) % |s| == 0 && FoldColumn(UnfoldColumn(s), |s|) == s
  {
    ConcatLength(PartsAll(s), w);
    FoldUnfold(PartsAll(s), w);
    assert StackAll(PartsAll(s)) == s;
  }

  ghost predicate AllWide(c: Dict, size: nat, w: nat) { forall k :: k in c ==> |c[k]| == size && Wide(c[k], w) }

  /** A batch with two batch dimensions, size by w, in its tensors. */
  ghost predicate TwoDims(d: Data, w: nat) {
    d.batch.Some? && d.batch.value.columns != map[] && AllWide(d.batch.value.columns, d.batch.value.size, w)
  }

  /** The number of rows comes from the tensors; an object column of another size cannot be reshaped to it. */
  ghost function UnfoldSpec(d: Data, w: nat): Outcome<Data>
    requires TwoDims(d, w)
  {
    var rows := d.batch.value.size * w;
    MulLe(0, d.batch.value.size, w);
    if exists k :: k in d.objects && |UnfoldColumn(d.objects[k])| != rows then Fail
    else Ok(Data(Some(Table(rows, UnfoldColumns(d.batch.value.columns))), UnfoldColumns(d.objects), d.meta))
  }

  /** An object column of one dimension goes through unchanged exactly when the tensors have as many rows. */
  lemma {:induction false} OneDimension(s: seq<Cell>)
    requires forall i :: 0 <= i < |s| ==> s[i].Scalar?
    ensures UnfoldColumn(s) == s
  {
    if s != [] {
      var t := s[..|s| - 1];
      OneDimension(t);
      assert PartsAll(s)[..|s| - 1] == PartsAll(t);
      assert s == t + [s[|s| - 1]];
    }
  }

  method UnfoldBatchDim(d: Data, w: nat) returns (r: Outcome<Data>)
    requires TwoDims(d, w)
    ensures r == UnfoldSpec(d, w)
  {
    hide UnfoldColumn, Wide;
    MulLe(0, d.batch.value.size, w);
    var rows := d.batch.value.size * w;
    var rest, objects: Dict := d.objects.Keys, map[];
    while rest != {}
      invariant rest <= d.objects.Keys && objects.Keys == d.objects.Keys - rest
      invariant forall k :: k in objects ==> objects[k] == UnfoldColumn(d.objects[k]) && |objects[k]| == rows
      decreases |rest|
    {
      var k :| k in rest;
      var val := UnfoldColumn(d.objects[k]);
      if |val| != rows {
        return Fail;
      }
      objects := objects[k := val];
      rest := rest - {k};
    }
    assert objects.Keys == d.objects.Keys;
    assert objects == UnfoldColumns(d.objects);
    r := Ok(Data(Some(Table(rows, UnfoldColumns(d.batch.value.columns))), objects, d.meta));
  }

  ghost function FoldSpec(d: Data, n: nat): Data
    requires Aligned(d) && d.batch.Some? && n > 0 && Len(d) % n == 0
  {
    Data(Some(Table(n, FoldColumns(d.batch.value.columns, n, Len(d)))), FoldColumns(d.objects, n, Len(d)), d.meta)
  }

  /** Unfolding a folded batch gives the batch back. */
  lemma UnfoldUndoesFold(d: Data, n: nat)
    requires Aligned(d) && d.batch.Some? && d.batch.value.columns != map[] && n > 0 && Len(d) % n == 0
    ensures TwoDims(FoldSpec(d, n), Len(d) / n) && UnfoldSpec(FoldSpec(d, n), Len(d) / n) == Ok(d)
  {
    hide FoldColumn, UnfoldColumn, Wide;
    var f, w := FoldSpec(d, n), Len(d) / n;
    FoldSize(Len(d), n);
    assert f.batch.value.columns.Keys == d.batch.value.columns.Keys;
    forall k | k in d.batch.value.columns { UnfoldFoldColumn(d.batch.value.columns[k], n); }
    forall k | k in d.objects { UnfoldFoldColumn(d.objects[k], n); }
    UnfoldFoldColumns(d.batch.value.columns, n, Len(d));
    UnfoldFoldColumns(d.objects, n, Len(d));
  }

  lemma FoldUnfoldColumns(c: Dict, size: nat, w: nat)
    requires size > 0 && AllWide(c, size, w)
    ensures 0 <= size * w && (size * w) % size == 0
    ensures AllOf(UnfoldColumns(c), size * w) && FoldColumns(UnfoldColumns(c), size, size * w) == c
  {
    hide FoldColumn, UnfoldColumn, Wide;
    MulLe(0, size, w);
    assert size * w == w * size;
    DivUnique(w * size, size, w);
    forall k | k in c ensures |UnfoldColumn(c[k])| == size * w && FoldColumn(UnfoldColumn(c[k]), size) == c[k] {
      FoldUnfoldColumn(c[k], w);
    }
  }

  /** Folding an unfolded batch gives the batch back, when the object columns have the tensors' two dimensions. */
  lemma FoldUndoesUnfold(d: Data, w: nat)
    requires TwoDims(d, w) && d.batch.value.size > 0 && AllWide(d.objects, d.batch.value.size, w)
    ensures UnfoldSpec(d, w).Ok?
    ensures var u := UnfoldSpec(d, w).value;
            Aligned(u) && Len(u) % d.batch.value.size == 0
            && FoldSpec(u, d.batch.value.size) == d
  {
    hide FoldColumn, UnfoldColumn, Wide;
    FoldUnfoldColumns(d.batch.value.columns, d.batch.value.size, w);
    FoldUnfoldColumns(d.objects, d.batch.value.size, w);
  }

  /** The object dictionary of a batch, which folding rewrites in place. */
  class ObjectColumns {
    var columns: Dict
  }

  /** The dictionary is rewritten key by key and then shared with the result. */
  method FoldBatchDim(batch: Table, objects: ObjectColumns, n: nat) returns (r: Outcome<Table>)
    requires forall k :: k in batch.columns ==> |batch.columns[k]| == batch.size
    requires forall k :: k in objects.columns ==> |objects.columns[k]| == batch.size
    modifies objects
    ensures r.Ok? <==> n > 0 && batch.size % n == 0
    ensures r.Ok? ==> r.value == Table(n, FoldColumns(batch.columns, n, batch.size))
    ensures r.Ok? ==> objects.columns == FoldColumns(old(objects.columns), n, batch.size)
    ensures r.Fail? ==> objects.columns == old(objects.columns)
  {
    if n == 0 || batch.size % n != 0 {
      return Fail;
    }
    hide FoldColumn;
    ghost var before := objects.columns;
    var rest := objects.columns.Keys;
    while rest != {}
      invariant rest <= before.Keys == objects.columns.Keys
      invariant forall k :: k in before ==>
                objects.columns[k] == if k in rest then before[k] else FoldColumn(before[k], n)
      decreases |rest|
    {
      var k :| k in rest;
      objects.columns := objects.columns[k := FoldColumn(objects.columns[k], n)];
      rest := rest - {k};
    }
    r := Ok(Table(n, FoldColumns(batch.columns, n, batch.size)));
  }

  /** The batch that was folded keeps its tensors but not its object columns: it stays consistent only if it has no
      object column or folding changed nothing. */
  lemma FoldedInput(batch: Table, objects: Dict, n: nat, meta: map<string, int>)
    requires n > 0 && batch.size % n == 0 && forall k :: k in objects ==> |objects[k]| == batch.size
    ensures Consistent(Data(Some(batch), FoldColumns(objects, n, batch.size), meta)) <==>
            objects == map[] || n == batch.size
  {
    var folded := FoldColumns(objects, n, batch.size);
    forall k | k in objects ensures |folded[k]| == n { FoldedCell(objects[k], n, 0); }
    if objects != map[] && n != batch.size {
      var k :| k in objects;
      assert |folded[k]| != batch.size;
    }
  }

  /** Four rows with one object column, folded to two. */
  lemma FoldedInputBreaks()
    ensures var objects: Dict := map["x" := [Scalar(0), Scalar(1), Scalar(2), Scalar(3)]];
            !Consistent(Data(Some(Table(4, map[])), FoldColumns(objects, 2, 4), map[]))
  {
    var objects: Dict := map["x" := [Scalar(0), Scalar(1), Scalar(2), Scalar(3)]];
    assert "x" in objects;
    FoldedInput(Table(4, map[]), objects, 2, map[]);
  }

  // ----- column chunks

  /** The second dimension is w for every row. */
  predicate Wide(s: seq<Cell>, w: nat) { forall i :: 0 <= i < |s| ==> s[i].Stack? && |s[i].parts| == w }

  /** reshape to n times the rows and 1/n of the columns, in row-major order. */
  function ReshapeColumn(s: seq<Cell>, n: nat): seq<Cell>
    requires n > 0 && s != [] ==> s[0].Stack? && Wide(s, |s[0].parts|) && |s[0].parts| % n == 0
  {
    if s == [] || n == 0 then [] else
      Reshapable(s, n);
      FoldColumn(UnfoldColumn(s), |s| * n)
  }

  lemma Reshapable(s: seq<Cell>, n: nat)
    requires n > 0 && s != [] && s[0].Stack? && Wide(s, |s[0].parts|) && |s[0].parts| % n == 0
    ensures var w := |s[0].parts|; 0 < |s| * n && |UnfoldColumn(s)| == (|s| * n) * (w / n)
    ensures |UnfoldColumn(s)| % (|s| * n) == 0 && |UnfoldColumn(s)| / (|s| * n) == |s[0].parts| / n
  {
    ConcatLength(PartsAll(s), |s[0].parts|);
    ReshapeSizes(|s|, n, |s[0].parts|);
  }

  lemma ReshapeSizes(m: nat, n: nat, w: nat)
    requires m > 0 && n > 0 && w % n == 0
    ensures 0 < m * n && 0 <= w / n && m * w == (m * n) * (w / n)
    ensures (m * w) % (m * n) == 0 && (m * w) / (m * n) == w / n
  {
    MulLe(1, m, n);
    FoldSize(w, n);
    var v := w / n;
    Regroup(m, n, v);
    assert m * (n * v) == (m * n) * v == v * (m * n);
    DivUnique(v * (m * n), m * n, v);
  }

  /** Row i * n + j of a column-split key is column block j of row i. */
  lemma ColumnBlock(s: seq<Cell>, n: nat, i: nat, j: nat)
    requires n > 0 && i < |s| && j < n && s[0].Stack? && Wide(s, |s[0].parts|) && |s[0].parts| % n == 0
    ensures var v := |s[0].parts| / n;
            && |ReshapeColumn(s, n)| == |s| * n && 0 <= i * n + j < |s| * n
            && 0 <= j * v <= (j + 1) * v <= |s[i].parts|
            && ReshapeColumn(s, n)[i * n + j] == Stack(s[i].parts[j * v..(j + 1) * v])
  {
    var w, m := |s[0].parts|, |s|;
    var v, flat, g := w / n, UnfoldColumn(s), i * n + j;
    Reshapable(s, n);
    FoldSize(w, n);
    BlockBounds(m, n, v, i, j);
    FoldedCell(flat, m * n, g);
    assert s[i].Stack? && |s[i].parts| == w;
    FlatBlock(s, w, v, i, j, g);
  }

  lemma FlatBlock(s: seq<Cell>, w: nat, v: nat, i: nat, j: nat, g: nat)
    requires i < |s| && Wide(s, w) && 0 <= j * v && j * v + v <= w && 0 <= g * v && g * v == i * w + j * v
    ensures g * v + v <= |UnfoldColumn(s)| && UnfoldColumn(s)[g * v..g * v + v] == s[i].parts[j * v..j * v + v]
  {
    var flat, parts := UnfoldColumn(s), PartsAll(s);
    var lo, at := g * v, j * v;
    ConcatLength(parts, w);
    MulLe(i + 1, |s|, w);
    MulNext(i, w);
    var l, b := flat[lo..lo + v], s[i].parts[at..at + v];
    forall r | 0 <= r < v ensures l[r] == b[r] { ConcatIndex(parts, w, i, at + r); }
    assert l == b;
  }

  lemma BlockBounds(m: nat, n: nat, v: nat, i: nat, j: nat)
    requires i < m && j < n
    ensures 0 <= i * n + j < m * n
    ensures (i * n + j) * v == i * (n * v) + j * v && (i * n + j + 1) * v == (i * n + j) * v + v
    ensures 0 <= j * v <= (j + 1) * v <= n * v && (j + 1) * v == j * v + v
  {
    MulLe(0, i, n);
    MulLe(i + 1, m, n);
    MulNext(i, n);
    MulLe(0, j, v);
    MulLe(j + 1, n, v);
    MulNext(j, v);
    MulNext(i * n + j, v);
    assert (i * n + j) * v == i * (n * v) + j * v;
  }

  predicate Splittable(s: seq<Cell>, n: nat) {
    n > 0 && (s != [] ==> s[0].Stack? && Wide(s, |s[0].parts|) && |s[0].parts| % n == 0)
  }

  predicate AllSplittable(c: Dict, n: nat, keys: set<string>) {
    forall k :: k in c && k in keys ==> Splittable(c[k], n)
  }

  function UnfoldDict(c: Dict, n: nat, keys: set<string>): (r: Dict)
    requires AllSplittable(c, n, keys)
    ensures r.Keys == c.Keys
  {
    map k | k in c :: if k in keys then ReshapeColumn(c[k], n) else RepeatInterleave(c[k], n)
  }

  /** Without split keys every tensor is repeated, but the object columns are still looked up in the missing list. */
  function UnfoldColumnChunks(d: Data, n: nat, splitKeys: Option<set<string>>): Outcome<Data> {
    var keys := if splitKeys.Some? then splitKeys.value else {};
    if (splitKeys.None? && d.objects != map[])
       || !AllSplittable(TensorColumns(d), n, keys) || !AllSplittable(d.objects, n, keys)
    then Fail
    else
      var batch := if d.batch.Some?
                   then
                     MulLe(0, d.batch.value.size, n);
                     Some(Table(d.batch.value.size * n, UnfoldDict(d.batch.value.columns, n, keys)))
                   else None;
      Ok(Data(batch, UnfoldDict(d.objects, n, keys), d.meta))
  }

  /** A row's j-th part: column block j of the split keys beside the whole of the other keys. */
  ghost function BlockOf(c: Cell, n: nat, j: nat): Cell
    requires n > 0
  {
    var w := |PartsOf(c)| / n;
    Stack(Between(PartsOf(c), if 0 <= j * w then j * w else 0, if 0 <= (j + 1) * w then (j + 1) * w else 0))
  }

  ghost function BlocksOf(cells: map<string, Cell>, n: nat, keys: set<string>, j: nat): map<string, Cell>
    requires n > 0
  {
    map k | k in cells :: if k in keys then BlockOf(cells[k], n, j) else cells[k]
  }

  ghost function RowBlock(r: Row, n: nat, keys: set<string>, j: nat): Row
    requires n > 0
  {
    Row(BlocksOf(r.tensors, n, keys, j), BlocksOf(r.objects, n, keys, j))
  }

  lemma UnfoldedLength(s: seq<Cell>, n: nat)
    requires Splittable(s, n)
    ensures |ReshapeColumn(s, n)| == |s| * n
  {
    if s != [] { ColumnBlock(s, n, 0, 0); }
  }

  lemma SplitCell(s: seq<Cell>, n: nat, i: nat, j: nat)
    requires Splittable(s, n) && i < |s| && j < n
    ensures |ReshapeColumn(s, n)| == |s| * n && 0 <= i * n + j < |s| * n
    ensures ReshapeColumn(s, n)[i * n + j] == BlockOf(s[i], n, j)
  {
    ColumnBlock(s, n, i, j);
    hide ReshapeColumn;
    assert |s[i].parts| == |s[0].parts|;
  }

  lemma RepeatCell(s: seq<Cell>, n: nat, i: nat, j: nat)
    requires i < |s| && j < n
    ensures 0 <= i * n + j < |s| * n && RepeatInterleave(s, n)[i * n + j] == s[i]
  {
    BlockBounds(|s|, n, 0, i, j);
    DivUnique(i * n + j, n, i);
  }

  lemma UnfoldedCell(c: Dict, size: nat, n: nat, keys: set<string>, k: string, i: nat, j: nat)
    requires AllOf(c, size) && n > 0 && AllSplittable(c, n, keys) && k in c && i < size && j < n
    ensures |UnfoldDict(c, n, keys)[k]| == size * n && 0 <= i * n + j < size * n
    ensures UnfoldDict(c, n, keys)[k][i * n + j] == if k in keys then BlockOf(c[k][i], n, j) else c[k][i]
  {
    hide ReshapeColumn, RepeatInterleave, BlockOf, Splittable;
    if k in keys {
      assert Splittable(c[k], n);
      SplitCell(c[k], n, i, j);
    } else {
      RepeatCell(c[k], n, i, j);
    }
  }

  /** Row i * n + j of the result is part j of row i, tensors and objects alike. */
  lemma UnfoldedRows(d: Data, n: nat, splitKeys: Option<set<string>>, i: nat, j: nat)
    requires Aligned(d) && n > 0 && i < Len(d) && j < n && UnfoldColumnChunks(d, n, splitKeys).Ok?
    ensures var r := UnfoldColumnChunks(d, n, splitKeys).value;
            Aligned(r) && Len(r) == Len(d) * n && 0 <= i * n + j < Len(r)
            && Rows(r)[i * n + j] == RowBlock(Rows(d)[i], n, if splitKeys.Some? then splitKeys.value else {}, j)
  {
    var keys := if splitKeys.Some? then splitKeys.value else {};
    var r := UnfoldColumnChunks(d, n, splitKeys).value;
    var x := i * n + j;
    BlockBounds(Len(d), n, 0, i, j);
    UnfoldedAligned(d, n, splitKeys);
    UnfoldedCells(TensorColumns(d), Len(d), n, keys, i, j);
    UnfoldedCells(d.objects, Len(d), n, keys, i, j);
    RowCells(r, x);
    RowCells(d, i);
    hide RowAt, CellsAt, UnfoldDict, BlocksOf, AllSplittable, Aligned;
    NoBlocks(n, keys, j);
  }

  lemma RowCells(d: Data, i: nat)
    requires Aligned(d) && i < Len(d)
    ensures RowAt(d, i) == Row(CellsAt(TensorColumns(d), Len(d), i), CellsAt(d.objects, Len(d), i))
  {
    assert RowAt(d, i).tensors == CellsAt(TensorColumns(d), Len(d), i);
    assert RowAt(d, i).objects == CellsAt(d.objects, Len(d), i);
  }

  lemma NoBlocks(n: nat, keys: set<string>, j: nat)
    requires n > 0
    ensures BlocksOf(map[], n, keys, j) == map[]
  {
  }

  ghost function CellsAt(c: Dict, size: nat, i: nat): map<string, Cell>
    requires AllOf(c, size) && i < size
  {
    map k | k in c :: c[k][i]
  }

  lemma UnfoldedCells(c: Dict, size: nat, n: nat, keys: set<string>, i: nat, j: nat)
    requires AllOf(c, size) && n > 0 && AllSplittable(c, n, keys) && i < size && j < n
    ensures AllOf(UnfoldDict(c, n, keys), size * n) && 0 <= i * n + j < size * n
    ensures CellsAt(UnfoldDict(c, n, keys), size * n, i * n + j) == BlocksOf(CellsAt(c, size, i), n, keys, j)
  {
    hide BlockOf, UnfoldDict, AllSplittable;
    BlockBounds(size, n, 0, i, j);
    UnfoldedLengths(c, size, n, keys);
    var x, u := i * n + j, UnfoldDict(c, n, keys);
    forall k | k in c ensures u[k][x] == if k in keys then BlockOf(c[k][i], n, j) else c[k][i] {
      UnfoldedCell(c, size, n, keys, k, i, j);
    }
  }

  lemma ColumnLength(c: Dict, size: nat, n: nat, keys: set<string>, k: string)
    requires AllOf(c, size) && AllSplittable(c, n, keys) && k in c
    ensures |UnfoldDict(c, n, keys)[k]| == size * n
  {
    hide ReshapeColumn;
    if k in keys {
      assert Splittable(c[k], n);
      UnfoldedLength(c[k], n);
    }
  }

  lemma UnfoldedLengths(c: Dict, size: nat, n: nat, keys: set<string>)
    requires AllOf(c, size) && AllSplittable(c, n, keys)
    ensures 0 <= size * n && AllOf(UnfoldDict(c, n, keys), size * n)
  {
    hide UnfoldDict, AllSplittable;
    MulLe(0, size, n);
    forall k | k in c ensures |UnfoldDict(c, n, keys)[k]| == size * n { ColumnLength(c, size, n, keys, k); }
  }

  lemma SameEmptiness(c: Dict, r: Dict)
    requires c.Keys == r.Keys
    ensures c == map[] <==> r == map[]
  {
    assert c == map[] <==> c.Keys == {};
    assert r == map[] <==> r.Keys == {};
  }

  lemma UnfoldedAligned(d: Data, n: nat, splitKeys: Option<set<string>>)
    requires Aligned(d) && n > 0 && UnfoldColumnChunks(d, n, splitKeys).Ok?
    ensures var r := UnfoldColumnChunks(d, n, splitKeys).value;
            Aligned(r) && Len(r) == Len(d) * n && SameShape(d, r)
  {
    hide UnfoldDict, AllSplittable;
    var keys := if splitKeys.Some? then splitKeys.value else {};
    var r := UnfoldColumnChunks(d, n, splitKeys).value;
    UnfoldedLengths(TensorColumns(d), Len(d), n, keys);
    UnfoldedLengths(d.objects, Len(d), n, keys);
    SameEmptiness(d.objects, r.objects);
    AlignedBy(r, Len(d) * n);
  }

  /** With split keys it works exactly if every column of such a key is empty or has stacks of one width that the
      number of parts divides. */
  lemma SplitKeysFit(d: Data, n: nat, keys: set<string>)
    requires n > 0
    ensures UnfoldColumnChunks(d, n, Some(keys)).Ok? <==>
            && (forall k :: k in TensorColumns(d) && k in keys ==> EvenStacks(TensorColumns(d)[k], n))
            && (forall k :: k in d.objects && k in keys ==> EvenStacks(d.objects[k], n))
  {
    AllEven(TensorColumns(d), n, keys);
    AllEven(d.objects, n, keys);
    hide UnfoldDict, AllSplittable, EvenStacks;
  }

  lemma AllEven(c: Dict, n: nat, keys: set<string>)
    requires n > 0
    ensures AllSplittable(c, n, keys) <==> forall k :: k in c && k in keys ==> EvenStacks(c[k], n)
  {
    hide Splittable, EvenStacks;
    forall k | k in c ensures Splittable(c[k], n) <==> EvenStacks(c[k], n) { SplittableIsEven(c[k], n); }
  }

  lemma SplittableIsEven(s: seq<Cell>, n: nat)
    requires n > 0
    ensures Splittable(s, n) <==> EvenStacks(s, n)
  {
    if s == [] {
      assert 0 % n == 0;
    } else if EvenStacks(s, n) {
      var w: nat :| w % n == 0 && forall c :: c in s ==> c.Stack? && |c.parts| == w;
      assert s[0] in s;
    } else if Splittable(s, n) {
      var w := |s[0].parts|;
      forall c | c in s ensures c.Stack? && |c.parts| == w {}
    }
  }

  ghost predicate EvenStacks(s: seq<Cell>, n: nat)
    requires n > 0
  {
    exists w: nat :: w % n == 0 && forall c :: c in s ==> c.Stack? && |c.parts| == w
  }

  /** Two rows of one tensor column and the counts [2]: four rows do not fit a batch of two. */
  lemma BroadcastFails(c: Cell)
    ensures var d := Data(Some(Table(2, map["x" := [c, c]])), map[], map[]);
            Aligned(d) && SampleLevelRepeat(d, [2]) == Fail
  {
    var d := Data(Some(Table(2, map["x" := [c, c]])), map[], map[]);
    assert "x" in d.batch.value.columns;
    BroadcastCount(d, 2);
  }

  /** One object column and no split keys. */
  lemma NoSplitKeysFails(c: Cell, n: nat)
    ensures UnfoldColumnChunks(Data(None, map["x" := [c]], map[]), n, None) == Fail
  {
    assert "x" in map["x" := [c]];
  }

  /** Without split keys the operation works exactly on batches without object columns. */
  lemma NoSplitKeys(d: Data, n: nat)
    ensures UnfoldColumnChunks(d, n, None).Ok? <==> d.objects == map[]
  {
  }
}
