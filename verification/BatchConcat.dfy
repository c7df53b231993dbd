/** Joining batches: rows, the keys they need, and the meta information they must agree on. */
module BatchConcat {
  import opened Arithmetic
  import opened Collections
  import opened Tensors
  import opened Columns
  import opened DataProto

  const METRICS := "metrics"

  type Meta = map<string, int>

  function Column(c: Dict, key: string): seq<Cell> { if key in c then c[key] else [] }

  function ColumnEach(dicts: seq<Dict>, key: string): (r: seq<seq<Cell>>)
    ensures |r| == |dicts| && forall i :: 0 <= i < |dicts| ==> r[i] == Column(dicts[i], key)
  {
    seq(|dicts|, i requires 0 <= i < |dicts| => Column(dicts[i], key))
  }

  /** A column of the result: that column of every batch that has it, in order. */
  function Stacked(dicts: seq<Dict>, key: string): seq<Cell> { Concat(ColumnEach(dicts, key)) }

  lemma StackedNext(dicts: seq<Dict>, key: string)
    requires dicts != []
    ensures Stacked(dicts, key) == Stacked(dicts[..|dicts| - 1], key) + Column(dicts[|dicts| - 1], key)
  {
    var n := |dicts| - 1;
    assert ColumnEach(dicts, key)[..n] == ColumnEach(dicts[..n], key);
  }

  // ----- object columns

  function StackedColumns(dicts: seq<Dict>): Dict
    requires dicts != []
  {
    map key | key in dicts[0] :: Stacked(dicts, key)
  }

  predicate KeysKnown(dicts: seq<Dict>) { forall i :: 0 <= i < |dicts| ==> dicts[i].Keys <= dicts[0].Keys }

  /** The lists hold, for each key, the columns of the first i batches that have it. */
  ghost predicate Listed(lists: map<string, seq<seq<Cell>>>, dicts: seq<Dict>, i: nat)
    requires i <= |dicts| && dicts != []
  {
    lists.Keys == dicts[0].Keys && forall key :: key in lists ==> Concat(lists[key]) == Stacked(dicts[..i], key)
  }

  method AppendDict(lists: map<string, seq<seq<Cell>>>, item: Dict) returns (r: Outcome<map<string, seq<seq<Cell>>>>)
    ensures r.Ok? <==> item.Keys <= lists.Keys
    ensures r.Ok? ==> r.value.Keys == lists.Keys
                      && forall key :: key in lists ==>
                                         r.value[key] == if key in item then lists[key] + [item[key]] else lists[key]
  {
    var output := lists;
    var rest := item.Keys;
    while rest != {}
      invariant rest <= item.Keys && output.Keys == lists.Keys && item.Keys - rest <= lists.Keys
      invariant forall key :: key in lists ==>
                                output[key]
                                == if key in item && key !in rest then lists[key] + [item[key]] else lists[key]
      decreases |rest|
    {
      var key :| key in rest;
      if key !in output {
        return Fail;
      }
      output := output[key := output[key] + [item[key]]];
      rest := rest - {key};
    }
    assert item.Keys - rest == item.Keys;
    r := Ok(output);
  }

  lemma ListedNext(lists: map<string, seq<seq<Cell>>>, next: map<string, seq<seq<Cell>>>, dicts: seq<Dict>, i: nat)
    requires i < |dicts| && Listed(lists, dicts, i) && next.Keys == lists.Keys
    requires forall key :: key in lists ==>
                             next[key] == if key in dicts[i] then lists[key] + [dicts[i][key]] else lists[key]
    ensures Listed(next, dicts, i + 1)
  {
    forall key | key in next ensures Concat(next[key]) == Stacked(dicts[..i + 1], key) {
      StackedNext(dicts[..i + 1], key);
      assert dicts[..i + 1][..i] == dicts[..i];
      if key in dicts[i] { assert next[key][..|lists[key]|] == lists[key]; }
    }
  }

  method ConcatObjects(dicts: seq<Dict>) returns (r: Outcome<Dict>)
    requires dicts != []
    ensures r == if KeysKnown(dicts) then Ok(StackedColumns(dicts)) else Fail
  {
    hide Stacked, Listed;
    var lists := map key | key in dicts[0] :: [];
    assert Listed(lists, dicts, 0) by { NothingListed(lists, dicts); }
    for i := 0 to |dicts|
      invariant lists.Keys == dicts[0].Keys && Listed(lists, dicts, i)
      invariant forall j :: 0 <= j < i ==> dicts[j].Keys <= dicts[0].Keys
    {
      var next := AppendDict(lists, dicts[i]);
      if next.Fail? {
        return Fail;
      }
      ListedNext(lists, next.value, dicts, i);
      lists := next.value;
    }
    AllListed(lists, dicts);
    r := Ok(Joined(lists));
  }

  function Joined(lists: map<string, seq<seq<Cell>>>): Dict { map key | key in lists :: Concat(lists[key]) }

  lemma NothingListed(lists: map<string, seq<seq<Cell>>>, dicts: seq<Dict>)
    requires dicts != [] && lists.Keys == dicts[0].Keys && forall key :: key in lists ==> lists[key] == []
    ensures Listed(lists, dicts, 0)
  {
    assert dicts[..0] == [];
  }

  lemma AllListed(lists: map<string, seq<seq<Cell>>>, dicts: seq<Dict>)
    requires dicts != [] && Listed(lists, dicts, |dicts|)
    ensures Joined(lists) == StackedColumns(dicts)
  {
    assert dicts[..|dicts|] == dicts;
  }

  // ----- meta information

  /** Every key but the metrics, with the value of the first batch that has it. */
  function MergedMeta(metas: seq<Meta>): Meta {
    if metas == [] then map[] else
      Extended(MergedMeta(metas[..|metas| - 1]), metas[|metas| - 1], {})
  }

  /** The new keys of m, except the metrics and those still to come. */
  function Extended(merged: Meta, m: Meta, rest: set<string>): Meta {
    merged + map k | k in m && k !in rest && k !in merged && k != METRICS :: m[k]
  }

  lemma ExtendedNext(merged: Meta, m: Meta, rest: set<string>, k: string)
    requires k in rest && k in m
    ensures var out := Extended(merged, m, rest);
            && (k in out <==> k in merged)
            && Extended(merged, m, rest - {k}) == if k == METRICS || k in out then out else out[k := m[k]]
  {
  }

  ghost predicate MetaFits(m: Meta, merged: Meta) {
    forall k :: k in m && k != METRICS && k in merged ==> merged[k] == m[k]
  }

  /** No two batches disagree on a key. */
  ghost predicate MetasAgree(metas: seq<Meta>) {
    forall i, j, k :: 0 <= i < |metas| && 0 <= j < |metas| && k in metas[i] && k in metas[j] && k != METRICS ==>
                        metas[i][k] == metas[j][k]
  }

  lemma {:induction false} MergedFromSome(metas: seq<Meta>, k: string)
    ensures k in MergedMeta(metas) <==> k != METRICS && exists i :: 0 <= i < |metas| && k in metas[i]
    ensures k in MergedMeta(metas) ==>
            exists i :: 0 <= i < |metas| && k in metas[i] && MergedMeta(metas)[k] == metas[i][k]
  {
    if metas != [] {
      MergedFromSome(metas[..|metas| - 1], k);
      if k in MergedMeta(metas[..|metas| - 1]) {
        var i :| 0 <= i < |metas| - 1 && k in metas[i] && MergedMeta(metas[..|metas| - 1])[k] == metas[i][k];
        assert k in metas[i] && MergedMeta(metas)[k] == metas[i][k];
      }
    }
  }

  /** One more batch agrees with those before it exactly when it fits what they merged to. */
  lemma AgreeNext(metas: seq<Meta>)
    requires metas != []
    ensures MetasAgree(metas) <==>
            MetasAgree(metas[..|metas| - 1]) && MetaFits(metas[|metas| - 1], MergedMeta(metas[..|metas| - 1]))
  {
    var n := |metas| - 1;
    var m := MergedMeta(metas[..n]);
    forall k ensures k in m <==> k != METRICS && exists i :: 0 <= i < n && k in metas[..n][i] {
      MergedFromSome(metas[..n], k);
    }
    if MetasAgree(metas) {
      forall k | k in metas[n] && k != METRICS && k in m ensures m[k] == metas[n][k] {
        MergedFromSome(metas[..n], k);
        var i :| 0 <= i < n && k in metas[..n][i] && m[k] == metas[..n][i][k];
      }
    }
    if MetasAgree(metas[..n]) && MetaFits(metas[n], m) {
      forall i, k | 0 <= i < n && k in metas[i] && k in metas[n] && k != METRICS ensures metas[i][k] == metas[n][k] {
        assert metas[..n][i] == metas[i];
        MergedFromSome(metas[..n], k);
        var j :| 0 <= j < n && k in metas[..n][j] && m[k] == metas[..n][j][k];
      }
      forall i, j, k | 0 <= i < |metas| && 0 <= j < |metas| && k in metas[i] && k in metas[j] && k != METRICS
        ensures metas[i][k] == metas[j][k]
      {
        if i < n && j < n { assert metas[..n][i][k] == metas[..n][j][k]; }
      }
    }
  }

  method MergeOne(merged: Meta, m: Meta) returns (r: Outcome<Meta>)
    ensures r == if MetaFits(m, merged) then Ok(Extended(merged, m, {})) else Fail
  {
    hide Extended;
    var out := merged;
    var rest := m.Keys;
    NothingNew(merged, m);
    while rest != {}
      invariant rest <= m.Keys && out == Extended(merged, m, rest)
      invariant forall k :: k in m && k !in rest && k != METRICS && k in merged ==> merged[k] == m[k]
      decreases |rest|
    {
      var k :| k in rest;
      ExtendedNext(merged, m, rest, k);
      KeptValue(merged, m, rest, k);
      if k != METRICS {
        if k in out {
          if out[k] != m[k] {
            return Fail;
          }
        } else {
          out := out[k := m[k]];
        }
      }
      rest := rest - {k};
    }
    r := Ok(out);
  }

  lemma NothingNew(merged: Meta, m: Meta)
    ensures Extended(merged, m, m.Keys) == merged
  {
  }

  lemma KeptValue(merged: Meta, m: Meta, rest: set<string>, k: string)
    ensures k in merged ==> k in Extended(merged, m, rest) && Extended(merged, m, rest)[k] == merged[k]
  {
  }

  method MergeMetas(metas: seq<Meta>) returns (r: Outcome<Meta>)
    ensures r == if MetasAgree(metas) then Ok(MergedMeta(metas)) else Fail
  {
    var merged: Meta := map[];
    for i := 0 to |metas|
      invariant MetasAgree(metas[..i]) && merged == MergedMeta(metas[..i])
    {
      assert metas[..i + 1][..i] == metas[..i];
      AgreeNext(metas[..i + 1]);
      var next := MergeOne(merged, metas[i]);
      if next.Fail? {
        return Fail;
      }
      merged := next.value;
    }
    assert metas[..|metas|] == metas;
    r := Ok(merged);
  }

  // ----- whole batches

  function Objects(data: seq<Data>): (r: seq<Dict>)
    ensures |r| == |data| && forall i :: 0 <= i < |data| ==> r[i] == data[i].objects
  {
    seq(|data|, i requires 0 <= i < |data| => data[i].objects)
  }

  function TensorsEach(data: seq<Data>): (r: seq<Dict>)
    ensures |r| == |data| && forall i :: 0 <= i < |data| ==> r[i] == TensorColumns(data[i])
  {
    seq(|data|, i requires 0 <= i < |data| => TensorColumns(data[i]))
  }

  function Metas(data: seq<Data>): (r: seq<Meta>)
    ensures |r| == |data| && forall i :: 0 <= i < |data| ==> r[i] == data[i].meta
  {
    seq(|data|, i requires 0 <= i < |data| => data[i].meta)
  }

  function TotalSize(data: seq<Data>): nat {
    if data == [] then 0 else
      var last := data[|data| - 1].batch;
      TotalSize(data[..|data| - 1]) + if last.Some? then last.value.size else 0
  }

  /** torch.cat over tensor dictionaries wants them all, with the same keys. */
  predicate TensorsAgree(data: seq<Data>)
    requires data != []
  {
    data[0].batch.Some? ==>
      forall i :: 0 <= i < |data| ==> data[i].batch.Some? && TensorColumns(data[i]).Keys == TensorColumns(data[0]).Keys
  }

  function MergedBatch(data: seq<Data>): Option<Table>
    requires data != []
  {
    if data[0].batch.Some? then
      Some(Table(TotalSize(data), StackedColumns(TensorsEach(data))))
    else None
  }

  function Merged(data: seq<Data>, meta: Meta): Data
    requires data != []
  {
    Data(MergedBatch(data), StackedColumns(Objects(data)), meta)
  }

  ghost predicate Joinable(data: seq<Data>) {
    && data != [] && TensorsAgree(data) && KeysKnown(Objects(data)) && MetasAgree(Metas(data))
    && Consistent(Merged(data, map[]))
  }

  ghost function ConcatSpec(data: seq<Data>): Outcome<Data> {
    if Joinable(data) then Ok(Merged(data, MergedMeta(Metas(data)))) else Fail
  }

  method ConcatData(data: seq<Data>) returns (r: Outcome<Data>)
    ensures r == ConcatSpec(data)
  {
    hide Stacked, StackedColumns, MergedMeta, TotalSize;
    if data == [] || !TensorsAgree(data) {
      return Fail;
    }
    var objects := ConcatObjects(Objects(data));
    var meta := MergeMetas(Metas(data));
    if objects.Fail? || meta.Fail? {
      return Fail;
    }
    var joined := Data(MergedBatch(data), objects.value, meta.value);
    r := if Consistent(joined) then Ok(joined) else Fail;
  }

  // ----- the rows of a join

  ghost predicate AllAligned(data: seq<Data>) { forall i :: 0 <= i < |data| ==> Aligned(data[i]) }

  ghost function RowsEach(data: seq<Data>): (r: seq<seq<Row>>)
    requires AllAligned(data)
    ensures |r| == |data| && forall i :: 0 <= i < |data| ==> r[i] == Rows(data[i])
  {
    seq(|data|, i requires 0 <= i < |data| => Rows(data[i]))
  }

  /** d goes with the first batch: the same columns, except that an empty batch may miss object columns. */
  ghost predicate Fits(first: Data, d: Data) {
    && (d.batch.Some? <==> first.batch.Some?)
    && TensorColumns(d).Keys == TensorColumns(first).Keys
    && d.objects.Keys <= first.objects.Keys
    && (Len(d) > 0 ==> d.objects.Keys == first.objects.Keys)
  }

  ghost predicate AllFit(data: seq<Data>) { forall i :: 0 <= i < |data| ==> Fits(data[0], data[i]) }

  ghost predicate AppendedColumns(a: Dict, d: Dict, r: Dict) {
    r.Keys == a.Keys && forall key :: key in a ==> r[key] == a[key] + Column(d, key)
  }

  ghost predicate Appended(a: Data, d: Data, r: Data) {
    && (r.batch.Some? <==> a.batch.Some?)
    && (r.batch.Some? ==> d.batch.Some? && r.batch.value.size == a.batch.value.size + d.batch.value.size)
    && AppendedColumns(TensorColumns(a), TensorColumns(d), TensorColumns(r))
    && AppendedColumns(a.objects, d.objects, r.objects)
  }

  lemma ColumnLength(c: Dict, keys: set<string>, n: nat, key: string)
    requires AllOf(c, n) && key in keys && c.Keys <= keys && (n > 0 ==> c.Keys == keys)
    ensures |Column(c, key)| == n
  {
  }

  lemma AppendedAligned(a: Data, d: Data, r: Data)
    requires Aligned(a) && Aligned(d) && Fits(a, d) && Appended(a, d, r)
    ensures Aligned(r) && SameShape(a, r) && Len(r) == Len(a) + Len(d)
  {
    var n, m := Len(a), Len(d);
    forall key | key in r.objects ensures |r.objects[key]| == n + m { ColumnLength(d.objects, a.objects.Keys, m, key); }
    assert r.objects == map[] ==> a.objects == map[];
    assert a.objects == map[] ==> d.objects == map[];
    AlignedBy(r, n + m);
  }

  /** Appending columns appends rows. */
  lemma AppendedRows(a: Data, d: Data, r: Data)
    requires Aligned(a) && Aligned(d) && Fits(a, d) && Appended(a, d, r)
    ensures Aligned(r) && SameShape(a, r) && Rows(r) == Rows(a) + Rows(d)
  {
    AppendedAligned(a, d, r);
    hide Aligned, RowAt, Len, Fits, Appended, SameShape;
    var x, y := Rows(r), Rows(a) + Rows(d);
    forall i | 0 <= i < Len(r) ensures x[i] == y[i] { AppendedAt(a, d, r, i); }
    hide *;
    assert x == y;
  }

  lemma AppendedAt(a: Data, d: Data, r: Data, i: nat)
    requires Aligned(a) && Aligned(d) && Fits(a, d) && Appended(a, d, r) && Aligned(r)
    requires Len(r) == Len(a) + Len(d) && i < Len(r)
    ensures Rows(r)[i] == (Rows(a) + Rows(d))[i]
  {
    hide RowAt, Len, Fits, Appended;
    if i < Len(a) {
      AppendedLeft(a, d, r, i);
    } else {
      AppendedRight(a, d, r, i - Len(a));
    }
  }

  lemma AppendedLeft(a: Data, d: Data, r: Data, i: nat)
    requires Aligned(a) && Appended(a, d, r) && Aligned(r) && i < Len(a) <= Len(r)
    ensures RowAt(r, i) == RowAt(a, i)
  {
    assert RowAt(r, i).tensors == RowAt(a, i).tensors;
    assert RowAt(r, i).objects == RowAt(a, i).objects;
  }

  lemma AppendedRight(a: Data, d: Data, r: Data, i: nat)
    requires Aligned(a) && Aligned(d) && Fits(a, d) && Appended(a, d, r) && Aligned(r)
    requires i < Len(d) && Len(r) == Len(a) + Len(d)
    ensures RowAt(r, Len(a) + i) == RowAt(d, i)
  {
    assert RowAt(r, Len(a) + i).tensors == RowAt(d, i).tensors;
    assert RowAt(r, Len(a) + i).objects == RowAt(d, i).objects;
  }

  lemma StackedOne(c: Dict)
    ensures StackedColumns([c]) == c
  {
    forall key | key in c ensures Stacked([c], key) == c[key] {
      assert ColumnEach([c], key) == [c[key]];
      ConcatOne(c[key]);
    }
  }

  lemma StackedColumnsNext(dicts: seq<Dict>)
    requires |dicts| > 1
    ensures AppendedColumns(StackedColumns(dicts[..|dicts| - 1]), dicts[|dicts| - 1], StackedColumns(dicts))
  {
    hide Stacked;
    forall key { StackedNext(dicts, key); }
  }

  lemma MergedOne(d: Data)
    ensures Merged([d], d.meta) == d
  {
    hide StackedColumns;
    assert Objects([d]) == [d.objects] && TensorsEach([d]) == [TensorColumns(d)];
    StackedOne(d.objects);
    StackedOne(TensorColumns(d));
    assert TotalSize([d][..0]) == 0;
    assert MergedBatch([d]) == d.batch;
  }

  lemma MergedNext(data: seq<Data>, meta: Meta)
    requires |data| > 1 && (data[0].batch.Some? ==> data[|data| - 1].batch.Some?)
    ensures Appended(Merged(data[..|data| - 1], meta), data[|data| - 1], Merged(data, meta))
  {
    hide StackedColumns, AppendedColumns;
    var n := |data| - 1;
    assert Objects(data)[..n] == Objects(data[..n]) && TensorsEach(data)[..n] == TensorsEach(data[..n]);
    StackedColumnsNext(Objects(data));
    StackedColumnsNext(TensorsEach(data));
    NothingAppended(TensorColumns(data[n]));
  }

  lemma NothingAppended(c: Dict)
    ensures AppendedColumns(map[], c, map[])
  {
  }

  /** The rows of a join are the rows of the parts, one after the other. */
  lemma {:induction false} MergedRows(data: seq<Data>, meta: Meta)
    requires data != [] && AllAligned(data) && AllFit(data)
    ensures Aligned(Merged(data, meta)) && SameShape(data[0], Merged(data, meta))
    ensures Rows(Merged(data, meta)) == Concat(RowsEach(data))
    decreases |data|
  {
    hide Appended, Merged, Fits;
    var n := |data| - 1;
    if n == 0 {
      OneRows(data[0], meta);
      assert data == [data[0]];
      assert RowsEach(data) == [Rows(data[0])];
      ConcatOne(Rows(data[0]));
    } else {
      var a := Merged(data[..n], meta);
      MergedRows(data[..n], meta);
      FitsShape(data[0], data[n], a);
      MergedNext(data, meta);
      AppendedRows(a, data[n], Merged(data, meta));
      assert RowsEach(data)[..n] == RowsEach(data[..n]);
    }
  }

  lemma OneRows(d: Data, meta: Meta)
    requires Aligned(d)
    ensures Aligned(Merged([d], meta)) && SameShape(d, Merged([d], meta)) && Rows(Merged([d], meta)) == Rows(d)
  {
    MergedOne(d);
    assert Merged([d], meta) == d.(meta := meta);
    hide Merged;
    MetaAside(d, meta);
  }

  /** Meta information plays no part in the rows. */
  lemma MetaAside(d: Data, meta: Meta)
    requires Aligned(d)
    ensures var e := d.(meta := meta); Aligned(e) && SameShape(d, e) && Len(e) == Len(d) && Rows(e) == Rows(d)
  {
    var e := d.(meta := meta);
    AlignedBy(e, Len(d));
    forall i | 0 <= i < Len(d) ensures RowAt(e, i) == RowAt(d, i) {
      assert RowAt(e, i).tensors == RowAt(d, i).tensors;
    }
  }

  lemma FitsShape(first: Data, d: Data, a: Data)
    requires Fits(first, d) && SameShape(first, a)
    ensures Fits(a, d) && (first.batch.Some? ==> d.batch.Some?)
  {
  }

  // ----- when a join succeeds

  lemma {:induction false} StackedLength(data: seq<Data>, key: string)
    requires AllAligned(data) && forall i :: 0 <= i < |data| ==> data[i].batch.Some?
    ensures |Stacked(Objects(data), key)| <= TotalSize(data)
    ensures |Stacked(Objects(data), key)| == TotalSize(data) ==>
              forall i :: 0 <= i < |data| ==> Len(data[i]) == 0 || key in data[i].objects
    decreases |data|
  {
    if data != [] {
      var n := |data| - 1;
      assert Objects(data)[..n] == Objects(data[..n]);
      StackedNext(Objects(data), key);
      StackedLength(data[..n], key);
    }
  }

  /** With tensor batches a join succeeds exactly when all parts fit the first one and no two disagree on meta
      information. */
  lemma JoinableTensors(data: seq<Data>)
    requires data != [] && AllAligned(data) && data[0].batch.Some?
    ensures Joinable(data) <==> AllFit(data) && MetasAgree(Metas(data))
  {
    if AllFit(data) {
      MergedRows(data, map[]);
      CheckMeansAligned(Merged(data, map[]));
      assert KeysKnown(Objects(data));
    }
    if Joinable(data) {
      forall i | 0 <= i < |data| ensures Fits(data[0], data[i]) {
        assert Objects(data)[i].Keys <= Objects(data)[0].Keys;
        forall key | key in data[0].objects && Len(data[i]) > 0 ensures key in data[i].objects {
          assert |Merged(data, map[]).objects[key]| == TotalSize(data);
          StackedLength(data, key);
        }
      }
    }
  }

  /** Without a tensor batch in the first part the length check does not apply. */
  lemma JoinableObjects(data: seq<Data>)
    requires data != [] && data[0].batch.None?
    ensures Joinable(data) <==> KeysKnown(Objects(data)) && MetasAgree(Metas(data))
    ensures AllAligned(data) && AllFit(data) && MetasAgree(Metas(data)) ==> Joinable(data)
  {
  }

  // ----- when a join without a tensor batch in the first part keeps the rows

  /** A part with rows has no tensor column and exactly the object columns of the first part, of which there is one. */
  ghost predicate ObjectRowsOnly(first: Data, d: Data) {
    Len(d) > 0 ==> TensorColumns(d) == map[] && d.objects.Keys == first.objects.Keys && first.objects != map[]
  }

  ghost function ObjectsOnly(d: Data): Data { Data(None, d.objects, d.meta) }

  ghost function ObjectsOnlyEach(data: seq<Data>): (r: seq<Data>)
    ensures |r| == |data| && forall i :: 0 <= i < |data| ==> r[i] == ObjectsOnly(data[i])
  {
    seq(|data|, i requires 0 <= i < |data| => ObjectsOnly(data[i]))
  }

  lemma ObjectsOnlyRows(first: Data, d: Data)
    requires Aligned(d) && ObjectRowsOnly(first, d) && d.objects.Keys <= first.objects.Keys
    ensures Aligned(ObjectsOnly(d)) && Rows(ObjectsOnly(d)) == Rows(d) && Fits(ObjectsOnly(first), ObjectsOnly(d))
  {
    var o := ObjectsOnly(d);
    assert d.objects == map[] <==> d.objects.Keys == {};
    assert first.objects == map[] <==> first.objects.Keys == {};
    AlignedBy(o, Len(d));
    forall i | 0 <= i < Len(d) ensures RowAt(o, i) == RowAt(d, i) {
      assert RowAt(o, i).tensors == map[] == RowAt(d, i).tensors;
    }
  }

  lemma ObjectPartsKeepRows(data: seq<Data>, meta: Meta)
    requires data != [] && data[0].batch.None? && AllAligned(data) && KeysKnown(Objects(data))
    requires forall i :: 0 <= i < |data| ==> ObjectRowsOnly(data[0], data[i])
    ensures Aligned(Merged(data, meta)) && Rows(Merged(data, meta)) == Concat(RowsEach(data))
  {
    hide RowAt, ObjectRowsOnly, Fits, StackedColumns;
    var plain := ObjectsOnlyEach(data);
    forall i | 0 <= i < |data|
      ensures Aligned(plain[i]) && Rows(plain[i]) == Rows(data[i]) && Fits(plain[0], plain[i])
    {
      assert Objects(data)[i].Keys <= Objects(data)[0].Keys;
      ObjectsOnlyRows(data[0], data[i]);
    }
    assert Objects(plain) == Objects(data);
    assert Merged(plain, meta) == Merged(data, meta);
    MergedRows(plain, meta);
    assert RowsEach(plain) == RowsEach(data);
  }

  lemma {:induction false} FirstInConcat<T>(parts: seq<seq<T>>, i: nat)
    requires i < |parts| && parts[i] != []
    ensures parts[i][0] in Concat(parts)
    decreases |parts|
  {
    var n := |parts| - 1;
    if i < n { FirstInConcat(parts[..n], i); }
  }

  lemma KeptRowsOnly(data: seq<Data>, meta: Meta, i: nat)
    requires data != [] && data[0].batch.None? && AllAligned(data) && i < |data| && Len(data[i]) > 0
    requires Aligned(Merged(data, meta)) && Rows(Merged(data, meta)) == Concat(RowsEach(data))
    ensures ObjectRowsOnly(data[0], data[i])
  {
    var m := Merged(data, meta);
    FirstInConcat(RowsEach(data), i);
    var row := RowAt(data[i], 0);
    assert row in Rows(m);
    RowKeys(data[i], 0);
    MergedObjectKeys(data, meta);
    hide RowAt, Merged, Aligned;
    var x :| 0 <= x < Len(m) && RowAt(m, x) == row;
    RowKeys(m, x);
    assert TensorColumns(data[i]).Keys == {};
  }

  lemma RowKeys(d: Data, i: nat)
    requires Aligned(d) && i < Len(d)
    ensures RowAt(d, i).tensors.Keys == TensorColumns(d).Keys && RowAt(d, i).objects.Keys == d.objects.Keys
  {
  }

  lemma MergedObjectKeys(data: seq<Data>, meta: Meta)
    requires data != [] && data[0].batch.None?
    ensures var m := Merged(data, meta);
            m.batch.None? && m.objects.Keys == data[0].objects.Keys && (data[0].objects == map[] ==> Len(m) == 0)
  {
    assert data[0].objects == map[] ==> Merged(data, meta).objects == map[];
  }

  /** A join whose first part has no tensor batch keeps every row, whole and in place, if and only if each part with
      rows has no tensor column and exactly the object columns of the first part. */
  lemma ObjectJoinKeepsRows(data: seq<Data>)
    requires data != [] && data[0].batch.None? && AllAligned(data) && Joinable(data)
    ensures var r := ConcatSpec(data).value;
            Aligned(r) && Rows(r) == Concat(RowsEach(data)) <==>
            forall i :: 0 <= i < |data| ==> ObjectRowsOnly(data[0], data[i])
  {
    hide ObjectRowsOnly;
    var meta := MergedMeta(Metas(data));
    if forall i :: 0 <= i < |data| ==> ObjectRowsOnly(data[0], data[i]) {
      ObjectPartsKeepRows(data, meta);
    }
    if Aligned(Merged(data, meta)) && Rows(Merged(data, meta)) == Concat(RowsEach(data)) {
      forall i | 0 <= i < |data| ensures ObjectRowsOnly(data[0], data[i]) {
        if Len(data[i]) > 0 { KeptRowsOnly(data, meta, i); } else { NoRowsToKeep(data[0], data[i]); }
      }
    }
  }

  lemma NoRowsToKeep(first: Data, d: Data)
    requires Len(d) == 0
    ensures ObjectRowsOnly(first, d)
  {
  }

  lemma {:induction false} MergedEmpty(metas: seq<Meta>)
    requires forall i :: 0 <= i < |metas| ==> metas[i] == map[]
    ensures MergedMeta(metas) == map[]
  {
    if metas != [] { MergedEmpty(metas[..|metas| - 1]); }
  }

  lemma DroppedTensors()
    ensures var objects: Dict, columns: Dict := map[], map["x" := [Scalar(7)]];
            var data := [Data(None, objects, map[]), Data(Some(Table(1, columns)), objects, map[])];
            AllAligned(data) && ConcatSpec(data) == Ok(Data(None, map[], map[]))
  {
    var objects: Dict, columns: Dict := map[], map["x" := [Scalar(7)]];
    var data := [Data(None, objects, map[]), Data(Some(Table(1, columns)), objects, map[])];
    assert AllOf(objects, 0) && AllOf(objects, 1) && AllOf(columns, 1);
    MergedEmpty(Metas(data));
    assert StackedColumns(Objects(data)) == map[];
  }
}
