/** The chunk metadata that feeds the scan kernel, and the guarantees that follow when kernel
    and metadata are put together: every chunk ends on a block boundary or at the end of the
    request, and the state after it lands in the slot of its own block. */
module ScanMetadata {
  import opened Arithmetic
  import opened SelectiveScan
  import opened ScanKernel

  // ----- block arithmetic

  /** Chunks of a request with n computed and m new tokens. */
  function ChunkCount(n: nat, m: nat, bs: nat): int
    requires bs > 0
  {
    if m == 0 then if n % bs != 0 then 1 else 0 else (n + m - 1) / bs - n / bs + 1
  }

  /** New tokens that precede chunk k: up to the block boundary, or all of them. */
  function Boundary(n: nat, m: nat, bs: nat, k: nat): int
    requires bs > 0
  {
    if k == 0 then 0 else Min((n / bs + k) * bs, n + m) - n
  }

  lemma BoundaryZero(n: nat, m: nat, bs: nat)
    requires bs > 0
    ensures Boundary(n, m, bs, 0) == 0
  {
  }

  lemma CountCovers(n: nat, m: nat, bs: nat)
    requires bs > 0
    ensures ChunkCount(n, m, bs) >= 0
    ensures Boundary(n, m, bs, ChunkCount(n, m, bs)) == m
    ensures m > 0 ==> ChunkCount(n, m, bs) > 0
  {
    DivBounds(n, bs);
    MulNext(n / bs, bs);
    if m > 0 {
      var last := (n + m - 1) / bs;
      DivBounds(n + m - 1, bs);
      DivMonotone(n, n + m - 1, bs);
      MulNext(last, bs);
      assert n / bs + ChunkCount(n, m, bs) == last + 1;
    }
  }

  /** Before the last chunk every boundary is a block boundary. */
  lemma InnerBoundary(n: nat, m: nat, bs: nat, k: nat)
    requires bs > 0 && 0 < k < ChunkCount(n, m, bs)
    ensures Boundary(n, m, bs, k) == (n / bs + k) * bs - n
    ensures 0 < Boundary(n, m, bs, k) <= m
  {
    var q, last := n / bs, (n + m - 1) / bs;
    DivBounds(n, bs);
    DivBounds(n + m - 1, bs);
    MulLe(q + k, last, bs);
    MulLe(q + 1, q + k, bs);
    MulNext(q, bs);
  }

  lemma BoundaryMonotone(n: nat, m: nat, bs: nat, j: nat, k: nat)
    requires bs > 0 && j <= k
    ensures 0 <= Boundary(n, m, bs, j) <= Boundary(n, m, bs, k) <= m
  {
    BoundaryAt(n, m, bs, j);
    BoundaryAt(n, m, bs, k);
    MulLe(n / bs + j, n / bs + k, bs);
  }

  lemma BoundaryAt(n: nat, m: nat, bs: nat, k: nat)
    requires bs > 0
    ensures k == 0 ==> Boundary(n, m, bs, k) == 0
    ensures k > 0 ==> n < (n / bs + k) * bs && Boundary(n, m, bs, k) == Min((n / bs + k) * bs, n + m) - n
  {
    DivBounds(n, bs);
    MulNext(n / bs, bs);
    MulLe(n / bs + 1, n / bs + k, bs);
  }

  // ----- the metadata builder

  /** What one request appends to the chunk start list. */
  ghost predicate Appended(cu: seq<int>, cu': seq<int>, pos: int, n: nat, m: nat, bs: nat)
    requires bs > 0
  {
    && ChunkCount(n, m, bs) >= 0
    && |cu'| == |cu| + ChunkCount(n, m, bs)
    && cu <= cu'
    && forall k :: 0 <= k < ChunkCount(n, m, bs) ==> cu'[|cu| + k] == pos + Boundary(n, m, bs, k)
  }

  lemma AfterFirst(n: nat, m: nat, bs: nat)
    requires bs > 0 && n % bs != 0
    ensures Min(CeilDiv(n, bs) * bs - n, m) == Boundary(n, m, bs, 1)
    ensures CeilDiv(n, bs) * bs - n > 0
  {
    DivBounds(n, bs);
    MulNext(n / bs, bs);
    DivUnique(n + bs - 1, bs, n / bs + 1);
  }

  /** How many chunks are left once the first, partial one is done. */
  lemma RemainingChunks(n: nat, m: nat, bs: nat, k: nat, done: nat)
    requires bs > 0 && k == (if n % bs != 0 then 1 else 0)
    requires done == Boundary(n, m, bs, k) && done <= m
    ensures k + CeilDiv(m - done, bs) == ChunkCount(n, m, bs)
  {
    var q := n / bs;
    DivBounds(n, bs);
    MulNext(q, bs);
    CeilStep(m - done, bs);
    if m > 0 {
      if m == done {
        DivUnique(n + m - 1, bs, q);
      } else {
        assert n + done == (q + k) * bs;
        DivShift(m - done - 1, q + k, bs);
      }
    }
  }

  lemma NextBoundary(n: nat, m: nat, bs: nat, k: nat, done: nat)
    requires bs > 0 && done < m && done == Boundary(n, m, bs, k) && (k == 0 ==> n % bs == 0)
    ensures Boundary(n, m, bs, k + 1) == done + Min(bs, m - done)
  {
    DivBounds(n, bs);
    MulNext(n / bs + k, bs);
  }

  method AppendRequest(cu: seq<int>, seqIdx: seq<nat>, pos: int, n: nat, m: nat, bs: nat, req: nat)
    returns (cu': seq<int>, seqIdx': seq<nat>, pos': int)
    requires bs > 0 && |seqIdx| == |cu|
    ensures Appended(cu, cu', pos, n, m, bs) && pos' == pos + m
    ensures |seqIdx'| == |cu'| && seqIdx <= seqIdx'
    ensures forall i :: |cu| <= i < |cu'| ==> seqIdx'[i] == req
  {
    hide Boundary, ChunkCount;
    cu', seqIdx', pos' := cu, seqIdx, pos;
    var newTokens: int := m;
    ghost var k := 0;
    BoundaryZero(n, m, bs);
    if n % bs != 0 {
      AfterFirst(n, m, bs);
      seqIdx' := seqIdx' + [req];
      cu' := cu' + [pos'];
      var chunkLen := Min(CeilDiv(n, bs) * bs - n, newTokens);
      pos' := pos' + chunkLen;
      newTokens := newTokens - chunkLen;
      k := 1;
    }
    ghost var k0 := k;
    RemainingChunks(n, m, bs, k0, m - newTokens);
    var nChunks := CeilDiv(newTokens, bs);
    for chunk := 0 to nChunks
      invariant k == k0 + chunk && 0 <= newTokens <= m
      invariant m - newTokens == Boundary(n, m, bs, k)
      invariant CeilDiv(newTokens, bs) == nChunks - chunk
      invariant pos' == pos + m - newTokens
      invariant |cu'| == |cu| + k == |seqIdx'| && cu <= cu' && seqIdx <= seqIdx'
      invariant forall i :: 0 <= i < k ==> cu'[|cu| + i] == pos + Boundary(n, m, bs, i)
      invariant forall i :: |cu| <= i < |cu'| ==> seqIdx'[i] == req
    {
      CeilStep(newTokens, bs);
      NextBoundary(n, m, bs, k, m - newTokens);
      seqIdx' := seqIdx' + [req];
      cu' := cu' + [pos'];
      var chunkLen := Min(bs, newTokens);
      pos' := pos' + chunkLen;
      newTokens := newTokens - chunkLen;
      k := k + 1;
    }
    CeilStep(newTokens, bs);
    CountCovers(n, m, bs);
  }

  function First(last: seq<int>, r: nat): int
    requires r <= |last|
  {
    if r == 0 then 0 else last[r - 1] + 1
  }

  /** The chunks of request r: where they start, and that the list goes on where they end. */
  ghost predicate Laid(cu: seq<int>, last: seq<int>, r: nat, n: nat, m: nat, bs: nat)
    requires bs > 0
  {
    && r < |last|
    && 0 <= First(last, r) && last[r] + 1 < |cu|
    && 0 <= ChunkCount(n, m, bs) == last[r] - First(last, r) + 1
    && forall k :: 0 <= k <= ChunkCount(n, m, bs) ==>
       cu[First(last, r) + k] == cu[First(last, r)] + Boundary(n, m, bs, k)
  }

  lemma LaidExtends(cu: seq<int>, last: seq<int>, cu': seq<int>, last': seq<int>, r: nat, n: nat, m: nat, bs: nat)
    requires bs > 0 && Laid(cu, last, r, n, m, bs) && cu <= cu' && last <= last'
    ensures Laid(cu', last', r, n, m, bs)
  {
    hide Boundary, ChunkCount;
  }

  lemma LaidNew(cu: seq<int>, cu': seq<int>, pos: int, last: seq<int>, n: nat, m: nat, bs: nat)
    requires bs > 0 && Appended(cu, cu', pos, n, m, bs) && First(last, |last|) == |cu|
    ensures Laid(cu' + [pos + m], last + [|cu'| - 1], |last|, n, m, bs)
    ensures cu + [pos] <= cu' + [pos + m]
  {
    hide Boundary, ChunkCount;
    CountCovers(n, m, bs);
    BoundaryZero(n, m, bs);
    var all, count := cu' + [pos + m], ChunkCount(n, m, bs);
    assert all[|cu|] == pos;
    forall k | 0 <= k <= count ensures all[|cu| + k] == pos + Boundary(n, m, bs, k) {}
  }

  method ComputeChunkMetadata(bs: nat, computed: seq<nat>, start: seq<int>)
    returns (cu: seq<int>, seqIdx: seq<nat>, last: seq<int>)
    requires bs > 0 && |start| == |computed| + 1
    requires forall r :: 0 <= r < |computed| ==> start[r] <= start[r + 1]
    ensures |last| == |computed| && |seqIdx| == |cu| - 1
    ensures forall r :: 0 <= r < |computed| ==> Laid(cu, last, r, computed[r], start[r + 1] - start[r], bs)
    ensures forall i :: 0 <= i < |seqIdx| ==>
                          seqIdx[i] < |computed| && First(last, seqIdx[i]) <= i <= last[seqIdx[i]]
    ensures cu[|cu| - 1] == start[|computed|] - start[0]
  {
    hide Laid, Appended;
    cu, seqIdx, last := [], [], [];
    var pos := 0;
    for r := 0 to |computed|
      invariant |last| == r && |seqIdx| == |cu| == First(last, r)
      invariant pos == start[r] - start[0]
      invariant forall q :: 0 <= q < r ==> Laid(cu + [pos], last, q, computed[q], start[q + 1] - start[q], bs)
      invariant forall i :: 0 <= i < |seqIdx| ==> seqIdx[i] < r && First(last, seqIdx[i]) <= i <= last[seqIdx[i]]
    {
      var n, m := computed[r], start[r + 1] - start[r];
      var cu', seqIdx', pos' := AppendRequest(cu, seqIdx, pos, n, m, bs, r);
      var last' := last + [|cu'| - 1];
      LaidNew(cu, cu', pos, last, n, m, bs);
      forall q | 0 <= q < r ensures Laid(cu' + [pos'], last', q, computed[q], start[q + 1] - start[q], bs) {
        LaidExtends(cu + [pos], last, cu' + [pos'], last', q, computed[q], start[q + 1] - start[q], bs);
      }
      assert forall q :: 0 <= q <= r ==> First(last', q) == First(last, q);
      assert last'[r] == |cu'| - 1 && First(last', r) == |cu|;
      cu, seqIdx, pos, last := cu', seqIdx', pos', last';
    }
    cu := cu + [pos];
  }

  // ----- the plan of one request

  /** The metadata one request hands to the kernel: block indices as the backend computes them. */
  function PlanOf(table: seq<nat>, cu: seq<int>, last: seq<int>, r: nat, n: nat, m: nat, bs: nat): Plan
    requires bs > 0 && n + m > 0
  {
    var lastComputed := CeilDiv(n, bs) - 1;
    var firstScheduled := CeilDiv(n + 1, bs) - 1;
    var lastScheduled := CeilDiv(n + m, bs) - 1;
    CeilStep(n + 1, bs);
    CeilStep(n + m, bs);
    Plan(table, firstScheduled, lastScheduled, if lastComputed < 0 then 0 else lastComputed, cu, last, r, bs)
  }

  lemma PlanShape(table: seq<nat>, cu: seq<int>, last: seq<int>, r: nat, n: nat, m: nat, bs: nat)
    requires bs > 0 && m > 0 && Laid(cu, last, r, n, m, bs)
    ensures var p := PlanOf(table, cu, last, r, n, m, bs);
            && Boundaries(p, m) && NumChunks(p) == ChunkCount(n, m, bs)
            && p.blockFirst == n / bs && p.blockLast == n / bs + NumChunks(p) - 1
            && forall k :: 0 <= k <= NumChunks(p) ==> Offset(p, k) == Boundary(n, m, bs, k)
  {
    hide Boundary;
    var p := PlanOf(table, cu, last, r, n, m, bs);
    CeilStep(n + 1, bs);
    CeilStep(n + m, bs);
    CountCovers(n, m, bs);
    BoundaryZero(n, m, bs);
    var first, count := First(last, r), ChunkCount(n, m, bs);
    forall i, j | first <= i <= j <= last[r] + 1 ensures p.cu[i] <= p.cu[j] {
      BoundaryMonotone(n, m, bs, i - first, j - first);
      assert p.cu[first + (i - first)] <= p.cu[first + (j - first)];
    }
    assert cu[first + count] == cu[first] + Boundary(n, m, bs, count);
  }

  /** The state after chunk k goes to block n / bs + k, the block that chunk k ends in. */
  lemma BlockOfChunk(table: seq<nat>, cu: seq<int>, last: seq<int>, r: nat, n: nat, m: nat, bs: nat, k: nat)
    requires bs > 0 && m > 0 && Laid(cu, last, r, n, m, bs) && k < ChunkCount(n, m, bs)
    ensures var p := PlanOf(table, cu, last, r, n, m, bs);
            Boundaries(p, m) && BlockOf(p, k) == n / bs + k
  {
    hide Boundary, Laid, ChunkCount;
    PlanShape(table, cu, last, r, n, m, bs);
    var p := PlanOf(table, cu, last, r, n, m, bs);
    var q := n / bs;
    if k < NumChunks(p) - 1 {
      StartIsComputed(n, m, bs);
      InnerBoundary(n, m, bs, 1);
      InnerBoundary(n, m, bs, k + 1);
      assert Offset(p, 1) == Boundary(n, m, bs, 1) && Offset(p, k + 1) == Boundary(n, m, bs, k + 1);
      assert StartPosition(p) == n;
      MulNext(q + k, bs);
      DivUnique(n + Offset(p, k + 1) - 1, bs, q + k);
    }
  }

  /** With more than one chunk, the kernel's start position is the number of computed tokens. */
  lemma StartIsComputed(n: nat, m: nat, bs: nat)
    requires bs > 0 && ChunkCount(n, m, bs) > 1
    ensures var first := Boundary(n, m, bs, 1);
            n / bs * bs + (if first < bs then bs - first else 0) == n
  {
    InnerBoundary(n, m, bs, 1);
    DivBounds(n, bs);
    MulNext(n / bs, bs);
  }
}
