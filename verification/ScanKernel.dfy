/** One (batch, dim) program of the scan kernel, in place: the outputs overwrite delta and z,
    and in prefix-caching mode the state after every chunk goes to a cache slot found by
    block arithmetic. */
module ScanKernel {
  import opened SelectiveScan

  /** The prefix-caching metadata of one batch entry. */
  datatype Plan = Plan(table: seq<nat>, blockFirst: nat, blockLast: nat, initIdx: nat,
                       cu: seq<int>, last: seq<int>, batch: nat, blockSize: nat)

  datatype Mode = Cached(plan: Plan) | Indexed(slot: nat) | Direct(batchSlot: nat)

  function FirstChunk(p: Plan): int
    requires p.batch < |p.last|
  {
    if p.batch == 0 then 0 else p.last[p.batch - 1] + 1
  }

  function NumChunks(p: Plan): int
    requires p.batch < |p.last|
  {
    p.last[p.batch] - FirstChunk(p) + 1
  }

  /** The chunk boundaries can be read, do not run backwards and cover the sequence, which may have no chunk. */
  ghost predicate Boundaries(p: Plan, len: nat) {
    && p.batch < |p.last| && 0 < p.blockSize
    && 0 <= FirstChunk(p) <= p.last[p.batch] + 1 < |p.cu|
    && (forall i, j :: FirstChunk(p) <= i <= j <= p.last[p.batch] + 1 ==> p.cu[i] <= p.cu[j])
    && p.cu[p.last[p.batch] + 1] - p.cu[FirstChunk(p)] == len
  }

  /** Tokens of the sequence that precede chunk k. */
  function Offset(p: Plan, k: nat): int
    requires p.batch < |p.last| && 0 <= FirstChunk(p) && FirstChunk(p) + k < |p.cu|
  {
    p.cu[FirstChunk(p) + k] - p.cu[FirstChunk(p)]
  }

  function StartPosition(p: Plan): int
    requires p.batch < |p.last| && 0 <= FirstChunk(p) && p.last[p.batch] + 1 < |p.cu|
  {
    p.blockFirst * p.blockSize
    + if NumChunks(p) > 1 && Offset(p, 1) < p.blockSize then p.blockSize - Offset(p, 1) else 0
  }

  /** The block whose slot receives the state after chunk k. */
  function BlockOf(p: Plan, k: nat): int
    requires p.batch < |p.last| && 0 <= FirstChunk(p) && p.last[p.batch] + 1 < |p.cu|
    requires FirstChunk(p) + k + 1 < |p.cu| && 0 < p.blockSize
  {
    if k == NumChunks(p) - 1 then p.blockLast
    else (StartPosition(p) + Offset(p, k + 1) - 1) / p.blockSize
  }

  /** Every slot the program touches exists. */
  ghost predicate Loadable(p: Plan, len: nat, slots: nat) {
    && Boundaries(p, len)
    && p.initIdx < |p.table| && p.table[p.initIdx] < slots
    && forall k :: 0 <= k < NumChunks(p) ==> 0 <= BlockOf(p, k) < |p.table| && p.table[BlockOf(p, k)] < slots
  }

  /** The cache column after the first k chunks have been stored. */
  ghost function Stored(p: Plan, c: Coeffs, s0: State, toks: seq<Token>, column: seq<State>, k: nat): (r: seq<State>)
    requires Loadable(p, |toks|, |column|) && k <= NumChunks(p)
    ensures |r| == |column|
  {
    if k == 0 then column
    else
      Stored(p, c, s0, toks, column, k - 1)[p.table[BlockOf(p, k - 1)] := Fold(c, s0, toks[..Offset(p, k)])]
  }

  // ----- memory

  /** Where the program finds its rows: `out` is `delta` and `outZ` is `z`. */
  class Memory {
    const delta: array<real>
    const z: array<real>
    const ssm: array2<State>

    constructor (delta: array<real>, z: array<real>, ssm: array2<State>)
      ensures this.delta == delta && this.z == z && this.ssm == ssm
    {
      this.delta, this.z, this.ssm := delta, z, ssm;
    }
  }

  datatype Job = Job(c: Coeffs, u: seq<real>, B: seq<seq<real>>, C: seq<seq<real>>, hasZ: bool,
                     base: nat, zBase: nat, dim: nat, dstate: nat, hasInit: bool, nullBlock: int)

  ghost predicate Fits(j: Job, m: Memory) {
    && m.delta != m.z
    && |j.B| == |j.u| && |j.C| == |j.u|
    && j.base + |j.u| <= m.delta.Length
    && (j.hasZ ==> j.zBase + |j.u| <= m.z.Length)
    && j.dim < m.ssm.Length1
  }

  ghost function Column(m: Memory, dim: nat): (r: seq<State>)
    requires dim < m.ssm.Length1
    reads m.ssm
    ensures |r| == m.ssm.Length0
    ensures forall i :: 0 <= i < |r| ==> r[i] == m.ssm[i, dim]
  {
    seq(m.ssm.Length0, i requires 0 <= i < m.ssm.Length0 reads m.ssm => m.ssm[i, dim])
  }

  /** The tokens as they stand in memory before the program runs. */
  ghost function Tokens(j: Job, m: Memory): (r: seq<Token>)
    requires Fits(j, m)
    reads m.delta, m.z
    ensures |r| == |j.u|
    ensures forall i :: 0 <= i < |r| ==>
                          r[i] == Token(j.u[i], m.delta[j.base + i], if j.hasZ then m.z[j.zBase + i] else 0.0,
                                        j.B[i], j.C[i])
  {
    seq(|j.u|, i requires 0 <= i < |j.u| reads m.delta, m.z =>
      Token(j.u[i], m.delta[j.base + i], if j.hasZ then m.z[j.zBase + i] else 0.0, j.B[i], j.C[i]))
  }

  function LoadSlot(mode: Mode): nat
    requires mode.Cached? ==> mode.plan.initIdx < |mode.plan.table|
  {
    match mode
    case Cached(p) => p.table[p.initIdx]
    case Indexed(slot) => slot
    case Direct(slot) => slot
  }

  ghost predicate Addressable(mode: Mode, len: nat, slots: nat) {
    match mode
    case Cached(p) => Loadable(p, len, slots)
    case Indexed(slot) => slot < slots
    case Direct(slot) => slot < slots
  }

  predicate Skipped(mode: Mode, nullBlock: int)
    requires mode.Cached? ==> mode.plan.initIdx < |mode.plan.table|
  {
    !mode.Direct? && LoadSlot(mode) == nullBlock
  }

  ghost function InitialState(j: Job, mode: Mode, column: seq<State>): State
    requires Addressable(mode, |j.u|, |column|)
  {
    if j.hasInit then column[LoadSlot(mode)] else seq(j.dstate, _ => 0.0)
  }

  /** The cache column the program leaves behind. */
  ghost function ColumnAfter(j: Job, mode: Mode, toks: seq<Token>, column: seq<State>): (r: seq<State>)
    requires Addressable(mode, |j.u|, |column|) && |toks| == |j.u|
    ensures |r| == |column|
  {
    var s0 := InitialState(j, mode, column);
    match mode
    case Cached(p) => Stored(p, j.c, s0, toks, column, NumChunks(p))
    case Indexed(slot) => column[slot := Fold(j.c, s0, toks)]
    case Direct(slot) => column[slot := Fold(j.c, s0, toks)]
  }

  /** One token: load, advance the state, overwrite delta and then z. */
  method ScanToken(j: Job, m: Memory, state: State, pos: nat) returns (next: State)
    requires Fits(j, m) && pos < |j.u|
    modifies m.delta, m.z
    ensures var t := old(Tokens(j, m))[pos];
            && next == Advance(j.c, state, t)
            && m.delta[..] == old(m.delta[..])[j.base + pos := Output(j.c, next, t)]
            && m.z[..] == if j.hasZ then old(m.z[..])[j.zBase + pos := Gate(j.c, Output(j.c, next, t), t.z)]
                          else old(m.z[..])
  {
    ghost var t := Tokens(j, m)[pos];
    hide Advance, Output, Gate;
    var loaded := Token(j.u[pos], m.delta[j.base + pos], if j.hasZ then m.z[j.zBase + pos] else 0.0,
                        j.B[pos], j.C[pos]);
    assert loaded == t;
    next := Advance(j.c, state, loaded);
    var out := Output(j.c, next, loaded);
    m.delta[j.base + pos] := out;
    if j.hasZ {
      var zVal := m.z[j.zBase + pos];
      m.z[j.zBase + pos] := Gate(j.c, out, zVal);
    }
  }

  /** What the first n tokens leave in memory: outputs of the plain scan over the tokens that
      were there before, everything else untouched. */
  ghost predicate Scanned(j: Job, toks: seq<Token>, s0: State, n: nat,
                          delta0: seq<real>, delta: seq<real>, z0: seq<real>, z: seq<real>)
    requires n <= |toks|
  {
    && |delta| == |delta0| && |z| == |z0|
    && (forall i :: 0 <= i < |delta| ==>
                      delta[i] == if j.base <= i < j.base + n then OutAt(j.c, s0, toks, i - j.base) else delta0[i])
    && (forall i :: 0 <= i < |z| ==>
                      z[i] == if j.hasZ && j.zBase <= i < j.zBase + n
                              then Gate(j.c, OutAt(j.c, s0, toks, i - j.zBase), toks[i - j.zBase].z) else z0[i])
  }

  lemma ScannedStep(j: Job, toks: seq<Token>, s0: State, n: nat,
                    delta0: seq<real>, delta: seq<real>, z0: seq<real>, z: seq<real>, out: real, gated: real)
    requires n < |toks| && j.base + |toks| <= |delta| && (j.hasZ ==> j.zBase + |toks| <= |z|)
    requires Scanned(j, toks, s0, n, delta0, delta, z0, z)
    requires out == OutAt(j.c, s0, toks, n) && gated == Gate(j.c, out, toks[n].z)
    ensures Scanned(j, toks, s0, n + 1, delta0, delta[j.base + n := out],
                    z0, if j.hasZ then z[j.zBase + n := gated] else z)
  {
    hide Gate, OutAt;
  }

  lemma TokenStillThere(j: Job, m: Memory, toks: seq<Token>, s0: State, n: nat, delta0: seq<real>, z0: seq<real>)
    requires Fits(j, m) && n < |j.u| == |toks|
    requires |delta0| == m.delta.Length && |z0| == m.z.Length
    requires forall i :: 0 <= i < |toks| ==>
                           toks[i] == Token(j.u[i], delta0[j.base + i], if j.hasZ then z0[j.zBase + i] else 0.0,
                               j.B[i], j.C[i])
    requires Scanned(j, toks, s0, n, delta0, m.delta[..], z0, m.z[..])
    ensures Tokens(j, m)[n] == toks[n]
  {
    hide Gate, OutAt;
    assert m.delta[..][j.base + n] == delta0[j.base + n];
    assert j.hasZ ==> m.z[..][j.zBase + n] == z0[j.zBase + n];
  }

  /** The token loop over positions [from, to). */
  method ScanTokens(j: Job, m: Memory, state: State, from: nat, to: nat,
                    ghost toks: seq<Token>, ghost s0: State, ghost delta0: seq<real>, ghost z0: seq<real>)
    returns (next: State)
    requires Fits(j, m) && from <= to <= |j.u| == |toks|
    requires |delta0| == m.delta.Length && |z0| == m.z.Length
    requires forall i :: 0 <= i < |toks| ==>
                           toks[i] == Token(j.u[i], delta0[j.base + i], if j.hasZ then z0[j.zBase + i] else 0.0,
                               j.B[i], j.C[i])
    requires state == Fold(j.c, s0, toks[..from])
    requires Scanned(j, toks, s0, from, delta0, m.delta[..], z0, m.z[..])
    modifies m.delta, m.z
    ensures next == Fold(j.c, s0, toks[..to])
    ensures Scanned(j, toks, s0, to, delta0, m.delta[..], z0, m.z[..])
  {
    hide Advance, Output, Gate, Fold, Scanned;
    next := state;
    for pos := from to to
      invariant next == Fold(j.c, s0, toks[..pos])
      invariant Scanned(j, toks, s0, pos, delta0, m.delta[..], z0, m.z[..])
    {
      TokenStillThere(j, m, toks, s0, pos, delta0, z0);
      FoldStep(j.c, s0, toks, pos);
      ghost var delta, z := m.delta[..], m.z[..];
      next := ScanToken(j, m, next, pos);
      ghost var out := Output(j.c, next, toks[pos]);
      ScannedStep(j, toks, s0, pos, delta0, delta, z0, z, out, Gate(j.c, out, toks[pos].z));
    }
  }

  method StoreState(m: Memory, slot: nat, dim: nat, state: State)
    requires slot < m.ssm.Length0 && dim < m.ssm.Length1
    modifies m.ssm
    ensures Column(m, dim) == old(Column(m, dim))[slot := state]
    ensures forall i, d :: 0 <= i < m.ssm.Length0 && 0 <= d < m.ssm.Length1 && d != dim ==>
                             m.ssm[i, d] == old(m.ssm[i, d])
  {
    m.ssm[slot, dim] := state;
  }

  lemma FoldNothing(c: Coeffs, s: State, toks: seq<Token>)
    ensures Fold(c, s, toks[..0]) == s
  {
  }

  lemma OffsetBounds(p: Plan, len: nat, k: nat)
    requires Boundaries(p, len) && k < NumChunks(p)
    ensures 0 <= Offset(p, k) <= Offset(p, k + 1) <= len
    ensures Offset(p, 0) == 0 && Offset(p, NumChunks(p)) == len
  {
  }

  lemma OffsetEnds(p: Plan, len: nat)
    requires Boundaries(p, len)
    ensures NumChunks(p) >= 0 && Offset(p, 0) == 0 && Offset(p, NumChunks(p)) == len
  {
  }

  lemma SlotBounds(p: Plan, len: nat, slots: nat, k: nat)
    requires Loadable(p, len, slots) && k < NumChunks(p)
    ensures 0 <= BlockOf(p, k) < |p.table| && p.table[BlockOf(p, k)] < slots
  {
  }

  lemma ScannedNone(j: Job, toks: seq<Token>, s0: State, delta: seq<real>, z: seq<real>)
    ensures Scanned(j, toks, s0, 0, delta, delta, z, z)
  {
  }

  /** Outputs, gated outputs and cache column, whatever the mode: nothing changed. */
  twostate predicate Idle(j: Job, m: Memory)
    requires Fits(j, m)
    reads m.delta, m.z, m.ssm
  {
    && m.delta[..] == old(m.delta[..]) && m.z[..] == old(m.z[..])
    && Column(m, j.dim) == old(Column(m, j.dim))
  }

  /** The rows are the plain scan from the state in `slot`, or from zeros, of the tokens that were there. */
  twostate predicate RowsFrom(j: Job, m: Memory, slot: nat)
    requires Fits(j, m) && slot < m.ssm.Length0
    reads m.delta, m.z, m.ssm
  {
    var toks, s0 := old(Tokens(j, m)), if j.hasInit then old(m.ssm[slot, j.dim]) else seq(j.dstate, _ => 0.0);
    Scanned(j, toks, s0, |toks|, old(m.delta[..]), m.delta[..], old(m.z[..]), m.z[..])
  }

  /** The whole program.  With cache indices it does nothing on the null block and otherwise scans from and into its
      slot; without, it always scans; with prefix caching the slot of the initial state decides. */
  method RunProgram(j: Job, mode: Mode, m: Memory)
    requires Fits(j, m) && Addressable(mode, |j.u|, m.ssm.Length0)
    modifies m.delta, m.z, m.ssm
    ensures mode.Indexed? && mode.slot == j.nullBlock ==> Idle(j, m)
    ensures mode.Indexed? && mode.slot != j.nullBlock ==>
              && RowsFrom(j, m, mode.slot)
              && var s0 := if j.hasInit then old(m.ssm[mode.slot, j.dim]) else seq(j.dstate, _ => 0.0);
                 Column(m, j.dim) == old(Column(m, j.dim))[mode.slot := Fold(j.c, s0, old(Tokens(j, m)))]
    ensures mode.Direct? ==>
              && RowsFrom(j, m, mode.batchSlot)
              && var s0 := if j.hasInit then old(m.ssm[mode.batchSlot, j.dim]) else seq(j.dstate, _ => 0.0);
                 Column(m, j.dim) == old(Column(m, j.dim))[mode.batchSlot := Fold(j.c, s0, old(Tokens(j, m)))]
    ensures mode.Cached? && mode.plan.table[mode.plan.initIdx] == j.nullBlock ==> Idle(j, m)
    ensures mode.Cached? && mode.plan.table[mode.plan.initIdx] != j.nullBlock ==>
              && var p := mode.plan; var slot := p.table[p.initIdx];
              && RowsFrom(j, m, slot)
              && var s0 := if j.hasInit then old(m.ssm[slot, j.dim]) else seq(j.dstate, _ => 0.0);
                 Column(m, j.dim) == Stored(p, j.c, s0, old(Tokens(j, m)), old(Column(m, j.dim)), NumChunks(p))
    ensures Skipped(mode, j.nullBlock) ==>
              && m.delta[..] == old(m.delta[..]) && m.z[..] == old(m.z[..])
              && Column(m, j.dim) == old(Column(m, j.dim))
    ensures !Skipped(mode, j.nullBlock) ==>
              var toks, s0 := old(Tokens(j, m)), InitialState(j, mode, old(Column(m, j.dim)));
              && Scanned(j, toks, s0, |toks|, old(m.delta[..]), m.delta[..], old(m.z[..]), m.z[..])
              && Column(m, j.dim) == ColumnAfter(j, mode, toks, old(Column(m, j.dim)))
    ensures forall i, d :: 0 <= i < m.ssm.Length0 && 0 <= d < m.ssm.Length1 && d != j.dim ==>
                             m.ssm[i, d] == old(m.ssm[i, d])
  {
    hide Scanned, Fold, Stored;
    var loadSlot := LoadSlot(mode);
    if Skipped(mode, j.nullBlock) {
      return;
    }
    var state := seq(j.dstate, _ => 0.0);
    if j.hasInit {
      state := m.ssm[loadSlot, j.dim];
    }
    ghost var toks, column, s0 := Tokens(j, m), Column(m, j.dim), state;
    ghost var delta0, z0 := m.delta[..], m.z[..];
    if mode.Cached? {
      state := RunChunks(j, mode.plan, m, state, toks, column, delta0, z0);
    } else {
      ScannedNone(j, toks, s0, delta0, z0);
      assert Fold(j.c, s0, toks[..0]) == s0 by { FoldNothing(j.c, s0, toks); }
      state := ScanTokens(j, m, state, 0, |j.u|, toks, s0, delta0, z0);
      assert toks[..|toks|] == toks;
      StoreState(m, loadSlot, j.dim, state);
    }
  }

  method RunChunks(j: Job, p: Plan, m: Memory, s0: State,
                   ghost toks: seq<Token>, ghost column: seq<State>, ghost delta0: seq<real>, ghost z0: seq<real>)
    returns (state: State)
    requires Fits(j, m) && Loadable(p, |j.u|, m.ssm.Length0)
    requires toks == Tokens(j, m) && column == Column(m, j.dim) && delta0 == m.delta[..] && z0 == m.z[..]
    modifies m.delta, m.z, m.ssm
    ensures Scanned(j, toks, s0, |toks|, delta0, m.delta[..], z0, m.z[..])
    ensures Column(m, j.dim) == Stored(p, j.c, s0, toks, column, NumChunks(p))
    ensures forall i, d :: 0 <= i < m.ssm.Length0 && 0 <= d < m.ssm.Length1 && d != j.dim ==>
                             m.ssm[i, d] == old(m.ssm[i, d])
  {
    hide Scanned, Fold;
    FoldNothing(j.c, s0, toks);
    ScannedNone(j, toks, s0, delta0, z0);
    OffsetEnds(p, |j.u|);
    var firstChunk := FirstChunk(p);
    var nChunks := NumChunks(p);
    var chunkStartOffset := 0;
    if nChunks > 1 {
      var firstChunkTokens := p.cu[firstChunk + 1] - p.cu[firstChunk];
      if firstChunkTokens < p.blockSize {
        chunkStartOffset := p.blockSize - firstChunkTokens;
      }
    }
    var currentPosition := p.blockFirst * p.blockSize + chunkStartOffset;
    state := s0;
    var tokensProcessed := 0;
    for chunk := 0 to nChunks
      invariant tokensProcessed == Offset(p, chunk)
      invariant 0 <= tokensProcessed <= |toks|
      invariant currentPosition == StartPosition(p) + tokensProcessed
      invariant state == Fold(j.c, s0, toks[..tokensProcessed])
      invariant Scanned(j, toks, s0, tokensProcessed, delta0, m.delta[..], z0, m.z[..])
      invariant Column(m, j.dim) == Stored(p, j.c, s0, toks, column, chunk)
      invariant forall i, d :: 0 <= i < m.ssm.Length0 && 0 <= d < m.ssm.Length1 && d != j.dim ==>
                                 m.ssm[i, d] == old(m.ssm[i, d])
    {
      OffsetBounds(p, |j.u|, chunk);
      SlotBounds(p, |j.u|, m.ssm.Length0, chunk);
      var chunkTokens := p.cu[firstChunk + chunk + 1] - p.cu[firstChunk + chunk];
      state := ScanTokens(j, m, state, tokensProcessed, tokensProcessed + chunkTokens, toks, s0, delta0, z0);
      tokensProcessed := tokensProcessed + chunkTokens;
      var storeSlot;
      if chunk == nChunks - 1 {
        storeSlot := p.table[p.blockLast];
      } else {
        var blockIdxDone := (currentPosition + chunkTokens - 1) / p.blockSize;
        storeSlot := p.table[blockIdxDone];
      }
      StoreState(m, storeSlot, j.dim, state);
      currentPosition := currentPosition + chunkTokens;
    }
  }
}
