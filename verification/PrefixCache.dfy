/** Prefix caching over whole requests: whatever way a request is cut into prefill steps and
    whatever other requests do in between to every slot but one, each step starts from the plain
    scan's state, gives the plain scan's outputs and leaves the plain scan's state at every block
    boundary it passes. */
module PrefixCache {
  import opened Arithmetic
  import opened SelectiveScan
  import opened ScanKernel
  import opened ScanMetadata

  /** The blocks [lo, hi) of a request have distinct existing slots. */
  ghost predicate GoodTable(table: seq<nat>, lo: int, hi: int, slots: nat) {
    && 0 <= lo && hi <= |table|
    && (forall b :: lo <= b < hi ==> table[b] < slots)
    && forall a, b :: lo <= a < b < hi ==> table[a] != table[b]
  }

  /** The block of the last computed token, whose slot the kernel loads from. */
  function LoadBlock(n: nat, bs: nat): nat
    requires bs > 0
  {
    CeilStep(n, bs);
    if n == 0 then 0 else CeilDiv(n, bs) - 1
  }

  /** Tokens covered by blocks 0..b of a request with n computed tokens. */
  function CoveredBy(b: nat, n: nat, bs: nat): int {
    Min((b + 1) * bs, n)
  }

  function Blank(dstate: nat): State { seq(dstate, _ => 0.0) }

  lemma CoveredBounds(b: nat, n: nat, bs: nat)
    ensures 0 <= CoveredBy(b, n, bs) <= n
  {
    MulLe(0, b + 1, bs);
  }

  ghost predicate Holds(c: Coeffs, dstate: nat, all: seq<Token>, b: nat, n: nat, bs: nat, state: State)
    requires n <= |all|
  {
    CoveredBounds(b, n, bs);
    state == Fold(c, Blank(dstate), all[..CoveredBy(b, n, bs)])
  }

  /** The one slot a request with n computed tokens depends on holds the plain scan's state after them. */
  ghost predicate Ready(c: Coeffs, dstate: nat, all: seq<Token>, n: nat, bs: nat, table: seq<nat>, column: seq<State>)
    requires bs > 0 && n <= |all|
  {
    n > 0 ==>
      && LoadBlock(n, bs) < |table| && table[LoadBlock(n, bs)] < |column|
      && column[table[LoadBlock(n, bs)]] == Fold(c, Blank(dstate), all[..n])
  }

  // ----- one prefill step

  /** One prefill step of a request: m new tokens after n computed ones, laid out as request r of
      a batch, with the request's block table.  Blocks below the one of the last computed token
      may be anything: the block manager has freed them. */
  datatype Step = Step(table: seq<nat>, cu: seq<int>, last: seq<int>, r: nat, n: nat, m: nat, bs: nat)

  ghost predicate GoodStep(st: Step, slots: nat) {
    && st.bs > 0 && st.m > 0
    && Laid(st.cu, st.last, st.r, st.n, st.m, st.bs)
    && GoodTable(st.table, st.n / st.bs, CeilDiv(st.n + st.m, st.bs), slots)
    && LoadBlock(st.n, st.bs) < |st.table| && st.table[LoadBlock(st.n, st.bs)] < slots
  }

  function PlanFor(st: Step): Plan
    requires st.bs > 0 && st.m > 0
  {
    PlanOf(st.table, st.cu, st.last, st.r, st.n, st.m, st.bs)
  }

  function Chunks(st: Step): int
    requires st.bs > 0
  {
    ChunkCount(st.n, st.m, st.bs)
  }

  lemma BlocksOf(st: Step)
    requires st.bs > 0 && st.m > 0
    ensures st.n / st.bs + Chunks(st) == CeilDiv(st.n + st.m, st.bs)
    ensures CeilDiv(st.n, st.bs) <= CeilDiv(st.n + st.m, st.bs)
    ensures 0 <= st.n / st.bs < CeilDiv(st.n + st.m, st.bs)
  {
    CeilStep(st.n + st.m, st.bs);
    DivMonotone(st.n + st.bs - 1, st.n + st.m + st.bs - 1, st.bs);
    DivMonotone(st.n, st.n + st.m - 1, st.bs);
    DivMonotone(0, st.n, st.bs);
  }

  lemma ChunkBlock(st: Step, slots: nat, k: nat)
    requires GoodStep(st, slots) && k < Chunks(st)
    ensures st.n / st.bs + k < |st.table| && st.table[st.n / st.bs + k] < slots
    ensures Boundaries(PlanFor(st), st.m) && BlockOf(PlanFor(st), k) == st.n / st.bs + k
  {
    hide Laid, ChunkCount, Boundaries;
    BlocksOf(st);
    BlockOfChunk(st.table, st.cu, st.last, st.r, st.n, st.m, st.bs, k);
  }

  lemma StepLoadable(st: Step, slots: nat)
    requires GoodStep(st, slots)
    ensures Loadable(PlanFor(st), st.m, slots)
    ensures NumChunks(PlanFor(st)) == Chunks(st) > 0
    ensures forall k :: 0 <= k <= Chunks(st) ==> Offset(PlanFor(st), k) == Boundary(st.n, st.m, st.bs, k)
  {
    hide Laid, ChunkCount, Boundary;
    var p := PlanFor(st);
    PlanShape(st.table, st.cu, st.last, st.r, st.n, st.m, st.bs);
    CountCovers(st.n, st.m, st.bs);
    BlocksOf(st);
    CeilStep(st.n + st.m, st.bs);
    forall k | 0 <= k < NumChunks(p)
      ensures 0 <= BlockOf(p, k) < |p.table| && p.table[BlockOf(p, k)] < slots
    {
      ChunkBlock(st, slots, k);
    }
  }

  /** The cache column once the first k chunks of the step are stored. */
  ghost function After(st: Step, c: Coeffs, s0: State, toks: seq<Token>, column: seq<State>, k: nat): (r: seq<State>)
    requires GoodStep(st, |column|) && |toks| == st.m && k <= Chunks(st)
    ensures |r| == |column|
  {
    StepLoadable(st, |column|);
    Stored(PlanFor(st), c, s0, toks, column, k)
  }

  /** The slot of the block that chunk k of the step ends in. */
  function SlotOf(st: Step, k: nat): nat
    requires st.bs > 0
  {
    var b := st.n / st.bs + k;
    if 0 <= b < |st.table| then st.table[b] else 0
  }

  /** The new tokens up to the end of chunk k. */
  function UpTo(st: Step, toks: seq<Token>, k: nat): seq<Token>
    requires st.bs > 0
  {
    var e := Boundary(st.n, st.m, st.bs, k + 1);
    if 0 <= e <= |toks| then toks[..e] else toks
  }

  lemma AfterStep(st: Step, c: Coeffs, s0: State, toks: seq<Token>, column: seq<State>, k: nat)
    requires GoodStep(st, |column|) && |toks| == st.m && k < Chunks(st)
    ensures SlotOf(st, k) < |column|
    ensures After(st, c, s0, toks, column, k + 1)
            == After(st, c, s0, toks, column, k)[SlotOf(st, k) := Fold(c, s0, UpTo(st, toks, k))]
  {
    hide Laid, ChunkCount, Fold, Boundary, BlockOf;
    StepLoadable(st, |column|);
    ChunkBlock(st, |column|, k);
    DivMonotone(0, st.n, st.bs);
    BoundaryMonotone(st.n, st.m, st.bs, 0, k + 1);
    assert Offset(PlanFor(st), k + 1) == Boundary(st.n, st.m, st.bs, k + 1);
  }

  lemma SlotsDiffer(st: Step, slots: nat, j: nat, k: nat)
    requires GoodStep(st, slots) && j < k < Chunks(st)
    ensures SlotOf(st, j) != SlotOf(st, k)
  {
    hide Laid, ChunkCount;
    BlocksOf(st);
  }

  /** The stores of one step, block by block. */
  lemma {:induction false} AfterAt(st: Step, c: Coeffs, s0: State, toks: seq<Token>, column: seq<State>, k: nat, b: nat)
    requires GoodStep(st, |column|) && |toks| == st.m && k <= Chunks(st) && b < Chunks(st)
    ensures SlotOf(st, b) < |column|
    ensures After(st, c, s0, toks, column, k)[SlotOf(st, b)]
            == if b < k then Fold(c, s0, UpTo(st, toks, b)) else column[SlotOf(st, b)]
  {
    hide Laid, Chunks, Fold, UpTo, PlanFor, SlotOf;
    AfterStep(st, c, s0, toks, column, b);
    if k > 0 {
      AfterAt(st, c, s0, toks, column, k - 1, b);
      AfterStep(st, c, s0, toks, column, k - 1);
      if k - 1 < b { SlotsDiffer(st, |column|, k - 1, b); }
      if b < k - 1 { SlotsDiffer(st, |column|, b, k - 1); }
    }
  }

  lemma {:induction false} AfterElsewhere(st: Step, c: Coeffs, s0: State, toks: seq<Token>, column: seq<State>,
                                          k: nat, slot: nat)
    requires GoodStep(st, |column|) && |toks| == st.m && k <= Chunks(st) && slot < |column|
    requires forall b :: 0 <= b < Chunks(st) ==> SlotOf(st, b) != slot
    ensures After(st, c, s0, toks, column, k)[slot] == column[slot]
  {
    hide Laid, Chunks, Fold, UpTo, PlanFor, SlotOf;
    if k > 0 {
      AfterElsewhere(st, c, s0, toks, column, k - 1, slot);
      AfterStep(st, c, s0, toks, column, k - 1);
    }
  }

  /** The state stored after chunk k is the plain scan's state at the end of that block. */
  lemma ChunkState(st: Step, c: Coeffs, dstate: nat, all: seq<Token>, k: nat)
    requires st.bs > 0 && st.m > 0 && st.n + st.m <= |all|
    ensures st.n / st.bs + k >= 0
    ensures Holds(c, dstate, all, st.n / st.bs + k, st.n + st.m, st.bs,
                  Fold(c, Fold(c, Blank(dstate), all[..st.n]), UpTo(st, all[st.n..st.n + st.m], k)))
  {
    hide Fold, Blank;
    DivMonotone(0, st.n, st.bs);
    BoundaryMonotone(st.n, st.m, st.bs, 0, k + 1);
    var e := Boundary(st.n, st.m, st.bs, k + 1);
    CoveredBounds(st.n / st.bs + k, st.n + st.m, st.bs);
    assert CoveredBy(st.n / st.bs + k, st.n + st.m, st.bs) == st.n + e;
    FoldAppend(c, Blank(dstate), all[..st.n], all[st.n..st.n + st.m][..e]);
    assert all[..st.n] + all[st.n..st.n + st.m][..e] == all[..st.n + e];
  }

  /** The blocks the step passes hold the plain scan's state at their end, or after the last token. */
  ghost predicate Snapshots(st: Step, c: Coeffs, dstate: nat, all: seq<Token>, column: seq<State>)
    requires GoodStep(st, |column|) && st.n + st.m <= |all|
  {
    forall b :: st.n / st.bs <= b < CeilDiv(st.n + st.m, st.bs) ==>
                  Holds(c, dstate, all, b, st.n + st.m, st.bs, column[st.table[b]])
  }

  lemma BlockAfter(st: Step, c: Coeffs, dstate: nat, all: seq<Token>, column: seq<State>, s0: State, b: nat)
    requires GoodStep(st, |column|) && st.n + st.m <= |all|
    requires s0 == Fold(c, Blank(dstate), all[..st.n]) && st.n / st.bs <= b < CeilDiv(st.n + st.m, st.bs)
    ensures Holds(c, dstate, all, b, st.n + st.m, st.bs,
                  After(st, c, s0, all[st.n..st.n + st.m], column, Chunks(st))[st.table[b]])
  {
    hide Laid, ChunkCount, Fold, Blank, UpTo, PlanFor;
    var toks := all[st.n..st.n + st.m];
    BlocksOf(st);
    var k := b - st.n / st.bs;
    AfterAt(st, c, s0, toks, column, Chunks(st), k);
    ChunkState(st, c, dstate, all, k);
  }

  /** The last snapshot is the state the next step loads. */
  lemma NextReady(st: Step, c: Coeffs, dstate: nat, all: seq<Token>, column: seq<State>)
    requires GoodStep(st, |column|) && st.n + st.m <= |all| && Snapshots(st, c, dstate, all, column)
    ensures Ready(c, dstate, all, st.n + st.m, st.bs, st.table, column)
  {
    hide Laid, Fold, Blank;
    BlocksOf(st);
    var n, b := st.n + st.m, CeilDiv(st.n + st.m, st.bs) - 1;
    CeilStep(n, st.bs);
    assert Holds(c, dstate, all, b, n, st.bs, column[st.table[b]]);
    DivBounds(n + st.bs - 1, st.bs);
  }

  /** The outputs of a scan of `toks` from s0 are those of the plain scan from position n on. */
  ghost predicate SameOutputs(c: Coeffs, s0: State, toks: seq<Token>, dstate: nat, all: seq<Token>, n: nat) {
    n + |toks| <= |all| && forall i :: 0 <= i < |toks| ==> OutAt(c, s0, toks, i) == OutAt(c, Blank(dstate), all, n + i)
  }

  ghost predicate Untouched(st: Step, slot: nat)
    requires st.bs > 0
  {
    forall k :: 0 <= k < Chunks(st) ==> SlotOf(st, k) != slot
  }

  /** The kernel job of one step: the load flag is set once there are computed tokens, the slot it
      finds is not the null block, and its inputs are those of the tokens n to n + m. */
  ghost predicate JobOf(j: Job, st: Step, all: seq<Token>)
    requires st.bs > 0 && st.m > 0 && st.n + st.m <= |all|
  {
    && |j.u| == |j.B| == |j.C| == st.m && (j.hasInit <==> st.n > 0)
    && LoadBlock(st.n, st.bs) < |st.table| && st.table[LoadBlock(st.n, st.bs)] != j.nullBlock
    && forall i :: 0 <= i < st.m ==>
                     j.u[i] == all[st.n + i].u && j.B[i] == all[st.n + i].B && j.C[i] == all[st.n + i].C
  }

  lemma NotSkipped(j: Job, st: Step, all: seq<Token>)
    requires st.bs > 0 && st.m > 0 && st.n + st.m <= |all| && JobOf(j, st, all)
    ensures !Skipped(Cached(PlanFor(st)), j.nullBlock)
  {
    CeilStep(st.n, st.bs);
  }

  /** One prefill step whose load slot is ready: the outputs are the plain scan's, the blocks it
      passes hold the plain scan's states, the next load slot is ready, and other slots keep their
      contents. */
  lemma PrefillStep(j: Job, st: Step, all: seq<Token>, column: seq<State>)
    requires GoodStep(st, |column|) && st.n + st.m <= |all| && JobOf(j, st, all)
    requires Ready(j.c, j.dstate, all, st.n, st.bs, st.table, column)
    ensures var mode := Cached(PlanFor(st));
            && Addressable(mode, |j.u|, |column|)
            && InitialState(j, mode, column) == Fold(j.c, Blank(j.dstate), all[..st.n])
            && var after := ColumnAfter(j, mode, all[st.n..st.n + st.m], column);
            && Snapshots(st, j.c, j.dstate, all, after)
            && Ready(j.c, j.dstate, all, st.n + st.m, st.bs, st.table, after)
            && forall slot :: 0 <= slot < |column| && Untouched(st, slot) ==> after[slot] == column[slot]
    ensures SameOutputs(j.c, Fold(j.c, Blank(j.dstate), all[..st.n]), all[st.n..st.n + st.m], j.dstate, all, st.n)
  {
    hide Laid, ChunkCount, Fold, OutAt, UpTo, Holds;
    StepLoadable(st, |column|);
    CeilStep(st.n, st.bs);
    var mode, toks := Cached(PlanFor(st)), all[st.n..st.n + st.m];
    var s0 := InitialState(j, mode, column);
    assert s0 == Fold(j.c, Blank(j.dstate), all[..st.n]) by {
      if st.n == 0 { FoldNothing(j.c, Blank(j.dstate), all); }
    }
    var after := ColumnAfter(j, mode, toks, column);
    assert after == After(st, j.c, s0, toks, column, Chunks(st));
    forall b | st.n / st.bs <= b < CeilDiv(st.n + st.m, st.bs)
      ensures Holds(j.c, j.dstate, all, b, st.n + st.m, st.bs, after[st.table[b]])
    {
      BlockAfter(st, j.c, j.dstate, all, column, s0, b);
    }
    NextReady(st, j.c, j.dstate, all, after);
    forall slot | 0 <= slot < |column| && Untouched(st, slot)
      ensures after[slot] == column[slot]
    {
      AfterElsewhere(st, j.c, s0, toks, column, Chunks(st), slot);
    }
    forall i | 0 <= i < st.m
      ensures OutAt(j.c, Fold(j.c, Blank(j.dstate), all[..st.n]), toks, i) == OutAt(j.c, Blank(j.dstate), all, st.n + i)
    {
      RestartOutput(j.c, j.dstate, all, st.n, st.m, i);
    }
  }

  lemma RestartOutput(c: Coeffs, dstate: nat, all: seq<Token>, n: nat, m: nat, i: nat)
    requires n + m <= |all| && i < m
    ensures OutAt(c, Fold(c, Blank(dstate), all[..n]), all[n..n + m], i) == OutAt(c, Blank(dstate), all, n + i)
  {
    hide Fold, Output, Blank;
    OutAfterRestart(c, Blank(dstate), all[..n], all[n..n + m], i);
    assert all[..n] + all[n..n + m] == all[..n + m];
    assert all[..n + m][..n + i + 1] == all[..n + i + 1];
  }

  // ----- the kernel on one step

  /** The rows after a step: outputs of the plain scan of the whole request at positions n to n + m. */
  ghost predicate RowsOfStep(j: Job, st: Step, all: seq<Token>, delta0: seq<real>, delta: seq<real>, z0: seq<real>,
                             z: seq<real>)
    requires st.n + st.m <= |all|
  {
    && |delta| == |delta0| && |z| == |z0|
    && (forall i :: 0 <= i < |delta| ==>
                      delta[i] == if j.base <= i < j.base + st.m
                          then OutAt(j.c, Blank(j.dstate), all, st.n + i - j.base)
                                  else delta0[i])
    && (forall i :: 0 <= i < |z| ==>
                      z[i] == if j.hasZ && j.zBase <= i < j.zBase + st.m
                              then Gate(j.c, OutAt(j.c, Blank(j.dstate), all, st.n + i - j.zBase),
                                  all[st.n + i - j.zBase].z)
                              else z0[i])
  }

  lemma ScannedIsStep(j: Job, st: Step, all: seq<Token>, s0: State,
                      delta0: seq<real>, delta: seq<real>, z0: seq<real>, z: seq<real>)
    requires st.n + st.m <= |all|
    requires SameOutputs(j.c, s0, all[st.n..st.n + st.m], j.dstate, all, st.n)
    requires Scanned(j, all[st.n..st.n + st.m], s0, st.m, delta0, delta, z0, z)
    ensures RowsOfStep(j, st, all, delta0, delta, z0, z)
  {
    hide OutAt, Gate, Blank;
    var toks := all[st.n..st.n + st.m];
    forall i | 0 <= i < st.m
      ensures OutAt(j.c, s0, toks, i) == OutAt(j.c, Blank(j.dstate), all, st.n + i) && toks[i] == all[st.n + i]
    {}
  }

  /** The kernel itself, on memory: with the load slot ready it overwrites delta and z with the plain
      scan's outputs and leaves the snapshots of the step in the cache. */
  method RunStep(j: Job, st: Step, m: Memory, ghost all: seq<Token>)
    requires ScanKernel.Fits(j, m) && GoodStep(st, m.ssm.Length0) && st.n + st.m <= |all| && JobOf(j, st, all)
    requires Tokens(j, m) == all[st.n..st.n + st.m]
    requires Ready(j.c, j.dstate, all, st.n, st.bs, st.table, Column(m, j.dim))
    modifies m.delta, m.z, m.ssm
    ensures RowsOfStep(j, st, all, old(m.delta[..]), m.delta[..], old(m.z[..]), m.z[..])
    ensures Addressable(Cached(PlanFor(st)), st.m, m.ssm.Length0)
    ensures Column(m, j.dim) == ColumnAfter(j, Cached(PlanFor(st)), all[st.n..st.n + st.m], old(Column(m, j.dim)))
    ensures Snapshots(st, j.c, j.dstate, all, Column(m, j.dim))
    ensures Ready(j.c, j.dstate, all, st.n + st.m, st.bs, st.table, Column(m, j.dim))
    ensures forall i, d :: 0 <= i < m.ssm.Length0 && 0 <= d < m.ssm.Length1 && d != j.dim ==>
                             m.ssm[i, d] == old(m.ssm[i, d])
  {
    NotSkipped(j, st, all);
    hide GoodStep, Scanned, Ready, Snapshots, SameOutputs, ColumnAfter, RowsOfStep, Addressable, Tokens;
    ghost var column := Column(m, j.dim);
    ghost var delta0, z0 := m.delta[..], m.z[..];
    PrefillStep(j, st, all, column);
    RunProgram(j, Cached(PlanFor(st)), m);
    ScannedIsStep(j, st, all, Fold(j.c, Blank(j.dstate), all[..st.n]), delta0, m.delta[..], z0, m.z[..]);
  }

  // ----- whole runs

  /** One visit of a request to the kernel: the job, the step and the cache column it finds. */
  datatype Visit = Visit(job: Job, step: Step, before: seq<State>)

  ghost predicate GoodVisit(v: Visit, all: seq<Token>) {
    && GoodStep(v.step, |v.before|) && v.step.n + v.step.m <= |all| && JobOf(v.job, v.step, all)
  }

  /** What the kernel makes of the column: RunStep proves it of the kernel's memory. */
  ghost function AfterVisit(v: Visit, all: seq<Token>): (r: seq<State>)
    requires GoodVisit(v, all)
    ensures |r| == |v.before|
  {
    StepLoadable(v.step, |v.before|);
    ColumnAfter(v.job, Cached(PlanFor(v.step)), all[v.step.n..v.step.n + v.step.m], v.before)
  }

  /** The next visit goes on where the last one stopped.  In between the block manager may change
      the table and other requests may rewrite every slot, except the entry and the slot of the
      last computed block. */
  ghost predicate Follows(v: Visit, w: Visit, all: seq<Token>)
    requires GoodVisit(v, all) && GoodVisit(w, all)
  {
    && w.step.n == v.step.n + v.step.m && w.step.bs == v.step.bs
    && w.job.c == v.job.c && w.job.dstate == v.job.dstate
    && |w.before| == |v.before|
    && var b := LoadBlock(w.step.n, w.step.bs);
    && b < |v.step.table| && w.step.table[b] == v.step.table[b]
    && w.before[w.step.table[b]] == AfterVisit(v, all)[w.step.table[b]]
  }

  ghost predicate Run(visits: seq<Visit>, all: seq<Token>) {
    && (forall i :: 0 <= i < |visits| ==> GoodVisit(visits[i], all))
    && forall i :: 0 < i < |visits| ==> Follows(visits[i - 1], visits[i], all)
  }

  ghost predicate Sound(v: Visit, all: seq<Token>)
    requires GoodVisit(v, all)
  {
    var st, j := v.step, v.job;
    && Ready(j.c, j.dstate, all, st.n, st.bs, st.table, v.before)
    && Snapshots(st, j.c, j.dstate, all, AfterVisit(v, all))
    && Ready(j.c, j.dstate, all, st.n + st.m, st.bs, st.table, AfterVisit(v, all))
    && SameOutputs(j.c, Fold(j.c, Blank(j.dstate), all[..st.n]), all[st.n..st.n + st.m], j.dstate, all, st.n)
  }

  lemma VisitSound(v: Visit, all: seq<Token>)
    requires GoodVisit(v, all)
    requires Ready(v.job.c, v.job.dstate, all, v.step.n, v.step.bs, v.step.table, v.before)
    ensures Sound(v, all)
  {
    hide GoodStep, ColumnAfter, SameOutputs, Ready, Snapshots, JobOf;
    PrefillStep(v.job, v.step, all, v.before);
  }

  lemma FollowReady(v: Visit, w: Visit, all: seq<Token>)
    requires GoodVisit(v, all) && GoodVisit(w, all) && Sound(v, all) && Follows(v, w, all)
    ensures Ready(w.job.c, w.job.dstate, all, w.step.n, w.step.bs, w.step.table, w.before)
  {
    hide Laid, AfterVisit, SameOutputs, Snapshots, Fold, Blank;
  }

  /** However a request is cut into visits, every visit finds the right state, produces the outputs of
      the uninterrupted scan and leaves the right snapshots. */
  lemma {:induction false} EveryRunIsThePlainScan(visits: seq<Visit>, all: seq<Token>, i: nat)
    requires Run(visits, all) && i < |visits|
    requires visits[0].step.n == 0
           || (var v := visits[0]; Ready(v.job.c, v.job.dstate, all, v.step.n, v.step.bs, v.step.table, v.before))
    ensures Sound(visits[i], all)
  {
    hide GoodVisit, Sound, Follows;
    if i == 0 {
      FirstReady(visits[0], all);
      VisitSound(visits[0], all);
    } else {
      EveryRunIsThePlainScan(visits, all, i - 1);
      assert Follows(visits[i - 1], visits[i], all);
      FollowReady(visits[i - 1], visits[i], all);
      VisitSound(visits[i], all);
    }
  }

  lemma FirstReady(v: Visit, all: seq<Token>)
    requires GoodVisit(v, all)
    ensures v.step.n == 0 ==> Ready(v.job.c, v.job.dstate, all, v.step.n, v.step.bs, v.step.table, v.before)
  {
  }

  /** A request that shares its first k blocks with another may start from the other's snapshot of the
      last of them, found in one slot; the entries before it do not matter. */
  lemma SharedPrefix(c: Coeffs, dstate: nat, bs: nat, column: seq<State>, k: nat, slot: nat,
                     all: seq<Token>, n: nat, other: seq<Token>, otherTable: seq<nat>)
    requires bs > 0 && k > 0 && 0 <= k * bs <= n <= |all| && k * bs <= |other| && slot < |column|
    requires Holds(c, dstate, all, k - 1, n, bs, column[slot])
    requires other[..k * bs] == all[..k * bs]
    requires k <= |otherTable| && otherTable[k - 1] == slot
    ensures LoadBlock(k * bs, bs) == k - 1 && Ready(c, dstate, other, k * bs, bs, otherTable, column)
  {
    hide Fold, Blank;
    MulLe(1, k, bs);
    DivUnique(k * bs + bs - 1, bs, k);
  }
}
