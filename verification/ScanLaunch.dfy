/** The launch over packed sequences: every (batch, dim) program has its own row of tokens, and the cache slots of
    different sequences are apart, so the programs are independent. */
module ScanLaunch {
  import opened Arithmetic
  import opened SelectiveScan
  import opened ScanKernel
  import opened ScanGrid

  datatype Program = Program(batch: nat, job: Job, mode: Mode)

  ghost predicate StoresTo(mode: Mode, len: nat, slots: nat, s: nat)
    requires Addressable(mode, len, slots)
  {
    match mode
    case Cached(p) => exists k: nat :: k < NumChunks(p) && StoresChunk(p, len, slots, k, s)
    case Indexed(slot) => s == slot
    case Direct(slot) => s == slot
  }

  ghost predicate StoresChunk(p: Plan, len: nat, slots: nat, k: nat, s: nat)
    requires Loadable(p, len, slots) && k < NumChunks(p)
  {
    p.table[BlockOf(p, k)] == s
  }

  /** A program that finds the null block stores and loads nothing. */
  ghost predicate Stores(g: Program, slots: nat, s: nat)
    requires Addressable(g.mode, |g.job.u|, slots)
  {
    !Skipped(g.mode, g.job.nullBlock) && StoresTo(g.mode, |g.job.u|, slots, s)
  }

  ghost predicate Uses(g: Program, slots: nat, s: nat)
    requires Addressable(g.mode, |g.job.u|, slots)
  {
    Stores(g, slots, s) || (!Skipped(g.mode, g.job.nullBlock) && g.job.hasInit && s == LoadSlot(g.mode))
  }

  /** The tokens of sequence b are columns starts[b] to starts[b + 1] of a (dim, total) tensor. */
  ghost predicate Packed(starts: seq<nat>, total: nat) {
    |starts| > 0 && forall i, j :: 0 <= i <= j < |starts| ==> starts[i] <= starts[j] <= total
  }

  ghost predicate Placed(g: Program, starts: seq<nat>, total: nat, slots: nat) {
    && g.batch + 1 < |starts| && |g.job.B| == |g.job.u| && |g.job.C| == |g.job.u|
    && starts[g.batch] + |g.job.u| == starts[g.batch + 1]
    && g.job.base == g.job.dim * total + starts[g.batch]
    && (g.job.hasZ ==> g.job.zBase == g.job.dim * total + starts[g.batch])
    && Addressable(g.mode, |g.job.u|, slots)
  }

  /** One program per (batch, dim), and no sequence stores into a slot that another one uses. */
  ghost predicate Launch(programs: seq<Program>, starts: seq<nat>, total: nat, slots: nat) {
    && Packed(starts, total)
    && (forall i :: 0 <= i < |programs| ==> Placed(programs[i], starts, total, slots))
    && (forall i, j :: 0 <= i < |programs| && 0 <= j < |programs| && i != j ==>
                         programs[i].batch != programs[j].batch || programs[i].job.dim != programs[j].job.dim)
    && (forall i, j :: 0 <= i < |programs| && 0 <= j < |programs| && programs[i].batch != programs[j].batch ==>
                         SlotsApart(programs[i], programs[j], slots))
  }

  ghost predicate SlotsApart(g: Program, h: Program, slots: nat) {
    && Addressable(g.mode, |g.job.u|, slots) && Addressable(h.mode, |h.job.u|, slots)
    && forall s :: Stores(g, slots, s) ==> !Uses(h, slots, s)
  }

  ghost function ThreadOf(g: Program, slots: nat): Thread
    requires Addressable(g.mode, |g.job.u|, slots)
  {
    Thread(g.job, CodeOf(g.job, g.mode, slots))
  }

  // ----- what the code of a program touches

  ghost predicate Proper(j: Job, mode: Mode, slots: nat, ins: Instr)
    requires Addressable(mode, |j.u|, slots)
  {
    match ins
    case Load(slot) => j.hasInit && slot == LoadSlot(mode)
    case Scan(pos) => pos < |j.u|
    case Store(slot) => StoresTo(mode, |j.u|, slots, slot)
  }

  ghost predicate AllProper(j: Job, mode: Mode, slots: nat, code: seq<Instr>)
    requires Addressable(mode, |j.u|, slots)
  {
    forall i :: 0 <= i < |code| ==> Proper(j, mode, slots, code[i])
  }

  lemma {:induction false} ChunkCodeProper(j: Job, p: Plan, slots: nat, k: nat)
    requires Loadable(p, |j.u|, slots) && k <= NumChunks(p)
    ensures AllProper(j, Cached(p), slots, ChunkCode(p, |j.u|, slots, k))
  {
    hide BlockOf, Loadable;
    if k > 0 {
      LoadableBounds(p, |j.u|, slots);
      OffsetBounds(p, |j.u|, k - 1);
      ChunkCodeProper(j, p, slots, k - 1);
      SlotBounds(p, |j.u|, slots, k - 1);
      assert StoresChunk(p, |j.u|, slots, k - 1, p.table[BlockOf(p, k - 1)]);
    }
  }

  lemma LoadableBounds(p: Plan, len: nat, slots: nat)
    requires Loadable(p, len, slots)
    ensures Boundaries(p, len)
  {
  }

  lemma CodeProper(j: Job, mode: Mode, slots: nat)
    requires Addressable(mode, |j.u|, slots)
    ensures AllProper(j, mode, slots, CodeOf(j, mode, slots))
  {
    hide BlockOf, StoresChunk;
    if mode.Cached? { ChunkCodeProper(j, mode.plan, slots, NumChunks(mode.plan)); }
  }

  ghost predicate InRow(g: Program, x: Cell) {
    match x
    case OutCell(i) => g.job.base <= i < g.job.base + |g.job.u|
    case GateCell(i) => g.job.hasZ && g.job.zBase <= i < g.job.zBase + |g.job.u|
    case SsmCell(_, d) => d == g.job.dim
  }

  lemma TouchedCells(g: Program, slots: nat, x: Cell)
    requires Addressable(g.mode, |g.job.u|, slots)
    ensures TouchedBy(ThreadOf(g, slots), x) ==> InRow(g, x) && (x.SsmCell? ==> Uses(g, slots, x.slot))
    ensures WrittenBy(ThreadOf(g, slots), x) ==> x.SsmCell? ==> Stores(g, slots, x.slot)
  {
    CodeProper(g.job, g.mode, slots);
    assert Skipped(g.mode, g.job.nullBlock) ==> CodeOf(g.job, g.mode, slots) == [];
    hide CodeOf, Addressable, StoresTo;
    var code := CodeOf(g.job, g.mode, slots);
    forall i | 0 <= i < |code| ensures Proper(g.job, g.mode, slots, code[i]) {}
  }

  // ----- rows of different programs are apart

  lemma RowsApart(starts: seq<nat>, total: nat, b: nat, c: nat, d: nat, e: nat, i: int)
    requires Packed(starts, total) && b + 1 < |starts| && c + 1 < |starts| && (b != c || d != e)
    requires d * total + starts[b] <= i < d * total + starts[b + 1]
    ensures !(e * total + starts[c] <= i < e * total + starts[c + 1])
  {
    MulNext(d, total);
    MulNext(e, total);
    MulLe(d + 1, e, total);
    MulLe(e + 1, d, total);
    assert starts[b + 1] <= total && starts[c + 1] <= total;
    assert b < c ==> starts[b + 1] <= starts[c];
    assert c < b ==> starts[c + 1] <= starts[b];
  }

  lemma ProgramsApart(g: Program, h: Program, starts: seq<nat>, total: nat, slots: nat, x: Cell)
    requires Packed(starts, total) && Placed(g, starts, total, slots) && Placed(h, starts, total, slots)
    requires g.batch != h.batch || g.job.dim != h.job.dim
    requires g.batch != h.batch ==> SlotsApart(g, h, slots)
    ensures WrittenBy(ThreadOf(g, slots), x) ==> !TouchedBy(ThreadOf(h, slots), x)
  {
    TouchedCells(g, slots, x);
    TouchedCells(h, slots, x);
    if WrittenBy(ThreadOf(g, slots), x) {
      WrittenIsTouched(ThreadOf(g, slots), x);
      hide ThreadOf, TouchedBy, WrittenBy, StoresTo, Addressable, Packed;
      if !x.SsmCell? {
        RowsApart(starts, total, g.batch, h.batch, g.job.dim, h.job.dim, x.i);
      }
    }
  }

  /** A launch is a set of independent programs. */
  lemma LaunchIsIndependent(programs: seq<Program>, starts: seq<nat>, total: nat, slots: nat, threads: seq<Thread>)
    requires Launch(programs, starts, total, slots) && |threads| == |programs|
    requires forall i :: 0 <= i < |threads| ==>
             Placed(programs[i], starts, total, slots) && threads[i] == ThreadOf(programs[i], slots)
    ensures Independent(threads)
  {
    hide Placed, SlotsApart, WrittenBy, TouchedBy, Packed;
    forall i | 0 <= i < |threads| ensures WellCoded(threads[i]) {
      PlacedRuns(programs[i], starts, total, slots);
    }
    forall i, j, x | 0 <= i < |threads| && 0 <= j < |threads| && i != j && WrittenBy(threads[i], x)
      ensures !TouchedBy(threads[j], x)
    {
      ProgramsApart(programs[i], programs[j], starts, total, slots, x);
    }
  }

  lemma PlacedRuns(g: Program, starts: seq<nat>, total: nat, slots: nat)
    requires Placed(g, starts, total, slots)
    ensures WellCoded(ThreadOf(g, slots))
  {
    CodeProper(g.job, g.mode, slots);
    hide CodeOf, Addressable;
    var code := CodeOf(g.job, g.mode, slots);
    forall i | 0 <= i < |code| && code[i].Scan? ensures code[i].pos < |g.job.u| {
      assert Proper(g.job, g.mode, slots, code[i]);
    }
  }
}
