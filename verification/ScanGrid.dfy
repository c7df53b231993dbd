/** The launch grid of the scan kernel: the (batch, dim) programs run concurrently, interleaved
    instruction by instruction.  If no program writes a cell that another one touches, every
    interleaving leaves the memory that the programs leave when each runs alone. */
module ScanGrid {
  import opened SelectiveScan
  import opened ScanKernel

  datatype Cell = OutCell(i: nat) | GateCell(i: nat) | SsmCell(slot: nat, dim: nat)
  datatype Value = Num(x: real) | Vec(v: State)
  type Mem = map<Cell, Value>

  function Read(mem: Mem, x: Cell): Value { if x in mem then mem[x] else Num(0.0) }
  function ReadNum(mem: Mem, x: Cell): real { var v := Read(mem, x); if v.Num? then v.x else 0.0 }
  function ReadVec(mem: Mem, x: Cell): State { var v := Read(mem, x); if v.Vec? then v.v else [] }

  /** What one program does, in order. */
  datatype Instr = Load(slot: nat) | Scan(pos: nat) | Store(slot: nat)

  datatype Thread = Thread(job: Job, code: seq<Instr>)

  ghost predicate WellCoded(t: Thread) {
    Runs(t.job, t.code)
  }

  /** The cells an instruction reads or writes, and those it writes. */
  function Touches(j: Job, ins: Instr): set<Cell> {
    match ins
    case Load(slot) => {SsmCell(slot, j.dim)}
    case Scan(pos) => {OutCell(j.base + pos)} + if j.hasZ then {GateCell(j.zBase + pos)} else {}
    case Store(slot) => {SsmCell(slot, j.dim)}
  }

  function Writes(j: Job, ins: Instr): set<Cell> {
    if ins.Load? then {} else Touches(j, ins)
  }

  function Loaded(j: Job, mem: Mem, pos: nat): Token
    requires pos < |j.u| && |j.B| == |j.u| && |j.C| == |j.u|
  {
    Token(j.u[pos], ReadNum(mem, OutCell(j.base + pos)),
          if j.hasZ then ReadNum(mem, GateCell(j.zBase + pos)) else 0.0, j.B[pos], j.C[pos])
  }

  /** One instruction: the register state and the memory afterwards. */
  function Exec(j: Job, ins: Instr, s: State, mem: Mem): (State, Mem)
    requires |j.B| == |j.u| && |j.C| == |j.u| && (ins.Scan? ==> ins.pos < |j.u|)
  {
    match ins
    case Load(slot) => (ReadVec(mem, SsmCell(slot, j.dim)), mem)
    case Scan(pos) =>
      var t := Loaded(j, mem, pos);
      var s' := Advance(j.c, s, t);
      var out := Output(j.c, s', t);
      var mem' := mem[OutCell(j.base + pos) := Num(out)];
      (s', if j.hasZ then mem'[GateCell(j.zBase + pos) := Num(Gate(j.c, out, t.z))] else mem')
    case Store(slot) => (s, mem[SsmCell(slot, j.dim) := Vec(s)])
  }

  lemma ExecFrame(j: Job, ins: Instr, s: State, mem: Mem, x: Cell)
    requires |j.B| == |j.u| && |j.C| == |j.u| && (ins.Scan? ==> ins.pos < |j.u|)
    requires x !in Writes(j, ins)
    ensures Read(Exec(j, ins, s, mem).1, x) == Read(mem, x)
  {
  }

  /** An instruction depends on nothing but the register state and the cells it touches. */
  lemma ExecLocal(j: Job, ins: Instr, s: State, mem: Mem, mem': Mem)
    requires |j.B| == |j.u| && |j.C| == |j.u| && (ins.Scan? ==> ins.pos < |j.u|)
    requires forall x :: x in Touches(j, ins) ==> Read(mem, x) == Read(mem', x)
    ensures Exec(j, ins, s, mem).0 == Exec(j, ins, s, mem').0
    ensures forall x :: x in Writes(j, ins) ==>
                          Read(Exec(j, ins, s, mem).1, x) == Read(Exec(j, ins, s, mem').1, x)
  {
    hide Advance, Output, Gate;
    if ins.Scan? {
      assert OutCell(j.base + ins.pos) in Touches(j, ins);
      assert j.hasZ ==> GateCell(j.zBase + ins.pos) in Touches(j, ins);
      assert Loaded(j, mem, ins.pos) == Loaded(j, mem', ins.pos);
    } else {
      assert SsmCell(ins.slot, j.dim) in Touches(j, ins);
    }
  }

  // ----- one program alone

  ghost predicate Runs(j: Job, code: seq<Instr>) {
    && |j.B| == |j.u| && |j.C| == |j.u|
    && forall i :: 0 <= i < |code| && code[i].Scan? ==> code[i].pos < |j.u|
  }

  ghost function ExecAll(j: Job, code: seq<Instr>, s: State, mem: Mem): (State, Mem)
    requires Runs(j, code)
  {
    if code == [] then (s, mem)
    else
      var (s', m) := ExecAll(j, code[..|code| - 1], s, mem);
      Exec(j, code[|code| - 1], s', m)
  }

  /** The first k instructions of a program that has the machine to itself. */
  ghost function Solo(t: Thread, mem: Mem, k: nat): (State, Mem)
    requires WellCoded(t) && k <= |t.code|
  {
    ExecAll(t.job, t.code[..k], seq(t.job.dstate, _ => 0.0), mem)
  }

  lemma SoloStep(t: Thread, mem: Mem, k: nat)
    requires WellCoded(t) && k < |t.code|
    ensures Solo(t, mem, k + 1) == Exec(t.job, t.code[k], Solo(t, mem, k).0, Solo(t, mem, k).1)
  {
    hide Exec;
    assert t.code[..k + 1][..k] == t.code[..k];
  }

  ghost predicate TouchedBy(t: Thread, x: Cell) {
    exists i :: 0 <= i < |t.code| && x in Touches(t.job, t.code[i])
  }

  ghost predicate WrittenBy(t: Thread, x: Cell) {
    exists i :: 0 <= i < |t.code| && x in Writes(t.job, t.code[i])
  }

  // ----- the grid

  datatype Local = Local(pc: nat, state: State)
  datatype Config = Config(mem: Mem, locals: seq<Local>)

  ghost predicate Independent(threads: seq<Thread>) {
    && (forall i :: 0 <= i < |threads| ==> WellCoded(threads[i]))
    && forall i, j, x :: 0 <= i < |threads| && 0 <= j < |threads| && i != j && WrittenBy(threads[i], x) ==>
                           !TouchedBy(threads[j], x)
  }

  ghost function Initial(threads: seq<Thread>, mem: Mem): Config {
    Config(mem, seq(|threads|, i requires 0 <= i < |threads| => Local(0, seq(threads[i].job.dstate, _ => 0.0))))
  }

  /** Thread i executes its next instruction; a finished thread does nothing. */
  ghost function StepThread(threads: seq<Thread>, cfg: Config, i: nat): Config
    requires |cfg.locals| == |threads| && i < |threads| && WellCoded(threads[i])
  {
    var l := cfg.locals[i];
    if l.pc < |threads[i].code| then
      var (s, m) := Exec(threads[i].job, threads[i].code[l.pc], l.state, cfg.mem);
      Config(m, cfg.locals[i := Local(l.pc + 1, s)])
    else cfg
  }

  /** Every interleaving: thread ids in the order in which they are scheduled. */
  ghost function RunSchedule(threads: seq<Thread>, cfg: Config, schedule: seq<nat>): (r: Config)
    requires |cfg.locals| == |threads| && Independent(threads)
    requires forall k :: 0 <= k < |schedule| ==> schedule[k] < |threads|
    ensures |r.locals| == |threads|
  {
    if schedule == [] then cfg
    else StepThread(threads, RunSchedule(threads, cfg, schedule[..|schedule| - 1]), schedule[|schedule| - 1])
  }

  ghost predicate ThreadView(t: Thread, mem0: Mem, mem: Mem, l: Local)
    requires WellCoded(t)
  {
    && l.pc <= |t.code|
    && l.state == Solo(t, mem0, l.pc).0
    && forall x :: TouchedBy(t, x) ==> Read(mem, x) == Read(Solo(t, mem0, l.pc).1, x)
  }

  /** Each thread sees what it would see alone; cells nobody writes keep their contents. */
  ghost predicate GridInv(threads: seq<Thread>, mem0: Mem, cfg: Config)
    requires Independent(threads)
  {
    && |cfg.locals| == |threads|
    && (forall i :: 0 <= i < |threads| ==> ThreadView(threads[i], mem0, cfg.mem, cfg.locals[i]))
    && forall x :: (forall i :: 0 <= i < |threads| ==> !WrittenBy(threads[i], x)) ==> Read(cfg.mem, x) == Read(mem0, x)
  }

  lemma ViewAfterOwnStep(t: Thread, mem0: Mem, mem: Mem, l: Local)
    requires WellCoded(t) && ThreadView(t, mem0, mem, l) && l.pc < |t.code|
    ensures var (s, m) := Exec(t.job, t.code[l.pc], l.state, mem);
            ThreadView(t, mem0, m, Local(l.pc + 1, s))
  {
    hide Exec, Touches, Writes, Solo;
    SoloStep(t, mem0, l.pc);
    var ins, solo := t.code[l.pc], Solo(t, mem0, l.pc);
    assert forall x :: x in Touches(t.job, ins) ==> TouchedBy(t, x);
    ExecLocal(t.job, ins, l.state, mem, solo.1);
    var (s, m) := Exec(t.job, ins, l.state, mem);
    forall x | TouchedBy(t, x) ensures Read(m, x) == Read(Solo(t, mem0, l.pc + 1).1, x) {
      if x !in Writes(t.job, ins) {
        ExecFrame(t.job, ins, l.state, mem, x);
        ExecFrame(t.job, ins, solo.0, solo.1, x);
      }
    }
  }

  lemma ViewAfterOtherStep(t: Thread, mem0: Mem, mem: Mem, l: Local, u: Thread, pc: nat, s: State)
    requires WellCoded(t) && WellCoded(u) && ThreadView(t, mem0, mem, l) && pc < |u.code|
    requires forall x :: WrittenBy(u, x) ==> !TouchedBy(t, x)
    ensures ThreadView(t, mem0, Exec(u.job, u.code[pc], s, mem).1, l)
  {
    hide Exec, Touches, Writes, Solo;
    forall x | TouchedBy(t, x) ensures Read(Exec(u.job, u.code[pc], s, mem).1, x) == Read(mem, x) {
      assert x in Writes(u.job, u.code[pc]) ==> WrittenBy(u, x);
      ExecFrame(u.job, u.code[pc], s, mem, x);
    }
  }

  lemma StepKeepsInv(threads: seq<Thread>, mem0: Mem, cfg: Config, i: nat)
    requires Independent(threads) && GridInv(threads, mem0, cfg) && i < |threads|
    ensures GridInv(threads, mem0, StepThread(threads, cfg, i))
  {
    hide Exec, Solo, WrittenBy, TouchedBy, ThreadView;
    var t, l, next := threads[i], cfg.locals[i], StepThread(threads, cfg, i);
    assert ThreadView(t, mem0, cfg.mem, l);
    if l.pc < |t.code| {
      forall j | 0 <= j < |threads| ensures ThreadView(threads[j], mem0, next.mem, next.locals[j]) {
        assert ThreadView(threads[j], mem0, cfg.mem, cfg.locals[j]);
        if j == i {
          ViewAfterOwnStep(t, mem0, cfg.mem, l);
        } else {
          ViewAfterOtherStep(threads[j], mem0, cfg.mem, cfg.locals[j], t, l.pc, l.state);
        }
      }
      forall x | forall k :: 0 <= k < |threads| ==> !WrittenBy(threads[k], x)
        ensures Read(next.mem, x) == Read(mem0, x)
      {
        assert !WrittenBy(threads[i], x);
        NotWritten(t, l.pc, x);
        ExecFrame(t.job, t.code[l.pc], l.state, cfg.mem, x);
      }
    }
  }

  lemma NotWritten(t: Thread, pc: nat, x: Cell)
    requires pc < |t.code| && !WrittenBy(t, x)
    ensures x !in Writes(t.job, t.code[pc])
  {
  }

  lemma {:induction false} ScheduleKeepsInv(threads: seq<Thread>, mem0: Mem, schedule: seq<nat>)
    requires Independent(threads) && forall k :: 0 <= k < |schedule| ==> schedule[k] < |threads|
    ensures GridInv(threads, mem0, RunSchedule(threads, Initial(threads, mem0), schedule))
  {
    hide Independent, StepThread, GridInv;
    if schedule == [] {
      InitialInv(threads, mem0);
    } else {
      var n := |schedule| - 1;
      ScheduleKeepsInv(threads, mem0, schedule[..n]);
      StepKeepsInv(threads, mem0, RunSchedule(threads, Initial(threads, mem0), schedule[..n]), schedule[n]);
    }
  }

  lemma InitialInv(threads: seq<Thread>, mem0: Mem)
    requires Independent(threads)
    ensures GridInv(threads, mem0, Initial(threads, mem0))
  {
  }

  ghost predicate Finished(threads: seq<Thread>, cfg: Config) {
    |cfg.locals| == |threads| && forall i :: 0 <= i < |threads| ==> cfg.locals[i].pc == |threads[i].code|
  }

  /** Any two complete interleavings of the grid leave the same memory. */
  lemma AnyOrderSameMemory(threads: seq<Thread>, mem0: Mem, a: seq<nat>, b: seq<nat>, x: Cell)
    requires Independent(threads)
    requires forall k :: 0 <= k < |a| ==> a[k] < |threads|
    requires forall k :: 0 <= k < |b| ==> b[k] < |threads|
    requires Finished(threads, RunSchedule(threads, Initial(threads, mem0), a))
    requires Finished(threads, RunSchedule(threads, Initial(threads, mem0), b))
    ensures Read(RunSchedule(threads, Initial(threads, mem0), a).mem, x)
            == Read(RunSchedule(threads, Initial(threads, mem0), b).mem, x)
  {
    hide Independent, RunSchedule, Solo, WrittenBy, TouchedBy, Finished;
    GridResult(threads, mem0, a, x);
    GridResult(threads, mem0, b, x);
    if i :| 0 <= i < |threads| && WrittenBy(threads[i], x) {
      WrittenIsTouched(threads[i], x);
    }
  }

  lemma WrittenIsTouched(t: Thread, x: Cell)
    requires WrittenBy(t, x)
    ensures TouchedBy(t, x)
  {
    var i :| 0 <= i < |t.code| && x in Writes(t.job, t.code[i]);
    assert x in Touches(t.job, t.code[i]);
  }

  /** What a complete interleaving leaves in a cell: what its writer alone would leave there. */
  lemma GridResult(threads: seq<Thread>, mem0: Mem, a: seq<nat>, x: Cell)
    requires Independent(threads)
    requires forall k :: 0 <= k < |a| ==> a[k] < |threads|
    requires Finished(threads, RunSchedule(threads, Initial(threads, mem0), a))
    ensures forall i :: 0 <= i < |threads| && TouchedBy(threads[i], x) ==>
                          Read(RunSchedule(threads, Initial(threads, mem0), a).mem, x)
                          == Read(Solo(threads[i], mem0, |threads[i].code|).1, x)
    ensures (forall i :: 0 <= i < |threads| ==> !WrittenBy(threads[i], x)) ==>
              Read(RunSchedule(threads, Initial(threads, mem0), a).mem, x) == Read(mem0, x)
  {
    hide RunSchedule, Solo, WrittenBy, TouchedBy;
    ScheduleKeepsInv(threads, mem0, a);
    var cfg := RunSchedule(threads, Initial(threads, mem0), a);
    forall i | 0 <= i < |threads| && TouchedBy(threads[i], x)
      ensures Read(cfg.mem, x) == Read(Solo(threads[i], mem0, |threads[i].code|).1, x)
    {
      assert ThreadView(threads[i], mem0, cfg.mem, cfg.locals[i]);
    }
  }

  // ----- the code of a program, and what it computes alone

  function TokenCode(from: nat, to: nat): seq<Instr>
    requires from <= to
  {
    seq(to - from, i requires 0 <= i < to - from => Scan(from + i))
  }

  ghost function ChunkCode(p: Plan, len: nat, slots: nat, k: nat): seq<Instr>
    requires Loadable(p, len, slots) && k <= NumChunks(p)
  {
    if k == 0 then []
    else
      OffsetBounds(p, len, k - 1);
      ChunkCode(p, len, slots, k - 1) + TokenCode(Offset(p, k - 1), Offset(p, k)) + [Store(p.table[BlockOf(p, k - 1)])]
  }

  ghost function CodeOf(j: Job, mode: Mode, slots: nat): seq<Instr>
    requires Addressable(mode, |j.u|, slots)
  {
    if Skipped(mode, j.nullBlock) then []
    else
      (if j.hasInit then [Load(LoadSlot(mode))] else [])
      + match mode
        case Cached(p) => ChunkCode(p, |j.u|, slots, NumChunks(p))
        case Indexed(slot) => TokenCode(0, |j.u|) + [Store(slot)]
        case Direct(slot) => TokenCode(0, |j.u|) + [Store(slot)]
  }

  /** A cell after n tokens and the stores of `column`: plain-scan outputs in place of delta and z,
      the column in the cache cells of this dim, everything else as it was. */
  ghost function Expected(j: Job, toks: seq<Token>, s0: State, n: nat, column: seq<State>, mem0: Mem, x: Cell): Value
    requires n <= |toks|
  {
    match x
    case OutCell(i) => if j.base <= i < j.base + n then Num(OutAt(j.c, s0, toks, i - j.base)) else Read(mem0, x)
    case GateCell(i) =>
      if j.hasZ && j.zBase <= i < j.zBase + n
      then Num(Gate(j.c, OutAt(j.c, s0, toks, i - j.zBase), toks[i - j.zBase].z)) else Read(mem0, x)
    case SsmCell(slot, d) => if d == j.dim && slot < |column| then Vec(column[slot]) else Read(mem0, x)
  }

  ghost predicate MemAfter(j: Job, toks: seq<Token>, s0: State, n: nat, column: seq<State>, mem0: Mem, mem: Mem)
    requires n <= |toks|
  {
    forall x :: Read(mem, x) == Expected(j, toks, s0, n, column, mem0, x)
  }

  /** The initial memory holds the column in the cache cells of this dim. */
  ghost predicate ColumnIn(j: Job, column: seq<State>, mem: Mem) {
    forall slot: nat :: slot < |column| ==> Read(mem, SsmCell(slot, j.dim)) == Vec(column[slot])
  }

  ghost predicate TokensIn(j: Job, toks: seq<Token>, mem: Mem) {
    && |toks| == |j.u| == |j.B| == |j.C|
    && forall i :: 0 <= i < |toks| ==> toks[i] == Loaded(j, mem, i)
  }

  lemma {:induction false} ExecAppend(j: Job, a: seq<Instr>, b: seq<Instr>, s: State, mem: Mem)
    requires Runs(j, a) && Runs(j, b)
    ensures Runs(j, a + b)
    ensures ExecAll(j, a + b, s, mem) == var (s', m) := ExecAll(j, a, s, mem); ExecAll(j, b, s', m)
    decreases |b|
  {
    hide Exec;
    if b == [] {
      assert a + b == a;
    } else {
      var n := |b| - 1;
      assert (a + b)[..|a| + n] == a + b[..n];
      ExecAppend(j, a, b[..n], s, mem);
    }
  }

  lemma ScanEffect(j: Job, toks: seq<Token>, s0: State, n: nat, column: seq<State>, mem0: Mem, mem: Mem)
    requires TokensIn(j, toks, mem0) && n < |toks|
    requires MemAfter(j, toks, s0, n, column, mem0, mem)
    ensures var (s, m) := Exec(j, Scan(n), Fold(j.c, s0, toks[..n]), mem);
            s == Fold(j.c, s0, toks[..n + 1]) && MemAfter(j, toks, s0, n + 1, column, mem0, m)
  {
    hide Advance, Output, Gate, Fold;
    assert Read(mem, OutCell(j.base + n)) == Expected(j, toks, s0, n, column, mem0, OutCell(j.base + n));
    assert Read(mem, GateCell(j.zBase + n)) == Expected(j, toks, s0, n, column, mem0, GateCell(j.zBase + n));
    assert Loaded(j, mem, n) == toks[n];
    FoldStep(j.c, s0, toks, n);
    assert OutAt(j.c, s0, toks, n) == Output(j.c, Fold(j.c, s0, toks[..n + 1]), toks[n]);
    var m := Exec(j, Scan(n), Fold(j.c, s0, toks[..n]), mem).1;
    forall x ensures Read(m, x) == Expected(j, toks, s0, n + 1, column, mem0, x) {
      assert Read(mem, x) == Expected(j, toks, s0, n, column, mem0, x);
    }
  }

  lemma {:induction false} TokenCodeEffect(j: Job, toks: seq<Token>, s0: State, lo: nat, hi: nat,
                                           column: seq<State>, mem0: Mem, mem: Mem)
    requires TokensIn(j, toks, mem0) && lo <= hi <= |toks|
    requires MemAfter(j, toks, s0, lo, column, mem0, mem)
    ensures Runs(j, TokenCode(lo, hi))
    ensures var (s, m) := ExecAll(j, TokenCode(lo, hi), Fold(j.c, s0, toks[..lo]), mem);
            s == Fold(j.c, s0, toks[..hi]) && MemAfter(j, toks, s0, hi, column, mem0, m)
    decreases hi - lo
  {
    hide Fold, MemAfter, Exec;
    if lo < hi {
      TokenCodeEffect(j, toks, s0, lo, hi - 1, column, mem0, mem);
      var code := TokenCode(lo, hi);
      assert code[..|code| - 1] == TokenCode(lo, hi - 1) && code[|code| - 1] == Scan(hi - 1);
      var (s, m) := ExecAll(j, TokenCode(lo, hi - 1), Fold(j.c, s0, toks[..lo]), mem);
      ScanEffect(j, toks, s0, hi - 1, column, mem0, m);
    }
  }

  lemma StoreEffect(j: Job, toks: seq<Token>, s0: State, n: nat, column: seq<State>, mem0: Mem, mem: Mem,
                    s: State, slot: nat)
    requires TokensIn(j, toks, mem0) && n <= |toks| && slot < |column|
    requires MemAfter(j, toks, s0, n, column, mem0, mem)
    ensures Runs(j, [Store(slot)])
    ensures var (s', m) := ExecAll(j, [Store(slot)], s, mem);
            s' == s && MemAfter(j, toks, s0, n, column[slot := s], mem0, m)
  {
    hide OutAt, Gate;
    assert [Store(slot)][..0] == [] && ExecAll(j, [], s, mem) == (s, mem);
    var m := ExecAll(j, [Store(slot)], s, mem).1;
    assert m == mem[SsmCell(slot, j.dim) := Vec(s)];
    forall x ensures Read(m, x) == Expected(j, toks, s0, n, column[slot := s], mem0, x) {
      assert Read(mem, x) == Expected(j, toks, s0, n, column, mem0, x);
    }
  }

  lemma NothingYet(j: Job, toks: seq<Token>, s0: State, column: seq<State>, mem0: Mem)
    requires ColumnIn(j, column, mem0)
    ensures MemAfter(j, toks, s0, 0, column, mem0, mem0)
  {
  }

  lemma {:induction false} ChunkCodeEffect(j: Job, p: Plan, toks: seq<Token>, s0: State, k: nat,
                                           column: seq<State>, mem0: Mem)
    requires Loadable(p, |j.u|, |column|) && k <= NumChunks(p)
    requires TokensIn(j, toks, mem0) && ColumnIn(j, column, mem0)
    ensures Runs(j, ChunkCode(p, |j.u|, |column|, k))
    ensures 0 <= Offset(p, k) <= |toks|
    ensures var (s, m) := ExecAll(j, ChunkCode(p, |j.u|, |column|, k), s0, mem0);
            && s == Fold(j.c, s0, toks[..Offset(p, k)])
            && MemAfter(j, toks, s0, Offset(p, k), Stored(p, j.c, s0, toks, column, k), mem0, m)
  {
    hide Fold, Exec, MemAfter, BlockOf;
    if k == 0 {
      FoldNothing(j.c, s0, toks);
      NothingYet(j, toks, s0, column, mem0);
    } else {
      OffsetBounds(p, |j.u|, k - 1);
      SlotBounds(p, |j.u|, |column|, k - 1);
      ChunkCodeEffect(j, p, toks, s0, k - 1, column, mem0);
      var before := ChunkCode(p, |j.u|, |column|, k - 1);
      var tokens := TokenCode(Offset(p, k - 1), Offset(p, k));
      var store := [Store(p.table[BlockOf(p, k - 1)])];
      var (s1, m1) := ExecAll(j, before, s0, mem0);
      var col := Stored(p, j.c, s0, toks, column, k - 1);
      TokenCodeEffect(j, toks, s0, Offset(p, k - 1), Offset(p, k), col, mem0, m1);
      var (s2, m2) := ExecAll(j, tokens, s1, m1);
      StoreEffect(j, toks, s0, Offset(p, k), col, mem0, m2, s2, p.table[BlockOf(p, k - 1)]);
      ExecAppend(j, before, tokens, s0, mem0);
      ExecAppend(j, before + tokens, store, s0, mem0);
    }
  }

  lemma PlainCodeEffect(j: Job, slot: nat, toks: seq<Token>, s0: State, column: seq<State>, mem0: Mem)
    requires slot < |column| && TokensIn(j, toks, mem0) && ColumnIn(j, column, mem0)
    ensures var code := TokenCode(0, |j.u|) + [Store(slot)];
            && Runs(j, code)
            && MemAfter(j, toks, s0, |toks|, column[slot := Fold(j.c, s0, toks)], mem0, ExecAll(j, code, s0, mem0).1)
  {
    hide Fold, Exec, MemAfter, ExecAll;
    FoldNothing(j.c, s0, toks);
    NothingYet(j, toks, s0, column, mem0);
    TokenCodeEffect(j, toks, s0, 0, |j.u|, column, mem0, mem0);
    var (s, m) := ExecAll(j, TokenCode(0, |j.u|), s0, mem0);
    StoreEffect(j, toks, s0, |toks|, column, mem0, m, s, slot);
    ExecAppend(j, TokenCode(0, |j.u|), [Store(slot)], s0, mem0);
    assert toks[..|toks|] == toks;
  }

  lemma BodyEffect(j: Job, mode: Mode, toks: seq<Token>, s0: State, column: seq<State>, mem0: Mem, body: seq<Instr>)
    requires Addressable(mode, |j.u|, |column|) && TokensIn(j, toks, mem0) && ColumnIn(j, column, mem0)
    requires !Skipped(mode, j.nullBlock) && s0 == InitialState(j, mode, column)
    requires CodeOf(j, mode, |column|) == (if j.hasInit then [Load(LoadSlot(mode))] else []) + body
    ensures Runs(j, body)
    ensures MemAfter(j, toks, s0, |toks|, ColumnAfter(j, mode, toks, column), mem0, ExecAll(j, body, s0, mem0).1)
  {
    hide Fold, Exec, MemAfter, ExecAll;
    var prefix := if j.hasInit then [Load(LoadSlot(mode))] else [];
    var code := CodeOf(j, mode, |column|);
    assert body == code[|prefix|..];
    match mode
    case Cached(p) =>
      assert body == ChunkCode(p, |j.u|, |column|, NumChunks(p));
      ChunkCodeEffect(j, p, toks, s0, NumChunks(p), column, mem0);
      OffsetEnds(p, |j.u|);
    case Indexed(slot) =>
      assert body == TokenCode(0, |j.u|) + [Store(slot)];
      PlainCodeEffect(j, slot, toks, s0, column, mem0);
    case Direct(slot) =>
      assert body == TokenCode(0, |j.u|) + [Store(slot)];
      PlainCodeEffect(j, slot, toks, s0, column, mem0);
  }

  /** A program alone leaves what the in-place kernel leaves. */
  lemma SoloComputesKernel(j: Job, mode: Mode, toks: seq<Token>, column: seq<State>, mem0: Mem)
    requires Addressable(mode, |j.u|, |column|) && TokensIn(j, toks, mem0) && ColumnIn(j, column, mem0)
    requires !Skipped(mode, j.nullBlock)
    ensures var t := Thread(j, CodeOf(j, mode, |column|));
            && WellCoded(t)
            && MemAfter(j, toks, InitialState(j, mode, column), |toks|, ColumnAfter(j, mode, toks, column), mem0,
                        Solo(t, mem0, |t.code|).1)
  {
    hide Fold, MemAfter, ChunkCode;
    var t, s0 := Thread(j, CodeOf(j, mode, |column|)), InitialState(j, mode, column);
    var load := if j.hasInit then [Load(LoadSlot(mode))] else [];
    var body := t.code[|load|..];
    assert t.code == load + body;
    BodyEffect(j, mode, toks, s0, column, mem0, body);
    var blank := seq(j.dstate, _ => 0.0);
    assert ExecAll(j, load, blank, mem0) == (s0, mem0) by { assert load[..0] == []; }
    ExecAppend(j, load, body, blank, mem0);
    assert t.code[..|t.code|] == t.code;
  }

  /** The whole launch: after any complete interleaving of independent programs, the cells of
      every program hold the plain scan's outputs and the cache column of the in-place kernel. */
  lemma GridComputesScan(threads: seq<Thread>, mem0: Mem, schedule: seq<nat>,
                         i: nat, mode: Mode, toks: seq<Token>, column: seq<State>, x: Cell)
    requires Independent(threads) && i < |threads|
    requires forall k :: 0 <= k < |schedule| ==> schedule[k] < |threads|
    requires Finished(threads, RunSchedule(threads, Initial(threads, mem0), schedule))
    requires var j := threads[i].job;
             && Addressable(mode, |j.u|, |column|) && TokensIn(j, toks, mem0) && ColumnIn(j, column, mem0)
             && !Skipped(mode, j.nullBlock) && threads[i].code == CodeOf(j, mode, |column|)
    requires TouchedBy(threads[i], x)
    ensures var j := threads[i].job;
            Read(RunSchedule(threads, Initial(threads, mem0), schedule).mem, x)
            == Expected(j, toks, InitialState(j, mode, column), |toks|, ColumnAfter(j, mode, toks, column), mem0, x)
  {
    hide Independent, RunSchedule, Finished, CodeOf, Expected, Addressable, ColumnAfter;
    GridResult(threads, mem0, schedule, x);
    SoloComputesKernel(threads[i].job, mode, toks, column, mem0);
  }
}
