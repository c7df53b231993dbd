/** Several requests over one pool of cache blocks: prefix hits, freeing, allocating with eviction, caching blocks
    before they are computed, and the scan itself.  The invariant of the pool gives every scan of a run what it is
    proved under: its load slot still holds the right state, and no other request of the launch touches what it
    stores. */
module BlockPool {
  import opened Arithmetic
  import opened Collections
  import opened SelectiveScan
  import opened ScanKernel
  import opened ScanMetadata
  import opened PrefixCache
  import opened MambaBlocks
  import opened ScanLaunch

  /** One channel of one layer: its coefficients, and how its cache is managed. */
  datatype Config = Config(c: Coeffs, dstate: nat, bs: nat, nullBlock: nat, speculative: nat)

  /** A request with n computed tokens, and m more that are scheduled but not computed yet. */
  datatype Request = Request(all: seq<Token>, n: nat, m: nat, blocks: seq<nat>, first: nat)

  /** The cached blocks with the prefix each stands for, the prefixes that were cached in the current step, and the
      states in the blocks. */
  datatype Pool = Pool(requests: map<nat, Request>, cached: map<nat, seq<Token>>, recent: set<seq<Token>>,
                       column: seq<State>)

  datatype Op =
    | Admit(id: nat, all: seq<Token>)                           // a new request without a hit
    | AdmitHit(id: nat, all: seq<Token>, k: nat, slot: nat)     // with a hit on its block k
    | Schedule(id: nat, m: nat, more: seq<nat>)                 // allocate for m tokens, `more` being the new blocks
    | Execute(id: nat, job: Job, cu: seq<int>, last: seq<int>, row: nat)
    | NewStep
    | Drop(id: nat)                                             // finished or preempted

  /** The tokens of blocks 0 to i. */
  function Prefix(all: seq<Token>, bs: nat, i: int): seq<Token> {
    if 0 <= (i + 1) * bs <= |all| then all[..(i + 1) * bs] else all
  }

  /** Blocks lo to hi of the table, which the scheduled tokens fill, enter the cache. */
  function CacheFull(cached: map<nat, seq<Token>>, table: seq<nat>, all: seq<Token>, bs: nat, lo: nat, hi: nat):
    map<nat, seq<Token>>
    requires hi <= |table|
    decreases hi
  {
    if hi <= lo then cached else CacheFull(cached, table, all, bs, lo, hi - 1)[table[hi - 1] := Prefix(all, bs, hi - 1)]
  }

  function Full(n: nat, bs: nat): nat
    requires bs > 0
  {
    DivMonotone(0, n, bs);
    n / bs
  }

  function TableAfter(cfg: Config, r: Request, more: seq<nat>): seq<nat>
    requires cfg.bs > 0
  {
    Skipping(r.blocks, cfg.nullBlock, r.n, cfg.speculative, cfg.bs) + more
  }

  /** A block the pool may hand out: nobody holds it once the request has freed what it does not need. */
  ghost predicate Free(cfg: Config, s: Pool, id: nat, b: nat)
    requires cfg.bs > 0 && id in s.requests
  {
    && b != cfg.nullBlock && b < |s.column| && b !in TableAfter(cfg, s.requests[id], [])
    && forall a :: a in s.requests && a != id ==> b !in s.requests[a].blocks
  }

  ghost predicate Supplied(cfg: Config, r: Request, j: Job)
    requires r.n + r.m <= |r.all|
  {
    && j.c == cfg.c && j.dstate == cfg.dstate && j.nullBlock == cfg.nullBlock
    && |j.u| == |j.B| == |j.C| == r.m && (j.hasInit <==> r.n > 0)
    && forall i :: 0 <= i < r.m ==>
                     j.u[i] == r.all[r.n + i].u && j.B[i] == r.all[r.n + i].B && j.C[i] == r.all[r.n + i].C
  }

  function StepFor(cfg: Config, r: Request, cu: seq<int>, last: seq<int>, row: nat): Step {
    Step(r.blocks, cu, last, row, r.n, r.m, cfg.bs)
  }

  ghost predicate Enabled(cfg: Config, s: Pool, op: Op) {
    && cfg.bs > 0
    && match op
       case Admit(id, all) => id !in s.requests
       case AdmitHit(id, all, k, slot) =>
         && id !in s.requests && slot in s.cached && s.cached[slot] !in s.recent
         && 0 <= (k + 1) * cfg.bs <= |all| && s.cached[slot] == all[..(k + 1) * cfg.bs]
       case Schedule(id, m, more) =>
         && id in s.requests && s.requests[id].m == 0 && m > 0
         && var r := s.requests[id];
         && r.n + m <= |r.all| && Distinct(more) && (forall b :: b in more ==> Free(cfg, s, id, b))
         && var lack := Required(r.n + m, cfg.speculative, cfg.bs) - |r.blocks|;
            |more| == if lack > 0 then lack else 0
       case Execute(id, job, cu, last, row) =>
         && id in s.requests && s.requests[id].m > 0
         && var r := s.requests[id];
         r.n + r.m <= |r.all| && Supplied(cfg, r, job) && Laid(cu, last, row, r.n, r.m, cfg.bs)
       case NewStep => forall a :: a in s.requests ==> s.requests[a].m == 0
       case Drop(id) =>
         id in s.requests && var r := s.requests[id]; r.m == 0 || Full(r.n + r.m, cfg.bs) == Full(r.n, cfg.bs)
  }

  // ----- the invariant

  /** Entry i of the request's table is the slot, and its block is not full yet: the request will store into it. */
  ghost predicate WritesAt(r: Request, bs: nat, i: int, slot: nat)
    requires bs > 0
  {
    Full(r.n, bs) <= i < |r.blocks| && r.blocks[i] == slot
  }

  ghost predicate Writable(r: Request, bs: nat, slot: nat)
    requires bs > 0
  {
    exists i :: WritesAt(r, bs, i, slot)
  }

  ghost predicate PendingAt(r: Request, bs: nat, i: int, slot: nat, prefix: seq<Token>)
    requires bs > 0
  {
    WritesAt(r, bs, i, slot) && i < Full(r.n + r.m, bs) && prefix == Prefix(r.all, bs, i)
  }

  /** The scheduled tokens of the request will leave the state of the prefix in the slot. */
  ghost predicate Pending(r: Request, bs: nat, slot: nat, prefix: seq<Token>)
    requires bs > 0
  {
    r.m > 0 && exists i :: PendingAt(r, bs, i, slot, prefix)
  }

  ghost predicate RequestOk(cfg: Config, r: Request, column: seq<State>)
    requires cfg.bs > 0
  {
    && r.n + r.m <= |r.all| && Managed(r.blocks, cfg.nullBlock, r.first, r.n, cfg.bs) && Below(r.blocks, |column|)
    && (r.m > 0 ==> |r.blocks| >= CeilDiv(r.n + r.m, cfg.bs))
    && Ready(cfg.c, cfg.dstate, r.all, r.n, cfg.bs, r.blocks, column)
  }

  ghost predicate Right(cfg: Config, column: seq<State>, slot: nat, prefix: seq<Token>) {
    slot < |column| && column[slot] == Fold(cfg.c, Blank(cfg.dstate), prefix)
  }

  /** A cached block holds the state of its prefix, or was cached in this step and is about to get it. */
  ghost predicate EntryOk(cfg: Config, s: Pool, slot: nat)
    requires cfg.bs > 0 && slot in s.cached
  {
    && slot != cfg.nullBlock && slot < |s.column|
    && (Right(cfg, s.column, slot, s.cached[slot])
        || (s.cached[slot] in s.recent
            && exists a :: a in s.requests && Pending(s.requests[a], cfg.bs, slot, s.cached[slot])))
  }

  /** What one request stores into, another does not hold. */
  ghost predicate Exclusive(cfg: Config, a: Request, b: Request)
    requires cfg.bs > 0
  {
    forall slot :: Writable(a, cfg.bs, slot) ==> slot !in b.blocks
  }

  /** A block the request will store into is cached only for what it will store there, and only since this step. */
  ghost predicate Guarded(cfg: Config, s: Pool, r: Request)
    requires cfg.bs > 0
  {
    forall slot :: Writable(r, cfg.bs, slot) && slot in s.cached ==>
                     s.cached[slot] in s.recent && Pending(r, cfg.bs, slot, s.cached[slot])
  }

  ghost predicate Inv(cfg: Config, s: Pool) {
    && cfg.bs > 0 && cfg.nullBlock < |s.column|
    && (forall a :: a in s.requests ==> RequestOk(cfg, s.requests[a], s.column) && Guarded(cfg, s, s.requests[a]))
    && (forall a, b :: a in s.requests && b in s.requests && a != b ==> Exclusive(cfg, s.requests[a], s.requests[b]))
    && forall slot :: slot in s.cached ==> EntryOk(cfg, s, slot)
  }

  /** The visit of a scheduled request to the kernel. */
  ghost function VisitFor(cfg: Config, s: Pool, r: Request, job: Job, cu: seq<int>, last: seq<int>, row: nat): Visit {
    Visit(job, StepFor(cfg, r, cu, last, row), s.column)
  }

  lemma VisitGood(cfg: Config, s: Pool, r: Request, job: Job, cu: seq<int>, last: seq<int>, row: nat)
    requires cfg.bs > 0 && RequestOk(cfg, r, s.column) && r.m > 0 && Supplied(cfg, r, job)
    requires Laid(cu, last, row, r.n, r.m, cfg.bs)
    ensures GoodVisit(VisitFor(cfg, s, r, job, cu, last, row), r.all)
  {
    hide Laid, CeilDiv, LoadBlock, Ready, GoodStep, Managed, Below;
    ManagedStep(StepFor(cfg, r, cu, last, row), |s.column|, cfg.nullBlock, r.first);
    StepHasLoad(StepFor(cfg, r, cu, last, row), |s.column|);
  }

  lemma StepHasLoad(st: Step, slots: nat)
    requires GoodStep(st, slots)
    ensures LoadBlock(st.n, st.bs) < |st.table|
  {
  }

  ghost function Apply(cfg: Config, s: Pool, op: Op): Pool
    requires Inv(cfg, s) && Enabled(cfg, s, op)
  {
    match op
    case Admit(id, all) => s.(requests := s.requests[id := Request(all, 0, 0, [], 0)])
    case AdmitHit(id, all, k, slot) =>
      s.(requests := s.requests[id := Request(all, (k + 1) * cfg.bs, 0, seq(k, _ => cfg.nullBlock) + [slot], k)])
    case Schedule(id, m, more) =>
      var r := s.requests[id];
      var table := TableAfter(cfg, r, more);
      var r' := Request(r.all, r.n, m, table, FirstAfter(r.blocks, r.first, r.n, cfg.speculative, cfg.bs));
      var lo, hi := Full(r.n, cfg.bs), Full(r.n + m, cfg.bs);
      TableLong(cfg, r, m, more);
      Pool(s.requests[id := r'], CacheFull(s.cached - Range(more), table, r.all, cfg.bs, lo, hi),
           s.recent + NewPrefixes(r.all, cfg.bs, lo, hi), s.column)
    case Execute(id, job, cu, last, row) =>
      var r := s.requests[id];
      VisitGood(cfg, s, r, job, cu, last, row);
      s.(requests := s.requests[id := r.(n := r.n + r.m, m := 0)],
         column := AfterVisit(VisitFor(cfg, s, r, job, cu, last, row), r.all))
    case NewStep => s.(recent := {})
    case Drop(id) => s.(requests := s.requests - {id})
  }

  function NewPrefixes(all: seq<Token>, bs: nat, lo: nat, hi: nat): set<seq<Token>> {
    set i: nat | lo <= i < hi :: Prefix(all, bs, i)
  }

  lemma TableLong(cfg: Config, r: Request, m: nat, more: seq<nat>)
    requires cfg.bs > 0 && m > 0 && |more| >= Required(r.n + m, cfg.speculative, cfg.bs) - |r.blocks|
    ensures Full(r.n + m, cfg.bs) <= CeilDiv(r.n + m, cfg.bs) <= |TableAfter(cfg, r, more)|
  {
    RequiredBlocks(r.n + m, cfg.speculative, cfg.bs);
    DivMonotone(r.n + m, r.n + m + cfg.bs - 1, cfg.bs);
  }

  /** One request replaced or added: what has to be shown. */
  lemma InvByParts(cfg: Config, s: Pool, t: Pool, id: nat, r: Request)
    requires Inv(cfg, s) && |t.column| == |s.column| && t.requests == s.requests[id := r]
    requires RequestOk(cfg, r, t.column) && Guarded(cfg, t, r)
    requires forall a :: a in s.requests && a != id ==>
                           && RequestOk(cfg, s.requests[a], t.column) && Guarded(cfg, t, s.requests[a])
                           && Exclusive(cfg, s.requests[a], r) && Exclusive(cfg, r, s.requests[a])
    requires forall slot :: slot in t.cached ==> EntryOk(cfg, t, slot)
    ensures Inv(cfg, t)
  {
    hide RequestOk, Guarded, Exclusive, EntryOk;
  }

  // ----- admitting, dropping, starting a step

  /** An entry stays right as long as the states and the requests that owe it something stay. */
  lemma EntryStays(cfg: Config, s: Pool, t: Pool, slot: nat)
    requires cfg.bs > 0 && slot in s.cached && slot in t.cached && t.cached[slot] == s.cached[slot]
    requires t.column == s.column && s.recent <= t.recent && EntryOk(cfg, s, slot)
    requires forall a :: a in s.requests && s.requests[a].m > 0 ==> a in t.requests && t.requests[a] == s.requests[a]
    ensures EntryOk(cfg, t, slot)
  {
    hide Right;
  }

  lemma NoneWritable(r: Request, bs: nat)
    requires bs > 0 && |r.blocks| <= Full(r.n, bs)
    ensures forall slot :: !Writable(r, bs, slot)
  {
  }

  lemma NewRequestOk(cfg: Config, column: seq<State>, all: seq<Token>)
    requires cfg.bs > 0
    ensures RequestOk(cfg, Request(all, 0, 0, [], 0), column)
  {
    CeilStep(0, cfg.bs);
  }

  /** A request that comes without blocks of its own. */
  lemma AddedKeeps(cfg: Config, s: Pool, id: nat, r: Request)
    requires Inv(cfg, s) && id !in s.requests && RequestOk(cfg, r, s.column) && |r.blocks| <= Full(r.n, cfg.bs)
    requires forall a :: a in s.requests ==> Exclusive(cfg, s.requests[a], r)
    ensures Inv(cfg, s.(requests := s.requests[id := r]))
  {
    hide Writable, Pending, Right, RequestOk, Full;
    NoneWritable(r, cfg.bs);
    var t := s.(requests := s.requests[id := r]);
    forall slot | slot in t.cached ensures EntryOk(cfg, t, slot) {
      assert EntryOk(cfg, s, slot);
      EntryStays(cfg, s, t, slot);
    }
    forall a | a in s.requests ensures Guarded(cfg, t, s.requests[a]) { assert Guarded(cfg, s, s.requests[a]); }
    hide Guarded, EntryOk;
    InvByParts(cfg, s, t, id, r);
  }

  lemma AdmitKeeps(cfg: Config, s: Pool, id: nat, all: seq<Token>)
    requires Inv(cfg, s) && Enabled(cfg, s, Admit(id, all))
    ensures Inv(cfg, Apply(cfg, s, Admit(id, all)))
  {
    hide Writable, RequestOk, Guarded, EntryOk;
    NewRequestOk(cfg, s.column, all);
    AddedKeeps(cfg, s, id, Request(all, 0, 0, [], 0));
  }

  lemma HitRequestOk(cfg: Config, s: Pool, all: seq<Token>, k: nat, slot: nat)
    requires Inv(cfg, s) && slot in s.cached && Right(cfg, s.column, slot, s.cached[slot])
    requires 0 <= (k + 1) * cfg.bs <= |all| && s.cached[slot] == all[..(k + 1) * cfg.bs]
    ensures var r := Request(all, (k + 1) * cfg.bs, 0, seq(k, _ => cfg.nullBlock) + [slot], k);
            RequestOk(cfg, r, s.column) && |r.blocks| == Full(r.n, cfg.bs)
  {
    hide Fold, Writable, Guarded, Exclusive, RequestOk, Managed, LoadBlock;
    assert EntryOk(cfg, s, slot);
    HitManaged(cfg, k, slot);
    DivUnique((k + 1) * cfg.bs, cfg.bs, k + 1);
    HitRequest(cfg, s.column, all, k, slot);
  }

  lemma HitManaged(cfg: Config, k: nat, slot: nat)
    requires cfg.bs > 0 && slot != cfg.nullBlock
    ensures 0 <= (k + 1) * cfg.bs
    ensures Managed(seq(k, _ => cfg.nullBlock) + [slot], cfg.nullBlock, k, (k + 1) * cfg.bs, cfg.bs)
    ensures LoadBlock((k + 1) * cfg.bs, cfg.bs) == k
  {
    HitIsManaged(seq(k + 1, _ => Some(slot)), k, cfg.nullBlock, cfg.bs);
  }

  lemma HitRequest(cfg: Config, column: seq<State>, all: seq<Token>, k: nat, slot: nat)
    requires cfg.bs > 0 && cfg.nullBlock < |column| && slot != cfg.nullBlock
    requires 0 <= (k + 1) * cfg.bs <= |all| && Right(cfg, column, slot, all[..(k + 1) * cfg.bs])
    ensures RequestOk(cfg, Request(all, (k + 1) * cfg.bs, 0, seq(k, _ => cfg.nullBlock) + [slot], k), column)
  {
    HitManaged(cfg, k, slot);
    hide Fold, Managed, LoadBlock;
  }

  /** A hit is on a block nobody is going to store into: such blocks were cached in this step. */
  lemma AdmitHitKeeps(cfg: Config, s: Pool, id: nat, all: seq<Token>, k: nat, slot: nat)
    requires Inv(cfg, s) && Enabled(cfg, s, AdmitHit(id, all, k, slot))
    ensures Inv(cfg, Apply(cfg, s, AdmitHit(id, all, k, slot)))
  {
    hide Writable, Pending, Right, RequestOk;
    assert EntryOk(cfg, s, slot);
    HitRequestOk(cfg, s, all, k, slot);
    var r := Request(all, (k + 1) * cfg.bs, 0, seq(k, _ => cfg.nullBlock) + [slot], k);
    forall a | a in s.requests ensures Exclusive(cfg, s.requests[a], r) {
      assert Guarded(cfg, s, s.requests[a]);
      NullNotWritable(cfg, s.requests[a], s.column);
    }
    hide Exclusive, Guarded, EntryOk, Full;
    AddedKeeps(cfg, s, id, r);
  }

  lemma NullNotWritable(cfg: Config, r: Request, column: seq<State>)
    requires cfg.bs > 0 && RequestOk(cfg, r, column)
    ensures !Writable(r, cfg.bs, cfg.nullBlock)
  {
    hide Ready, CeilDiv;
    LoadBeforeFull(r.n, cfg.bs);
  }

  lemma LoadBeforeFull(n: nat, bs: nat)
    requires bs > 0
    ensures LoadBlock(n, bs) <= Full(n, bs)
  {
    CeilStep(n, bs);
    if n > 0 { DivMonotone(n - 1, n, bs); }
  }

  lemma NewStepKeeps(cfg: Config, s: Pool)
    requires Inv(cfg, s) && Enabled(cfg, s, NewStep)
    ensures Inv(cfg, Apply(cfg, s, NewStep))
  {
    hide Writable, Right, RequestOk, Exclusive;
    var t := s.(recent := {});
    forall a | a in t.requests ensures Guarded(cfg, t, t.requests[a]) {
      assert Guarded(cfg, s, s.requests[a]);
    }
    forall slot | slot in t.cached ensures EntryOk(cfg, t, slot) { assert EntryOk(cfg, s, slot); }
  }

  /** A request none of whose blocks is waiting to be filled owes nothing. */
  lemma OwesNothing(r: Request, bs: nat)
    requires bs > 0 && (r.m == 0 || Full(r.n + r.m, bs) == Full(r.n, bs))
    ensures forall slot, prefix :: !Pending(r, bs, slot, prefix)
  {
  }

  lemma DropKeeps(cfg: Config, s: Pool, id: nat)
    requires Inv(cfg, s) && Enabled(cfg, s, Drop(id))
    ensures Inv(cfg, Apply(cfg, s, Drop(id)))
  {
    hide Writable, Right, RequestOk, Exclusive, Pending;
    OwesNothing(s.requests[id], cfg.bs);
    var t := s.(requests := s.requests - {id});
    forall slot | slot in t.cached ensures EntryOk(cfg, t, slot) {
      assert EntryOk(cfg, s, slot);
      if !Right(cfg, s.column, slot, s.cached[slot]) {
        var a :| a in s.requests && Pending(s.requests[a], cfg.bs, slot, s.cached[slot]);
        assert a in t.requests && t.requests[a] == s.requests[a];
      }
    }
    forall a | a in t.requests ensures RequestOk(cfg, t.requests[a], t.column) && Guarded(cfg, t, t.requests[a]) {
      assert a in s.requests && Guarded(cfg, s, s.requests[a]);
    }
  }

  // ----- scheduling

  ghost predicate AllFree(cfg: Config, s: Pool, id: nat, more: seq<nat>)
    requires cfg.bs > 0 && id in s.requests
  {
    Distinct(more) && forall b :: b in more ==> Free(cfg, s, id, b)
  }

  function Scheduled(cfg: Config, r: Request, m: nat, more: seq<nat>): Request
    requires cfg.bs > 0
  {
    Request(r.all, r.n, m, TableAfter(cfg, r, more), FirstAfter(r.blocks, r.first, r.n, cfg.speculative, cfg.bs))
  }

  /** Freeing leaves the blocks from the load block on alone. */
  lemma TableAt(cfg: Config, r: Request, more: seq<nat>, i: nat)
    requires cfg.bs > 0 && LoadBlock(r.n, cfg.bs) <= i < |TableAfter(cfg, r, more)|
    ensures i < |r.blocks| ==> TableAfter(cfg, r, more)[i] == r.blocks[i]
    ensures i >= |r.blocks| ==> TableAfter(cfg, r, more)[i] in more
  {
    SkippedBeforeLoad(r.n, cfg.speculative, cfg.bs);
    hide LoadBlock, SkippedBlocks;
    if i >= |r.blocks| { assert TableAfter(cfg, r, more)[i] == more[i - |r.blocks|]; }
  }

  lemma TableMembers(cfg: Config, r: Request, more: seq<nat>, b: nat)
    requires cfg.bs > 0 && b in TableAfter(cfg, r, more)
    ensures b == cfg.nullBlock || b in r.blocks || b in more
  {
    hide SkippedBlocks;
  }

  lemma TableManaged(cfg: Config, s: Pool, id: nat, more: seq<nat>)
    requires Inv(cfg, s) && id in s.requests && AllFree(cfg, s, id, more)
    ensures var r := s.requests[id];
            && Managed(TableAfter(cfg, r, more), cfg.nullBlock,
               FirstAfter(r.blocks, r.first, r.n, cfg.speculative, cfg.bs), r.n, cfg.bs)
            && Below(TableAfter(cfg, r, more), |s.column|)
  {
    hide LoadBlock, SkippedBlocks, Ready, Guarded, Exclusive, EntryOk, FirstAfter;
    var r := s.requests[id];
    assert RequestOk(cfg, r, s.column);
    SkippingManaged(r.blocks, cfg.nullBlock, r.n, cfg.speculative, cfg.bs, r.first);
    var kept := Skipping(r.blocks, cfg.nullBlock, r.n, cfg.speculative, cfg.bs);
    assert TableAfter(cfg, r, []) == kept;
    hide Skipping;
    forall b | b in more ensures b != cfg.nullBlock && b !in kept && b < |s.column| { assert Free(cfg, s, id, b); }
    WindowGrows(kept, cfg.nullBlock, FirstAfter(r.blocks, r.first, r.n, cfg.speculative, cfg.bs), more);
    var table := TableAfter(cfg, r, more);
    forall i | 0 <= i < |table| ensures table[i] < |s.column| {
      assert table[i] in table;
      TableMembers(cfg, r, more, table[i]);
    }
  }

  lemma ScheduledOk(cfg: Config, s: Pool, id: nat, m: nat, more: seq<nat>)
    requires Inv(cfg, s) && Enabled(cfg, s, Schedule(id, m, more))
    ensures RequestOk(cfg, Scheduled(cfg, s.requests[id], m, more), s.column)
  {
    hide Fold, SkippedBlocks, Required, Guarded, Exclusive, EntryOk, Free, TableAfter, Managed, LoadBlock, CeilDiv;
    var r := s.requests[id];
    assert RequestOk(cfg, r, s.column);
    TableManaged(cfg, s, id, more);
    TableLong(cfg, r, m, more);
    if r.n > 0 {
      LoadInside(cfg, r);
      LoadInside(cfg, Scheduled(cfg, r, m, more));
      TableAt(cfg, r, more, LoadBlock(r.n, cfg.bs));
    }
  }

  lemma LoadInside(cfg: Config, r: Request)
    requires cfg.bs > 0 && Managed(r.blocks, cfg.nullBlock, r.first, r.n, cfg.bs) && r.n > 0
    ensures LoadBlock(r.n, cfg.bs) < |r.blocks|
  {
  }

  lemma WritableAfter(cfg: Config, r: Request, m: nat, more: seq<nat>, slot: nat)
    requires cfg.bs > 0 && Writable(Scheduled(cfg, r, m, more), cfg.bs, slot)
    ensures Writable(r, cfg.bs, slot) || slot in more
  {
    var r' := Scheduled(cfg, r, m, more);
    var i :| WritesAt(r', cfg.bs, i, slot);
    LoadBeforeFull(r.n, cfg.bs);
    TableAt(cfg, r, more, i);
    hide TableAfter, LoadBlock, FirstAfter;
    if i < |r.blocks| { assert WritesAt(r, cfg.bs, i, slot); }
  }

  lemma ScheduledApart(cfg: Config, s: Pool, id: nat, m: nat, more: seq<nat>, a: nat)
    requires Inv(cfg, s) && Enabled(cfg, s, Schedule(id, m, more)) && a in s.requests && a != id
    ensures Exclusive(cfg, Scheduled(cfg, s.requests[id], m, more), s.requests[a])
    ensures Exclusive(cfg, s.requests[a], Scheduled(cfg, s.requests[id], m, more))
  {
    var r, q := s.requests[id], s.requests[a];
    assert Exclusive(cfg, r, q) && Exclusive(cfg, q, r) && RequestOk(cfg, q, s.column);
    NullNotWritable(cfg, q, s.column);
    forall b | b in more ensures b !in q.blocks { assert Free(cfg, s, id, b); }
    hide RequestOk, Guarded, EntryOk, Free, TableAfter, FirstAfter, Enabled, Inv;
    forall slot | Writable(Scheduled(cfg, r, m, more), cfg.bs, slot) ensures slot !in q.blocks {
      WritableAfter(cfg, r, m, more, slot);
    }
    forall slot | Writable(q, cfg.bs, slot) ensures slot !in TableAfter(cfg, r, more) {
      WritableHeld(q, cfg.bs, slot);
      if slot in TableAfter(cfg, r, more) { TableMembers(cfg, r, more, slot); }
    }
  }

  lemma WritableHeld(r: Request, bs: nat, slot: nat)
    requires bs > 0 && Writable(r, bs, slot)
    ensures slot in r.blocks
  {
  }

  ghost predicate Entered(table: seq<nat>, all: seq<Token>, bs: nat, lo: nat, hi: nat, slot: nat, prefix: seq<Token>) {
    exists i :: lo <= i < hi <= |table| && table[i] == slot && prefix == Prefix(all, bs, i)
  }

  /** A cached block is one that was cached before, or one of those that entered. */
  lemma {:induction false} CacheFullOnly(cached: map<nat, seq<Token>>, table: seq<nat>, all: seq<Token>, bs: nat,
                                         lo: nat, hi: nat, slot: nat)
    requires hi <= |table| && slot in CacheFull(cached, table, all, bs, lo, hi)
    ensures var prefix := CacheFull(cached, table, all, bs, lo, hi)[slot];
            Entered(table, all, bs, lo, hi, slot, prefix) || (slot in cached && cached[slot] == prefix)
    decreases hi
  {
    hide Prefix;
    if hi > lo {
      if slot == table[hi - 1] {
        assert Entered(table, all, bs, lo, hi, slot, Prefix(all, bs, hi - 1));
      } else {
        CacheFullOnly(cached, table, all, bs, lo, hi - 1, slot);
        var prefix := CacheFull(cached, table, all, bs, lo, hi - 1)[slot];
        if i :| lo <= i < hi - 1 <= |table| && table[i] == slot && prefix == Prefix(all, bs, i) {
          assert Entered(table, all, bs, lo, hi, slot, prefix);
        }
      }
    }
  }

  lemma EnteredPending(r: Request, bs: nat, slot: nat, prefix: seq<Token>)
    requires bs > 0 && r.m > 0
    requires Entered(r.blocks, r.all, bs, Full(r.n, bs), Full(r.n + r.m, bs), slot, prefix)
    ensures Pending(r, bs, slot, prefix) && Writable(r, bs, slot)
    ensures prefix in NewPrefixes(r.all, bs, Full(r.n, bs), Full(r.n + r.m, bs))
  {
    hide Prefix;
    var i :| Full(r.n, bs) <= i < Full(r.n + r.m, bs) <= |r.blocks| && r.blocks[i] == slot
             && prefix == Prefix(r.all, bs, i);
    assert WritesAt(r, bs, i, slot);
    assert PendingAt(r, bs, i, slot, prefix);
  }

  /** The state after scheduling. */
  ghost function ScheduledPool(cfg: Config, s: Pool, id: nat, m: nat, more: seq<nat>): Pool
    requires Inv(cfg, s) && Enabled(cfg, s, Schedule(id, m, more))
  {
    Apply(cfg, s, Schedule(id, m, more))
  }

  /** Every entry of the cache after scheduling: pending for the request, or as it was. */
  lemma CacheAfter(cfg: Config, s: Pool, id: nat, m: nat, more: seq<nat>, slot: nat)
    requires Inv(cfg, s) && Enabled(cfg, s, Schedule(id, m, more)) && slot in ScheduledPool(cfg, s, id, m, more).cached
    ensures var t, r' := ScheduledPool(cfg, s, id, m, more), Scheduled(cfg, s.requests[id], m, more);
            || (Pending(r', cfg.bs, slot, t.cached[slot]) && Writable(r', cfg.bs, slot) && t.cached[slot] in t.recent)
            || (slot in s.cached && slot !in more && t.cached[slot] == s.cached[slot])
  {
    var r' := Scheduled(cfg, s.requests[id], m, more);
    var t := ScheduledPool(cfg, s, id, m, more);
    ScheduledCache(cfg, s, id, m, more);
    hide *;
    CacheEntry(s.cached, t.cached, t.recent, r', cfg.bs, more, slot);
  }

  lemma CacheEntry(cached: map<nat, seq<Token>>, cached': map<nat, seq<Token>>, recent: set<seq<Token>>, r: Request,
                   bs: nat, more: seq<nat>, slot: nat)
    requires bs > 0 && r.m > 0 && Full(r.n + r.m, bs) <= |r.blocks| && slot in cached'
    requires cached' == CacheFull(cached - Range(more), r.blocks, r.all, bs, Full(r.n, bs), Full(r.n + r.m, bs))
    requires NewPrefixes(r.all, bs, Full(r.n, bs), Full(r.n + r.m, bs)) <= recent
    ensures || (Pending(r, bs, slot, cached'[slot]) && Writable(r, bs, slot) && cached'[slot] in recent)
            || (slot in cached && slot !in more && cached'[slot] == cached[slot])
  {
    hide CacheFull, Entered, Pending, Writable, NewPrefixes, Full;
    var lo, hi := Full(r.n, bs), Full(r.n + r.m, bs);
    CacheFullOnly(cached - Range(more), r.blocks, r.all, bs, lo, hi, slot);
    if Entered(r.blocks, r.all, bs, lo, hi, slot, cached'[slot]) {
      EnteredPending(r, bs, slot, cached'[slot]);
    }
  }

  lemma ScheduledShape(cfg: Config, s: Pool, id: nat, m: nat, more: seq<nat>)
    requires Inv(cfg, s) && Enabled(cfg, s, Schedule(id, m, more))
    ensures var t := ScheduledPool(cfg, s, id, m, more);
            && t.requests == s.requests[id := Scheduled(cfg, s.requests[id], m, more)] && t.column == s.column
            && s.recent <= t.recent
  {
    hide Inv, Free, Required, TableAfter, FirstAfter, CacheFull;
  }

  lemma ScheduledCache(cfg: Config, s: Pool, id: nat, m: nat, more: seq<nat>)
    requires Inv(cfg, s) && Enabled(cfg, s, Schedule(id, m, more))
    ensures var t, r' := ScheduledPool(cfg, s, id, m, more), Scheduled(cfg, s.requests[id], m, more);
            var lo, hi := Full(r'.n, cfg.bs), Full(r'.n + m, cfg.bs);
            && hi <= |r'.blocks| && r'.m == m > 0
            && t.cached == CacheFull(s.cached - Range(more), r'.blocks, r'.all, cfg.bs, lo, hi)
            && NewPrefixes(r'.all, cfg.bs, lo, hi) <= t.recent
  {
    TableLong(cfg, s.requests[id], m, more);
    hide Inv, Free, Required, TableAfter, FirstAfter, CacheFull, NewPrefixes, CeilDiv, Distinct, Full;
  }

  lemma NothingGuarded(cfg: Config, s: Pool, r: Request, slot: nat)
    requires cfg.bs > 0 && Guarded(cfg, s, r) && r.m == 0 && Writable(r, cfg.bs, slot)
    ensures slot !in s.cached
  {
  }

  lemma ScheduledGuarded(cfg: Config, s: Pool, id: nat, m: nat, more: seq<nat>)
    requires Inv(cfg, s) && Enabled(cfg, s, Schedule(id, m, more))
    ensures Guarded(cfg, ScheduledPool(cfg, s, id, m, more), Scheduled(cfg, s.requests[id], m, more))
  {
    var r, r' := s.requests[id], Scheduled(cfg, s.requests[id], m, more);
    var t := ScheduledPool(cfg, s, id, m, more);
    assert r.m == 0 && Guarded(cfg, s, r);
    forall slot | Writable(r', cfg.bs, slot) && slot in t.cached
      ensures t.cached[slot] in t.recent && Pending(r', cfg.bs, slot, t.cached[slot])
    {
      CacheAfter(cfg, s, id, m, more, slot);
      hide Inv, Enabled, Scheduled, Pending, Writable, Guarded, ScheduledPool;
      WritableAfter(cfg, r, m, more, slot);
      if Writable(r, cfg.bs, slot) { NothingGuarded(cfg, s, r, slot); }
    }
  }

  lemma OthersGuarded(cfg: Config, s: Pool, id: nat, m: nat, more: seq<nat>, a: nat)
    requires Inv(cfg, s) && Enabled(cfg, s, Schedule(id, m, more)) && a in s.requests && a != id
    ensures Guarded(cfg, ScheduledPool(cfg, s, id, m, more), s.requests[a])
  {
    var q, r' := s.requests[a], Scheduled(cfg, s.requests[id], m, more);
    var t := ScheduledPool(cfg, s, id, m, more);
    ScheduledShape(cfg, s, id, m, more);
    ScheduledApart(cfg, s, id, m, more, a);
    assert Guarded(cfg, s, q);
    forall slot | Writable(q, cfg.bs, slot) && slot in t.cached
      ensures t.cached[slot] in t.recent && Pending(q, cfg.bs, slot, t.cached[slot])
    {
      CacheAfter(cfg, s, id, m, more, slot);
      hide Inv, Enabled, Scheduled, Pending, Writable, ScheduledPool;
      WritableHeld(q, cfg.bs, slot);
    }
  }

  lemma ScheduledEntry(cfg: Config, s: Pool, id: nat, m: nat, more: seq<nat>, slot: nat)
    requires Inv(cfg, s) && Enabled(cfg, s, Schedule(id, m, more)) && slot in ScheduledPool(cfg, s, id, m, more).cached
    ensures EntryOk(cfg, ScheduledPool(cfg, s, id, m, more), slot)
  {
    var r' := Scheduled(cfg, s.requests[id], m, more);
    var t := ScheduledPool(cfg, s, id, m, more);
    ScheduledShape(cfg, s, id, m, more);
    CacheAfter(cfg, s, id, m, more, slot);
    ScheduledOk(cfg, s, id, m, more);
    if slot in s.cached && slot !in more && t.cached[slot] == s.cached[slot] {
      assert EntryOk(cfg, s, slot) && s.requests[id].m == 0;
      hide Inv, Enabled, Scheduled, Pending, Writable, ScheduledPool, RequestOk, EntryOk;
      EntryStays(cfg, s, t, slot);
    } else {
      hide Inv, Enabled, Scheduled, ScheduledPool, RequestOk, Pending, Writable;
      NullNotWritable(cfg, r', s.column);
      SlotExists(cfg, r', s.column, slot);
      assert id in t.requests && Pending(t.requests[id], cfg.bs, slot, t.cached[slot]);
    }
  }

  lemma SlotExists(cfg: Config, r: Request, column: seq<State>, slot: nat)
    requires cfg.bs > 0 && RequestOk(cfg, r, column) && Writable(r, cfg.bs, slot)
    ensures slot < |column|
  {
    hide Ready, Managed;
  }

  lemma ScheduleKeeps(cfg: Config, s: Pool, id: nat, m: nat, more: seq<nat>)
    requires Inv(cfg, s) && Enabled(cfg, s, Schedule(id, m, more))
    ensures Inv(cfg, Apply(cfg, s, Schedule(id, m, more)))
  {
    var t := ScheduledPool(cfg, s, id, m, more);
    ScheduledShape(cfg, s, id, m, more);
    ScheduledOk(cfg, s, id, m, more);
    ScheduledGuarded(cfg, s, id, m, more);
    forall a | a in s.requests && a != id
      ensures Guarded(cfg, t, s.requests[a])
      ensures Exclusive(cfg, Scheduled(cfg, s.requests[id], m, more), s.requests[a])
      ensures Exclusive(cfg, s.requests[a], Scheduled(cfg, s.requests[id], m, more))
    {
      OthersGuarded(cfg, s, id, m, more, a);
      ScheduledApart(cfg, s, id, m, more, a);
    }
    forall slot | slot in t.cached ensures EntryOk(cfg, t, slot) { ScheduledEntry(cfg, s, id, m, more, slot); }
    forall a | a in s.requests ensures RequestOk(cfg, s.requests[a], s.column) {}
    hide *;
    InvByParts(cfg, s, t, id, Scheduled(cfg, s.requests[id], m, more));
    assert t == Apply(cfg, s, Schedule(id, m, more)) by { ScheduledIs(cfg, s, id, m, more); }
  }

  lemma ScheduledIs(cfg: Config, s: Pool, id: nat, m: nat, more: seq<nat>)
    requires Inv(cfg, s) && Enabled(cfg, s, Schedule(id, m, more))
    ensures ScheduledPool(cfg, s, id, m, more) == Apply(cfg, s, Schedule(id, m, more))
  {
    hide Inv, Enabled, Apply;
  }

  /** The blocks that enter the cache are not in it yet, as the block pool asserts. */
  lemma FullBlocksUncached(cfg: Config, s: Pool, id: nat, m: nat, more: seq<nat>, i: nat)
    requires Inv(cfg, s) && Enabled(cfg, s, Schedule(id, m, more))
    requires Full(s.requests[id].n, cfg.bs) <= i < Full(s.requests[id].n + m, cfg.bs)
    ensures i < |TableAfter(cfg, s.requests[id], more)|
            && TableAfter(cfg, s.requests[id], more)[i] !in s.cached - Range(more)
  {
    var r := s.requests[id];
    TableLong(cfg, r, m, more);
    assert Guarded(cfg, s, r) && r.m == 0;
    hide Inv, Enabled, TableAfter, FirstAfter, Guarded, CeilDiv;
    var slot := TableAfter(cfg, r, more)[i];
    assert WritesAt(Scheduled(cfg, r, m, more), cfg.bs, i, slot);
    WritableAfter(cfg, r, m, more, slot);
    if Writable(r, cfg.bs, slot) { NothingGuarded(cfg, s, r, slot); }
  }

  lemma ScheduleFacts(cfg: Config, s: Pool, id: nat, m: nat, more: seq<nat>)
    requires Inv(cfg, s) && Enabled(cfg, s, Schedule(id, m, more))
    ensures cfg.bs > 0 && m > 0 && id in s.requests && s.requests[id].n + m <= |s.requests[id].all|
    ensures |more| >= Required(s.requests[id].n + m, cfg.speculative, cfg.bs) - |s.requests[id].blocks|
    ensures var r, r' := s.requests[id], Scheduled(cfg, s.requests[id], m, more);
            r'.all == r.all && r'.n == r.n && r'.m == m && r'.blocks == TableAfter(cfg, r, more)
  {
    hide Inv, Free, Required, TableAfter, FirstAfter;
  }

  /** Scheduling, with everything that is known of it. */
  lemma Scheduling(cfg: Config, s: Pool, id: nat, m: nat, more: seq<nat>)
    requires Inv(cfg, s) && Enabled(cfg, s, Schedule(id, m, more))
    ensures cfg.bs > 0 && m > 0 && id in s.requests && s.requests[id].n + m <= |s.requests[id].all|
    ensures var t, r := Apply(cfg, s, Schedule(id, m, more)), s.requests[id];
            var r' := Scheduled(cfg, r, m, more);
            var lo, hi := Full(r.n, cfg.bs), Full(r.n + m, cfg.bs);
            && r'.all == r.all && r'.n == r.n && r'.m == m && r'.blocks == TableAfter(cfg, r, more)
            && t.requests == s.requests[id := r'] && RequestOk(cfg, r', s.column) && hi <= |r'.blocks|
            && t.cached == CacheFull(s.cached - Range(more), r'.blocks, r'.all, cfg.bs, lo, hi)
            && NewPrefixes(r'.all, cfg.bs, lo, hi) <= t.recent
  {
    hide *;
    ScheduleFacts(cfg, s, id, m, more);
    ScheduledOk(cfg, s, id, m, more);
    ScheduledShape(cfg, s, id, m, more);
    ScheduledCache(cfg, s, id, m, more);
    ScheduledIs(cfg, s, id, m, more);
  }

  /** What scheduling does to the table: blocks behind the last token that is sure to stay become the null block, the
      others stay, and the new blocks follow, so that there is one for every block of tokens and every draft. */
  lemma ScheduleTable(cfg: Config, s: Pool, id: nat, m: nat, more: seq<nat>, i: nat)
    requires Inv(cfg, s) && Enabled(cfg, s, Schedule(id, m, more))
    ensures var t, r := Apply(cfg, s, Schedule(id, m, more)), s.requests[id];
            && id in t.requests && t.requests[id].n == r.n && t.requests[id].m == m && t.requests[id].all == r.all
            && |t.requests[id].blocks| == |r.blocks| + |more|
            && |t.requests[id].blocks| >= CeilDiv(r.n + m, cfg.bs) + cfg.speculative
            && (i < |r.blocks| ==>
                  t.requests[id].blocks[i]
                  == if Behind(i, r.n, cfg.speculative, cfg.bs) then cfg.nullBlock else r.blocks[i])
            && (i < |more| ==> t.requests[id].blocks[|r.blocks| + i] == more[i])
  {
    hide *;
    Scheduling(cfg, s, id, m, more);
    ScheduleFacts(cfg, s, id, m, more);
    TableIs(cfg, s.requests[id], m, more, i);
  }

  lemma TableIs(cfg: Config, r: Request, m: nat, more: seq<nat>, i: nat)
    requires cfg.bs > 0 && |more| >= Required(r.n + m, cfg.speculative, cfg.bs) - |r.blocks|
    ensures var table := TableAfter(cfg, r, more);
            && |table| == |r.blocks| + |more| && |table| >= CeilDiv(r.n + m, cfg.bs) + cfg.speculative
            && (i < |r.blocks| ==>
                  table[i] == if Behind(i, r.n, cfg.speculative, cfg.bs) then cfg.nullBlock else r.blocks[i])
            && (i < |more| ==> table[|r.blocks| + i] == more[i])
  {
    RequiredBlocks(r.n + m, cfg.speculative, cfg.bs);
    SkippingExactly(r.blocks, cfg.nullBlock, r.n, cfg.speculative, cfg.bs);
    hide Required, CeilDiv, Behind, Skipping;
  }

  lemma {:induction false} CacheFullHas(cached: map<nat, seq<Token>>, table: seq<nat>, all: seq<Token>, bs: nat,
                                        lo: nat, hi: nat, i: nat)
    requires lo <= i < hi <= |table| && forall j :: i < j < hi ==> table[j] != table[i]
    ensures var c := CacheFull(cached, table, all, bs, lo, hi); table[i] in c && c[table[i]] == Prefix(all, bs, i)
    decreases hi
  {
    hide Prefix;
    if i < hi - 1 { CacheFullHas(cached, table, all, bs, lo, hi - 1, i); }
  }

  lemma {:induction false} CacheFullLeaves(cached: map<nat, seq<Token>>, table: seq<nat>, all: seq<Token>, bs: nat,
                                           lo: nat, hi: nat, slot: nat)
    requires hi <= |table| && forall j :: lo <= j < hi ==> table[j] != slot
    ensures var c := CacheFull(cached, table, all, bs, lo, hi);
            (slot in c <==> slot in cached) && (slot in cached ==> c[slot] == cached[slot])
    decreases hi
  {
    hide Prefix;
    if hi > lo { CacheFullLeaves(cached, table, all, bs, lo, hi - 1, slot); }
  }

  lemma OwnBlocksApart(cfg: Config, r: Request, column: seq<State>, i: nat, j: nat)
    requires cfg.bs > 0 && RequestOk(cfg, r, column) && r.n / cfg.bs <= i < j < |r.blocks|
    ensures r.blocks[i] != r.blocks[j]
  {
    hide Ready, CeilDiv, LoadBlock;
    LoadBeforeFull(r.n, cfg.bs);
  }

  /** Every block that the scheduled tokens fill is in the cache from then on, for the tokens up to its end, and marked
      as cached in this step. */
  lemma ScheduleCaches(cfg: Config, s: Pool, id: nat, m: nat, more: seq<nat>, i: nat)
    requires Inv(cfg, s) && Enabled(cfg, s, Schedule(id, m, more))
    requires s.requests[id].n / cfg.bs <= i < (s.requests[id].n + m) / cfg.bs
    ensures var t, all := Apply(cfg, s, Schedule(id, m, more)), s.requests[id].all;
            && id in t.requests && i < |t.requests[id].blocks| && 0 <= (i + 1) * cfg.bs <= |all|
            && var slot := t.requests[id].blocks[i];
            && slot in t.cached && t.cached[slot] == all[..(i + 1) * cfg.bs] && t.cached[slot] in t.recent
  {
    hide *;
    Scheduling(cfg, s, id, m, more);
    CachedFor(cfg, Scheduled(cfg, s.requests[id], m, more), s.column, s.cached - Range(more), i);
  }

  lemma CachedFor(cfg: Config, r: Request, column: seq<State>, cached: map<nat, seq<Token>>, i: nat)
    requires cfg.bs > 0 && RequestOk(cfg, r, column) && r.n / cfg.bs <= i < (r.n + r.m) / cfg.bs
    requires Full(r.n + r.m, cfg.bs) <= |r.blocks|
    ensures i < |r.blocks| && 0 <= (i + 1) * cfg.bs <= |r.all|
    ensures var lo, hi := Full(r.n, cfg.bs), Full(r.n + r.m, cfg.bs);
            var c := CacheFull(cached, r.blocks, r.all, cfg.bs, lo, hi);
            && r.blocks[i] in c && c[r.blocks[i]] == r.all[..(i + 1) * cfg.bs]
            && r.all[..(i + 1) * cfg.bs] in NewPrefixes(r.all, cfg.bs, lo, hi)
  {
    hide Managed, Below, Ready, CeilDiv, CacheFull;
    var lo, hi := Full(r.n, cfg.bs), Full(r.n + r.m, cfg.bs);
    FullCovers(r.n + r.m, cfg.bs, i);
    forall j | i < j < hi ensures r.blocks[j] != r.blocks[i] { OwnBlocksApart(cfg, r, column, i, j); }
    CacheFullHas(cached, r.blocks, r.all, cfg.bs, lo, hi, i);
    assert Prefix(r.all, cfg.bs, i) in NewPrefixes(r.all, cfg.bs, lo, hi);
  }

  /** The tokens of the request up to the end of its block i. */
  ghost predicate EndsBlock(prefix: seq<Token>, all: seq<Token>, bs: nat, i: int) {
    0 <= (i + 1) * bs <= |all| && prefix == all[..(i + 1) * bs]
  }

  /** The prefixes marked as cached in this step grow by those of the blocks filled, and by nothing else. */
  lemma ScheduleMarks(cfg: Config, s: Pool, id: nat, m: nat, more: seq<nat>, prefix: seq<Token>)
    requires Inv(cfg, s) && Enabled(cfg, s, Schedule(id, m, more))
    ensures var t, r := Apply(cfg, s, Schedule(id, m, more)), s.requests[id];
            prefix in t.recent <==>
            || prefix in s.recent
            || exists i :: r.n / cfg.bs <= i < (r.n + m) / cfg.bs && EndsBlock(prefix, r.all, cfg.bs, i)
  {
    hide *;
    ScheduleFacts(cfg, s, id, m, more);
    ScheduledRecent(cfg, s, id, m, more);
    NewPrefixesAre(s.requests[id].all, cfg.bs, s.requests[id].n, m, prefix);
  }

  lemma ScheduledRecent(cfg: Config, s: Pool, id: nat, m: nat, more: seq<nat>)
    requires Inv(cfg, s) && Enabled(cfg, s, Schedule(id, m, more))
    ensures var t, r := Apply(cfg, s, Schedule(id, m, more)), s.requests[id];
            t.recent == s.recent + NewPrefixes(r.all, cfg.bs, Full(r.n, cfg.bs), Full(r.n + m, cfg.bs))
  {
    hide Inv, Free, Required, TableAfter, FirstAfter, CacheFull, NewPrefixes, CeilDiv, Distinct, Full;
  }

  lemma NewPrefixesAre(all: seq<Token>, bs: nat, n: nat, m: nat, prefix: seq<Token>)
    requires bs > 0 && n + m <= |all|
    ensures prefix in NewPrefixes(all, bs, Full(n, bs), Full(n + m, bs)) <==>
            exists i :: n / bs <= i < (n + m) / bs && EndsBlock(prefix, all, bs, i)
  {
    var lo, hi := Full(n, bs), Full(n + m, bs);
    if prefix in NewPrefixes(all, bs, lo, hi) {
      var i: nat :| lo <= i < hi && prefix == Prefix(all, bs, i);
      FullCovers(n + m, bs, i);
      assert EndsBlock(prefix, all, bs, i);
    }
    if i :| n / bs <= i < (n + m) / bs && EndsBlock(prefix, all, bs, i) {
      assert prefix == Prefix(all, bs, i);
    }
  }

  /** Every other entry stays as it was unless its block was handed out, and no other entry is made. */
  lemma ScheduleLeaves(cfg: Config, s: Pool, id: nat, m: nat, more: seq<nat>, slot: nat)
    requires Inv(cfg, s) && Enabled(cfg, s, Schedule(id, m, more))
    ensures var t := Apply(cfg, s, Schedule(id, m, more));
            && (slot in s.cached && slot !in more ==> slot in t.cached && t.cached[slot] == s.cached[slot])
            && (slot in t.cached && (slot !in s.cached || slot in more) ==>
                  && id in t.requests
                  && exists i :: && s.requests[id].n / cfg.bs <= i < (s.requests[id].n + m) / cfg.bs
                                 && i < |t.requests[id].blocks| && t.requests[id].blocks[i] == slot)
  {
    hide *;
    Scheduling(cfg, s, id, m, more);
    var r := Scheduled(cfg, s.requests[id], m, more);
    if slot in s.cached && slot !in more {
      forall j | Full(r.n, cfg.bs) <= j < Full(r.n + m, cfg.bs) ensures r.blocks[j] != slot {
        FilledUncached(cfg, s, id, m, more, j);
      }
    }
    LeftAsItWas(s.cached, Apply(cfg, s, Schedule(id, m, more)).cached, r, cfg.bs, m, more, slot);
  }

  lemma FilledUncached(cfg: Config, s: Pool, id: nat, m: nat, more: seq<nat>, j: nat)
    requires Inv(cfg, s) && Enabled(cfg, s, Schedule(id, m, more))
    requires Full(s.requests[id].n, cfg.bs) <= j < Full(s.requests[id].n + m, cfg.bs)
    ensures var blocks := Scheduled(cfg, s.requests[id], m, more).blocks;
            j < |blocks| && (blocks[j] in s.cached ==> blocks[j] in more)
  {
    FullBlocksUncached(cfg, s, id, m, more, j);
    hide Inv, Enabled, TableAfter, FirstAfter, Full;
  }

  lemma LeftAsItWas(cached: map<nat, seq<Token>>, cached': map<nat, seq<Token>>, r: Request, bs: nat, m: nat,
                    more: seq<nat>, slot: nat)
    requires bs > 0 && Full(r.n + m, bs) <= |r.blocks|
    requires cached' == CacheFull(cached - Range(more), r.blocks, r.all, bs, Full(r.n, bs), Full(r.n + m, bs))
    requires slot in cached && slot !in more ==>
               forall j :: Full(r.n, bs) <= j < Full(r.n + m, bs) ==> r.blocks[j] != slot
    ensures slot in cached && slot !in more ==> slot in cached' && cached'[slot] == cached[slot]
    ensures slot in cached' && (slot !in cached || slot in more) ==>
              exists i :: r.n / bs <= i < (r.n + m) / bs && i < |r.blocks| && r.blocks[i] == slot
  {
    hide CacheFull;
    var lo, hi := Full(r.n, bs), Full(r.n + m, bs);
    if forall j :: lo <= j < hi ==> r.blocks[j] != slot {
      CacheFullLeaves(cached - Range(more), r.blocks, r.all, bs, lo, hi, slot);
    } else {
      var i :| lo <= i < hi && r.blocks[i] == slot;
    }
  }

  /** A block that a request held alone can be handed out once the request is gone. */
  lemma DropFrees(cfg: Config, s: Pool, id: nat, other: nat, b: nat)
    requires Inv(cfg, s) && Enabled(cfg, s, Drop(id)) && other in s.requests && other != id
    requires b in s.requests[id].blocks && b != cfg.nullBlock
    requires forall a :: a in s.requests && a != id ==> b !in s.requests[a].blocks
    ensures var t := Apply(cfg, s, Drop(id));
            && id !in t.requests && t.requests == s.requests - {id} && t.cached == s.cached && t.column == s.column
            && Free(cfg, t, other, b)
  {
    var r, q := s.requests[id], s.requests[other];
    assert RequestOk(cfg, r, s.column);
    BelowAt(r.blocks, |s.column|, b);
    hide Inv, RequestOk, SkippedBlocks;
    if b in TableAfter(cfg, q, []) { TableMembers(cfg, q, [], b); }
  }

  lemma BelowAt(blocks: seq<nat>, slots: nat, b: nat)
    requires Below(blocks, slots) && b in blocks
    ensures b < slots
  {
  }

  /** Any request can enter, and a request without tokens under way is scheduled as soon as enough blocks are free. */
  lemma CanGoOn(cfg: Config, s: Pool, id: nat, all: seq<Token>, m: nat, more: seq<nat>)
    requires Inv(cfg, s)
    ensures id !in s.requests ==> Enabled(cfg, s, Admit(id, all)) && Apply(cfg, s, Admit(id, all)).requests
                                                                   == s.requests[id := Request(all, 0, 0, [], 0)]
    ensures id in s.requests && s.requests[id].m == 0 && m > 0 && s.requests[id].n + m <= |s.requests[id].all|
            && Distinct(more) && (forall b :: b in more ==> Free(cfg, s, id, b))
            && |more| == (var lack := CeilDiv(s.requests[id].n + m, cfg.bs) + cfg.speculative - |s.requests[id].blocks|;
                          if lack > 0 then lack else 0)
            ==> Enabled(cfg, s, Schedule(id, m, more))
  {
    if id in s.requests { RequiredBlocks(s.requests[id].n + m, cfg.speculative, cfg.bs); }
    hide Inv, Free, Required, CeilDiv;
  }

  // ----- executing

  /** A scheduled step of the kernel is sound, and changes only blocks its request will store into. */
  lemma ExecutedColumn(cfg: Config, s: Pool, r: Request, job: Job, cu: seq<int>, last: seq<int>, row: nat)
    requires cfg.bs > 0 && RequestOk(cfg, r, s.column) && r.m > 0 && Supplied(cfg, r, job)
    requires Laid(cu, last, row, r.n, r.m, cfg.bs)
    ensures var v := VisitFor(cfg, s, r, job, cu, last, row);
            && GoodVisit(v, r.all) && Sound(v, r.all)
            && forall slot :: 0 <= slot < |s.column| && !Writable(r, cfg.bs, slot) ==>
                                AfterVisit(v, r.all)[slot] == s.column[slot]
  {
    var v := VisitFor(cfg, s, r, job, cu, last, row);
    VisitGood(cfg, s, r, job, cu, last, row);
    VisitSound(v, r.all);
    hide Laid, Managed, Below, Ready, GoodStep, ColumnAfter, SameOutputs, Snapshots, JobOf, Fold, Writable, Sound,
         Supplied;
    PrefillStep(v.job, v.step, r.all, v.before);
    forall slot | 0 <= slot < |s.column| && !Writable(r, cfg.bs, slot) ensures Untouched(v.step, slot) {
      StoresAreWritable(cfg, r, v.step, |s.column|, slot);
    }
  }

  lemma StoresAreWritable(cfg: Config, r: Request, st: Step, slots: nat, slot: nat)
    requires GoodStep(st, slots) && cfg.bs > 0 && st.table == r.blocks && st.n == r.n && st.m == r.m && st.bs == cfg.bs
    ensures !Writable(r, cfg.bs, slot) ==> Untouched(st, slot)
  {
    hide GoodStep, Chunks, SlotOf, Writable;
    forall k | 0 <= k < Chunks(st) ensures Writable(r, cfg.bs, SlotOf(st, k)) { StoreIsWritable(cfg, r, st, slots, k); }
  }

  lemma StoreIsWritable(cfg: Config, r: Request, st: Step, slots: nat, k: nat)
    requires GoodStep(st, slots) && cfg.bs > 0 && st.table == r.blocks && st.n == r.n && st.m == r.m && st.bs == cfg.bs
    requires k < Chunks(st)
    ensures Writable(r, cfg.bs, SlotOf(st, k)) && SlotOf(st, k) in r.blocks
  {
    hide Laid, ChunkCount;
    BlocksOf(st);
    assert WritesAt(r, cfg.bs, Full(r.n, cfg.bs) + k, SlotOf(st, k));
  }

  /** What was pending is now written. */
  lemma PendingWritten(cfg: Config, s: Pool, r: Request, v: Visit, slot: nat, prefix: seq<Token>)
    requires cfg.bs > 0 && GoodVisit(v, r.all) && Sound(v, r.all) && v.before == s.column
    requires v.step.table == r.blocks && v.step.n == r.n && v.step.m == r.m && v.step.bs == cfg.bs
    requires v.job.c == cfg.c && v.job.dstate == cfg.dstate && Pending(r, cfg.bs, slot, prefix)
    ensures Right(cfg, AfterVisit(v, r.all), slot, prefix)
  {
    hide Laid, GoodTable, AfterVisit, Ready, SameOutputs, Fold, JobOf, CeilDiv;
    var i :| PendingAt(r, cfg.bs, i, slot, prefix);
    FullCovers(r.n + r.m, cfg.bs, i);
    var st, column := v.step, AfterVisit(v, r.all);
    GoodEntry(st, |column|, i);
    assert Holds(cfg.c, cfg.dstate, r.all, i, st.n + st.m, st.bs, column[st.table[i]]);
  }

  lemma FullCovers(n: nat, bs: nat, i: nat)
    requires bs > 0 && i < Full(n, bs)
    ensures 0 <= (i + 1) * bs <= n && i < CeilDiv(n, bs) && CoveredBy(i, n, bs) == (i + 1) * bs
  {
    DivBounds(n, bs);
    MulLe(0, i + 1, bs);
    MulLe(i + 1, n / bs, bs);
    DivMonotone(n, n + bs - 1, bs);
  }

  lemma GoodEntry(st: Step, slots: nat, i: nat)
    requires GoodStep(st, slots) && st.n / st.bs <= i < CeilDiv(st.n + st.m, st.bs)
    ensures i < |st.table| && st.table[i] < slots
  {
    hide Laid;
  }

  function Executed(r: Request): Request { r.(n := r.n + r.m, m := 0) }

  lemma FullMonotone(n: nat, m: nat, bs: nat)
    requires bs > 0
    ensures Full(n, bs) <= Full(n + m, bs)
  {
    DivMonotone(n, n + m, bs);
  }

  lemma WritableShrinks(r: Request, bs: nat, slot: nat)
    requires bs > 0 && Writable(Executed(r), bs, slot)
    ensures Writable(r, bs, slot)
  {
    hide Full;
    FullMonotone(r.n, r.m, bs);
    var i :| WritesAt(Executed(r), bs, i, slot);
    assert WritesAt(r, bs, i, slot);
  }

  /** A block that got its last token is not stored into again. */
  lemma DoneWriting(cfg: Config, r: Request, column: seq<State>, slot: nat, prefix: seq<Token>)
    requires cfg.bs > 0 && RequestOk(cfg, r, column) && Pending(r, cfg.bs, slot, prefix)
    ensures !Writable(Executed(r), cfg.bs, slot)
  {
    hide Full, Prefix, Ready, Below, LoadBlock, CeilDiv;
    LoadBeforeFull(r.n, cfg.bs);
    FullMonotone(r.n, r.m, cfg.bs);
    var i :| PendingAt(r, cfg.bs, i, slot, prefix);
    forall j ensures !WritesAt(Executed(r), cfg.bs, j, slot) {}
  }

  lemma ReadyKept(cfg: Config, q: Request, column: seq<State>, column': seq<State>)
    requires cfg.bs > 0 && RequestOk(cfg, q, column) && |column'| == |column|
    requires forall b :: b in q.blocks && b < |column| ==> column'[b] == column[b]
    ensures RequestOk(cfg, q, column')
  {
    hide Fold, Managed, LoadBlock, CeilDiv;
  }

  /** The visit an Execute step makes. */
  ghost function VisitOf(cfg: Config, s: Pool, op: Op): Visit
    requires op.Execute? && op.id in s.requests
  {
    VisitFor(cfg, s, s.requests[op.id], op.job, op.cu, op.last, op.row)
  }

  /** What the executed visit leaves: a sound step, the request's own state, and nothing else changed. */
  lemma ExecutedFacts(cfg: Config, s: Pool, op: Op)
    requires Inv(cfg, s) && Enabled(cfg, s, op) && op.Execute?
    ensures var r, v := s.requests[op.id], VisitOf(cfg, s, op);
            && GoodVisit(v, r.all) && Sound(v, r.all)
            && RequestOk(cfg, Executed(r), AfterVisit(v, r.all))
            && (forall slot :: 0 <= slot < |s.column| && !Writable(r, cfg.bs, slot) ==>
                                 AfterVisit(v, r.all)[slot] == s.column[slot])
            && Apply(cfg, s, op) == s.(requests := s.requests[op.id := Executed(r)], column := AfterVisit(v, r.all))
  {
    var r, v := s.requests[op.id], VisitOf(cfg, s, op);
    assert RequestOk(cfg, r, s.column);
    ExecutedColumn(cfg, s, r, op.job, op.cu, op.last, op.row);
    ExecutedRequest(cfg, s, r, v);
    ExecutedIs(cfg, s, op);
    hide *;
  }

  lemma ExecutedRequest(cfg: Config, s: Pool, r: Request, v: Visit)
    requires cfg.bs > 0 && RequestOk(cfg, r, s.column) && r.m > 0 && GoodVisit(v, r.all) && Sound(v, r.all)
    requires v.before == s.column && v.job.c == cfg.c && v.job.dstate == cfg.dstate
    requires v.step.table == r.blocks && v.step.n == r.n && v.step.m == r.m && v.step.bs == cfg.bs
    ensures RequestOk(cfg, Executed(r), AfterVisit(v, r.all))
  {
    hide Laid, GoodStep, JobOf, SameOutputs, Snapshots, Managed, CeilDiv, Fold, AfterVisit, LoadBlock, Ready, GoodTable;
    ManagedTable(r.blocks, cfg.nullBlock, r.first, r.n, r.m, cfg.bs, |s.column|);
  }

  lemma ExecutedIs(cfg: Config, s: Pool, op: Op)
    requires Inv(cfg, s) && Enabled(cfg, s, op) && op.Execute? && GoodVisit(VisitOf(cfg, s, op), s.requests[op.id].all)
    ensures var r := s.requests[op.id];
            Apply(cfg, s, op)
            == s.(requests := s.requests[op.id := Executed(r)], column := AfterVisit(VisitOf(cfg, s, op), r.all))
  {
    hide Inv, GoodVisit, AfterVisit, Laid, Supplied;
  }

  lemma ExecutedEntry(cfg: Config, s: Pool, op: Op, slot: nat)
    requires Inv(cfg, s) && Enabled(cfg, s, op) && op.Execute? && slot in s.cached
    ensures EntryOk(cfg, Apply(cfg, s, op), slot)
  {
    ExecutedFacts(cfg, s, op);
    var r, v, t := s.requests[op.id], VisitOf(cfg, s, op), Apply(cfg, s, op);
    var prefix := s.cached[slot];
    assert EntryOk(cfg, s, slot) && Guarded(cfg, s, r) && Supplied(cfg, r, op.job);
    hide Inv, Writable, Sound, GoodVisit, AfterVisit, RequestOk, Apply, Supplied, Enabled, Fold;
    if Pending(r, cfg.bs, slot, prefix) {
      PendingWritten(cfg, s, r, v, slot, prefix);
    } else if Right(cfg, s.column, slot, prefix) {
      assert !Writable(r, cfg.bs, slot);
    } else {
      hide Pending;
      var a :| a in s.requests && Pending(s.requests[a], cfg.bs, slot, prefix);
      assert a in t.requests && t.requests[a] == s.requests[a];
    }
  }

  lemma ExecutedGuarded(cfg: Config, s: Pool, op: Op)
    requires Inv(cfg, s) && Enabled(cfg, s, op) && op.Execute?
    ensures Guarded(cfg, Apply(cfg, s, op), Executed(s.requests[op.id]))
  {
    ExecutedFacts(cfg, s, op);
    var r, t := s.requests[op.id], Apply(cfg, s, op);
    assert RequestOk(cfg, r, s.column) && Guarded(cfg, s, r) && t.cached == s.cached;
    forall slot | Writable(Executed(r), cfg.bs, slot) ensures slot !in t.cached {
      WritableShrinks(r, cfg.bs, slot);
      hide Inv, Enabled, Apply, Writable, Pending, RequestOk, AfterVisit;
      if slot in s.cached { DoneWriting(cfg, r, s.column, slot, s.cached[slot]); }
    }
  }

  lemma ExecutedOthers(cfg: Config, s: Pool, op: Op, a: nat)
    requires Inv(cfg, s) && Enabled(cfg, s, op) && op.Execute? && a in s.requests && a != op.id
    ensures var t, q := Apply(cfg, s, op), s.requests[a];
            && RequestOk(cfg, q, t.column) && Guarded(cfg, t, q)
            && Exclusive(cfg, q, Executed(s.requests[op.id])) && Exclusive(cfg, Executed(s.requests[op.id]), q)
  {
    ExecutedFacts(cfg, s, op);
    var r, q, t := s.requests[op.id], s.requests[a], Apply(cfg, s, op);
    assert Exclusive(cfg, r, q) && Exclusive(cfg, q, r) && RequestOk(cfg, q, s.column) && Guarded(cfg, s, q);
    hide Inv, Enabled, Apply, Writable, Pending, RequestOk, AfterVisit, Sound, GoodVisit;
    ReadyKept(cfg, q, s.column, t.column);
    forall slot | Writable(Executed(r), cfg.bs, slot) ensures slot !in q.blocks { WritableShrinks(r, cfg.bs, slot); }
  }

  lemma ExecuteKeeps(cfg: Config, s: Pool, op: Op)
    requires Inv(cfg, s) && Enabled(cfg, s, op) && op.Execute?
    ensures Inv(cfg, Apply(cfg, s, op))
  {
    var t := Apply(cfg, s, op);
    ExecutedFacts(cfg, s, op);
    ExecutedGuarded(cfg, s, op);
    forall a | a in s.requests && a != op.id
      ensures RequestOk(cfg, s.requests[a], t.column) && Guarded(cfg, t, s.requests[a])
      ensures Exclusive(cfg, s.requests[a], Executed(s.requests[op.id]))
      ensures Exclusive(cfg, Executed(s.requests[op.id]), s.requests[a])
    {
      ExecutedOthers(cfg, s, op, a);
    }
    forall slot | slot in s.cached ensures EntryOk(cfg, t, slot) { ExecutedEntry(cfg, s, op, slot); }
    hide *;
    InvByParts(cfg, s, t, op.id, Executed(s.requests[op.id]));
  }

  // ----- runs

  /** Every step keeps the pool consistent. */
  lemma ApplyKeeps(cfg: Config, s: Pool, op: Op)
    requires Inv(cfg, s) && Enabled(cfg, s, op)
    ensures Inv(cfg, Apply(cfg, s, op))
  {
    match op
    case Admit(id, all) => AdmitKeeps(cfg, s, id, all);
    case AdmitHit(id, all, k, slot) => AdmitHitKeeps(cfg, s, id, all, k, slot);
    case Schedule(id, m, more) => ScheduleKeeps(cfg, s, id, m, more);
    case Execute(_, _, _, _, _) => ExecuteKeeps(cfg, s, op);
    case NewStep => NewStepKeeps(cfg, s);
    case Drop(id) => DropKeeps(cfg, s, id);
  }

  function EmptyPool(column: seq<State>): Pool { Pool(map[], map[], {}, column) }

  ghost predicate Taken(cfg: Config, s: Pool, op: Op, t: Pool) {
    Inv(cfg, s) ==> Enabled(cfg, s, op) && t == Apply(cfg, s, op)
  }

  /** A run of the pool from the start, with whatever states the blocks happen to hold. */
  ghost predicate PoolRun(cfg: Config, pools: seq<Pool>, ops: seq<Op>) {
    && cfg.bs > 0 && |pools| == |ops| + 1 && pools[0] == EmptyPool(pools[0].column) && cfg.nullBlock < |pools[0].column|
    && forall i :: 0 <= i < |ops| ==> Taken(cfg, pools[i], ops[i], pools[i + 1])
  }

  lemma {:induction false} RunKeeps(cfg: Config, pools: seq<Pool>, ops: seq<Op>, i: nat)
    requires PoolRun(cfg, pools, ops) && i < |pools|
    ensures Inv(cfg, pools[i])
  {
    if i > 0 {
      RunKeeps(cfg, pools, ops, i - 1);
      assert Taken(cfg, pools[i - 1], ops[i - 1], pools[i]);
      hide Inv, Enabled, Apply;
      ApplyKeeps(cfg, pools[i - 1], ops[i - 1]);
    }
  }

  /** In every run of requests over the pool, every execution of a request finds its state, gives the outputs of the
      plain scan of its tokens and leaves the plain scan's states. */
  lemma EveryExecutionIsSound(cfg: Config, pools: seq<Pool>, ops: seq<Op>, i: nat)
    requires PoolRun(cfg, pools, ops) && i < |ops| && ops[i].Execute?
    ensures ops[i].id in pools[i].requests
    ensures var r, v := pools[i].requests[ops[i].id], VisitOf(cfg, pools[i], ops[i]);
            GoodVisit(v, r.all) && Sound(v, r.all) && pools[i + 1].column == AfterVisit(v, r.all)
  {
    RunKeeps(cfg, pools, ops, i);
    assert Taken(cfg, pools[i], ops[i], pools[i + 1]);
    ExecutedFacts(cfg, pools[i], ops[i]);
  }

  // ----- what the cache is for

  /** An entry stays in the cache until its block is handed out again. */
  lemma EntryRemains(cfg: Config, s: Pool, op: Op, slot: nat)
    requires Inv(cfg, s) && Enabled(cfg, s, op) && slot in s.cached && !(op.Schedule? && slot in op.more)
    ensures slot in Apply(cfg, s, op).cached && Apply(cfg, s, op).cached[slot] == s.cached[slot]
  {
    if op.Schedule? {
      ScheduleLeaves(cfg, s, op.id, op.m, op.more, slot);
    } else {
      hide Inv, AfterVisit;
    }
  }

  ghost predicate NotHandedOut(ops: seq<Op>, slot: nat, i: int, j: int) {
    forall k :: i <= k < j && 0 <= k < |ops| ==> !(ops[k].Schedule? && slot in ops[k].more)
  }

  lemma {:induction false} EntryRemainsInRun(cfg: Config, pools: seq<Pool>, ops: seq<Op>, slot: nat, i: nat, j: nat)
    requires PoolRun(cfg, pools, ops) && i <= j < |pools| && slot in pools[i].cached && NotHandedOut(ops, slot, i, j)
    ensures slot in pools[j].cached && pools[j].cached[slot] == pools[i].cached[slot]
    decreases j
  {
    if i < j {
      hide Inv, Enabled, Apply;
      EntryRemainsInRun(cfg, pools, ops, slot, i, j - 1);
      RunKeeps(cfg, pools, ops, j - 1);
      assert Taken(cfg, pools[j - 1], ops[j - 1], pools[j]);
      EntryRemains(cfg, pools[j - 1], ops[j - 1], slot);
    }
  }

  /** Once the step in which a block was filled is over, and as long as the block was not handed out again, every new
      request that shares the tokens up to the end of the block can start from it. */
  lemma FilledBlockServes(cfg: Config, pools: seq<Pool>, ops: seq<Op>, i: nat, j: nat, b: nat, id: nat,
                          other: seq<Token>)
    requires PoolRun(cfg, pools, ops) && i < j < |ops| && ops[i].Schedule? && ops[j].NewStep?
    requires ops[i].id in pools[i].requests && ops[i].id in pools[i + 1].requests
    requires b < |pools[i + 1].requests[ops[i].id].blocks|
    requires var r := pools[i].requests[ops[i].id];
             && r.n / cfg.bs <= b < (r.n + ops[i].m) / cfg.bs
             && 0 <= (b + 1) * cfg.bs <= |r.all| && (b + 1) * cfg.bs <= |other|
             && other[..(b + 1) * cfg.bs] == r.all[..(b + 1) * cfg.bs]
    requires NotHandedOut(ops, pools[i + 1].requests[ops[i].id].blocks[b], i + 1, j) && id !in pools[j + 1].requests
    ensures Enabled(cfg, pools[j + 1], AdmitHit(id, other, b, pools[i + 1].requests[ops[i].id].blocks[b]))
    ensures Ready(cfg.c, cfg.dstate, other, (b + 1) * cfg.bs, cfg.bs,
                  seq(b, _ => cfg.nullBlock) + [pools[i + 1].requests[ops[i].id].blocks[b]], pools[j + 1].column)
  {
    hide *;
    StepTaken(cfg, pools, ops, i);
    StepTaken(cfg, pools, ops, j);
    var slot := pools[i + 1].requests[ops[i].id].blocks[b];
    RunKeeps(cfg, pools, ops, j + 1);
    ScheduleCaches(cfg, pools[i], ops[i].id, ops[i].m, ops[i].more, b) by { IsSchedule(ops[i]); }
    assert ops[i] == Schedule(ops[i].id, ops[i].m, ops[i].more) by { IsSchedule(ops[i]); }
    EntryRemainsInRun(cfg, pools, ops, slot, i + 1, j);
    NewStepForgets(cfg, pools[j], ops[j]);
    CachedServes(cfg, pools[j + 1], other, b, slot, id);
  }

  lemma IsSchedule(op: Op)
    requires op.Schedule?
    ensures op == Schedule(op.id, op.m, op.more)
  {
  }

  lemma StepTaken(cfg: Config, pools: seq<Pool>, ops: seq<Op>, i: nat)
    requires PoolRun(cfg, pools, ops) && i < |ops|
    ensures |pools| == |ops| + 1 && cfg.bs > 0
    ensures Inv(cfg, pools[i]) && Enabled(cfg, pools[i], ops[i]) && pools[i + 1] == Apply(cfg, pools[i], ops[i])
  {
    hide Inv, Enabled, Apply;
    RunKeeps(cfg, pools, ops, i);
    assert Taken(cfg, pools[i], ops[i], pools[i + 1]);
  }

  lemma NewStepForgets(cfg: Config, s: Pool, op: Op)
    requires Inv(cfg, s) && Enabled(cfg, s, op) && op.NewStep?
    ensures var t := Apply(cfg, s, op); t.recent == {} && t.cached == s.cached
  {
    hide Inv, Enabled;
  }

  /** Between steps every cached block serves. */
  lemma CachedServes(cfg: Config, s: Pool, all: seq<Token>, b: nat, slot: nat, id: nat)
    requires Inv(cfg, s) && s.recent == {} && slot in s.cached && id !in s.requests
    requires 0 <= (b + 1) * cfg.bs <= |all| && s.cached[slot] == all[..(b + 1) * cfg.bs]
    ensures cfg.bs > 0 && Enabled(cfg, s, AdmitHit(id, all, b, slot))
    ensures Ready(cfg.c, cfg.dstate, all, (b + 1) * cfg.bs, cfg.bs, seq(b, _ => cfg.nullBlock) + [slot], s.column)
  {
    hide Guarded, Exclusive, RequestOk, Right, Ready;
    assert EntryOk(cfg, s, slot);
    HitRequestOk(cfg, s, all, b, slot);
    HitReady(cfg, Request(all, (b + 1) * cfg.bs, 0, seq(b, _ => cfg.nullBlock) + [slot], b), s.column);
  }

  lemma HitReady(cfg: Config, r: Request, column: seq<State>)
    requires cfg.bs > 0 && RequestOk(cfg, r, column)
    ensures r.n <= |r.all| && Ready(cfg.c, cfg.dstate, r.all, r.n, cfg.bs, r.blocks, column)
  {
    hide Managed, Below, Ready, CeilDiv;
  }

  // ----- the hypotheses of the request-level and of the launch-level theorem

  /** A step that neither executes nor drops a request keeps the entry it will load from. */
  lemma EntryKept(cfg: Config, s: Pool, op: Op, id: nat)
    requires Inv(cfg, s) && Enabled(cfg, s, op) && id in s.requests
    requires !(op.Execute? && op.id == id) && !(op.Drop? && op.id == id)
    ensures var t, r := Apply(cfg, s, op), s.requests[id];
            && |t.column| == |s.column| && id in t.requests && t.requests[id].all == r.all && t.requests[id].n == r.n
            && (r.n > 0 ==>
                  var b := LoadBlock(r.n, cfg.bs);
                  b < |r.blocks| && b < |t.requests[id].blocks| && t.requests[id].blocks[b] == r.blocks[b])
  {
    var r := s.requests[id];
    assert RequestOk(cfg, r, s.column);
    if r.n > 0 { LoadInside(cfg, r); }
    if op.Schedule? {
      ScheduledShape(cfg, s, op.id, op.m, op.more);
      if op.id == id && r.n > 0 { TableAt(cfg, r, op.more, LoadBlock(r.n, cfg.bs)); }
      hide Inv, Enabled, LoadBlock, RequestOk, Apply, Skipping, FirstAfter;
      assert Apply(cfg, s, op) == ScheduledPool(cfg, s, op.id, op.m, op.more);
    } else {
      hide Inv, LoadBlock, RequestOk, AfterVisit;
    }
  }

  /** No execution and no end of the request in steps i to j of the run. */
  ghost predicate Undisturbed(ops: seq<Op>, id: nat, i: int, j: int) {
    forall k :: i <= k < j && 0 <= k < |ops| ==>
        !(ops[k].Execute? && ops[k].id == id) && !(ops[k].Drop? && ops[k].id == id)
  }

  ghost predicate SameEntry(cfg: Config, s: Pool, t: Pool, id: nat)
    requires cfg.bs > 0
  {
    && id in s.requests && id in t.requests && |t.column| == |s.column|
    && var r, q := s.requests[id], t.requests[id];
    && q.all == r.all && q.n == r.n
    && (r.n > 0 ==> var b := LoadBlock(r.n, cfg.bs); b < |r.blocks| && b < |q.blocks| && q.blocks[b] == r.blocks[b])
  }

  lemma {:induction false} EntryKeptInRun(cfg: Config, pools: seq<Pool>, ops: seq<Op>, id: nat, i: nat, j: nat)
    requires PoolRun(cfg, pools, ops) && i <= j < |pools| && id in pools[i].requests && Undisturbed(ops, id, i, j)
    ensures SameEntry(cfg, pools[i], pools[j], id)
    decreases j
  {
    hide Inv, Enabled, Apply, LoadBlock;
    if i == j {
      RunKeeps(cfg, pools, ops, i);
      OwnEntry(cfg, pools[i], id);
    } else {
      EntryKeptInRun(cfg, pools, ops, id, i, j - 1);
      RunKeeps(cfg, pools, ops, j - 1);
      assert Taken(cfg, pools[j - 1], ops[j - 1], pools[j]);
      EntryKept(cfg, pools[j - 1], ops[j - 1], id);
    }
  }

  lemma OwnEntry(cfg: Config, s: Pool, id: nat)
    requires Inv(cfg, s) && id in s.requests
    ensures SameEntry(cfg, s, s, id)
  {
    assert RequestOk(cfg, s.requests[id], s.column);
    hide LoadBlock;
    if s.requests[id].n > 0 { LoadInside(cfg, s.requests[id]); }
  }

  /** Two executions of a request with none in between: the second visit follows the first, whatever the other requests
      did in between. */
  lemma VisitsFollow(cfg: Config, pools: seq<Pool>, ops: seq<Op>, i: nat, j: nat)
    requires PoolRun(cfg, pools, ops) && i < j < |ops| && ops[i].Execute? && ops[j].Execute? && ops[i].id == ops[j].id
    requires Undisturbed(ops, ops[i].id, i + 1, j)
    ensures ops[i].id in pools[i].requests && ops[j].id in pools[j].requests
    ensures var all, v, w := pools[i].requests[ops[i].id].all, VisitOf(cfg, pools[i], ops[i]),
            VisitOf(cfg, pools[j], ops[j]);
            && pools[j].requests[ops[j].id].all == all && GoodVisit(v, all) && GoodVisit(w, all) && Follows(v, w, all)
  {
    var id := ops[i].id;
    RunKeeps(cfg, pools, ops, i);
    RunKeeps(cfg, pools, ops, j);
    assert Taken(cfg, pools[i], ops[i], pools[i + 1]) && Taken(cfg, pools[j], ops[j], pools[j + 1]);
    EveryExecutionIsSound(cfg, pools, ops, i);
    EveryExecutionIsSound(cfg, pools, ops, j);
    ExecutedFacts(cfg, pools[i], ops[i]);
    EntryKeptInRun(cfg, pools, ops, id, i + 1, j);
    VisitFollows(cfg, pools[i], ops[i], pools[j], ops[j]);
  }

  lemma VisitFollows(cfg: Config, s: Pool, op: Op, t: Pool, later: Op)
    requires Inv(cfg, s) && Enabled(cfg, s, op) && op.Execute? && Enabled(cfg, t, later) && later.Execute?
             && later.id == op.id
    requires var all := s.requests[op.id].all;
             && GoodVisit(VisitOf(cfg, s, op), all) && Sound(VisitOf(cfg, s, op), all)
             && SameEntry(cfg, Apply(cfg, s, op), t, op.id)
    requires GoodVisit(VisitOf(cfg, t, later), t.requests[op.id].all)
             && Sound(VisitOf(cfg, t, later), t.requests[op.id].all)
    ensures Follows(VisitOf(cfg, s, op), VisitOf(cfg, t, later), s.requests[op.id].all)
  {
    var r := s.requests[op.id];
    ExecutedFacts(cfg, s, op);
    assert Apply(cfg, s, op).requests[op.id] == Executed(r);
    hide Inv, Apply, AfterVisit, Fold, LoadBlock, Laid, GoodStep, JobOf, Snapshots, SameOutputs, RequestOk, Writable;
  }

  /** The program of a scheduled request, for any channel. */
  ghost predicate ProgramOf(cfg: Config, r: Request, g: Program, cu: seq<int>, last: seq<int>)
    requires cfg.bs > 0
  {
    && |g.job.u| == r.m && r.m > 0 && Laid(cu, last, g.batch, r.n, r.m, cfg.bs)
    && g.mode == Cached(PlanFor(StepFor(cfg, r, cu, last, g.batch)))
  }

  lemma ProgramSlots(cfg: Config, r: Request, column: seq<State>, g: Program, cu: seq<int>, last: seq<int>, slot: nat)
    requires cfg.bs > 0 && RequestOk(cfg, r, column) && ProgramOf(cfg, r, g, cu, last)
    ensures Addressable(g.mode, |g.job.u|, |column|)
    ensures Stores(g, |column|, slot) ==> Writable(r, cfg.bs, slot)
    ensures Uses(g, |column|, slot) ==> slot in r.blocks
  {
    var st, slots := StepFor(cfg, r, cu, last, g.batch), |column|;
    hide Laid, Managed, Below, Ready, Writable, CeilDiv, GoodStep, Chunks, SlotOf;
    ManagedStep(st, slots, cfg.nullBlock, r.first);
    StepLoadable(st, slots);
    if Stores(g, slots, slot) {
      var p := PlanFor(st);
      var k: nat :| k < NumChunks(p) && StoresChunk(p, |g.job.u|, slots, k, slot);
      ChunkBlock(st, slots, k);
      StoreIsWritable(cfg, r, st, slots, k);
      assert SlotOf(st, k) == slot by { SlotAt(st, slots, k); }
    }
    LoadIsHeld(st, slots);
  }

  lemma SlotAt(st: Step, slots: nat, k: nat)
    requires GoodStep(st, slots) && k < Chunks(st)
    ensures st.n / st.bs + k < |st.table| && SlotOf(st, k) == st.table[st.n / st.bs + k]
  {
    hide Laid;
    BlocksOf(st);
  }

  lemma LoadIsHeld(st: Step, slots: nat)
    requires GoodStep(st, slots)
    ensures PlanFor(st).initIdx < |PlanFor(st).table| && LoadSlot(Cached(PlanFor(st))) in st.table
  {
    hide Laid, GoodTable;
    CeilStep(st.n, st.bs);
  }

  /** Two scheduled requests of a consistent pool: neither stores into a slot the other uses. */
  lemma ScheduledSlotsApart(cfg: Config, s: Pool, a: nat, b: nat, g: Program, h: Program, cu: seq<int>, last: seq<int>)
    requires Inv(cfg, s) && a in s.requests && b in s.requests && a != b
    requires ProgramOf(cfg, s.requests[a], g, cu, last) && ProgramOf(cfg, s.requests[b], h, cu, last)
    ensures SlotsApart(g, h, |s.column|)
  {
    var q, r, slots := s.requests[a], s.requests[b], |s.column|;
    assert RequestOk(cfg, q, s.column) && RequestOk(cfg, r, s.column) && Exclusive(cfg, q, r);
    hide Inv, RequestOk, ProgramOf, Writable, Stores, Uses, Addressable;
    ProgramSlots(cfg, q, s.column, g, cu, last, 0);
    ProgramSlots(cfg, r, s.column, h, cu, last, 0);
    forall slot | Stores(g, slots, slot) ensures !Uses(h, slots, slot) {
      ProgramSlots(cfg, q, s.column, g, cu, last, slot);
      ProgramSlots(cfg, r, s.column, h, cu, last, slot);
    }
  }

  /** So the programs of all scheduled requests make a launch, which LaunchIsIndependent is about. */
  lemma LaunchFromPool(cfg: Config, s: Pool, ids: seq<nat>, programs: seq<Program>, cu: seq<int>, last: seq<int>,
                       starts: seq<nat>, total: nat)
    requires Inv(cfg, s) && Distinct(ids) && (forall i :: 0 <= i < |ids| ==> ids[i] in s.requests)
             && Packed(starts, total)
    requires forall i :: 0 <= i < |programs| ==>
                           && programs[i].batch < |ids| && Placed(programs[i], starts, total, |s.column|)
                           && ProgramOf(cfg, s.requests[ids[programs[i].batch]], programs[i], cu, last)
    requires forall i, j :: 0 <= i < |programs| && 0 <= j < |programs| && i != j ==>
                              programs[i].batch != programs[j].batch || programs[i].job.dim != programs[j].job.dim
    ensures Launch(programs, starts, total, |s.column|)
  {
    hide Inv, ProgramOf, Placed, Packed, SlotsApart;
    forall i, j | 0 <= i < |programs| && 0 <= j < |programs| && programs[i].batch != programs[j].batch
      ensures SlotsApart(programs[i], programs[j], |s.column|)
    {
      ScheduledSlotsApart(cfg, s, ids[programs[i].batch], ids[programs[j].batch], programs[i], programs[j], cu, last);
    }
  }

  /** A scheduled request that is dropped before its step runs, with a block that the step would have filled: the block
      stays cached, and once the step is over a request with its prefix is admitted to a state that is not there. */
  lemma DroppedBeforeExecution(c: Coeffs, t: Token)
    ensures var cfg, r := Config(c, 1, 1, 0, 0), Request([t], 0, 1, [1], 0);
            var s := Pool(map[0 := r], map[1 := [t]], {[t]}, [[], []]);
            var u := s.(requests := s.requests - {0}, recent := {});
            && Inv(cfg, s) && Enabled(cfg, u, AdmitHit(0, [t, t], 0, 1))
            && !Ready(c, 1, [t, t], 1, 1, [1], u.column)
  {
    var cfg, r := Config(c, 1, 1, 0, 0), Request([t], 0, 1, [1], 0);
    var s := Pool(map[0 := r], map[1 := [t]], {[t]}, [[], []]);
    CeilStep(0, 1);
    CeilStep(1, 1);
    assert [t, t][..1] == [t] && [t][..1] == [t];
    assert WritesAt(r, 1, 0, 1);
    assert PendingAt(r, 1, 0, 1, [t]);
    assert |Fold(c, Blank(1), [t])| == 1;
    hide Fold;
    assert RequestOk(cfg, r, s.column);
    assert Pending(r, 1, 1, [t]);
    hide Pending;
    forall slot | Writable(r, 1, slot) ensures slot == 1 {}
    assert Guarded(cfg, s, r);
    assert 0 in s.requests && s.requests[0] == r;
    assert EntryOk(cfg, s, 1);
    assert LoadBlock(1, 1) == 0;
    assert !Ready(c, 1, [t, t], 1, 1, [1], [[], []]);
  }
}
