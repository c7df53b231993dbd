/** The block table of a request as the Mamba cache manager keeps it: blocks before the one of the last
    computed token are freed and replaced by the null block, and a prefix hit has null blocks before the
    block that was hit.  Its tables are those the scan needs. */
module MambaBlocks {
  import opened Arithmetic
  import opened Collections
  import opened SelectiveScan
  import opened ScanKernel
  import opened ScanMetadata
  import opened PrefixCache

  /** Null blocks up to `first`, then blocks of its own. */
  ghost predicate Window(blocks: seq<nat>, nullBlock: nat, first: nat) {
    && first <= |blocks|
    && (forall i :: 0 <= i < first ==> blocks[i] == nullBlock)
    && (forall i :: first <= i < |blocks| ==> blocks[i] != nullBlock)
    && forall i, j :: first <= i < j < |blocks| ==> blocks[i] != blocks[j]
  }

  /** The table of a request with n computed tokens: the block of the last of them is still its own. */
  ghost predicate Managed(blocks: seq<nat>, nullBlock: nat, first: nat, n: nat, bs: nat)
    requires bs > 0
  {
    Window(blocks, nullBlock, first) && first <= LoadBlock(n, bs) && (n > 0 ==> LoadBlock(n, bs) < |blocks|)
  }

  // ----- a prefix hit

  /** Block i can be a hit: it is cached and the prefix up to its end is aligned for the other groups. */
  predicate Hit(cached: seq<Option<nat>>, bs: nat, alignment: nat, i: nat)
    requires i < |cached| && alignment > 0
  {
    cached[i].Some? && (bs == alignment || ((i + 1) * bs) % alignment == 0)
  }

  /** So many blocks end where the other groups can go on. */
  ghost predicate Covers(blocks: int, bs: nat, alignment: nat)
    requires alignment > 0
  {
    (blocks * bs) % alignment == 0
  }

  lemma HitCovers(cached: seq<Option<nat>>, bs: nat, alignment: nat, i: nat)
    requires i < |cached| && alignment > 0
    ensures Hit(cached, bs, alignment, i) <==> cached[i].Some? && Covers(i + 1, bs, alignment)
  {
    if bs == alignment { DivUnique((i + 1) * bs, bs, i + 1); }
  }

  /** The longest hit: null blocks, then the cached block. */
  method FindLongestHit(cached: seq<Option<nat>>, maxBlocks: nat, bs: nat, alignment: nat, nullBlock: nat)
    returns (computed: seq<nat>)
    requires maxBlocks <= |cached| && alignment > 0
    ensures computed == [] <==> forall i :: 0 <= i < maxBlocks ==> !Hit(cached, bs, alignment, i)
    ensures computed != [] ==>
              var k := |computed| - 1;
              && k < maxBlocks && Hit(cached, bs, alignment, k)
              && (forall i :: k < i < maxBlocks ==> !Hit(cached, bs, alignment, i))
              && computed == seq(k, _ => nullBlock) + [cached[k].value]
    ensures computed != [] ==>
              && Covers(|computed|, bs, alignment) && |computed| <= maxBlocks && cached[|computed| - 1].Some?
              && |computed| > 0 && computed[|computed| - 1] == cached[|computed| - 1].value
    ensures forall i :: |computed| <= i < maxBlocks && cached[i].Some? ==> !Covers(i + 1, bs, alignment)
  {
    hide Hit;
    forall i | 0 <= i < maxBlocks
      ensures Hit(cached, bs, alignment, i) <==> cached[i].Some? && Covers(i + 1, bs, alignment)
    {
      HitCovers(cached, bs, alignment, i);
    }
    hide Covers;
    computed := [];
    var i := maxBlocks;
    while i > 0
      invariant 0 <= i <= maxBlocks && computed == []
      invariant forall j :: i <= j < maxBlocks ==> !Hit(cached, bs, alignment, j)
    {
      i := i - 1;
      if Hit(cached, bs, alignment, i) {
        computed := seq(i, _ => nullBlock) + [cached[i].value];
        return;
      }
    }
  }

  /** A hit makes a managed table for the tokens it covers, whose load slot is the cached block. */
  lemma HitIsManaged(cached: seq<Option<nat>>, k: nat, nullBlock: nat, bs: nat)
    requires k < |cached| && cached[k].Some? && cached[k].value != nullBlock && bs > 0
    ensures var computed := seq(k, _ => nullBlock) + [cached[k].value];
            0 <= (k + 1) * bs && Managed(computed, nullBlock, k, (k + 1) * bs, bs)
            && LoadBlock((k + 1) * bs, bs) == k
  {
    MulLe(1, k + 1, bs);
    DivUnique((k + 1) * bs + bs - 1, bs, k + 1);
  }

  /** With a cache whose entry k holds the scan of the first k + 1 blocks of its tokens, a request with those
      tokens starts ready after a hit. */
  lemma HitIsReady(c: Coeffs, dstate: nat, bs: nat, column: seq<State>, cached: seq<Option<nat>>, k: nat,
                   nullBlock: nat, all: seq<Token>, n: nat, other: seq<Token>)
    requires bs > 0 && k < |cached| && cached[k].Some? && cached[k].value < |column|
    requires 0 <= (k + 1) * bs <= n <= |all| && (k + 1) * bs <= |other| && other[..(k + 1) * bs] == all[..(k + 1) * bs]
    requires Holds(c, dstate, all, k, n, bs, column[cached[k].value])
    ensures Ready(c, dstate, other, (k + 1) * bs, bs, seq(k, _ => nullBlock) + [cached[k].value], column)
  {
    SharedPrefix(c, dstate, bs, column, k + 1, cached[k].value, all, n, other,
        seq(k, _ => nullBlock) + [cached[k].value]);
  }

  // ----- freeing and allocating

  /** Tokens whose states are not needed any more: all but the last, drafts that may be rejected aside. */
  function SkippedBlocks(n: nat, speculative: nat, bs: nat): nat
    requires bs > 0
  {
    var kept := if n > speculative then n - speculative else 0;
    if kept <= 1 then 0 else
      DivMonotone(0, kept - 1, bs);
      (kept - 1) / bs
  }

  lemma SkippedBeforeLoad(n: nat, speculative: nat, bs: nat)
    requires bs > 0
    ensures SkippedBlocks(n, speculative, bs) <= LoadBlock(n, bs)
  {
    CeilStep(n, bs);
    if n > speculative + 1 { DivMonotone(n - speculative - 1, n - 1, bs); }
    if n > 0 { DivMonotone(0, n - 1, bs); }
  }

  /** All tokens of block i come before the last computed one, even if all drafts are rejected. */
  ghost predicate Behind(i: int, n: nat, speculative: nat, bs: nat) { (i + 1) * bs + speculative < n }

  /** Exactly the blocks behind the last token that is sure to stay are skipped. */
  lemma SkippedExactly(n: nat, speculative: nat, bs: nat, i: nat)
    requires bs > 0
    ensures i < SkippedBlocks(n, speculative, bs) <==> Behind(i, n, speculative, bs)
  {
    MulLe(1, i + 1, bs);
    if n > speculative + 1 {
      var k := n - speculative - 1;
      DivBounds(k, bs);
      MulLe(i + 1, k / bs, bs);
      MulLe(k / bs + 1, i + 1, bs);
      MulNext(k / bs, bs);
    }
  }

  lemma SkippingExactly(blocks: seq<nat>, nullBlock: nat, n: nat, speculative: nat, bs: nat)
    requires bs > 0
    ensures forall i :: 0 <= i < |blocks| ==>
                          Skipping(blocks, nullBlock, n, speculative, bs)[i]
                          == if Behind(i, n, speculative, bs) then nullBlock else blocks[i]
  {
    hide SkippedBlocks, Behind;
    forall i | 0 <= i < |blocks|
      ensures Skipping(blocks, nullBlock, n, speculative, bs)[i]
              == if Behind(i, n, speculative, bs) then nullBlock else blocks[i]
    {
      SkippedExactly(n, speculative, bs, i);
    }
  }

  /** The table once the blocks that are not needed any more are the null block. */
  function Skipping(blocks: seq<nat>, nullBlock: nat, n: nat, speculative: nat, bs: nat): (r: seq<nat>)
    requires bs > 0
    ensures |r| == |blocks|
  {
    seq(|blocks|, i requires 0 <= i < |blocks| => if i < SkippedBlocks(n, speculative, bs) then nullBlock
        else blocks[i])
  }

  /** Where the request's own blocks then start. */
  function FirstAfter(blocks: seq<nat>, first: nat, n: nat, speculative: nat, bs: nat): nat
    requires bs > 0
  {
    var skipped := Min(SkippedBlocks(n, speculative, bs), |blocks|);
    if first < skipped then skipped else first
  }

  lemma SkippingManaged(blocks: seq<nat>, nullBlock: nat, n: nat, speculative: nat, bs: nat, first: nat)
    requires bs > 0 && Managed(blocks, nullBlock, first, n, bs)
    ensures Managed(Skipping(blocks, nullBlock, n, speculative, bs), nullBlock,
            FirstAfter(blocks, first, n, speculative, bs), n, bs)
  {
    SkippedBeforeLoad(n, speculative, bs);
    hide SkippedBlocks, LoadBlock;
  }

  lemma WindowGrows(blocks: seq<nat>, nullBlock: nat, first: nat, more: seq<nat>)
    requires Window(blocks, nullBlock, first) && Distinct(more) && nullBlock !in more
    requires forall b :: b in more ==> b !in blocks
    ensures Window(blocks + more, nullBlock, first)
  {
    var table := blocks + more;
    forall i | |blocks| <= i < |table| ensures table[i] in more && table[i] !in blocks {
      assert table[i] == more[i - |blocks|];
    }
  }

  /** From the right, until a null block says that the rest was freed before. */
  method RemoveSkipped(blocks: seq<nat>, nullBlock: nat, n: nat, speculative: nat, bs: nat, ghost first: nat)
    returns (kept: seq<nat>, freed: seq<nat>, ghost first': nat)
    requires bs > 0 && Managed(blocks, nullBlock, first, n, bs)
    ensures Managed(kept, nullBlock, first', n, bs) && kept == Skipping(blocks, nullBlock, n, speculative, bs)
    ensures forall i :: 0 <= i < |blocks| ==>
                          kept[i] == if Behind(i, n, speculative, bs) then nullBlock else blocks[i]
    ensures first' == FirstAfter(blocks, first, n, speculative, bs)
    ensures |freed| == first' - first && forall i :: 0 <= i < |freed| ==> freed[i] == blocks[first' - 1 - i]
  {
    SkippingManaged(blocks, nullBlock, n, speculative, bs, first);
    SkippingExactly(blocks, nullBlock, n, speculative, bs);
    hide Behind;
    var skipped := Min(SkippedBlocks(n, speculative, bs), |blocks|);
    kept, freed := blocks, [];
    first' := if first < skipped then skipped else first;
    var i := skipped;
    while i > 0
      invariant 0 <= i <= skipped && |kept| == |blocks|
      invariant forall j :: 0 <= j < |blocks| ==> kept[j] == if i <= j < skipped then nullBlock else blocks[j]
      invariant i >= first || i == skipped
      invariant |freed| == (if first < skipped then skipped - i else 0)
      invariant forall j :: 0 <= j < |freed| ==> freed[j] == blocks[skipped - 1 - j]
    {
      if kept[i - 1] == nullBlock {
        break;
      }
      i := i - 1;
      freed := freed + [kept[i]];
      kept := kept[i := nullBlock];
    }
  }

  /** Blocks for the given number of tokens and one more for every draft token. */
  function Required(tokens: nat, speculative: nat, bs: nat): int
    requires bs > 0
  {
    CeilDiv(if speculative > 0 then tokens + bs * speculative else tokens, bs)
  }

  lemma RequiredBlocks(tokens: nat, speculative: nat, bs: nat)
    requires bs > 0
    ensures Required(tokens, speculative, bs) == CeilDiv(tokens, bs) + speculative
  {
    assert bs * speculative == speculative * bs;
    DivShift(tokens + bs - 1, speculative, bs);
  }

  /** Enough blocks for the given number of tokens; the pool hands out blocks that nobody holds. */
  method AllocateNew(blocks: seq<nat>, nullBlock: nat, tokens: nat, speculative: nat, bs: nat, pool: seq<nat>,
                     ghost first: nat)
    returns (table: seq<nat>)
    requires bs > 0 && Window(blocks, nullBlock, first)
    requires Distinct(pool) && nullBlock !in pool && (forall b :: b in pool ==> b !in blocks)
    requires |pool| >= Required(tokens, speculative, bs) - |blocks|
    ensures Window(table, nullBlock, first) && blocks <= table && table[|blocks|..] <= pool
    ensures |table| == if CeilDiv(tokens, bs) + speculative > |blocks| then CeilDiv(tokens, bs) + speculative
            else |blocks|
  {
    RequiredBlocks(tokens, speculative, bs);
    hide CeilDiv, Required;
    var required := Required(tokens, speculative, bs) - |blocks|;
    if required <= 0 {
      return blocks;
    }
    table := blocks + pool[..required];
    WindowGrows(blocks, nullBlock, first, pool[..required]);
  }

  lemma BlockOrder(n: nat, m: nat, bs: nat)
    requires bs > 0 && m > 0
    ensures LoadBlock(n, bs) <= n / bs < CeilDiv(n + m, bs)
    ensures LoadBlock(n, bs) <= LoadBlock(n + m, bs) == CeilDiv(n + m, bs) - 1
  {
    CeilStep(n, bs);
    CeilStep(n + m, bs);
    if n > 0 { DivMonotone(n - 1, n, bs); }
    DivMonotone(0, n, bs);
    DivMonotone(n, n + m - 1, bs);
  }

  ghost predicate Below(blocks: seq<nat>, slots: nat) { forall i :: 0 <= i < |blocks| ==> blocks[i] < slots }

  /** What is managed for n computed tokens and long enough for m more is a table the scan can run on. */
  lemma ManagedTable(table: seq<nat>, nullBlock: nat, first: nat, n: nat, m: nat, bs: nat, slots: nat)
    requires bs > 0 && m > 0 && Managed(table, nullBlock, first, n, bs) && |table| >= CeilDiv(n + m, bs)
             && Below(table, slots)
    ensures GoodTable(table, n / bs, CeilDiv(n + m, bs), slots)
    ensures LoadBlock(n, bs) < |table| && table[LoadBlock(n, bs)] < slots && table[LoadBlock(n, bs)] != nullBlock
    ensures Managed(table, nullBlock, first, n + m, bs)
  {
    hide CeilDiv, LoadBlock;
    BlockOrder(n, m, bs);
    DivMonotone(0, n, bs);
  }

  /** One scheduling step of the manager: free what is not needed, allocate what the new tokens need.  The result
      is a table the scan can run on, the load slot is the old one, and the table is managed for the next step.  The
      pool may hand out the very blocks that were just freed. */
  method ScheduleStep(blocks: seq<nat>, nullBlock: nat, n: nat, m: nat, speculative: nat, bs: nat, pool: seq<nat>,
                      ghost first: nat, ghost slots: nat)
    returns (table: seq<nat>, ghost first': nat)
    requires bs > 0 && m > 0 && Managed(blocks, nullBlock, first, n, bs) && nullBlock < slots
    requires Distinct(pool) && nullBlock !in pool && (forall b :: b in pool ==> b < slots)
    requires forall i :: SkippedBlocks(n, speculative, bs) <= i < |blocks| ==> blocks[i] !in pool
    requires Below(blocks, slots) && |pool| >= Required(n + m, speculative, bs) - |blocks|
    ensures Skipping(blocks, nullBlock, n, speculative, bs) <= table && table[|blocks|..] <= pool
    ensures |table| >= CeilDiv(n + m, bs) + speculative
    ensures GoodTable(table, n / bs, CeilDiv(n + m, bs), slots) && Below(table, slots)
    ensures LoadBlock(n, bs) < |table| && table[LoadBlock(n, bs)] < slots && table[LoadBlock(n, bs)] != nullBlock
    ensures n > 0 ==> LoadBlock(n, bs) < |blocks| && table[LoadBlock(n, bs)] == blocks[LoadBlock(n, bs)]
    ensures Managed(table, nullBlock, first', n, bs) && Managed(table, nullBlock, first', n + m, bs)
  {
    hide CeilDiv, LoadBlock, SkippedBlocks, Window, Distinct, GoodTable, Required;
    SkippedBeforeLoad(n, speculative, bs);
    var kept, freed;
    kept, freed, first' := RemoveSkipped(blocks, nullBlock, n, speculative, bs, first);
    forall b | b in pool ensures b !in kept {
      forall i | 0 <= i < |kept| ensures kept[i] != b {}
    }
    table := AllocateNew(kept, nullBlock, n + m, speculative, bs, pool, first');
    forall i | 0 <= i < |table| ensures table[i] < slots {
      if i < |kept| { assert table[i] == kept[i]; } else { assert table[|kept|..][i - |kept|] in pool; }
    }
    ManagedTable(table, nullBlock, first', n, m, bs, slots);
  }

  /** A step on a managed table is a step the scan is proved for, and its program does not meet the null block. */
  lemma ManagedStep(st: Step, slots: nat, nullBlock: nat, first: nat)
    requires st.bs > 0 && st.m > 0 && Laid(st.cu, st.last, st.r, st.n, st.m, st.bs)
    requires Managed(st.table, nullBlock, first, st.n, st.bs) && |st.table| >= CeilDiv(st.n + st.m, st.bs)
    requires Below(st.table, slots)
    ensures GoodStep(st, slots) && st.table[LoadBlock(st.n, st.bs)] != nullBlock
  {
    hide CeilDiv, LoadBlock, Laid, GoodTable;
    ManagedTable(st.table, nullBlock, first, st.n, st.m, st.bs, slots);
  }

  /** A hit of three blocks: the first two entries are the null block, twice. */
  lemma HitRepeatsNull()
    ensures Managed([0, 0, 5, 7], 0, 2, 3, 1) && !GoodTable([0, 0, 5, 7], 0, 4, 8) && GoodTable([0, 0, 5, 7], 3, 4, 8)
  {
    var t: seq<nat> := [0, 0, 5, 7];
    assert t[0] == t[1];
  }
}
