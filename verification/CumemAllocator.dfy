/** The chunked device-memory allocator: driver calls that may fail, the sticky error code, the
    loops that create, map, unmap and release, and the operations built from them. */
module CumemAllocator {
  import opened Arithmetic
  import opened Collections
  import opened ChunkSizes
  import opened AllocatorState

  /** Where create_and_map stopped. */
  datatype Site =
    | Done
    | Pending            // an error was already pending when the first handle had been created
    | CreateAt(i: nat)   // creating chunk i failed
    | MapAt(i: nat)      // mapping chunk i failed
    | Access             // setting the access rights failed

  ghost predicate AllThere(mapped: map<int, Mapping>, base: int, sizes: seq<int>, n: nat)
    requires n <= |sizes|
  {
    forall i :: 0 <= i < n ==> Addr(base, sizes, i) in mapped && mapped[Addr(base, sizes, i)].size == sizes[i]
  }

  ghost predicate NoneThere(mapped: map<int, Mapping>, base: int, sizes: seq<int>, n: nat)
    requires n <= |sizes|
  {
    forall i :: 0 <= i < n ==> Addr(base, sizes, i) !in mapped
  }

  /** The handles are in their cells, each once and live. */
  ghost predicate AllHeld(cells: map<nat, nat>, live: set<nat>, ptrs: seq<nat>) {
    && (forall i :: 0 <= i < |ptrs| ==> ptrs[i] in cells)
    && Distinct(Held(cells, ptrs)) && Range(Held(cells, ptrs)) <= live
  }

  ghost predicate NoneHeld(cells: map<nat, nat>, live: set<nat>, ptrs: seq<nat>) {
    (forall i :: 0 <= i < |ptrs| ==> ptrs[i] in cells) && Range(Held(cells, ptrs)) !! live
  }

  ghost predicate ThereFrom(mapped: map<int, Mapping>, base: int, sizes: seq<int>, i: nat, n: nat)
    requires n <= |sizes|
  {
    forall k :: i <= k < n ==> Addr(base, sizes, k) in mapped && mapped[Addr(base, sizes, k)].size == sizes[k]
  }

  /** Unmapping chunk i leaves the chunks after it. */
  lemma ThereNext(mapped: map<int, Mapping>, base: int, sizes: seq<int>, i: nat, n: nat)
    requires i < n <= |sizes| && AllPositive(sizes) && ThereFrom(mapped, base, sizes, i, n)
    ensures Addr(base, sizes, i) in mapped && mapped[Addr(base, sizes, i)].size == sizes[i]
    ensures ThereFrom(mapped, base, sizes, i + 1, n)
    ensures ThereFrom(mapped - {Addr(base, sizes, i)}, base, sizes, i + 1, n)
  {
    hide Addr;
    forall k | i < k < n ensures Addr(base, sizes, k) != Addr(base, sizes, i) {
      AddrApart(base, sizes, i, k);
    }
  }

  lemma NoneThereAt(mapped: map<int, Mapping>, base: int, sizes: seq<int>, n: nat, i: nat)
    requires i < n <= |sizes| && NoneThere(mapped, base, sizes, n)
    ensures Addr(base, sizes, i) !in mapped
  {
  }

  /** The first of the status codes that is an error, 0 if none is. */
  ghost function FirstError(codes: seq<int>): int {
    if codes == [] then 0 else if codes[0] != 0 then codes[0] else FirstError(codes[1..])
  }

  lemma {:induction false} FirstErrorAppend(a: seq<int>, b: seq<int>)
    ensures FirstError(a + b) == if FirstError(a) != 0 then FirstError(a) else FirstError(b)
  {
    if a == [] {
      assert a + b == b;
    } else {
      assert (a + b)[1..] == a[1..] + b;
      FirstErrorAppend(a[1..], b);
    }
  }

  lemma FirstErrorNext(codes: seq<int>, code: int)
    ensures FirstError(codes + [code]) == if FirstError(codes) != 0 then FirstError(codes) else code
  {
    FirstErrorAppend(codes, [code]);
    assert [code][1..] == [];
  }

  /** Where the unmapping loop stands before chunk i: the first error and the number of legal calls refused. */
  ghost predicate Unmapping(m0: map<int, Mapping>, m: map<int, Mapping>, base: int, sizes: seq<int>, n: nat, i: nat,
                            first: int, no: int)
    requires i <= n <= |sizes|
  {
    && no >= 0 && (no > 0 ==> first != 0)
    && (first == 0 ==> |m.Keys| + i == |m0.Keys|)
    && (AllThere(m0, base, sizes, n) ==>
          && (first == 0 <==> no == 0) && (first == 0 ==> m == m0 - AddrsTo(base, sizes, i))
          && ThereFrom(m, base, sizes, i, n))
    && (NoneThere(m0, base, sizes, n) ==> m == m0 && no == 0 && (first == 0 <==> i == 0))
  }

  /** One unmap call: it takes the address away, or it fails, illegal or refused, and the first failure is kept. */
  ghost predicate UnmapCall(m: map<int, Mapping>, m': map<int, Mapping>, addr: int, size: int, failed: int, first: int,
                            more: int)
  {
    var legal := addr in m && m[addr].size == size;
    if first == failed && more == 0 && m' != m then
      legal && m' == m - {addr} && |m'.Keys| + 1 == |m.Keys|
    else
      m' == m && first != 0 && (failed != 0 ==> first == failed) && more == if legal then 1 else 0
  }

  lemma UnmapNone(m: map<int, Mapping>, base: int, sizes: seq<int>, n: nat)
    requires n <= |sizes|
    ensures Unmapping(m, m, base, sizes, n, 0, 0, 0)
  {
    assert m - AddrsTo(base, sizes, 0) == m;
  }

  lemma UnmapNext(m0: map<int, Mapping>, m: map<int, Mapping>, m': map<int, Mapping>, base: int, sizes: seq<int>,
                  n: nat, i: nat, failed: int, first: int, no: int, more: int)
    requires i < n <= |sizes| && AllPositive(sizes) && Unmapping(m0, m, base, sizes, n, i, failed, no)
    requires UnmapCall(m, m', Addr(base, sizes, i), sizes[i], failed, first, more)
    ensures Unmapping(m0, m', base, sizes, n, i + 1, first, no + more)
  {
    if AllThere(m0, base, sizes, n) { ThereNext(m, base, sizes, i, n); }
    if NoneThere(m0, base, sizes, n) { NoneThereAt(m0, base, sizes, n, i); }
    AddrsToNext(m0, base, sizes, i);
    hide Addr, AllThere, NoneThere, ThereFrom, AddrsTo;
  }

  lemma UnmapDone(m0: map<int, Mapping>, m: map<int, Mapping>, base: int, sizes: seq<int>, n: nat, first: int, no: int)
    requires n <= |sizes| && Unmapping(m0, m, base, sizes, n, n, first, no)
    ensures no >= 0 && (no > 0 ==> first != 0)
    ensures first == 0 ==> |m.Keys| + n == |m0.Keys|
    ensures AllThere(m0, base, sizes, n) ==> (first == 0 <==> no == 0)
    ensures AllThere(m0, base, sizes, n) && first == 0 ==> m == m0 - AddrsTo(base, sizes, n)
    ensures NoneThere(m0, base, sizes, n) ==> m == m0 && no == 0 && (first == 0 <==> n == 0)
  {
    hide AllThere, NoneThere, ThereFrom, AddrsTo;
  }

  lemma AddrsToNext(mapped: map<int, Mapping>, base: int, sizes: seq<int>, i: nat)
    requires i < |sizes|
    ensures mapped - AddrsTo(base, sizes, i) - {Addr(base, sizes, i)} == mapped - AddrsTo(base, sizes, i + 1)
  {
  }

  lemma KeyRemoved(before: map<int, Mapping>, after: map<int, Mapping>, x: int)
    requires x in before && after == before - {x}
    ensures |after.Keys| + 1 == |before.Keys|
  {
    assert after.Keys == before.Keys - {x};
  }

  /** The driver frees a range only as a whole and only when nothing is mapped in it. */
  ghost predicate Freeable(reserved: map<int, int>, mapped: map<int, Mapping>, addr: int, size: int) {
    addr in reserved && reserved[addr] == size && forall x :: x in mapped ==> !(addr <= x < addr + size)
  }

  /** An allocation the allocator knows, awake or asleep. */
  ghost predicate Known(s: State, a: int, awake: bool) {
    AllocatorState.Valid(s) && a in s.recs && s.recs[a].awake == awake
  }

  /** Unmapping the chunks and releasing the handles that the dictionary's entry names puts the allocation to sleep. */
  ghost predicate SleepReady(s: State, registry: map<int, Record>, a: int)
    requires a in registry
  {
    var r := registry[a];
    && a in s.recs && Tracks(s.recs[a := s.recs[a].(awake := false)], registry) && Enabled(s, Op.Sleep(a))
    && Apply(s, Op.Sleep(a))
       == State(s.reserved, s.mapped - Addrs(a, r.sizes), s.live - Range(Held(s.cells, r.ptrs)), s.cells,
                s.recs[a := s.recs[a].(awake := false)])
  }

  ghost predicate Shaped(registry: map<int, Record>) {
    forall a :: a in registry ==> AllPositive(registry[a].sizes) && |registry[a].ptrs| == |registry[a].sizes|
  }

  lemma TracksNew(recs: map<int, Record>, registry: map<int, Record>, d: int, rec: Record)
    requires Tracks(recs, registry) && d !in recs && rec.awake
    ensures Tracks(recs, registry[d := rec]) && Tracks(recs[d := rec], registry[d := rec])
  {
  }

  /** How far my_malloc got. */
  datatype MallocSite =
    | NoGranularity        // an error was pending, or the granularity query failed
    | NoAddress            // the address range could not be reserved
    | ChunkIsZero          // the chunk size wrapped around to zero: division by zero
    | NoHostMemory         // a handle cell could not be allocated
    | NoCallback           // the Python callback is missing or failed
    | AtMapping(site: Site)

  class Allocator {
    // driver state
    var reserved: map<int, int>
    var mapped: map<int, Mapping>
    var live: set<nat>
    // allocator globals: the sticky error code, the handle cells on the C heap, the Python registry
    var errorCode: int
    var cells: map<nat, nat>
    var registry: map<int, Record>
    // legal unmap, release and address-free calls that the driver refused all the same
    ghost var refused: nat
    // the allocations handed out
    ghost var recs: map<int, Record>
    // the model driver hands out handles and addresses in increasing order
    var nextHandle: nat
    var nextAddress: int
    var nextCell: nat

    ghost predicate Supply()
      reads `live, `nextHandle, `cells, `nextCell, `reserved, `nextAddress
    {
      && (forall h :: h in live ==> h < nextHandle)
      && (forall p :: p in cells ==> p < nextCell)
      && forall a :: a in reserved ==> a + reserved[a] <= nextAddress
    }

    ghost function Snap(): State
      reads this
    {
      State(reserved, mapped, live, cells, recs)
    }

    constructor ()
      ensures Snap() == INITIAL && errorCode == 0 && registry == map[] && Supply() && refused == 0
    {
      reserved, mapped, live, errorCode, cells, registry := map[], map[], {}, 0, map[], map[];
      refused, recs, nextHandle, nextAddress, nextCell := 0, map[], 0, 0, 0;
    }

    // ----- driver calls

    method MemCreate(size: int) returns (status: int, handle: nat)
      requires Supply()
      modifies `live, `nextHandle
      ensures Supply()
      ensures status != 0 ==> live == old(live)
      ensures status == 0 ==> handle !in old(live) && live == old(live) + {handle}
    {
      handle := nextHandle;
      var fails: bool := *;
      if fails {
        status := 2;
      } else {
        status := 0;
        live := live + {handle};
        nextHandle := nextHandle + 1;
      }
    }

    method MemMap(addr: int, size: int, handle: nat) returns (status: int)
      modifies `mapped
      ensures status != 0 ==> mapped == old(mapped)
      ensures status == 0 ==> handle in live && addr !in old(mapped)
      ensures status == 0 ==> mapped == old(mapped)[addr := Mapping(size, handle)]
    {
      var fails: bool := *;
      if fails || handle !in live || addr in mapped {
        status := 1;
      } else {
        status := 0;
        mapped := mapped[addr := Mapping(size, handle)];
      }
    }

    method MemUnmap(addr: int, size: int) returns (status: int)
      modifies `mapped, `refused
      ensures status == 0 ==> addr in old(mapped) && old(mapped)[addr].size == size && mapped == old(mapped) - {addr}
      ensures status != 0 ==> mapped == old(mapped)
      ensures refused == old(refused)
                         + if status != 0 && addr in old(mapped) && old(mapped)[addr].size == size then 1 else 0
    {
      var fails: bool := *;
      if addr !in mapped || mapped[addr].size != size {
        status := 1;
      } else if fails {
        status := 1;
        refused := refused + 1;
      } else {
        status := 0;
        mapped := mapped - {addr};
      }
    }

    method MemRelease(handle: nat) returns (status: int)
      requires Supply()
      modifies `live, `refused
      ensures Supply()
      ensures status == 0 ==> handle in old(live) && live == old(live) - {handle}
      ensures status != 0 ==> live == old(live)
      ensures refused == old(refused) + if status != 0 && handle in old(live) then 1 else 0
    {
      var fails: bool := *;
      if handle !in live {
        status := 1;
      } else if fails {
        status := 1;
        refused := refused + 1;
      } else {
        status := 0;
        live := live - {handle};
      }
    }

    method AddressReserve(size: int, alignment: int) returns (status: int, addr: int)
      requires Supply()
      modifies `reserved, `nextAddress
      ensures Supply()
      ensures status != 0 ==> reserved == old(reserved)
      ensures status == 0 ==> size > 0 && reserved == old(reserved)[addr := size]
      ensures status == 0 ==> forall a :: a in old(reserved) ==> addr + size <= a || a + old(reserved)[a] <= addr
    {
      addr := nextAddress;
      var fails: bool := *;
      if fails || size <= 0 {
        status := 2;
      } else {
        status := 0;
        reserved := reserved[addr := size];
        nextAddress := addr + size;
      }
    }

    method AddressFree(addr: int, size: int) returns (status: int)
      requires Supply()
      modifies `reserved, `refused
      ensures Supply()
      ensures status == 0 ==> Freeable(old(reserved), mapped, addr, size) && reserved == old(reserved) - {addr}
      ensures status != 0 ==> reserved == old(reserved)
      ensures refused == old(refused) + if status != 0 && Freeable(old(reserved), mapped, addr, size) then 1 else 0
    {
      var fails: bool := *;
      var inside := exists x :: x in mapped && addr <= x < addr + size;
      if addr !in reserved || reserved[addr] != size || inside {
        status := 1;
      } else if fails {
        status := 1;
        refused := refused + 1;
      } else {
        status := 0;
        reserved := reserved - {addr};
      }
    }

    method AnyStatus() returns (status: int)
    {
      var fails: bool := *;
      status := if fails then 1 else 0;
    }

    /** Record a failure; a success leaves an older error in place. */
    method Check(status: int)
      modifies `errorCode
      ensures errorCode == if status != 0 then status else old(errorCode)
    {
      if status != 0 {
        errorCode := status;
      }
    }

    method EnsureContext() returns (ghost fine: bool)
      modifies `errorCode
      ensures if fine then errorCode == old(errorCode) else errorCode != 0
    {
      var status := AnyStatus();
      Check(status);
      fine := status == 0;
    }

    /** A handle cell as the C code reads it: one that was freed holds anything. */
    method ReadCell(p: nat) returns (h: nat)
      ensures p in cells ==> h == cells[p]
    {
      h := *;
      if p in cells {
        h := cells[p];
      }
    }

    // ----- unmap and release

    /** Unmap chunk i, keeping the first failure. */
    method UnmapChunk(base: int, sizes: seq<int>, n: nat, i: nat, offset: int, failed: int,
                      ghost m0: map<int, Mapping>, ghost r0: nat, ghost codes: seq<int>)
      returns (first: int, ghost codes': seq<int>)
      requires i < n <= |sizes| && AllPositive(sizes) && base + offset == Addr(base, sizes, i)
      requires Unmapping(m0, mapped, base, sizes, n, i, failed, refused - r0)
      requires |codes| == i && failed == FirstError(codes)
      modifies `mapped, `refused
      ensures Unmapping(m0, mapped, base, sizes, n, i + 1, first, refused - r0)
      ensures |codes'| == i + 1 && codes < codes' && first == FirstError(codes')
    {
      hide Addr, Unmapping, AllPositive, FirstError;
      ghost var m, r := mapped, refused;
      var status := MemUnmap(base + offset, sizes[i]);
      FirstErrorNext(codes, status);
      codes' := codes + [status];
      first := if status != 0 && failed == 0 then status else failed;
      if status == 0 { KeyRemoved(m, mapped, base + offset); }
      UnmapNext(m0, m, mapped, base, sizes, n, i, failed, first, r - r0, refused - r);
    }

    /** Unmap the first n chunks; the first failure is reported, the loop goes on. */
    method UnmapChunks(base: int, sizes: seq<int>, n: nat) returns (first: int, ghost codes: seq<int>)
      requires n <= |sizes| && AllPositive(sizes)
      modifies `mapped, `refused
      ensures |codes| == n && first == FirstError(codes)
      ensures refused >= old(refused) && (refused > old(refused) ==> first != 0)
      ensures first == 0 ==> |mapped.Keys| + n == |old(mapped).Keys|
      ensures AllThere(old(mapped), base, sizes, n) ==> (first == 0 <==> refused == old(refused))
      ensures AllThere(old(mapped), base, sizes, n) && first == 0 ==>
                mapped == old(mapped) - AddrsTo(base, sizes, n)
      ensures NoneThere(old(mapped), base, sizes, n) ==>
                mapped == old(mapped) && refused == old(refused) && (first == 0 <==> n == 0)
    {
      AddrZero(base, sizes);
      first := 0;
      var offset := 0;
      UnmapNone(mapped, base, sizes, n);
      codes := [];
      assert FirstError(codes) == 0;
      hide *;
      ghost var m0, r0 := mapped, refused;
      for i := 0 to n
        invariant base + offset == Addr(base, sizes, i)
        invariant Unmapping(m0, mapped, base, sizes, n, i, first, refused - r0)
        invariant |codes| == i && first == FirstError(codes)
      {
        AddrNext(base, sizes, i);
        first, codes := UnmapChunk(base, sizes, n, i, offset, first, m0, r0, codes);
        offset := offset + sizes[i];
      }
      UnmapDone(m0, mapped, base, sizes, n, first, refused - r0);
    }

    /** Release the handles in the first n cells; the first failure is reported, the loop goes on. */
    method ReleaseHandles(ptrs: seq<nat>, n: nat) returns (first: int, ghost codes: seq<int>)
      requires Supply() && n <= |ptrs|
      modifies `live, `refused
      ensures Supply() && |codes| == n && first == FirstError(codes)
      ensures refused >= old(refused) && (refused > old(refused) ==> first != 0)
      ensures AllHeld(cells, old(live), ptrs[..n]) ==>
                && (first == 0 <==> refused == old(refused))
                && (first == 0 ==> live == old(live) - Range(Held(cells, ptrs[..n])))
      ensures NoneHeld(cells, old(live), ptrs[..n]) ==>
                live == old(live) && refused == old(refused) && (first == 0 <==> n == 0)
      ensures n == 0 ==> first == 0
    {
      first, codes := 0, [];
      assert FirstError(codes) == 0;
      hide FirstError;
      ghost var hs := Held(cells, ptrs[..n]);
      ghost var all, none := AllHeld(cells, live, ptrs[..n]), NoneHeld(cells, live, ptrs[..n]);
      for i := 0 to n
        invariant Supply() && |codes| == i && first == FirstError(codes)
        invariant refused >= old(refused) && (refused > old(refused) ==> first != 0)
        invariant all ==> (first == 0 <==> refused == old(refused))
        invariant all && first == 0 ==> live == old(live) - Range(hs[..i])
        invariant i == 0 ==> first == 0
        invariant all ==> forall k :: i <= k < n ==> hs[k] in live
        invariant none ==> live == old(live) && refused == old(refused) && (first == 0 <==> i == 0)
      {
        assert ptrs[..n][i] == ptrs[i];
        assert all || none ==> hs[i] == cells[ptrs[i]];
        assert hs[i] in Range(hs);
        assert hs[..i + 1] == hs[..i] + [hs[i]];
        var handle := ReadCell(ptrs[i]);
        var status := MemRelease(handle);
        FirstErrorNext(codes, status);
        codes := codes + [status];
        if status != 0 && first == 0 {
          first := status;
        }
      }
      assert hs[..n] == hs;
    }

    // ----- create and map

    /** The first loop of create_and_map: one physical handle per chunk. */
    method CreateHandles(ptrs: seq<nat>, sizes: seq<int>) returns (ok: bool, ghost hs: seq<nat>)
      requires Supply() && |ptrs| == |sizes| && Distinct(ptrs) && forall i :: 0 <= i < |ptrs| ==> ptrs[i] in cells
      modifies `live, `nextHandle, `cells, `errorCode, `refused
      ensures Supply() && OnlyCells(old(cells), cells, ptrs) && refused >= old(refused)
      ensures ok ==> && errorCode == old(errorCode) && refused == old(refused)
                     && |hs| == |sizes| && Distinct(hs) && Range(hs) !! old(live)
                     && live == old(live) + Range(hs) && cells == SetCells(old(cells), ptrs, hs)
      ensures !ok ==> errorCode != 0 && |ptrs| > 0
      ensures |ptrs| > 0 && old(errorCode) != 0 ==> !ok
      ensures !ok && old(errorCode) == 0 && refused == old(refused) ==> live == old(live)
      ensures !ok && old(errorCode) != 0 ==>
                && refused == old(refused)
                && (if hs == [] then live == old(live)
                    else |hs| == 1 && hs[0] !in old(live) && live == old(live) + {hs[0]})
    {
      hide SetCells, Held;
      hs := [];
      assert SetCells(cells, ptrs[..0], hs) == cells by { SetCellsNone(cells, ptrs); }
      for i := 0 to |sizes|
        invariant Supply() && refused == old(refused) && errorCode == old(errorCode)
        invariant i > 0 ==> errorCode == 0
        invariant |hs| == i && Distinct(hs) && Range(hs) !! old(live) && live == old(live) + Range(hs)
        invariant cells == SetCells(old(cells), ptrs[..i], hs)
        invariant OnlyCells(old(cells), cells, ptrs)
      {
        ghost var before := hs;
        var status, handle := MemCreate(sizes[i]);
        Check(status);
        if status == 0 {
          SetCellsStep(old(cells), ptrs, hs, i, handle);
          cells := cells[ptrs[i] := handle];
          RangeSnoc(hs, handle);
          hs := hs + [handle];
        }
        if errorCode != 0 {
          RollBackReady(old(cells), cells, ptrs, before, i, status, handle);
          assert i > 0 ==> live == old(live) + Range(before);
          var _, _ := ReleaseHandles(ptrs, i);
          return false, hs;
        }
      }
      assert ptrs[..|sizes|] == ptrs;
      ok := true;
    }

    /** The clean-up after mapping chunk i failed: unmap the chunks before it and release every handle. */
    method UndoMapping(base: int, ptrs: seq<nat>, sizes: seq<int>, ghost hs: seq<nat>, i: nat,
                       ghost mapped0: map<int, Mapping>)
      requires Supply() && AllPositive(sizes) && i < |sizes|
      requires |ptrs| == |sizes| == |hs| && AllHeld(cells, live, ptrs) && Held(cells, ptrs) == hs
      requires Addrs(base, sizes) !! mapped0.Keys && mapped == mapped0 + ChunkMap(base, sizes, hs, 0, i)
      modifies `mapped, `live, `refused
      ensures Supply() && refused >= old(refused)
      ensures refused == old(refused) ==> mapped == mapped0 && live == old(live) - Range(hs)
    {
      hide Addr, Addrs, ChunkMap, Held, AllThere, NoneThere, AllHeld, NoneHeld, AddrsTo, Supply, AllPositive, Range,
           Distinct;
      FirstMapped(mapped0, base, sizes, hs, i);
      var _, _ := UnmapChunks(base, sizes, i);
      UnmapRestores(mapped0, base, sizes, hs, i);
      assert ptrs[..|sizes|] == ptrs;
      var _, _ := ReleaseHandles(ptrs, |sizes|);
    }

    /** The second loop of create_and_map: map the chunks at running prefix sums. */
    method MapChunks(base: int, ptrs: seq<nat>, sizes: seq<int>, ghost hs: seq<nat>) returns (ok: bool, ghost at: nat)
      requires Supply() && (sizes != [] ==> errorCode == 0) && AllPositive(sizes)
      requires |ptrs| == |sizes| == |hs| && Distinct(hs) && Range(hs) <= live
      requires (forall i :: 0 <= i < |ptrs| ==> ptrs[i] in cells) && Held(cells, ptrs) == hs
      requires Addrs(base, sizes) !! mapped.Keys
      modifies `mapped, `live, `errorCode, `refused
      ensures Supply() && refused >= old(refused)
      ensures if ok then errorCode == old(errorCode) else errorCode != 0
      ensures ok ==> && live == old(live) && refused == old(refused)
                     && mapped == old(mapped) + ChunkMap(base, sizes, hs, 0, |sizes|)
      ensures !ok && refused == old(refused) ==> mapped == old(mapped) && live == old(live) - Range(hs)
      ensures !ok ==> at < |sizes|
    {
      assert AllHeld(cells, live, ptrs);
      ghost var m0 := mapped;
      hide *;
      AddrZero(base, sizes);
      ChunkMapNone(m0, base, sizes, hs);
      var offset := 0;
      ok, at := true, 0;
      for i := 0 to |sizes|
        invariant Supply() && errorCode == old(errorCode) && live == old(live) && refused == old(refused)
        invariant base + offset == Addr(base, sizes, i)
        invariant mapped == m0 + ChunkMap(base, sizes, hs, 0, i)
      {
        AddrNext(base, sizes, i);
        ChunkMapNext(m0, base, sizes, hs, i);
        HeldAt(cells, ptrs, i);
        var status := MemMap(base + offset, sizes[i], cells[ptrs[i]]);
        Check(status);
        if errorCode != 0 {
          UndoMapping(base, ptrs, sizes, hs, i, m0);
          return false, i;
        }
        offset := offset + sizes[i];
      }
    }

    /** Every chunk mapped once, each to its own new handle, which its cell holds. */
    twostate predicate AllMapped(base: int, ptrs: seq<nat>, sizes: seq<int>, hs: seq<nat>)
      requires |ptrs| == |sizes|
      reads this
    {
      && |hs| == |sizes| && Distinct(hs) && Range(hs) !! old(live)
      && mapped == old(mapped) + ChunkMap(base, sizes, hs, 0, |sizes|)
      && live == old(live) + Range(hs)
      && cells == SetCells(old(cells), ptrs, hs)
    }

    method CreateAndMap(base: int, ptrs: seq<nat>, sizes: seq<int>)
      returns (ghost site: Site, ghost hs: seq<nat>, ghost pending: bool)
      requires Supply() && AllPositive(sizes) && |ptrs| == |sizes| && Distinct(ptrs)
      requires forall i :: 0 <= i < |ptrs| ==> ptrs[i] in cells
      requires Addrs(base, sizes) !! mapped.Keys
      modifies `live, `nextHandle, `cells, `errorCode, `refused, `mapped
      ensures Supply() && OnlyCells(old(cells), cells, ptrs) && refused >= old(refused)
      ensures old(errorCode) != 0 ==> pending
      ensures errorCode == 0 <==> site.Done?
      ensures site.Done? || site.Access? ==> refused == old(refused) && AllMapped(base, ptrs, sizes, hs)
      ensures (site.CreateAt? || site.MapAt?) && refused == old(refused) ==> mapped == old(mapped) && live == old(live)
      ensures site.Pending? ==> && pending && refused == old(refused) && mapped == old(mapped)
                                && |hs| == 1 && hs[0] !in old(live) && live == old(live) + {hs[0]}
      ensures pending && sizes != [] ==> site.Pending? || site.CreateAt?
    {
      hide SetCells, Held, ChunkMap, Addrs, OnlyCells;
      var _ := EnsureContext();
      pending := errorCode != 0;
      var ok;
      ok, hs := CreateHandles(ptrs, sizes);
      if !ok {
        site := if pending && hs != [] then Pending else CreateAt(|hs|);
        return;
      }
      SetCellsAt(old(cells), ptrs, hs);
      ghost var at;
      ok, at := MapChunks(base, ptrs, sizes, hs);
      if !ok {
        site := MapAt(at);
        assert old(live) + Range(hs) - Range(hs) == old(live);
        return;
      }
      var status := AnyStatus();
      Check(status);
      site := if errorCode == 0 then Done else Access;
    }

    /** On chunks that are all there, on chunks that are all gone, and on any others, of which it says only that success
        has unmapped as many chunks as asked. */
    method UnmapAndRelease(base: int, ptrs: seq<nat>, sizes: seq<int>) returns (ghost fine: bool, ghost codes: seq<int>)
      requires Supply() && AllPositive(sizes) && |ptrs| == |sizes|
      modifies `live, `errorCode, `refused, `mapped
      ensures |codes| == 2 * |sizes| && (FirstError(codes) != 0 ==> errorCode == FirstError(codes))
      ensures FirstError(codes) == 0 && fine ==> errorCode == old(errorCode)
      ensures Supply() && refused >= old(refused)
      ensures old(errorCode) != 0 || refused > old(refused) ==> errorCode != 0
      ensures errorCode == 0 ==> |mapped.Keys| + |sizes| == |old(mapped).Keys|
      ensures AllThere(old(mapped), base, sizes, |sizes|) && AllHeld(cells, old(live), ptrs)
              && refused == old(refused) ==>
                && mapped == old(mapped) - Addrs(base, sizes) && live == old(live) - Range(Held(cells, ptrs))
                && (fine && old(errorCode) == 0 ==> errorCode == 0)
      ensures NoneThere(old(mapped), base, sizes, |sizes|) && NoneHeld(cells, old(live), ptrs) ==>
                mapped == old(mapped) && live == old(live) && refused == old(refused)
                    && (sizes != [] ==> errorCode != 0)
    {
      hide Held, Addr, AllThere, NoneThere, AllHeld, NoneHeld, AddrsTo, Addrs, Supply,
           FirstError;
      AddrsToAll(base, sizes);
      fine := EnsureContext();
      assert ptrs[..|sizes|] == ptrs;
      ghost var more;
      var unmapError, releaseError;
      unmapError, codes := UnmapChunks(base, sizes, |sizes|);
      releaseError, more := ReleaseHandles(ptrs, |sizes|);
      FirstErrorAppend(codes, more);
      codes := codes + more;
      var firstError := if unmapError != 0 then unmapError else releaseError;
      if firstError != 0 {
        Check(firstError);
      }
    }

    // ----- the operations Python and PyTorch call

    ghost function Whole(): World
      reads this
    {
      World(Snap(), registry)
    }

    /** The Python side remembers every allocation handed out; its entries have a cell for every chunk. */
    ghost predicate Registered()
      reads `recs, `registry
    {
      Tracks(recs, registry) && Shaped(registry)
    }

    /** python_create_and_map on a sleeping allocation. */
    method WakeUp(a: int) returns (ok: bool, ghost site: Site, ghost hs: seq<nat>, ghost pending: bool)
      requires Supply() && Registered() && AllocatorState.Valid(Snap()) && a in recs && !recs[a].awake
      modifies `live, `nextHandle, `cells, `errorCode, `refused, `mapped, `recs
      ensures Supply() && Registered() && errorCode == 0 && (ok <==> site.Done?)
      ensures old(errorCode) != 0 ==> pending && !ok
      ensures site.Done? ==> Enabled(old(Snap()), Op.WakeUp(a, hs)) && Snap() == Apply(old(Snap()), Op.WakeUp(a, hs))
      ensures (site.CreateAt? || site.MapAt?) && refused == old(refused) ==>
                exists junk :: Enabled(old(Snap()), WakeFailed(a, junk))
                    && Snap() == Apply(old(Snap()), WakeFailed(a, junk))
      ensures site.Pending? ==> pending && |hs| == 1 && hs[0] !in old(live) && live == old(live) + {hs[0]}
                                && mapped == old(mapped) && !AllocatorState.Valid(Snap())
      ensures site.Access? ==> && Enabled(old(Snap()), Op.WakeUp(a, hs))
                               && Snap() == Apply(old(Snap()), Op.WakeUp(a, hs)).(recs := old(recs))
    {
      hide AllocatorState.Valid, SetCells, Addr, Supply;
      RecordFacts(Snap(), a);
      SleepingUnmapped(Snap(), a);
      var r := registry[a];
      ghost var before := Snap();
      site, hs, pending := CreateAndMap(a, r.ptrs, r.sizes);
      if site.Done? {
        recs := recs[a := recs[a].(awake := true)];
      } else if (site.CreateAt? || site.MapAt?) && refused == old(refused) {
        OnlyCellsIsSet(before.cells, cells, r.ptrs);
        ghost var junk := Held(cells, r.ptrs);
        assert Enabled(before, WakeFailed(a, junk)) && Snap() == Apply(before, WakeFailed(a, junk));
      } else if site.Pending? {
        LeakedHandle(before, Snap(), hs[0]);
      }
      ok := errorCode == 0;
      errorCode := 0;
    }

    /** Unmap and release what an entry of the dictionary names. */
    method UnmapEntry(a: int, r: Record, ghost s: State) returns (ghost fine: bool)
      requires Supply() && Registered() && Snap() == s && a in registry && r == registry[a]
      modifies `live, `errorCode, `refused, `mapped
      ensures Supply() && refused >= old(refused)
      ensures old(errorCode) != 0 || refused > old(refused) ==> errorCode != 0
      ensures errorCode == 0 ==> |mapped.Keys| + |r.sizes| == |s.mapped.Keys|
      ensures Known(s, a, true) && refused == old(refused) ==>
                && a in s.recs && Enabled(s, Op.Sleep(a)) && (fine && old(errorCode) == 0 ==> errorCode == 0)
                && Tracks(s.recs[a := s.recs[a].(awake := false)], registry)
                && Apply(s, Op.Sleep(a))
                   == State(s.reserved, mapped, live, s.cells, s.recs[a := s.recs[a].(awake := false)])
      ensures Known(s, a, false) && NoneHeld(s.cells, s.live, r.ptrs) ==>
                !Known(s, a, true) && mapped == s.mapped && live == s.live && errorCode != 0
    {
      hide AllocatorState.Valid, Addr, Addrs, Held, Tracks, AllThere, NoneThere, AllHeld, NoneHeld, Range, Shaped,
           Apply, Enabled, Supply, Known, SleepReady;
      ShapedAt(registry, a);
      EntryFacts(s, registry, a);
      ghost var codes;
      fine, codes := UnmapAndRelease(a, r.ptrs, r.sizes);
      if Known(s, a, true) && refused == old(refused) {
        SleepIs(s, mapped, live, registry, a);
      }
    }

    /** python_unmap_and_release on an entry of the dictionary, whatever has become of its allocation. */
    method Sleep(a: int) returns (ok: bool, ghost fine: bool)
      requires Supply() && Registered() && a in registry
      modifies `live, `errorCode, `refused, `mapped, `recs
      ensures Supply() && Registered() && errorCode == 0 && refused >= old(refused)
      ensures old(errorCode) != 0 || refused > old(refused) ==> !ok
      ensures ok ==> |mapped.Keys| + |registry[a].sizes| == |old(mapped).Keys|
      ensures Known(old(Snap()), a, true) && refused == old(refused) ==>
                && Enabled(old(Snap()), Op.Sleep(a)) && Snap() == Apply(old(Snap()), Op.Sleep(a))
                && (fine && old(errorCode) == 0 ==> ok)
      ensures Known(old(Snap()), a, false) && NoneHeld(cells, old(live), registry[a].ptrs) ==>
                Snap() == old(Snap()) && !ok
    {
      hide AllocatorState.Valid, Tracks, NoneHeld, Shaped, Apply, Enabled, Supply, Known;
      ghost var s := Snap();
      fine := UnmapEntry(a, registry[a], s);
      if Known(s, a, true) && refused == old(refused) {
        recs := recs[a := recs[a].(awake := false)];
      }
      ok := errorCode == 0;
      errorCode := 0;
    }

    /** Everything in the dictionary, in the order the Python side visits it, up to the first error. */
    ghost predicate Visits(order: seq<int>)
      reads this
    {
      && Distinct(order) && (forall a :: a in order <==> a in registry)
      && forall i :: 0 <= i < |order| ==> order[i] in registry
    }

    ghost predicate AllAwake()
      reads this
    {
      registry.Keys == recs.Keys && forall a :: a in recs ==> recs[a].awake
    }

    /** After i visits in a good run the first i entries sleep and the others are awake. */
    ghost predicate Asleep(order: seq<int>, i: nat)
      requires i <= |order|
      reads this
    {
      && AllocatorState.Valid(Snap()) && registry.Keys == recs.Keys && errorCode == 0
      && forall j :: 0 <= j < |order| ==> order[j] in recs && (recs[order[j]].awake <==> j >= i)
    }

    /** The Python side's sleep: it succeeds only if every entry with chunks is an awake allocation, and if all are it
        succeeds, leaving nothing mapped, unless the driver refuses a legal call. */
    method SleepAll(order: seq<int>) returns (ok: bool, ghost fine: bool)
      requires Supply() && Registered() && AllocatorState.Valid(Snap()) && Visits(order)
      modifies `live, `errorCode, `refused, `mapped, `recs
      ensures Supply() && Registered() && refused >= old(refused)
      ensures ok ==> forall a :: a in registry && registry[a].sizes != [] ==> a in old(recs) && old(recs)[a].awake
      ensures old(errorCode) == 0 && old(AllAwake()) && fine && refused == old(refused) ==>
                ok && mapped == map[] && live == {} && forall a :: a in recs ==> !recs[a].awake
    {
      hide AllocatorState.Valid, Tracks, Shaped, Chunks, Apply, Enabled, Supply;
      ghost var start := Snap();
      ghost var good := errorCode == 0 && AllAwake();
      fine := true;
      NoChunks(registry, order);
      if good { AwakeInOrder(recs, registry, order); }
      for i := 0 to |order|
        invariant Supply() && Registered() && refused >= old(refused)
        invariant |mapped.Keys| + Chunks(registry, order[..i]) == |start.mapped.Keys|
        invariant good && fine && refused == old(refused) ==> Asleep(order, i)
      {
        ghost var before := Snap();
        ghost var smooth := good && fine && refused == old(refused);
        var one, f := Sleep(order[i]);
        ChunksNext(registry, order, i);
        fine := fine && f;
        if !one {
          return false, fine;
        }
        if smooth && fine && refused == old(refused) {
          SleepStep(before, order[i]);
          OneAsleep(before.recs, order, i);
        }
      }
      assert order[..|order|] == order;
      forall a | a in registry && registry[a].sizes != [] ensures a in start.recs && start.recs[a].awake {
        EnoughMapped(start, registry, order, a);
      }
      if good && fine && refused == old(refused) {
        AllAsleep(Snap());
      }
      ok := true;
    }

    method FreeCells(ptrs: seq<nat>)
      requires Supply()
      modifies `cells
      ensures Supply() && cells == old(cells) - Range(ptrs)
    {
      for i := 0 to |ptrs|
        invariant Supply() && cells == old(cells) - Range(ptrs[..i])
      {
        assert ptrs[..i + 1] == ptrs[..i] + [ptrs[i]];
        cells := cells - {ptrs[i]};
      }
      assert ptrs[..|ptrs|] == ptrs;
    }

    /** One C heap cell per chunk; if one cannot be had, those before it are given back. */
    method AllocCells(n: nat) returns (ok: bool, ptrs: seq<nat>)
      requires Supply()
      modifies `cells, `nextCell
      ensures Supply()
      ensures ok ==> |ptrs| == n && Distinct(ptrs) && Range(ptrs) !! old(cells).Keys
                     && cells == SetCells(old(cells), ptrs, seq(n, _ => 0))
      ensures !ok ==> cells == old(cells)
    {
      hide SetCells;
      ptrs := [];
      assert SetCells(cells, ptrs, seq(0, _ => 0)) == cells by { NoCells(cells); }
      for i := 0 to n
        invariant Supply() && |ptrs| == i && Distinct(ptrs) && Range(ptrs) !! old(cells).Keys
        invariant forall p :: p in ptrs ==> p < nextCell
        invariant nextCell >= old(nextCell)
        invariant cells == SetCells(old(cells), ptrs, seq(i, _ => 0))
      {
        SetCellsAt(old(cells), ptrs, seq(i, _ => 0));
        var status := AnyStatus();
        if status != 0 {
          FreeCells(ptrs);
          return false, ptrs;
        }
        var p := nextCell;
        ZeroCells(old(cells), ptrs, p);
        RangeSnoc(ptrs, p);
        cells := cells[p := 0];
        nextCell := nextCell + 1;
        ptrs := ptrs + [p];
      }
      ok := true;
    }

    method Granularity() returns (status: int, g: int)
      ensures 0 < g <= 0x8000_0000_0000_0000
    {
      status := AnyStatus();
      g := 2 * MB;
    }

    /** The part of my_malloc before the driver maps anything: round, reserve, split, get the cells. */
    method Prepare(size: int, env: ChunkSetting)
      returns (stop: Option<MallocSite>, d: int, aligned: int, ptrs: seq<nat>, sizes: seq<int>, ghost g: int,
               ghost chunk: int)
      requires Supply() && 0 <= size < 0x8000_0000_0000_0000 && (env.Megabytes? ==> env.value < WORD)
      modifies `errorCode, `reserved, `nextAddress, `cells, `nextCell
      ensures Supply()
      ensures old(errorCode) != 0 ==> stop == Some(NoGranularity)
      ensures stop.Some? ==> cells == old(cells) && !stop.value.AtMapping? && !stop.value.NoCallback?
      ensures stop == Some(NoGranularity) || stop == Some(NoAddress) ==> errorCode != 0 && reserved == old(reserved)
      ensures stop == Some(ChunkIsZero) || stop == Some(NoHostMemory) || stop == None ==>
                && errorCode == 0 && aligned > 0 && reserved == old(reserved)[d := aligned]
                && g > 0 && aligned % g == 0 && size <= aligned < size + g
                && forall a :: a in old(reserved) ==> d + aligned <= a || a + old(reserved)[a] <= d
      ensures stop == Some(NoHostMemory) || stop == None ==> ChunkOf(env, g, chunk) && !ChunkTooLarge(env, g)
      ensures stop == Some(ChunkIsZero) ==> ChunkTooLarge(env, g)
      ensures stop == None ==>
                && |ptrs| == |sizes| && Distinct(ptrs) && Range(ptrs) !! old(cells).Keys
                && cells == SetCells(old(cells), ptrs, seq(|ptrs|, _ => 0))
                && (if sizes == [] then aligned + chunk - 1 >= WORD
                    else Tiles(sizes, aligned, chunk) && Sum(sizes) == aligned && AllPositive(sizes))
    {
      hide SetCells, Tiles, CountChunks, RoundUp, ChunkOf, ChunkTooLarge;
      var _ := EnsureContext();
      var status, granularity := Granularity();
      g := granularity;
      Check(status);
      if errorCode != 0 {
        return Some(NoGranularity), 0, 0, [], [], g, 0;
      }
      RoundUpExact(size, granularity);
      aligned := RoundUp(size, granularity);
      status, d := AddressReserve(aligned, granularity);
      Check(status);
      if errorCode != 0 {
        return Some(NoAddress), 0, 0, [], [], g, 0;
      }
      var alignedChunk := RoundUp(BaseChunk(env), granularity);
      chunk := alignedChunk;
      ChunkIs(env, g);
      if alignedChunk == 0 {
        return Some(ChunkIsZero), d, aligned, [], [], g, chunk;
      }
      ChunkFacts(size, BaseChunk(env), g);
      var sizeArray := FillSizes(aligned, alignedChunk, g);
      sizes := sizeArray[..];
      if sizes == [] {
        NothingTiles(sizes, aligned, chunk);
      } else {
        TilesFacts(sizes, aligned, chunk);
      }
      var ok;
      ok, ptrs := AllocCells(|sizes|);
      stop := if ok then None else Some(NoHostMemory);
    }

    /** The error exit of my_malloc: free the address range and the cells. */
    method GiveUp(d: int, aligned: int, ptrs: seq<nat>)
      requires Supply() && errorCode != 0
      modifies `reserved, `refused, `errorCode, `cells
      ensures Supply() && errorCode != 0 && refused >= old(refused)
      ensures cells == old(cells) - Range(ptrs)
      ensures !Freeable(old(reserved), mapped, d, aligned) ==> reserved == old(reserved) && refused == old(refused)
      ensures Freeable(old(reserved), mapped, d, aligned) && refused == old(refused) ==> reserved == old(reserved) - {d}
    {
      var status := AddressFree(d, aligned);
      Check(status);
      FreeCells(ptrs);
    }

    /** The last part of my_malloc: map the chunks, or undo the reservation. */
    method MapOrGiveUp(d: int, aligned: int, ptrs: seq<nat>, sizes: seq<int>)
      returns (ok: bool, ghost site: Site, ghost hs: seq<nat>)
      requires Supply() && AllPositive(sizes) && |ptrs| == |sizes| && Distinct(ptrs) && aligned > 0
      requires forall i :: 0 <= i < |ptrs| ==> ptrs[i] in cells
      requires Addrs(d, sizes) !! mapped.Keys && Freeable(reserved, mapped, d, aligned)
      modifies `live, `nextHandle, `cells, `errorCode, `refused, `mapped, `reserved
      ensures Supply() && (ok <==> errorCode == 0) && (ok <==> site.Done?)
      ensures ok ==> AllMapped(d, ptrs, sizes, hs) && reserved == old(reserved)
      ensures !ok ==> cells == old(cells) - Range(ptrs)
      ensures (site.CreateAt? || site.MapAt?) && refused == old(refused) ==>
                mapped == old(mapped) && live == old(live) && reserved == old(reserved) - {d}
      ensures site.Pending? ==> && |hs| == 1 && hs[0] !in old(live) && live == old(live) + {hs[0]}
                                && mapped == old(mapped)
                                && (refused == old(refused) ==> reserved == old(reserved) - {d})
      ensures site.Access? && sizes != [] ==>
                && |hs| == |sizes| && mapped == old(mapped) + ChunkMap(d, sizes, hs, 0, |sizes|)
                && live == old(live) + Range(hs) && reserved == old(reserved)
    {
      hide SetCells, Addr, Held, ChunkMap, Addrs;
      ghost var pending;
      site, hs, pending := CreateAndMap(d, ptrs, sizes);
      ok := errorCode == 0;
      if !ok {
        if site.Access? && sizes != [] {
          FirstChunkInside(old(mapped), d, sizes, hs);
        }
        OnlyCellsGone(old(cells), cells, ptrs);
        GiveUp(d, aligned, ptrs);
      }
    }

    /** What my_malloc has done by the time it calls Python: reserved the range and allocated the cells. */
    ghost predicate Prepared(s: State, d: int, rec: Record)
      reads this
    {
      && reserved == s.reserved[d := rec.size] && cells == SetCells(s.cells, rec.ptrs, seq(|rec.ptrs|, _ => 0))
      && mapped == s.mapped && live == s.live && recs == s.recs
    }

    /** my_malloc after its callback: map everything and hand the allocation out, or give up. */
    method Finish(d: int, rec: Record, ghost s: State)
      returns (ok: bool, ghost at: Site, ghost hs: seq<nat>)
      requires Supply() && rec.awake && rec.size > 0 && |rec.ptrs| == |rec.sizes| && Distinct(rec.ptrs)
      requires AllocatorState.Valid(s) && Prepared(s, d, rec) && Range(rec.ptrs) !! s.cells.Keys
      requires rec.sizes != [] ==> Sum(rec.sizes) == rec.size && AllPositive(rec.sizes)
      requires forall a :: a in s.reserved ==> d + rec.size <= a || a + s.reserved[a] <= d
      modifies `live, `nextHandle, `cells, `errorCode, `refused, `mapped, `reserved, `recs
      ensures Supply() && d !in s.recs && (ok <==> errorCode == 0) && (ok <==> at.Done?)
      ensures recs == if ok then s.recs[d := rec] else s.recs
      ensures rec.sizes != [] ==> Fits(s, d, rec)
      ensures ok && rec.sizes != [] ==>
                Enabled(s, Allocate(d, rec, hs)) && Snap() == Apply(s, Allocate(d, rec, hs))
      ensures (at.CreateAt? || at.MapAt?) && refused == old(refused) ==> Snap() == s
      ensures at.Pending? ==> && |hs| == 1 && hs[0] !in s.live && live == s.live + {hs[0]}
                              && mapped == s.mapped && cells == s.cells
                              && (refused == old(refused) ==> reserved == s.reserved)
      ensures at.Access? && rec.sizes != [] ==>
                && reserved == s.reserved[d := rec.size] && cells == s.cells
                && |hs| == |rec.sizes| && mapped == s.mapped + ChunkMap(d, rec.sizes, hs, 0, |rec.sizes|)
                && live == s.live + Range(hs)
    {
      hide AllocatorState.Valid, SetCells, Addr, Held, ChunkMap, Apply, Enabled, Fits, Supply;
      assert cells.Keys == s.cells.Keys + Range(rec.ptrs) by { SetCellsAt(s.cells, rec.ptrs, seq(|rec.ptrs|, _ => 0)); }
      NewRange(s, d, rec);
      ok, at, hs := MapOrGiveUp(d, rec.size, rec.ptrs, rec.sizes);
      if ok {
        if rec.sizes != [] {
          AllocateShape(s, d, rec, hs);
        }
        recs := recs[d := rec];
      } else {
        CellsGone(s.cells, SetCells(s.cells, rec.ptrs, seq(|rec.ptrs|, _ => 0)), rec.ptrs);
        assert s.reserved[d := rec.size] - {d} == s.reserved;
      }
    }

    /** my_malloc.  The record is what the Python callback was given. */
    method Malloc(size: int, env: ChunkSetting, callbackOk: bool)
      returns (ptr: Option<int>, ghost site: MallocSite, ghost d: int, ghost rec: Record, ghost hs: seq<nat>,
               ghost g: int, ghost chunk: int)
      requires Supply() && Registered() && AllocatorState.Valid(Snap())
      requires 0 <= size < 0x8000_0000_0000_0000 && (env.Megabytes? ==> env.value < WORD)
      modifies this
      ensures Supply() && Registered()
      ensures old(errorCode) != 0 ==> site.NoGranularity?
      ensures ptr == if errorCode == 0 && site == AtMapping(Done) then Some(d) else None
      ensures site.NoGranularity? || site.NoAddress? ==> Snap() == old(Snap()) && registry == old(registry)
      ensures site.ChunkIsZero? || site.NoHostMemory? ==>
                Snap() == old(Snap()).(reserved := old(reserved)[d := rec.size]) && registry == old(registry)
      ensures site.NoCallback? ==> !callbackOk && registry == old(registry) && Prepared(old(Snap()), d, rec)
      ensures site.AtMapping? ==> registry == old(registry)[d := rec]
      ensures !site.NoGranularity? && !site.NoAddress? ==> g > 0 && rec.size % g == 0 && size <= rec.size < size + g
      ensures !site.NoGranularity? && !site.NoAddress? ==> (site.ChunkIsZero? <==> ChunkTooLarge(env, g))
      ensures site.AtMapping? || site.NoCallback? ==>
                && ChunkOf(env, g, chunk)
                && if rec.sizes == [] then rec.size + chunk - 1 >= WORD else Tiles(rec.sizes, rec.size, chunk)
      ensures site.AtMapping? && rec.sizes != [] ==> Fits(old(Snap()), d, rec)
      ensures site == AtMapping(Done) && rec.sizes != [] ==>
                && errorCode == 0 && Enabled(old(Snap()), Allocate(d, rec, hs))
                && Whole() == Step(old(Whole()), Allocate(d, rec, hs))
      ensures site.AtMapping? && (site.site.CreateAt? || site.site.MapAt?) && rec.sizes != []
              && refused == old(refused) ==>
                Enabled(old(Snap()), AllocateFailed(d, rec)) && Whole() == Step(old(Whole()), AllocateFailed(d, rec))
      ensures site == AtMapping(Pending) ==>
                && |hs| == 1 && hs[0] !in old(live) && live == old(live) + {hs[0]}
                && mapped == old(mapped) && cells == old(cells) && recs == old(recs)
                && (refused == old(refused) ==> reserved == old(reserved)) && !AllocatorState.Valid(Snap())
      ensures site == AtMapping(Access) && rec.sizes != [] ==>
                && reserved == old(reserved)[d := rec.size] && cells == old(cells) && recs == old(recs)
                && |hs| == |rec.sizes| && mapped == old(mapped) + ChunkMap(d, rec.sizes, hs, 0, |rec.sizes|)
                && live == old(live) + Range(hs)
    {
      hide AllocatorState.Valid, SetCells, Addr, Held, ChunkMap, Tiles, Apply, Enabled, Tracks, Step, Fits, Sum, Supply,
           ChunkOf, ChunkTooLarge;
      var stop, base, aligned, ptrs, sizes;
      stop, base, aligned, ptrs, sizes, g, chunk := Prepare(size, env);
      d, rec, hs := base, Record(aligned, ptrs, sizes, true), [];
      if stop.Some? {
        return None, stop.value, d, rec, hs, g, chunk;
      }
      if !callbackOk {
        return None, NoCallback, d, rec, hs, g, chunk;
      }
      registry := registry[base := Record(aligned, ptrs, sizes, true)];
      ghost var at;
      var ok;
      ok, at, hs := Finish(base, Record(aligned, ptrs, sizes, true), old(Snap()));
      TracksNew(old(recs), old(registry), d, rec);
      site := AtMapping(at);
      if sizes != [] { StepShapes(old(Whole()), d, rec, hs); }
      if at.Pending? { LeakedHandle(old(Snap()), Snap(), hs[0]); }
      ptr := if ok then Some(base) else None;
    }

    /** The first driver calls of my_free: unmap the chunks and release the handles. */
    method DropChunks(a: int, r: Record, ghost s: State)
      requires Supply() && AllocatorState.Valid(s) && Snap() == s && a in s.recs && r == s.recs[a].(awake := true)
      modifies `live, `errorCode, `refused, `mapped
      ensures Supply() && refused >= old(refused)
      ensures Enabled(s, Release(a)) && refused == old(refused) ==>
                && mapped == s.mapped - Addrs(a, r.sizes)
                && live == (if s.recs[a].awake then s.live - Range(Held(s.cells, r.ptrs)) else s.live)
      ensures Enabled(s, Release(a)) && !s.recs[a].awake ==> errorCode != 0
    {
      hide AllocatorState.Valid, Addr, Addrs, Held, Apply, Enabled, Range, AllThere, NoneThere, AllHeld, NoneHeld,
           Supply;
      BackedFacts(s, a);
      if s.recs[a].awake { AwakeFacts(s, a); } else { SleepingFacts(s, a); }
      ReleaseShape(s, a);
      var _, _ := UnmapAndRelease(a, r.ptrs, r.sizes);
    }

    /** The driver calls of my_free: unmap and release the chunks, free the range and the cells. */
    method Discard(a: int, r: Record, size: int, ghost s: State)
      requires Supply() && AllocatorState.Valid(s) && Snap() == s && a in s.recs && r == s.recs[a].(awake := true)
      modifies `live, `errorCode, `refused, `mapped, `reserved, `cells
      ensures Supply() && refused >= old(refused) && cells == s.cells - Range(r.ptrs)
      ensures Enabled(s, Release(a)) && refused == old(refused) ==>
                && mapped == s.mapped - Addrs(a, r.sizes)
                && live == (if s.recs[a].awake then s.live - Range(Held(s.cells, r.ptrs)) else s.live)
                && reserved == (if size == r.size then s.reserved - {a} else s.reserved)
                && (size != r.size ==> errorCode != 0)
      ensures Enabled(s, Release(a)) && !s.recs[a].awake ==> errorCode != 0
    {
      hide AllocatorState.Valid, Addrs, Held, Apply, Enabled, Range, Supply, Freeable;
      DropChunks(a, r, s);
      RangeEmpty(s, a);
      var status := AddressFree(a, size);
      Check(status);
      FreeCells(r.ptrs);
    }

    /** my_free, with the size PyTorch passes.  Freeing a sleeping allocation, whose chunks are gone, makes every unmap
        and release fail: the range is given back all the same, but the error stays. */
    method Free(a: int, size: int)
      requires Supply() && Registered() && AllocatorState.Valid(Snap())
      requires a in registry ==> a in recs
      modifies this
      ensures Supply() && Registered()
      ensures a !in old(registry) ==> Snap() == old(Snap()) && registry == old(registry) && errorCode == old(errorCode)
      ensures a in old(registry) ==> registry == old(registry) - {a}
      ensures a in old(registry) && refused == old(refused) && size == old(recs)[a].size
              && Enabled(old(Snap()), Release(a)) ==>
                Whole() == Step(old(Whole()), Release(a))
      ensures a in old(registry) && refused == old(refused) && size != old(recs)[a].size
              && Enabled(old(Snap()), Release(a)) ==>
                && errorCode != 0 && Snap() == Apply(old(Snap()), Release(a)).(reserved := old(reserved))
      ensures a in old(registry) && !old(recs)[a].awake && Enabled(old(Snap()), Release(a)) ==> errorCode != 0
    {
      hide AllocatorState.Valid, Addrs, Held, Tracks, Apply, Enabled, Step, Range;
      if a !in registry {
        return;
      }
      ReleaseShape(Snap(), a);
      ReleaseStep(Whole(), a);
      TracksDrop(recs, registry, a);
      var r := registry[a];
      registry := registry - {a};
      Discard(a, r, size, old(Snap()));
      recs := recs - {a};
    }
  }

  lemma ShapedAt(registry: map<int, Record>, a: int)
    requires Shaped(registry) && a in registry
    ensures AllPositive(registry[a].sizes) && |registry[a].ptrs| == |registry[a].sizes|
  {
  }

  lemma TracksAt(recs: map<int, Record>, registry: map<int, Record>, a: int)
    requires Tracks(recs, registry) && a in recs
    ensures a in registry && registry[a] == recs[a].(awake := true)
  {
  }

  lemma TracksSleep(recs: map<int, Record>, registry: map<int, Record>, a: int)
    requires Tracks(recs, registry) && a in recs
    ensures Tracks(recs[a := recs[a].(awake := false)], registry)
  {
  }

  lemma AwakeInOrder(recs: map<int, Record>, registry: map<int, Record>, order: seq<int>)
    requires registry.Keys == recs.Keys && (forall a :: a in recs ==> recs[a].awake)
    requires forall i :: 0 <= i < |order| ==> order[i] in registry
    ensures forall i :: 0 <= i < |order| ==> order[i] in recs && recs[order[i]].awake
  {
    forall i | 0 <= i < |order| ensures order[i] in recs && recs[order[i]].awake {
      var a := order[i];
      assert a in registry.Keys && a in recs;
    }
  }

  lemma NoChunks(registry: map<int, Record>, order: seq<int>)
    requires forall i :: 0 <= i < |order| ==> order[i] in registry
    ensures Chunks(registry, order[..0]) == 0
  {
  }

  lemma ChunksNext(registry: map<int, Record>, order: seq<int>, i: nat)
    requires i < |order| && forall i :: 0 <= i < |order| ==> order[i] in registry
    ensures Chunks(registry, order[..i + 1]) == Chunks(registry, order[..i]) + |registry[order[i]].sizes|
  {
    assert order[..i + 1][..i] == order[..i];
  }

  /** What the dictionary's entry for an allocation stands for, and what a sleep does to an awake one. */
  lemma EntryFacts(s: State, registry: map<int, Record>, a: int)
    requires Tracks(s.recs, registry) && a in registry
    ensures !(Known(s, a, true) && Known(s, a, false))
    ensures Known(s, a, true) ==> && SleepReady(s, registry, a)
                                  && AllThere(s.mapped, a, registry[a].sizes, |registry[a].sizes|)
                                  && AllHeld(s.cells, s.live, registry[a].ptrs)
    ensures Known(s, a, false) ==>
            registry[a].sizes != [] && NoneThere(s.mapped, a, registry[a].sizes, |registry[a].sizes|)
  {
    hide AllocatorState.Valid, Addr, Addrs, Held, Tracks, AllThere, NoneThere, AllHeld, Range, Apply, Enabled;
    if AllocatorState.Valid(s) && a in s.recs {
      TracksAt(s.recs, registry, a);
      TracksSleep(s.recs, registry, a);
      BackedFacts(s, a);
      if s.recs[a].awake {
        AwakeFacts(s, a);
        SleepShape(s, a);
      } else {
        SleepingFacts(s, a);
      }
    }
  }

  lemma SleepIs(s: State, mapped: map<int, Mapping>, live: set<nat>, registry: map<int, Record>, a: int)
    requires a in registry && SleepReady(s, registry, a)
    requires mapped == s.mapped - Addrs(a, registry[a].sizes) && live == s.live - Range(Held(s.cells, registry[a].ptrs))
    ensures a in s.recs && Enabled(s, Op.Sleep(a))
    ensures var recs := s.recs[a := s.recs[a].(awake := false)];
            Tracks(recs, registry) && Apply(s, Op.Sleep(a)) == State(s.reserved, mapped, live, s.cells, recs)
  {
    hide Addrs, Held, Range, Enabled, Apply, Tracks;
  }

  /** What a sleep amounts to, field by field. */
  lemma SleepShape(s: State, a: int)
    requires a in s.recs && s.recs[a].awake
    ensures Enabled(s, Op.Sleep(a))
    ensures Apply(s, Op.Sleep(a))
            == State(s.reserved, s.mapped - Addrs(a, s.recs[a].sizes), s.live - Range(Held(s.cells, s.recs[a].ptrs)),
                     s.cells, s.recs[a := s.recs[a].(awake := false)])
  {
  }

  /** A sleep step keeps the invariant and changes one record. */
  lemma SleepStep(s: State, a: int)
    requires AllocatorState.Valid(s) && a in s.recs && s.recs[a].awake
    ensures Enabled(s, Op.Sleep(a)) && AllocatorState.Valid(Apply(s, Op.Sleep(a)))
    ensures Apply(s, Op.Sleep(a)).recs == s.recs[a := s.recs[a].(awake := false)]
  {
    assert Enabled(s, Op.Sleep(a));
    hide *;
    ApplyValid(s, Op.Sleep(a));
    AppliedRecords(s, Op.Sleep(a));
  }

  lemma OneAsleep(recs: map<int, Record>, order: seq<int>, i: nat)
    requires Distinct(order) && i < |order| && order[i] in recs
    ensures var recs' := recs[order[i] := recs[order[i]].(awake := false)];
            && recs'.Keys == recs.Keys
            && forall j :: 0 <= j < |order| && order[j] in recs ==>
                             (recs'[order[j]].awake <==> j != i && recs[order[j]].awake)
  {
    forall j | 0 <= j < |order| && j != i ensures order[j] != order[i] {}
  }

  /** What my_free amounts to, field by field. */
  lemma ReleaseShape(s: State, a: int)
    requires AllocatorState.Valid(s) && a in s.recs
    ensures a in s.reserved && s.reserved[a] == s.recs[a].size
    ensures s.recs[a].awake ==> Enabled(s, Release(a))
    ensures !s.recs[a].awake ==> (Enabled(s, Release(a)) <==> NoneHeld(s.cells, s.live, s.recs[a].ptrs))
    ensures Enabled(s, Release(a)) ==>
              Apply(s, Release(a))
              == State(s.reserved - {a}, s.mapped - Addrs(a, s.recs[a].sizes),
                       if s.recs[a].awake then s.live - Range(Held(s.cells, s.recs[a].ptrs)) else s.live,
                       s.cells - Range(s.recs[a].ptrs), s.recs - {a})
  {
    hide AllocatorState.Valid, Addrs, Held;
    RecordFacts(s, a);
    if !s.recs[a].awake { SleepingFacts(s, a); }
    assert s.recs[a := s.recs[a].(awake := false)] - {a} == s.recs - {a};
  }

  lemma BackedFacts(s: State, a: int)
    requires AllocatorState.Valid(s) && a in s.recs
    ensures var r := s.recs[a];
            && AllPositive(r.sizes) && |r.ptrs| == |r.sizes| > 0 && Distinct(r.ptrs)
            && forall i :: 0 <= i < |r.ptrs| ==> r.ptrs[i] in s.cells
  {
    hide AllocatorState.Valid;
    RecordFacts(s, a);
  }

  lemma SleepingFacts(s: State, a: int)
    requires AllocatorState.Valid(s) && a in s.recs && !s.recs[a].awake
    ensures NoneThere(s.mapped, a, s.recs[a].sizes, |s.recs[a].sizes|)
    ensures s.mapped - Addrs(a, s.recs[a].sizes) == s.mapped
  {
    SleepingUnmapped(s, a);
    hide AllocatorState.Valid, Addr;
    assert forall i :: 0 <= i < |s.recs[a].sizes| ==> Addr(a, s.recs[a].sizes, i) in Addrs(a, s.recs[a].sizes);
  }

  lemma ReleaseStep(w: World, a: int)
    ensures Enabled(w.state, Release(a)) ==> Step(w, Release(a)) == World(Apply(w.state, Release(a)), w.registry - {a})
  {
  }

  lemma TracksDrop(recs: map<int, Record>, registry: map<int, Record>, a: int)
    requires Tracks(recs, registry) && a in recs
    ensures a in registry && registry[a] == recs[a].(awake := true)
    ensures Tracks(recs - {a}, registry - {a})
  {
  }

  /** Once its own chunks are unmapped, the range of an allocation can be freed, as a whole. */
  lemma RangeEmpty(s: State, a: int)
    requires AllocatorState.Valid(s) && a in s.recs
    ensures forall size :: Freeable(s.reserved, s.mapped - Addrs(a, s.recs[a].sizes), a, size) <==>
            size == s.recs[a].size
  {
    hide AllocatorState.Valid, Addrs;
    ReleaseShape(s, a);
    forall x | x in s.mapped && x !in Addrs(a, s.recs[a].sizes) ensures !(a <= x < a + s.recs[a].size) {
      OutsideRange(s, a, x);
    }
  }

  lemma OutsideRange(s: State, a: int, x: int)
    requires AllocatorState.Valid(s) && a in s.recs && x in s.mapped && x !in Addrs(a, s.recs[a].sizes)
    ensures !(a <= x < a + s.recs[a].size)
  {
    hide AllocatorState.Valid, Addr, Held;
    var b, i := Owner(s, x);
    RecordFacts(s, b);
    AddrTiles(b, s.recs[b].sizes, i);
    if b != a { ApartFacts(s, a, b); }
  }

  /** What a my_malloc that reached its callback does to the world. */
  lemma StepShapes(w: World, d: int, rec: Record, hs: seq<nat>)
    requires Fits(w.state, d, rec) && rec.awake
    ensures Enabled(w.state, AllocateFailed(d, rec))
    ensures Step(w, AllocateFailed(d, rec)) == World(w.state, w.registry[d := rec])
    ensures Enabled(w.state, Allocate(d, rec, hs)) ==>
              Step(w, Allocate(d, rec, hs)) == World(Apply(w.state, Allocate(d, rec, hs)), w.registry[d := rec])
  {
    hide Fits;
  }

  /** What a successful my_malloc amounts to, field by field. */
  lemma AllocateShape(s: State, d: int, rec: Record, hs: seq<nat>)
    requires Fits(s, d, rec) && |hs| == |rec.sizes| && Distinct(hs) && Range(hs) !! s.live && rec.awake
    ensures Enabled(s, Allocate(d, rec, hs))
    ensures Apply(s, Allocate(d, rec, hs))
            == State(s.reserved[d := rec.size], s.mapped + ChunkMap(d, rec.sizes, hs, 0, |rec.sizes|),
                     s.live + Range(hs), SetCells(SetCells(s.cells, rec.ptrs, seq(|rec.ptrs|, _ => 0)), rec.ptrs, hs),
                     s.recs[d := rec])
  {
    hide SetCells, ChunkMap;
    assert s.recs[d := rec.(awake := false)][d := rec] == s.recs[d := rec];
  }

  lemma OnlyCellsGone(cells: map<nat, nat>, cells': map<nat, nat>, ptrs: seq<nat>)
    requires OnlyCells(cells, cells', ptrs)
    ensures cells' - Range(ptrs) == cells - Range(ptrs)
  {
  }

  /** Cells taken for a failed allocation leave no trace once they are freed. */
  lemma CellsGone(cells0: map<nat, nat>, cells: map<nat, nat>, ptrs: seq<nat>)
    requires Distinct(ptrs) && Range(ptrs) !! cells0.Keys
    requires cells == SetCells(cells0, ptrs, seq(|ptrs|, _ => 0))
    ensures cells - Range(ptrs) == cells0
  {
    hide SetCells;
    SetCellsAt(cells0, ptrs, seq(|ptrs|, _ => 0));
  }

  lemma FirstChunkInside(mapped0: map<int, Mapping>, d: int, sizes: seq<int>, hs: seq<nat>)
    requires AllPositive(sizes) && |sizes| == |hs| > 0
    ensures d in mapped0 + ChunkMap(d, sizes, hs, 0, |sizes|)
  {
    AddrZero(d, sizes);
    ChunkMapAt(d, sizes, hs, 0, |sizes|, 0);
  }

  /** A newly reserved range: no record there, nothing mapped inside. */
  lemma NewRange(s: State, d: int, rec: Record)
    requires AllocatorState.Valid(s) && rec.size > 0 && |rec.ptrs| == |rec.sizes| && Distinct(rec.ptrs)
    requires Range(rec.ptrs) !! s.cells.Keys
    requires rec.sizes != [] ==> Sum(rec.sizes) == rec.size && AllPositive(rec.sizes)
    requires forall a :: a in s.reserved ==> d + rec.size <= a || a + s.reserved[a] <= d
    ensures d !in s.reserved && d !in s.recs
    ensures rec.sizes != [] ==> Fits(s, d, rec)
    ensures Addrs(d, rec.sizes) !! s.mapped.Keys
    ensures forall x :: x in s.mapped ==> !(d <= x < d + rec.size)
  {
    hide AllocatorState.Valid, Addr, Held;
    KeysAgree(s);
    forall a | a in s.recs ensures a in s.reserved && s.reserved[a] == s.recs[a].size && s.recs[a].size > 0 {
      RecordFacts(s, a);
    }
    forall x | x in s.mapped ensures !(d <= x < d + rec.size) {
      var b, i := Owner(s, x);
      RecordFacts(s, b);
      AddrTiles(b, s.recs[b].sizes, i);
    }
    forall x | x in Addrs(d, rec.sizes) ensures d <= x < d + rec.size {
      var i :| 0 <= i < |rec.sizes| && x == Addr(d, rec.sizes, i);
      AddrTiles(d, rec.sizes, i);
    }
  }

  /** Both rounded sizes are below 2^64 and multiples of the granularity. */
  lemma ChunkFacts(size: int, base: int, g: int)
    requires 0 <= size < 0x8000_0000_0000_0000 && 0 < g <= 0x8000_0000_0000_0000 && 0 < base < WORD
    requires RoundUp(base, g) != 0
    ensures 0 < RoundUp(base, g) < WORD && RoundUp(base, g) % g == 0
    ensures size <= RoundUp(size, g) < WORD && RoundUp(size, g) % g == 0
  {
    RoundUpBound(base, g);
    RoundUpBound(size, g);
    hide RoundUp;
    ChunkUsable(base, g);
    RoundUpExact(base, g);
    RoundUpExact(size, g);
  }

  lemma RoundUpBound(x: int, g: int)
    requires g > 0
    ensures 0 <= RoundUp(x, g) < WORD
  {
    var y := (x + g - 1) % WORD;
    DivBounds(y, g);
    DivMonotone(0, y, g);
    MulLe(0, y / g, g);
  }

  lemma TilesFacts(sizes: seq<int>, aligned: int, chunk: int)
    requires Tiles(sizes, aligned, chunk)
    ensures Sum(sizes) == aligned && AllPositive(sizes)
  {
  }

  lemma NoCells(cells: map<nat, nat>)
    ensures SetCells(cells, [], seq(0, _ => 0)) == cells
  {
  }

  lemma ZeroCells(cells: map<nat, nat>, ptrs: seq<nat>, p: nat)
    ensures SetCells(cells, ptrs + [p], seq(|ptrs| + 1, _ => 0)) == SetCells(cells, ptrs, seq(|ptrs|, _ => 0))[p := 0]
  {
    assert (ptrs + [p])[..|ptrs|] == ptrs;
    assert seq(|ptrs| + 1, _ => 0)[..|ptrs|] == seq(|ptrs|, _ => 0);
  }

  lemma AwakeFacts(s: State, a: int)
    requires AllocatorState.Valid(s) && a in s.recs && s.recs[a].awake
    ensures var r := s.recs[a];
            && AllThere(s.mapped, a, r.sizes, |r.sizes|) && AllHeld(s.cells, s.live, r.ptrs)
  {
    hide AllocatorState.Valid, Addr, Held;
    RecordFacts(s, a);
  }

  /** A live handle that no chunk is mapped to: the invariant is gone. */
  lemma LeakedHandle(s: State, s': State, h: nat)
    requires AllocatorState.Valid(s) && h !in s.live && h in s'.live && s'.mapped == s.mapped
    ensures !AllocatorState.Valid(s')
  {
    hide AllocatorState.Valid;
    LiveIffMapped(s, h);
    if AllocatorState.Valid(s') {
      LiveIffMapped(s', h);
      assert false;
    }
  }

  lemma HeldAt(cells: map<nat, nat>, ptrs: seq<nat>, i: nat)
    requires i < |ptrs| && ptrs[i] in cells
    ensures Held(cells, ptrs)[i] == cells[ptrs[i]]
  {
  }

  lemma ChunkMapNone(mapped0: map<int, Mapping>, base: int, sizes: seq<int>, hs: seq<nat>)
    requires |sizes| == |hs|
    ensures mapped0 + ChunkMap(base, sizes, hs, 0, 0) == mapped0
  {
  }

  lemma ChunkMapNext(mapped0: map<int, Mapping>, base: int, sizes: seq<int>, hs: seq<nat>, i: nat)
    requires |sizes| == |hs| && i < |sizes|
    ensures (mapped0 + ChunkMap(base, sizes, hs, 0, i))[Addr(base, sizes, i) := Mapping(sizes[i], hs[i])]
            == mapped0 + ChunkMap(base, sizes, hs, 0, i + 1)
  {
    hide Addr;
  }

  /** After mapping i chunks, each of them is mapped with its size. */
  lemma FirstMapped(mapped0: map<int, Mapping>, base: int, sizes: seq<int>, hs: seq<nat>, i: nat)
    requires AllPositive(sizes) && |sizes| == |hs| && i <= |sizes|
    ensures AllThere(mapped0 + ChunkMap(base, sizes, hs, 0, i), base, sizes, i)
  {
    hide Addr, ChunkMap;
    forall k | 0 <= k < i
      ensures Addr(base, sizes, k) in ChunkMap(base, sizes, hs, 0, i)
              && ChunkMap(base, sizes, hs, 0, i)[Addr(base, sizes, k)].size == sizes[k]
    {
      ChunkMapAt(base, sizes, hs, 0, i, k);
    }
  }

  lemma UnmapRestores(mapped0: map<int, Mapping>, base: int, sizes: seq<int>, hs: seq<nat>, i: nat)
    requires |sizes| == |hs| && i <= |sizes| && Addrs(base, sizes) !! mapped0.Keys
    ensures (mapped0 + ChunkMap(base, sizes, hs, 0, i)) - AddrsTo(base, sizes, i) == mapped0
  {
    hide Addr, ChunkMap, AddrsTo;
    ChunkMapKeys(base, sizes, hs, 0, i);
    forall k | 0 <= k < i ensures Addr(base, sizes, k) in AddrsTo(base, sizes, i) {
      AddrsToHas(base, sizes, i, k);
    }
    forall x | x in AddrsTo(base, sizes, i) ensures x in Addrs(base, sizes) {
      var k := AddrsToOnly(base, sizes, i, x);
    }
  }

  lemma RangeSnoc<T>(s: seq<T>, x: T)
    ensures Range(s + [x]) == Range(s) + {x}
    ensures Distinct(s) && x !in Range(s) ==> Distinct(s + [x])
  {
    assert x in s + [x];
    forall y | y in Range(s) ensures y in Range(s + [x]) {}
  }

  lemma SetCellsNone(cells: map<nat, nat>, ptrs: seq<nat>)
    ensures SetCells(cells, ptrs[..0], []) == cells
  {
  }

  /** At the failing chunk i, the first i cells still hold the i handles created before. */
  lemma RollBackReady(cells0: map<nat, nat>, cells: map<nat, nat>, ptrs: seq<nat>, hs: seq<nat>, i: nat,
                      status: int, handle: nat)
    requires i < |ptrs| && |hs| == i && Distinct(ptrs)
    requires cells == if status == 0 then SetCells(cells0, ptrs[..i], hs)[ptrs[i] := handle]
                      else SetCells(cells0, ptrs[..i], hs)
    ensures Held(cells, ptrs[..i]) == hs
    ensures forall k :: 0 <= k < i ==> ptrs[k] in cells
  {
    SetCellsAt(cells0, ptrs[..i], hs);
    var before := SetCells(cells0, ptrs[..i], hs);
    forall k | 0 <= k < i ensures ptrs[k] in cells && cells[ptrs[k]] == hs[k] {
      assert before[ptrs[..i][k]] == hs[k];
    }
  }
}
