/** The state the device allocator shares with the driver, and what every operation keeps. */
module AllocatorState {
  import opened Collections
  import opened ChunkSizes

  datatype Mapping = Mapping(size: int, handle: nat)

  /** One allocation as the Python side knows it: reserved size, handle cells and chunk sizes. */
  datatype Record = Record(size: int, ptrs: seq<nat>, sizes: seq<int>, awake: bool)

  /** reserved: address ranges; mapped: chunk address to mapping; live: physical handles;
      cells: the C heap cells that hold handles; recs: the allocations handed out. */
  datatype State = State(reserved: map<int, int>, mapped: map<int, Mapping>, live: set<nat>,
                         cells: map<nat, nat>, recs: map<int, Record>)

  function Addr(base: int, sizes: seq<int>, i: nat): int
    requires i <= |sizes|
  {
    base + Sum(sizes[..i])
  }

  ghost function Addrs(base: int, sizes: seq<int>): set<int> {
    set i | 0 <= i < |sizes| :: Addr(base, sizes, i)
  }

  ghost predicate AllPositive(sizes: seq<int>) { forall i :: 0 <= i < |sizes| ==> sizes[i] > 0 }

  /** The handles found in the given cells. */
  ghost function Held(cells: map<nat, nat>, ptrs: seq<nat>): (r: seq<nat>)
    ensures |r| == |ptrs|
  {
    seq(|ptrs|, i requires 0 <= i < |ptrs| => if ptrs[i] in cells then cells[ptrs[i]] else 0)
  }

  /** The mappings of chunks lo..hi at running prefix sums. */
  ghost function ChunkMap(base: int, sizes: seq<int>, handles: seq<nat>, lo: nat, hi: nat): map<int, Mapping>
    requires lo <= hi <= |sizes| == |handles|
  {
    if lo == hi then map[]
    else
      var last := Mapping(sizes[hi - 1], handles[hi - 1]);
      ChunkMap(base, sizes, handles, lo, hi - 1)[Addr(base, sizes, hi - 1) := last]
  }

  // ----- addresses tile the range

  lemma {:induction false} AddrApart(base: int, sizes: seq<int>, i: nat, j: nat)
    requires AllPositive(sizes) && i < j <= |sizes|
    ensures Addr(base, sizes, i) + sizes[i] <= Addr(base, sizes, j)
    decreases j
  {
    assert sizes[..j][..j - 1] == sizes[..j - 1];
    if i < j - 1 {
      AddrApart(base, sizes, i, j - 1);
    }
  }

  lemma AddrZero(base: int, sizes: seq<int>)
    ensures Addr(base, sizes, 0) == base
  {
  }

  lemma AddrNext(base: int, sizes: seq<int>, i: nat)
    requires i < |sizes|
    ensures Addr(base, sizes, i + 1) == Addr(base, sizes, i) + sizes[i]
  {
    assert sizes[..i + 1][..i] == sizes[..i];
  }

  /** Chunk i occupies [Addr(i), Addr(i + 1)): from the base to the end with no gap or overlap. */
  lemma AddrTiles(base: int, sizes: seq<int>, i: nat)
    requires AllPositive(sizes) && i < |sizes|
    ensures Addr(base, sizes, 0) == base && Addr(base, sizes, |sizes|) == base + Sum(sizes)
    ensures Addr(base, sizes, i + 1) == Addr(base, sizes, i) + sizes[i]
    ensures base <= Addr(base, sizes, i) && Addr(base, sizes, i) + sizes[i] <= base + Sum(sizes)
  {
    assert sizes[..|sizes|] == sizes;
    assert sizes[..i + 1][..i] == sizes[..i];
    AddrApart(base, sizes, i, |sizes|);
    if i > 0 { AddrApart(base, sizes, 0, i); }
  }

  lemma AddrInjective(base: int, sizes: seq<int>, i: nat, j: nat)
    requires AllPositive(sizes) && i < |sizes| && j < |sizes| && Addr(base, sizes, i) == Addr(base, sizes, j)
    ensures i == j
  {
    if i < j { AddrApart(base, sizes, i, j); }
    if j < i { AddrApart(base, sizes, j, i); }
  }

  lemma {:induction false} ChunkMapAt(base: int, sizes: seq<int>, handles: seq<nat>, lo: nat, hi: nat, i: nat)
    requires AllPositive(sizes) && lo <= hi <= |sizes| == |handles| && i < |sizes|
    ensures Addr(base, sizes, i) in ChunkMap(base, sizes, handles, lo, hi) <==> lo <= i < hi
    ensures lo <= i < hi ==>
            ChunkMap(base, sizes, handles, lo, hi)[Addr(base, sizes, i)] == Mapping(sizes[i], handles[i])
  {
    hide Addr;
    if lo < hi {
      ChunkMapAt(base, sizes, handles, lo, hi - 1, i);
      if Addr(base, sizes, i) == Addr(base, sizes, hi - 1) { AddrInjective(base, sizes, i, hi - 1); }
    }
  }

  lemma {:induction false} ChunkMapKeys(base: int, sizes: seq<int>, handles: seq<nat>, lo: nat, hi: nat)
    requires lo <= hi <= |sizes| == |handles|
    ensures ChunkMap(base, sizes, handles, lo, hi).Keys == set i | lo <= i < hi :: Addr(base, sizes, i)
  {
    hide Addr;
    if lo < hi {
      ChunkMapKeys(base, sizes, handles, lo, hi - 1);
      assert (set i | lo <= i < hi :: Addr(base, sizes, i))
             == (set i | lo <= i < hi - 1 :: Addr(base, sizes, i)) + {Addr(base, sizes, hi - 1)};
    }
  }

  // ----- the invariant

  /** A record is backed by its own reservation, cells and chunk sizes. */
  ghost predicate Backed(s: State, a: int)
    requires a in s.recs
  {
    var r := s.recs[a];
    && a in s.reserved && s.reserved[a] == r.size == Sum(r.sizes) && r.size > 0
    && AllPositive(r.sizes) && |r.ptrs| == |r.sizes| && Distinct(r.ptrs)
    && forall i :: 0 <= i < |r.ptrs| ==> r.ptrs[i] in s.cells
  }

  /** An awake record has every chunk mapped once, each to its own live handle. */
  ghost predicate Mapped(s: State, a: int)
    requires a in s.recs
  {
    var r := s.recs[a];
    var hs := Held(s.cells, r.ptrs);
    && |hs| == |r.sizes| && Distinct(hs) && Range(hs) <= s.live
    && forall i :: 0 <= i < |r.sizes| ==>
                     Addr(a, r.sizes, i) in s.mapped && s.mapped[Addr(a, r.sizes, i)] == Mapping(r.sizes[i], hs[i])
  }

  ghost predicate Apart(s: State, a: int, b: int)
    requires a in s.recs && b in s.recs
  {
    && (a + s.recs[a].size <= b || b + s.recs[b].size <= a)
    && Range(s.recs[a].ptrs) !! Range(s.recs[b].ptrs)
    && (s.recs[a].awake && s.recs[b].awake ==>
          Range(Held(s.cells, s.recs[a].ptrs)) !! Range(Held(s.cells, s.recs[b].ptrs)))
  }

  ghost predicate OwnsAddress(s: State, a: int, x: int)
  {
    a in s.recs && s.recs[a].awake && x in Addrs(a, s.recs[a].sizes)
  }

  ghost predicate OwnsHandle(s: State, a: int, h: nat)
  {
    a in s.recs && s.recs[a].awake && h in Held(s.cells, s.recs[a].ptrs)
  }

  ghost predicate Valid(s: State) {
    && s.reserved.Keys == s.recs.Keys
    && (forall a :: a in s.recs ==> Backed(s, a))
    && (forall a :: a in s.recs && s.recs[a].awake ==> Mapped(s, a))
    && (forall a, b :: a in s.recs && b in s.recs && a != b ==> Apart(s, a, b))
    && (forall x :: x in s.mapped ==> exists a :: OwnsAddress(s, a, x))
    && (forall h :: h in s.live ==> exists a :: OwnsHandle(s, a, h))
  }

  // ----- what the invariant means

  lemma Owner(s: State, x: int) returns (a: int, i: nat)
    requires Valid(s) && x in s.mapped
    ensures a in s.recs && s.recs[a].awake && i < |s.recs[a].sizes| && x == Addr(a, s.recs[a].sizes, i)
  {
    hide Backed, Mapped, Apart, Addr;
    a :| OwnsAddress(s, a, x);
    i :| 0 <= i < |s.recs[a].sizes| && x == Addr(a, s.recs[a].sizes, i);
  }

  lemma RecordFacts(s: State, a: int)
    requires Valid(s) && a in s.recs
    ensures Backed(s, a) && (s.recs[a].awake ==> Mapped(s, a))
  {
    hide Backed, Mapped, Apart, OwnsAddress, OwnsHandle;
  }

  lemma ApartFacts(s: State, a: int, b: int)
    requires Valid(s) && a in s.recs && b in s.recs && a != b
    ensures Apart(s, a, b)
  {
    hide Backed, Mapped, Apart, OwnsAddress, OwnsHandle;
  }

  /** Mapped chunks never overlap. */
  lemma MappedDisjoint(s: State, x: int, y: int)
    requires Valid(s) && x in s.mapped && y in s.mapped && x != y
    ensures x + s.mapped[x].size <= y || y + s.mapped[y].size <= x
  {
    hide Addr, Valid, Held;
    var a, i := Owner(s, x);
    var b, j := Owner(s, y);
    RecordFacts(s, a);
    RecordFacts(s, b);
    if a == b {
      if i < j { AddrApart(a, s.recs[a].sizes, i, j); } else { AddrApart(a, s.recs[a].sizes, j, i); }
    } else {
      AddrTiles(a, s.recs[a].sizes, i);
      AddrTiles(b, s.recs[b].sizes, j);
      ApartFacts(s, a, b);
    }
  }

  lemma LiveHasChunk(s: State, h: nat)
    requires Valid(s) && h in s.live
    ensures exists x :: x in s.mapped && s.mapped[x].handle == h
  {
    hide Backed, Mapped, Apart, Addr, Held;
    var a :| OwnsHandle(s, a, h);
    var hs := Held(s.cells, s.recs[a].ptrs);
    var i :| 0 <= i < |hs| && hs[i] == h;
    MappedLengths(s, a);
    HandleMapped(s, a, i);
  }

  lemma HandleMapped(s: State, a: int, i: nat)
    requires a in s.recs && Mapped(s, a) && i < |s.recs[a].sizes|
    ensures var x, h := Addr(a, s.recs[a].sizes, i), Held(s.cells, s.recs[a].ptrs)[i];
            x in s.mapped && s.mapped[x] == Mapping(s.recs[a].sizes[i], h) && h in s.live
  {
    hide Addr, Held;
    var hs := Held(s.cells, s.recs[a].ptrs);
    assert hs[i] in Range(hs);
  }

  /** A handle is live exactly when some chunk is mapped to it. */
  lemma LiveIffMapped(s: State, h: nat)
    requires Valid(s)
    ensures h in s.live <==> exists x :: x in s.mapped && s.mapped[x].handle == h
  {
    hide Valid, Addr, Held, Mapped, Backed;
    if h in s.live {
      LiveHasChunk(s, h);
    }
    if x :| x in s.mapped && s.mapped[x].handle == h {
      var a, i := Owner(s, x);
      RecordFacts(s, a);
      MappedLengths(s, a);
      HandleMapped(s, a, i);
    }
  }

  lemma MappedLengths(s: State, a: int)
    requires a in s.recs && Mapped(s, a)
    ensures |s.recs[a].ptrs| == |s.recs[a].sizes|
  {
  }

  lemma AddrsDisjoint(s: State, a: int, b: int)
    requires Valid(s) && a in s.recs && b in s.recs && a != b
    ensures Addrs(a, s.recs[a].sizes) !! Addrs(b, s.recs[b].sizes)
  {
    hide Valid, Addr, Held;
    RecordFacts(s, a);
    RecordFacts(s, b);
    ApartFacts(s, a, b);
    forall i, j | 0 <= i < |s.recs[a].sizes| && 0 <= j < |s.recs[b].sizes|
      ensures Addr(a, s.recs[a].sizes, i) != Addr(b, s.recs[b].sizes, j)
    {
      AddrTiles(a, s.recs[a].sizes, i);
      AddrTiles(b, s.recs[b].sizes, j);
    }
  }

  // ----- transitions

  ghost function SetCells(cells: map<nat, nat>, ptrs: seq<nat>, hs: seq<nat>): map<nat, nat>
    requires |ptrs| == |hs|
  {
    if ptrs == [] then cells
    else SetCells(cells, ptrs[..|ptrs| - 1], hs[..|ptrs| - 1])[ptrs[|ptrs| - 1] := hs[|ptrs| - 1]]
  }

  lemma {:induction false} SetCellsKey(cells: map<nat, nat>, ptrs: seq<nat>, hs: seq<nat>, p: nat)
    requires |ptrs| == |hs|
    ensures p in SetCells(cells, ptrs, hs) <==> p in cells || p in ptrs
    ensures p in cells && p !in ptrs ==> SetCells(cells, ptrs, hs)[p] == cells[p]
  {
    if ptrs != [] {
      var n := |ptrs| - 1;
      SetCellsKey(cells, ptrs[..n], hs[..n], p);
      assert ptrs == ptrs[..n] + [ptrs[n]];
    }
  }

  lemma {:induction false} SetCellsIndex(cells: map<nat, nat>, ptrs: seq<nat>, hs: seq<nat>, i: nat)
    requires |ptrs| == |hs| && Distinct(ptrs) && i < |ptrs|
    ensures ptrs[i] in SetCells(cells, ptrs, hs) && SetCells(cells, ptrs, hs)[ptrs[i]] == hs[i]
  {
    var n := |ptrs| - 1;
    if i < n {
      SetCellsIndex(cells, ptrs[..n], hs[..n], i);
    }
  }

  lemma SetCellsAt(cells: map<nat, nat>, ptrs: seq<nat>, hs: seq<nat>)
    requires |ptrs| == |hs| && Distinct(ptrs)
    ensures SetCells(cells, ptrs, hs).Keys == cells.Keys + Range(ptrs)
    ensures forall i :: 0 <= i < |ptrs| ==> SetCells(cells, ptrs, hs)[ptrs[i]] == hs[i]
    ensures forall p :: p in cells && p !in ptrs ==> SetCells(cells, ptrs, hs)[p] == cells[p]
    ensures Held(SetCells(cells, ptrs, hs), ptrs) == hs
  {
    hide SetCells;
    forall p ensures p in SetCells(cells, ptrs, hs) <==> p in cells || p in ptrs {
      SetCellsKey(cells, ptrs, hs, p);
    }
    forall i | 0 <= i < |ptrs| ensures SetCells(cells, ptrs, hs)[ptrs[i]] == hs[i] {
      SetCellsIndex(cells, ptrs, hs, i);
    }
    forall p | p in cells && p !in ptrs ensures SetCells(cells, ptrs, hs)[p] == cells[p] {
      SetCellsKey(cells, ptrs, hs, p);
    }
  }

  /** Same cells, and only those in ptrs may have changed. */
  ghost predicate OnlyCells(cells: map<nat, nat>, cells': map<nat, nat>, ptrs: seq<nat>) {
    cells'.Keys == cells.Keys && forall p :: p in cells && p !in ptrs ==> cells'[p] == cells[p]
  }

  lemma OnlyCellsIsSet(cells: map<nat, nat>, cells': map<nat, nat>, ptrs: seq<nat>)
    requires OnlyCells(cells, cells', ptrs) && Distinct(ptrs) && forall i :: 0 <= i < |ptrs| ==> ptrs[i] in cells
    ensures cells' == SetCells(cells, ptrs, Held(cells', ptrs))
  {
    var hs := Held(cells', ptrs);
    SetCellsAt(cells, ptrs, hs);
    forall p | p in cells' ensures SetCells(cells, ptrs, hs)[p] == cells'[p] {
      if p in ptrs {
        var i :| 0 <= i < |ptrs| && ptrs[i] == p;
      }
    }
  }

  lemma SetCellsStep(cells: map<nat, nat>, ptrs: seq<nat>, hs: seq<nat>, i: nat, h: nat)
    requires i < |ptrs| && |hs| == i
    ensures SetCells(cells, ptrs[..i + 1], hs + [h]) == SetCells(cells, ptrs[..i], hs)[ptrs[i] := h]
  {
    assert ptrs[..i + 1][..i] == ptrs[..i] && (hs + [h])[..i] == hs;
  }

  /** A new, not yet mapped allocation. */
  ghost function Added(s: State, a: int, r: Record): State
  {
    s.(reserved := s.reserved[a := r.size],
       cells := SetCells(s.cells, r.ptrs, seq(|r.ptrs|, _ => 0)),
       recs := s.recs[a := r.(awake := false)])
  }

  /** Every chunk of allocation a mapped to a new handle. */
  ghost function Woken(s: State, a: int, hs: seq<nat>): State
    requires a in s.recs && |hs| == |s.recs[a].sizes| == |s.recs[a].ptrs|
  {
    var r := s.recs[a];
    s.(mapped := s.mapped + ChunkMap(a, r.sizes, hs, 0, |r.sizes|),
       live := s.live + Range(hs),
       cells := SetCells(s.cells, r.ptrs, hs),
       recs := s.recs[a := r.(awake := true)])
  }

  /** Every chunk of allocation a unmapped and its handle released; the cells keep stale values. */
  ghost function Slept(s: State, a: int): State
    requires a in s.recs
  {
    var r := s.recs[a];
    s.(mapped := s.mapped - Addrs(a, r.sizes),
       live := s.live - Range(Held(s.cells, r.ptrs)),
       recs := s.recs[a := r.(awake := false)])
  }

  /** An unmapped allocation given up. */
  ghost function Dropped(s: State, a: int): State
    requires a in s.recs
  {
    s.(reserved := s.reserved - {a}, cells := s.cells - Range(s.recs[a].ptrs), recs := s.recs - {a})
  }

  ghost predicate Fits(s: State, a: int, r: Record) {
    && r.size == Sum(r.sizes) && AllPositive(r.sizes) && |r.ptrs| == |r.sizes| > 0 && Distinct(r.ptrs)
    && Range(r.ptrs) !! s.cells.Keys
    && forall b :: b in s.recs ==> a + r.size <= b || b + s.recs[b].size <= a
  }

  lemma HeldSame(cells: map<nat, nat>, cells': map<nat, nat>, ptrs: seq<nat>)
    requires forall i :: 0 <= i < |ptrs| ==> ptrs[i] in cells && ptrs[i] in cells' && cells[ptrs[i]] == cells'[ptrs[i]]
    ensures Held(cells, ptrs) == Held(cells', ptrs)
  {
  }

  lemma PositiveSum(sizes: seq<int>)
    requires AllPositive(sizes) && sizes != []
    ensures Sum(sizes) > 0
  {
    AddrTiles(0, sizes, 0);
  }

  /** Allocation b, untouched by a step, keeps its backing and its mappings. */
  lemma OthersKeep(s: State, s': State, b: int)
    requires b in s.recs && b in s'.recs && s'.recs[b] == s.recs[b] && Backed(s, b)
    requires b in s'.reserved && s'.reserved[b] == s.reserved[b]
    requires forall i :: 0 <= i < |s.recs[b].ptrs| ==>
                           s.recs[b].ptrs[i] in s'.cells && s'.cells[s.recs[b].ptrs[i]] == s.cells[s.recs[b].ptrs[i]]
    ensures Backed(s', b) && Held(s'.cells, s.recs[b].ptrs) == Held(s.cells, s.recs[b].ptrs)
    ensures Mapped(s, b) && Range(Held(s.cells, s.recs[b].ptrs)) <= s'.live
            && (forall x :: x in Addrs(b, s.recs[b].sizes) && x in s.mapped ==>
               x in s'.mapped && s'.mapped[x] == s.mapped[x])
            ==> Mapped(s', b)
  {
    hide Addr;
    HeldSame(s.cells, s'.cells, s.recs[b].ptrs);
  }

  /** Cells of other allocations are not among those of a. */
  lemma OtherCells(s: State, a: int, b: int, hs: seq<nat>)
    requires Valid(s) && a in s.recs && b in s.recs && a != b && |hs| == |s.recs[a].ptrs|
    ensures forall i :: 0 <= i < |s.recs[b].ptrs| ==>
                          var p := s.recs[b].ptrs[i];
                          p in s.cells && p in SetCells(s.cells, s.recs[a].ptrs, hs)
                          && SetCells(s.cells, s.recs[a].ptrs, hs)[p] == s.cells[p]
  {
    hide Valid, SetCells;
    ApartFacts(s, a, b);
    RecordFacts(s, b);
    forall i | 0 <= i < |s.recs[b].ptrs|
      ensures var p := s.recs[b].ptrs[i];
              p in SetCells(s.cells, s.recs[a].ptrs, hs) && SetCells(s.cells, s.recs[a].ptrs, hs)[p] == s.cells[p]
    {
      var p := s.recs[b].ptrs[i];
      assert p in Range(s.recs[b].ptrs);
      assert p !in s.recs[a].ptrs;
      SetCellsKey(s.cells, s.recs[a].ptrs, hs, p);
    }
  }

  lemma WokenSelf(s: State, a: int, hs: seq<nat>)
    requires Valid(s) && a in s.recs && |hs| == |s.recs[a].sizes| && Distinct(hs)
    ensures |s.recs[a].ptrs| == |hs|
    ensures Backed(Woken(s, a, hs), a) && Mapped(Woken(s, a, hs), a)
    ensures Held(Woken(s, a, hs).cells, s.recs[a].ptrs) == hs
  {
    hide Valid, SetCells, Addr, ChunkMap;
    RecordFacts(s, a);
    var r := s.recs[a];
    SetCellsAt(s.cells, r.ptrs, hs);
    forall i | 0 <= i < |r.sizes|
      ensures Addr(a, r.sizes, i) in Woken(s, a, hs).mapped
              && Woken(s, a, hs).mapped[Addr(a, r.sizes, i)] == Mapping(r.sizes[i], hs[i])
    {
      ChunkMapAt(a, r.sizes, hs, 0, |r.sizes|, i);
    }
  }

  lemma WokenOther(s: State, a: int, hs: seq<nat>, b: int)
    requires Valid(s) && a in s.recs && |hs| == |s.recs[a].sizes| == |s.recs[a].ptrs| && b in s.recs && b != a
    ensures var s' := Woken(s, a, hs);
            && Backed(s', b) && (s.recs[b].awake ==> Mapped(s', b))
            && Held(s'.cells, s.recs[b].ptrs) == Held(s.cells, s.recs[b].ptrs)
  {
    hide Valid, SetCells, Addr, ChunkMap, Held;
    var s', r := Woken(s, a, hs), s.recs[a];
    RecordFacts(s, b);
    OtherCells(s, a, b, hs);
    AddrsDisjoint(s, a, b);
    ChunkMapKeys(a, r.sizes, hs, 0, |r.sizes|);
    assert ChunkMap(a, r.sizes, hs, 0, |r.sizes|).Keys == Addrs(a, r.sizes);
    OthersKeep(s, s', b);
  }

  lemma WokenApart(s: State, a: int, hs: seq<nat>, b: int, c: int)
    requires Valid(s) && a in s.recs && |hs| == |s.recs[a].sizes| == |s.recs[a].ptrs| && Distinct(hs)
    requires Range(hs) !! s.live && b in s.recs && c in s.recs && b != c
    ensures Apart(Woken(s, a, hs), b, c)
  {
    hide Valid, SetCells, Addr, ChunkMap, Backed, Held;
    ApartFacts(s, b, c);
    WokenSelf(s, a, hs);
    if b != a { WokenOther(s, a, hs, b); RecordFacts(s, b); }
    if c != a { WokenOther(s, a, hs, c); RecordFacts(s, c); }
  }

  lemma WokenOwners(s: State, a: int, hs: seq<nat>)
    requires Valid(s) && a in s.recs && !s.recs[a].awake && |hs| == |s.recs[a].sizes| == |s.recs[a].ptrs|
             && Distinct(hs)
    ensures var s' := Woken(s, a, hs);
            && (forall x :: x in s'.mapped ==> exists b :: OwnsAddress(s', b, x))
            && (forall h :: h in s'.live ==> exists b :: OwnsHandle(s', b, h))
  {
    hide SetCells, Addr, ChunkMap, Backed, Mapped, Apart, Held;
    var s', r := Woken(s, a, hs), s.recs[a];
    ChunkMapKeys(a, r.sizes, hs, 0, |r.sizes|);
    WokenSelf(s, a, hs);
    forall x | x in s'.mapped ensures exists b :: OwnsAddress(s', b, x) {
      if x in Addrs(a, r.sizes) {
        assert OwnsAddress(s', a, x);
      } else {
        assert x in s.mapped;
        var b :| OwnsAddress(s, b, x);
        assert OwnsAddress(s', b, x);
      }
    }
    forall h | h in s'.live ensures exists b :: OwnsHandle(s', b, h) {
      if h in Range(hs) {
        assert OwnsHandle(s', a, h);
      } else {
        assert h in s.live;
        var b :| OwnsHandle(s, b, h);
        WokenOther(s, a, hs, b);
        assert OwnsHandle(s', b, h);
      }
    }
  }

  /** Mapping a sleeping allocation to fresh handles keeps the invariant. */
  lemma WokenValid(s: State, a: int, hs: seq<nat>)
    requires Valid(s) && a in s.recs && !s.recs[a].awake
    requires |hs| == |s.recs[a].sizes| && Distinct(hs) && Range(hs) !! s.live
    ensures |s.recs[a].ptrs| == |hs| && Valid(Woken(s, a, hs))
  {
    hide Valid, Woken, SetCells, Addr, ChunkMap, Backed, Mapped, Apart, OwnsAddress, OwnsHandle;
    WokenSelf(s, a, hs);
    WokenShape(s, a, hs);
    KeysAgree(s);
    var s' := Woken(s, a, hs);
    forall b | b in s'.recs ensures Backed(s', b) && (s'.recs[b].awake ==> Mapped(s', b)) {
      if b != a { WokenOther(s, a, hs, b); }
    }
    forall b, c | b in s'.recs && c in s'.recs && b != c ensures Apart(s', b, c) {
      WokenApart(s, a, hs, b, c);
    }
    WokenOwners(s, a, hs);
    MakeValid(s');
  }

  lemma WokenShape(s: State, a: int, hs: seq<nat>)
    requires a in s.recs && |hs| == |s.recs[a].sizes| == |s.recs[a].ptrs|
    ensures var s' := Woken(s, a, hs);
            && s'.reserved == s.reserved && s'.recs.Keys == s.recs.Keys
            && forall b :: b in s.recs && b != a ==> s'.recs[b] == s.recs[b]
  {
  }

  lemma MakeValid(s: State)
    requires s.reserved.Keys == s.recs.Keys
    requires forall a :: a in s.recs ==> Backed(s, a) && (s.recs[a].awake ==> Mapped(s, a))
    requires forall a, b :: a in s.recs && b in s.recs && a != b ==> Apart(s, a, b)
    requires forall x :: x in s.mapped ==> exists a :: OwnsAddress(s, a, x)
    requires forall h :: h in s.live ==> exists a :: OwnsHandle(s, a, h)
    ensures Valid(s)
  {
    hide Backed, Mapped, Apart, OwnsAddress, OwnsHandle;
  }

  lemma SleptOther(s: State, a: int, b: int)
    requires Valid(s) && a in s.recs && s.recs[a].awake && b in s.recs && b != a
    ensures Backed(Slept(s, a), b) && (s.recs[b].awake ==> Mapped(Slept(s, a), b))
    ensures Apart(s, a, b)
  {
    hide Valid, Addr, Held;
    RecordFacts(s, b);
    ApartFacts(s, a, b);
    AddrsDisjoint(s, a, b);
    OthersKeep(s, Slept(s, a), b);
  }

  lemma SleptOwners(s: State, a: int)
    requires Valid(s) && a in s.recs && s.recs[a].awake
    ensures var s' := Slept(s, a);
            && (forall x :: x in s'.mapped ==> exists b :: OwnsAddress(s', b, x))
            && (forall h :: h in s'.live ==> exists b :: OwnsHandle(s', b, h))
  {
    hide Addr, Backed, Mapped, Apart, Held;
    var s' := Slept(s, a);
    forall x | x in s'.mapped ensures exists b :: OwnsAddress(s', b, x) {
      var b :| OwnsAddress(s, b, x);
      assert OwnsAddress(s', b, x);
    }
    forall h | h in s'.live ensures exists b :: OwnsHandle(s', b, h) {
      var b :| OwnsHandle(s, b, h);
      assert OwnsHandle(s', b, h);
    }
  }

  lemma SleptSelf(s: State, a: int)
    requires Valid(s) && a in s.recs
    ensures Backed(Slept(s, a), a)
  {
    hide Valid, Held;
    RecordFacts(s, a);
  }

  /** Unmapping and releasing an awake allocation keeps the invariant. */
  lemma SleptValid(s: State, a: int)
    requires Valid(s) && a in s.recs && s.recs[a].awake
    ensures Valid(Slept(s, a))
  {
    hide Addr, Backed, Mapped, Apart, OwnsAddress, OwnsHandle, Held;
    var s' := Slept(s, a);
    assert s'.reserved.Keys == s'.recs.Keys;
    forall b | b in s'.recs ensures Backed(s', b) && (s'.recs[b].awake ==> Mapped(s', b)) {
      if b == a { SleptSelf(s, a); } else { SleptOther(s, a, b); }
    }
    forall b, c | b in s'.recs && c in s'.recs && b != c ensures Apart(s', b, c) {
      SleptApart(s, a, b, c);
    }
    SleptOwners(s, a);
  }

  lemma SleptApart(s: State, a: int, b: int, c: int)
    requires Valid(s) && a in s.recs && b in s.recs && c in s.recs && b != c
    ensures Apart(Slept(s, a), b, c)
  {
    hide Valid, Addr, Held;
    ApartFacts(s, b, c);
  }

  lemma AddedOther(s: State, a: int, r: Record, b: int)
    requires Valid(s) && Fits(s, a, r) && b in s.recs
    ensures b != a
    ensures var s' := Added(s, a, r);
            && Backed(s', b) && (s.recs[b].awake ==> Mapped(s', b)) && Apart(s', a, b) && Apart(s', b, a)
            && Held(s'.cells, s.recs[b].ptrs) == Held(s.cells, s.recs[b].ptrs)
  {
    hide Valid, Addr, SetCells;
    RecordFacts(s, b);
    PositiveSum(r.sizes);
    SetCellsAt(s.cells, r.ptrs, seq(|r.ptrs|, _ => 0));
    forall i | 0 <= i < |s.recs[b].ptrs| ensures s.recs[b].ptrs[i] !in r.ptrs {
      assert s.recs[b].ptrs[i] in s.cells.Keys;
      assert forall p :: p in r.ptrs ==> p in Range(r.ptrs);
    }
    OthersKeep(s, Added(s, a, r), b);
  }

  lemma AddedOwners(s: State, a: int, r: Record)
    requires Valid(s) && Fits(s, a, r)
    ensures var s' := Added(s, a, r);
            && (forall x :: x in s'.mapped ==> exists b :: OwnsAddress(s', b, x))
            && (forall h :: h in s'.live ==> exists b :: OwnsHandle(s', b, h))
  {
    hide Addr, Backed, Mapped, Apart, Held, SetCells, Fits;
    var s' := Added(s, a, r);
    forall x | x in s'.mapped ensures exists b :: OwnsAddress(s', b, x) {
      var b :| OwnsAddress(s, b, x);
      AddedOther(s, a, r, b);
      assert OwnsAddress(s', b, x);
    }
    forall h | h in s'.live ensures exists b :: OwnsHandle(s', b, h) {
      var b :| OwnsHandle(s, b, h);
      AddedOther(s, a, r, b);
      assert OwnsHandle(s', b, h);
    }
  }

  /** A fresh reservation with fresh cells keeps the invariant. */
  lemma AddedValid(s: State, a: int, r: Record)
    requires Valid(s) && Fits(s, a, r)
    ensures Valid(Added(s, a, r)) && a !in s.recs
  {
    var s' := Added(s, a, r);
    SetCellsAt(s.cells, r.ptrs, seq(|r.ptrs|, _ => 0));
    PositiveSum(r.sizes);
    assert s'.reserved.Keys == s'.recs.Keys && Backed(s', a);
    if a in s.recs { AddedOther(s, a, r, a); }
    hide Addr, Backed, Mapped, Apart, OwnsAddress, OwnsHandle, Held, SetCells, Fits;
    forall b | b in s'.recs ensures Backed(s', b) && (s'.recs[b].awake ==> Mapped(s', b)) {
      if b != a { AddedOther(s, a, r, b); }
    }
    forall b, c | b in s'.recs && c in s'.recs && b != c ensures Apart(s', b, c) {
      if b == a {
        AddedOther(s, a, r, c);
      } else if c == a {
        AddedOther(s, a, r, b);
      } else {
        AddedApart(s, a, r, b, c);
      }
    }
    AddedOwners(s, a, r);
  }

  lemma AddedApart(s: State, a: int, r: Record, b: int, c: int)
    requires Valid(s) && Fits(s, a, r) && b in s.recs && c in s.recs && b != c
    ensures Apart(Added(s, a, r), b, c)
  {
    hide Valid, Addr, SetCells, Fits, Held, Backed, Mapped;
    ApartFacts(s, b, c);
    AddedOther(s, a, r, b);
    AddedOther(s, a, r, c);
  }

  lemma DroppedOther(s: State, a: int, b: int)
    requires Valid(s) && a in s.recs && b in s.recs && b != a
    ensures var s' := Dropped(s, a);
            && Backed(s', b) && (s.recs[b].awake ==> Mapped(s', b))
            && Held(s'.cells, s.recs[b].ptrs) == Held(s.cells, s.recs[b].ptrs)
  {
    hide Valid, Addr;
    RecordFacts(s, b);
    ApartFacts(s, a, b);
    assert forall i :: 0 <= i < |s.recs[b].ptrs| ==> s.recs[b].ptrs[i] in Range(s.recs[b].ptrs);
    OthersKeep(s, Dropped(s, a), b);
  }

  /** Giving up a sleeping allocation keeps the invariant. */
  lemma DroppedValid(s: State, a: int)
    requires Valid(s) && a in s.recs && !s.recs[a].awake
    ensures Valid(Dropped(s, a))
  {
    var s' := Dropped(s, a);
    assert s'.reserved.Keys == s'.recs.Keys;
    hide Addr, Backed, Mapped, Held, Apart, OwnsAddress, OwnsHandle;
    forall b | b in s'.recs ensures Backed(s', b) && (s'.recs[b].awake ==> Mapped(s', b)) {
      DroppedOther(s, a, b);
    }
    forall b, c | b in s'.recs && c in s'.recs && b != c ensures Apart(s', b, c) {
      DroppedApart(s, a, b, c);
    }
    DroppedOwners(s, a);
  }

  lemma DroppedOwners(s: State, a: int)
    requires Valid(s) && a in s.recs && !s.recs[a].awake
    ensures var s' := Dropped(s, a);
            && (forall x :: x in s'.mapped ==> exists b :: OwnsAddress(s', b, x))
            && (forall h :: h in s'.live ==> exists b :: OwnsHandle(s', b, h))
  {
    hide Addr, Backed, Mapped, Held, Apart;
    var s' := Dropped(s, a);
    forall x | x in s'.mapped ensures exists b :: OwnsAddress(s', b, x) {
      var b :| OwnsAddress(s, b, x);
      assert OwnsAddress(s', b, x);
    }
    forall h | h in s'.live ensures exists b :: OwnsHandle(s', b, h) {
      var b :| OwnsHandle(s, b, h);
      DroppedOther(s, a, b);
      assert OwnsHandle(s', b, h);
    }
  }

  lemma DroppedApart(s: State, a: int, b: int, c: int)
    requires Valid(s) && a in s.recs && b in s.recs && c in s.recs && b != c && b != a && c != a
    ensures Apart(Dropped(s, a), b, c)
  {
    hide Valid, Addr, Held, Backed, Mapped;
    ApartFacts(s, b, c);
    DroppedOther(s, a, b);
    DroppedOther(s, a, c);
  }

  /** A sleeping allocation whose cells were overwritten by handles that are gone again. */
  ghost function Scribbled(s: State, a: int, junk: seq<nat>): State
    requires a in s.recs && |junk| == |s.recs[a].ptrs|
  {
    s.(cells := SetCells(s.cells, s.recs[a].ptrs, junk))
  }

  lemma ScribbledOther(s: State, a: int, junk: seq<nat>, b: int)
    requires Valid(s) && a in s.recs && !s.recs[a].awake && |junk| == |s.recs[a].ptrs| && b in s.recs
    ensures var s' := Scribbled(s, a, junk);
            && Backed(s', b) && (s.recs[b].awake ==> Mapped(s', b))
            && (b != a ==> Held(s'.cells, s.recs[b].ptrs) == Held(s.cells, s.recs[b].ptrs))
  {
    hide Valid, SetCells, Addr;
    RecordFacts(s, b);
    if b == a {
      SetCellsAt(s.cells, s.recs[a].ptrs, junk);
    } else {
      OtherCells(s, a, b, junk);
      OthersKeep(s, Scribbled(s, a, junk), b);
    }
  }

  lemma ScribbledApart(s: State, a: int, junk: seq<nat>, b: int, c: int)
    requires Valid(s) && a in s.recs && !s.recs[a].awake && |junk| == |s.recs[a].ptrs|
    requires b in s.recs && c in s.recs && b != c
    ensures Apart(Scribbled(s, a, junk), b, c)
  {
    hide Valid, SetCells, Addr, Held, Backed, Mapped;
    ApartFacts(s, b, c);
    ScribbledOther(s, a, junk, b);
    ScribbledOther(s, a, junk, c);
  }

  lemma ScribbledValid(s: State, a: int, junk: seq<nat>)
    requires Valid(s) && a in s.recs && !s.recs[a].awake && |junk| == |s.recs[a].ptrs|
    ensures Valid(Scribbled(s, a, junk))
  {
    hide SetCells, Addr, Backed, Mapped, Held, Apart;
    var s' := Scribbled(s, a, junk);
    forall b | b in s'.recs ensures Backed(s', b) && (s'.recs[b].awake ==> Mapped(s', b)) {
      ScribbledOther(s, a, junk, b);
    }
    forall b, c | b in s'.recs && c in s'.recs && b != c ensures Apart(s', b, c) {
      ScribbledApart(s, a, junk, b, c);
    }
    ScribbledOwners(s, a, junk);
  }

  lemma ScribbledOwners(s: State, a: int, junk: seq<nat>)
    requires Valid(s) && a in s.recs && !s.recs[a].awake && |junk| == |s.recs[a].ptrs|
    ensures var s' := Scribbled(s, a, junk);
            && (forall x :: x in s'.mapped ==> exists b :: OwnsAddress(s', b, x))
            && (forall h :: h in s'.live ==> exists b :: OwnsHandle(s', b, h))
  {
    hide SetCells, Addr, Backed, Mapped, Held, Apart;
    var s' := Scribbled(s, a, junk);
    forall x | x in s'.mapped ensures exists b :: OwnsAddress(s', b, x) {
      var b :| OwnsAddress(s, b, x);
      assert OwnsAddress(s', b, x);
    }
    forall h | h in s'.live ensures exists b :: OwnsHandle(s', b, h) {
      var b :| OwnsHandle(s, b, h);
      ScribbledOther(s, a, junk, b);
      assert OwnsHandle(s', b, h);
    }
  }

  // ----- round trips

  /** Nothing is mapped at the chunk addresses of a sleeping allocation. */
  lemma SleepingUnmapped(s: State, a: int)
    requires Valid(s) && a in s.recs && !s.recs[a].awake
    ensures Addrs(a, s.recs[a].sizes) !! s.mapped.Keys
  {
    hide Valid, Addr;
    forall x | x in s.mapped ensures x !in Addrs(a, s.recs[a].sizes) {
      var b, i := Owner(s, x);
      AddrsDisjoint(s, a, b);
      assert x in Addrs(b, s.recs[b].sizes);
    }
  }

  lemma ChunkMapIsAddrs(a: int, sizes: seq<int>, hs: seq<nat>)
    requires |sizes| == |hs|
    ensures ChunkMap(a, sizes, hs, 0, |sizes|).Keys == Addrs(a, sizes)
  {
    ChunkMapKeys(a, sizes, hs, 0, |sizes|);
  }

  /** Waking a sleeping allocation and putting it back to sleep changes nothing but the stale cells. */
  lemma WakeThenSleep(s: State, a: int, hs: seq<nat>)
    requires Valid(s) && a in s.recs && !s.recs[a].awake
    requires |hs| == |s.recs[a].sizes| == |s.recs[a].ptrs| && Distinct(hs) && Range(hs) !! s.live
    ensures Slept(Woken(s, a, hs), a) == s.(cells := SetCells(s.cells, s.recs[a].ptrs, hs))
  {
    hide Valid, Addr, SetCells, ChunkMap, Backed, Mapped, Held;
    var r, s' := s.recs[a], Woken(s, a, hs);
    WokenSelf(s, a, hs);
    SleepingUnmapped(s, a);
    ChunkMapIsAddrs(a, r.sizes, hs);
    assert s'.mapped - Addrs(a, r.sizes) == s.mapped;
    assert s'.live - Range(hs) == s.live;
    assert s'.recs[a := s'.recs[a].(awake := false)] == s.recs;
  }

  /** Allocating and then freeing gives back exactly the state before: nothing leaks. */
  lemma AllocateThenRelease(s: State, a: int, r: Record, hs: seq<nat>)
    requires Valid(s) && Fits(s, a, r) && |hs| == |r.sizes| && Distinct(hs) && Range(hs) !! s.live
    ensures Dropped(Slept(Woken(Added(s, a, r), a, hs), a), a) == s
  {
    hide Valid, Addr, SetCells, ChunkMap, Backed, Mapped, Held;
    var s1 := Added(s, a, r);
    AddedValid(s, a, r);
    WakeThenSleep(s1, a, hs);
    SetCellsAt(s.cells, r.ptrs, seq(|r.ptrs|, _ => 0));
    SetCellsAt(s1.cells, r.ptrs, hs);
    assert SetCells(s1.cells, r.ptrs, hs) - Range(r.ptrs) == s.cells;
    assert a !in s.reserved by { KeysAgree(s); }
    assert s1.reserved - {a} == s.reserved;
    assert s1.recs - {a} == s.recs;
  }

  lemma KeysAgree(s: State)
    requires Valid(s)
    ensures s.reserved.Keys == s.recs.Keys
  {
  }

  /** Sleeping and waking up restores every chunk at its address with its size; other
      allocations keep their very mappings. */
  lemma SleepThenWake(s: State, a: int, hs: seq<nat>)
    requires Valid(s) && a in s.recs && s.recs[a].awake && |hs| == |s.recs[a].sizes| == |s.recs[a].ptrs|
    ensures var s' := Woken(Slept(s, a), a, hs);
            && s'.mapped.Keys == s.mapped.Keys
            && (forall x :: x in s.mapped ==> s'.mapped[x].size == s.mapped[x].size)
            && forall x :: x in s.mapped && x !in Addrs(a, s.recs[a].sizes) ==> s'.mapped[x] == s.mapped[x]
  {
    hide Valid, Addr, SetCells, ChunkMap, Backed, Held;
    var r, s' := s.recs[a], Woken(Slept(s, a), a, hs);
    RecordFacts(s, a);
    ChunkMapIsAddrs(a, r.sizes, hs);
    forall x | x in Addrs(a, r.sizes) ensures x in s.mapped && s'.mapped[x].size == s.mapped[x].size {
      var i :| 0 <= i < |r.sizes| && x == Addr(a, r.sizes, i);
      ChunkSize(s, a, i);
      ChunkMapAt(a, r.sizes, hs, 0, |r.sizes|, i);
    }
  }

  lemma ChunkSize(s: State, a: int, i: nat)
    requires Valid(s) && a in s.recs && s.recs[a].awake && i < |s.recs[a].sizes|
    ensures AllPositive(s.recs[a].sizes)
    ensures var x := Addr(a, s.recs[a].sizes, i); x in s.mapped && s.mapped[x].size == s.recs[a].sizes[i]
  {
    hide Valid, Addr, Held;
    RecordFacts(s, a);
  }

  // ----- whole runs

  datatype Op =
    | Allocate(at: int, rec: Record, hs: seq<nat>)   // my_malloc that succeeds
    | AllocateFailed(at: int, rec: Record)           // my_malloc whose create or map was rolled back
    | Sleep(at: int)                                    // python_unmap_and_release
    | WakeUp(at: int, hs: seq<nat>)                  // python_create_and_map
    | WakeFailed(at: int, junk: seq<nat>)               // python_create_and_map that was rolled back
    | Release(at: int)                                  // my_free, of a sleeping allocation only if its stale handles
                                                        // were not handed out again

  ghost predicate FreshHandles(s: State, hs: seq<nat>, n: nat) {
    |hs| == n && Distinct(hs) && Range(hs) !! s.live
  }

  ghost predicate Enabled(s: State, op: Op) {
    match op
    case Allocate(a, r, hs) => Fits(s, a, r) && FreshHandles(s, hs, |r.sizes|)
    case AllocateFailed(a, r) => Fits(s, a, r) && r.awake
    case Sleep(a) => a in s.recs && s.recs[a].awake
    case WakeUp(a, hs) => a in s.recs && !s.recs[a].awake && FreshHandles(s, hs, |s.recs[a].sizes|)
                             && |s.recs[a].ptrs| == |s.recs[a].sizes|
    case WakeFailed(a, junk) => a in s.recs && !s.recs[a].awake && |junk| == |s.recs[a].ptrs|
    case Release(a) => a in s.recs && (s.recs[a].awake || Range(Held(s.cells, s.recs[a].ptrs)) !! s.live)
  }

  ghost function Apply(s: State, op: Op): State
    requires Enabled(s, op)
  {
    match op
    case Allocate(a, r, hs) => Woken(Added(s, a, r), a, hs)
    case AllocateFailed(a, r) => s
    case Sleep(a) => Slept(s, a)
    case WakeUp(a, hs) => Woken(s, a, hs)
    case WakeFailed(a, junk) => Scribbled(s, a, junk)
    case Release(a) => Dropped(if s.recs[a].awake then Slept(s, a) else s, a)
  }

  lemma ApplyValid(s: State, op: Op)
    requires Valid(s) && Enabled(s, op)
    ensures Valid(Apply(s, op))
  {
    hide Valid, Woken, Added, Slept, Dropped, Fits;
    match op
    case Allocate(a, r, hs) =>
      AddedValid(s, a, r);
      assert Added(s, a, r).recs[a] == r.(awake := false) && Added(s, a, r).live == s.live by { AddedShape(s, a, r); }
      WokenValid(Added(s, a, r), a, hs);
    case AllocateFailed(a, r) =>
    case Sleep(a) => SleptValid(s, a);
    case WakeUp(a, hs) => WokenValid(s, a, hs);
    case WakeFailed(a, junk) => ScribbledValid(s, a, junk);
    case Release(a) =>
      if s.recs[a].awake {
        SleptValid(s, a);
        assert a in Slept(s, a).recs && !Slept(s, a).recs[a].awake by { SleptShape(s, a); }
        DroppedValid(Slept(s, a), a);
      } else {
        DroppedValid(s, a);
      }
  }

  lemma AddedShape(s: State, a: int, r: Record)
    ensures a in Added(s, a, r).recs && Added(s, a, r).recs[a] == r.(awake := false) && Added(s, a, r).live == s.live
  {
  }

  lemma SleptShape(s: State, a: int)
    requires a in s.recs
    ensures a in Slept(s, a).recs && !Slept(s, a).recs[a].awake
  {
  }

  const INITIAL := State(map[], map[], {}, map[], map[])

  // ----- the Python side

  /** The allocator and the dictionary of allocations that the Python side keeps. */
  datatype World = World(state: State, registry: map<int, Record>)

  /** The callback of my_malloc enters the allocation before its chunks are mapped; a later failure
      does not remove it. */
  ghost function Step(w: World, op: Op): World
    requires Enabled(w.state, op)
  {
    var registry := match op
                    case Allocate(a, r, hs) => w.registry[a := r.(awake := true)]
                    case AllocateFailed(a, r) => w.registry[a := r]
                    case Sleep(a) => w.registry
                    case WakeUp(a, hs) => w.registry
                    case WakeFailed(a, junk) => w.registry
                    case Release(a) => w.registry - {a};
    World(Apply(w.state, op), registry)
  }

  /** Every allocation handed out is in the dictionary, as it was when it was made. */
  ghost predicate Tracks(recs: map<int, Record>, registry: map<int, Record>) {
    forall a :: a in recs ==> a in registry && registry[a] == recs[a].(awake := true)
  }

  /** Entries left behind: those of rolled-back allocations whose address was not handed out again. */
  ghost function Stale(ops: seq<Op>): set<int> {
    if ops == [] then {} else
      var before := Stale(ops[..|ops| - 1]);
      match ops[|ops| - 1]
      case Allocate(a, r, hs) => before - {a}
      case AllocateFailed(a, r) => before + {a}
      case _ => before
  }

  /** The states a run goes through. */
  ghost predicate Run(worlds: seq<World>, ops: seq<Op>) {
    && |worlds| == |ops| + 1 && worlds[0] == World(INITIAL, map[])
    && forall i :: 0 <= i < |ops| ==> Enabled(worlds[i].state, ops[i]) && worlds[i + 1] == Step(worlds[i], ops[i])
  }

  lemma {:induction false} RunValid(worlds: seq<World>, ops: seq<Op>, k: nat)
    requires Run(worlds, ops) && k < |worlds|
    ensures Valid(worlds[k].state)
  {
    hide Enabled, Apply;
    if k > 0 {
      RunValid(worlds, ops, k - 1);
      assert Enabled(worlds[k - 1].state, ops[k - 1]) && worlds[k] == Step(worlds[k - 1], ops[k - 1]);
      ApplyValid(worlds[k - 1].state, ops[k - 1]);
    }
  }

  /** In every state of every run mapped chunks are disjoint and handles live exactly while mapped. */
  lemma EveryRunSafe(worlds: seq<World>, ops: seq<Op>, k: nat)
    requires Run(worlds, ops) && k < |worlds|
    ensures var s := worlds[k].state;
            && Valid(s)
            && (forall x, y :: x in s.mapped && y in s.mapped && x != y ==>
                                 x + s.mapped[x].size <= y || y + s.mapped[y].size <= x)
            && (forall h :: h in s.live <==> exists x :: x in s.mapped && s.mapped[x].handle == h)
  {
    RunValid(worlds, ops, k);
    hide Valid, Run;
    var s := worlds[k].state;
    forall x, y | x in s.mapped && y in s.mapped && x != y
      ensures x + s.mapped[x].size <= y || y + s.mapped[y].size <= x
    {
      MappedDisjoint(s, x, y);
    }
    forall h ensures h in s.live <==> exists x :: x in s.mapped && s.mapped[x].handle == h {
      LiveIffMapped(s, h);
    }
  }

  /** What the dictionary holds beside the allocations. */
  ghost predicate Kept(w: World, stale: set<int>) {
    && Tracks(w.state.recs, w.registry) && stale !! w.state.recs.Keys && w.registry.Keys == w.state.recs.Keys + stale
    && forall a :: a in w.registry ==> w.registry[a].sizes != []
  }

  lemma AppliedRecords(s: State, op: Op)
    requires Valid(s) && Enabled(s, op)
    ensures Apply(s, op).recs == match op
                                 case Allocate(a, r, hs) => s.recs[a := r.(awake := true)]
                                 case AllocateFailed(a, r) => s.recs
                                 case Sleep(a) => s.recs[a := s.recs[a].(awake := false)]
                                 case WakeUp(a, hs) => s.recs[a := s.recs[a].(awake := true)]
                                 case WakeFailed(a, junk) => s.recs
                                 case Release(a) => s.recs - {a}
    ensures op.AllocateFailed? ==> op.at !in s.recs
  {
    hide Valid, SetCells, Addrs, Held, ChunkMap, Fits;
    match op
    case Allocate(a, r, hs) => assert Fits(s, a, r); WokenRecords(s, a, r, hs);
    case AllocateFailed(a, r) => AddedValid(s, a, r);
    case Sleep(a) =>
    case WakeUp(a, hs) =>
    case WakeFailed(a, junk) =>
    case Release(a) => assert s.recs[a := s.recs[a].(awake := false)] - {a} == s.recs - {a};
  }

  lemma WokenRecords(s: State, a: int, r: Record, hs: seq<nat>)
    requires Fits(s, a, r) && |hs| == |r.sizes|
    ensures Woken(Added(s, a, r), a, hs).recs == s.recs[a := r.(awake := true)]
  {
    hide SetCells, ChunkMap;
  }

  lemma KeptStep(w: World, op: Op, stale: set<int>)
    requires Valid(w.state) && Enabled(w.state, op) && Kept(w, stale)
    ensures Kept(Step(w, op), match op
                              case Allocate(a, r, hs) => stale - {a}
                              case AllocateFailed(a, r) => stale + {a}
                              case _ => stale)
  {
    AppliedRecords(w.state, op);
    var recs, s := w.state.recs, Apply(w.state, op);
    hide Valid, Apply, Fits, FreshHandles, Kept;
    match op
    case Allocate(a, r, hs) => FitsChunks(w.state, a, r); KeptAdd(w, stale, s, a, r.(awake := true));
    case AllocateFailed(a, r) => FitsChunks(w.state, a, r); KeptStale(w, stale, s, a, r);
    case Sleep(a) => KeptSame(w, stale, s, a, false);
    case WakeUp(a, hs) => KeptSame(w, stale, s, a, true);
    case WakeFailed(a, junk) => KeptSame(w, stale, s, a, recs[a].awake);
    case Release(a) => KeptDrop(w, stale, s, a);
  }

  lemma FitsChunks(s: State, a: int, r: Record)
    requires Fits(s, a, r)
    ensures r.sizes != []
  {
  }

  lemma KeptAdd(w: World, stale: set<int>, s: State, a: int, r: Record)
    requires Kept(w, stale) && s.recs == w.state.recs[a := r] && r.awake && r.sizes != []
    ensures Kept(World(s, w.registry[a := r]), stale - {a})
  {
  }

  lemma KeptStale(w: World, stale: set<int>, s: State, a: int, r: Record)
    requires Kept(w, stale) && s.recs == w.state.recs && a !in w.state.recs && r.sizes != []
    ensures Kept(World(s, w.registry[a := r]), stale + {a})
  {
  }

  lemma KeptSame(w: World, stale: set<int>, s: State, a: int, awake: bool)
    requires Kept(w, stale) && a in w.state.recs && s.recs == w.state.recs[a := w.state.recs[a].(awake := awake)]
    ensures Kept(World(s, w.registry), stale)
  {
  }

  lemma KeptDrop(w: World, stale: set<int>, s: State, a: int)
    requires Kept(w, stale) && a in w.state.recs && s.recs == w.state.recs - {a}
    ensures Kept(World(s, w.registry - {a}), stale)
  {
  }

  lemma {:induction false} RegistryHolds(worlds: seq<World>, ops: seq<Op>, k: nat)
    requires Run(worlds, ops) && k < |worlds|
    ensures Kept(worlds[k], Stale(ops[..k]))
  {
    hide Enabled, Apply, Kept, Step;
    if k == 0 {
      assert ops[..0] == [];
      NothingKept();
    } else {
      RegistryHolds(worlds, ops, k - 1);
      RunValid(worlds, ops, k - 1);
      assert Enabled(worlds[k - 1].state, ops[k - 1]) && worlds[k] == Step(worlds[k - 1], ops[k - 1]);
      KeptStep(worlds[k - 1], ops[k - 1], Stale(ops[..k - 1]));
      assert ops[..k][..k - 1] == ops[..k - 1];
    }
  }

  lemma NothingKept()
    ensures Kept(World(INITIAL, map[]), {})
  {
  }

  /** The dictionary has exactly the allocations handed out if and only if no entry of a rolled-back allocation is left
      over; in particular as long as no allocation was rolled back after its callback, and not right after one was. */
  lemma RegistryExact(worlds: seq<World>, ops: seq<Op>, k: nat)
    requires Run(worlds, ops) && k < |worlds|
    ensures worlds[k].registry.Keys == worlds[k].state.recs.Keys <==> Stale(ops[..k]) == {}
    ensures (forall i :: 0 <= i < k ==> !ops[i].AllocateFailed?) ==> Stale(ops[..k]) == {}
    ensures k > 0 && ops[k - 1].AllocateFailed? ==> ops[k - 1].at in Stale(ops[..k])
  {
    hide Enabled, Step;
    RegistryHolds(worlds, ops, k);
    if forall i :: 0 <= i < k ==> !ops[i].AllocateFailed? { NeverStale(ops[..k]); }
  }

  lemma {:induction false} NeverStale(ops: seq<Op>)
    requires forall i :: 0 <= i < |ops| ==> !ops[i].AllocateFailed?
    ensures Stale(ops) == {}
  {
    if ops != [] { NeverStale(ops[..|ops| - 1]); }
  }

  // ----- counting chunks

  /** The chunks of the dictionary entries, in the order they are visited. */
  ghost function Chunks(registry: map<int, Record>, order: seq<int>): nat
    requires forall i :: 0 <= i < |order| ==> order[i] in registry
  {
    if order == [] then 0 else Chunks(registry, order[..|order| - 1]) + |registry[order[|order| - 1]].sizes|
  }

  ghost function ChunksAwake(s: State, a: int): nat { if a in s.recs && s.recs[a].awake then |s.recs[a].sizes| else 0 }

  ghost function AwakeChunks(s: State, order: seq<int>): nat {
    if order == [] then 0 else AwakeChunks(s, order[..|order| - 1]) + ChunksAwake(s, order[|order| - 1])
  }

  ghost function AwakeAddrs(s: State, a: int): set<int> {
    if a in s.recs && s.recs[a].awake then Addrs(a, s.recs[a].sizes) else {}
  }

  ghost function AllAwakeAddrs(s: State, order: seq<int>): set<int> {
    if order == [] then {} else AllAwakeAddrs(s, order[..|order| - 1]) + AwakeAddrs(s, order[|order| - 1])
  }

  ghost function AddrsTo(base: int, sizes: seq<int>, n: nat): (r: set<int>)
    requires n <= |sizes|
    ensures |r| <= n
  {
    if n == 0 then {} else AddrsTo(base, sizes, n - 1) + {Addr(base, sizes, n - 1)}
  }

  lemma {:induction false} AddrsToHas(base: int, sizes: seq<int>, n: nat, i: nat)
    requires i < n <= |sizes|
    ensures Addr(base, sizes, i) in AddrsTo(base, sizes, n)
  {
    if i < n - 1 { AddrsToHas(base, sizes, n - 1, i); }
  }

  lemma {:induction false} AddrsToOnly(base: int, sizes: seq<int>, n: nat, x: int) returns (i: nat)
    requires n <= |sizes| && x in AddrsTo(base, sizes, n)
    ensures i < n && x == Addr(base, sizes, i)
  {
    i := n - 1;
    if x != Addr(base, sizes, n - 1) { i := AddrsToOnly(base, sizes, n - 1, x); }
  }

  lemma AddrsToAll(base: int, sizes: seq<int>)
    ensures AddrsTo(base, sizes, |sizes|) == Addrs(base, sizes)
  {
    forall i | 0 <= i < |sizes| ensures Addr(base, sizes, i) in AddrsTo(base, sizes, |sizes|) {
      AddrsToHas(base, sizes, |sizes|, i);
    }
    forall x | x in AddrsTo(base, sizes, |sizes|) ensures x in Addrs(base, sizes) {
      var i := AddrsToOnly(base, sizes, |sizes|, x);
    }
  }

  lemma {:induction false} AwakeCount(s: State, order: seq<int>)
    ensures |AllAwakeAddrs(s, order)| <= AwakeChunks(s, order)
  {
    if order != [] {
      var n := |order| - 1;
      AwakeCount(s, order[..n]);
      var a := order[n];
      if a in s.recs { AddrsToAll(a, s.recs[a].sizes); }
    }
  }

  lemma {:induction false} AwakeIn(s: State, order: seq<int>, a: int, x: int)
    requires a in order && x in AwakeAddrs(s, a)
    ensures x in AllAwakeAddrs(s, order)
  {
    hide AwakeAddrs;
    var n := |order| - 1;
    if order[n] != a {
      assert a in order[..n];
      AwakeIn(s, order[..n], a, x);
    }
  }

  lemma Smaller(a: set<int>, b: set<int>)
    requires a <= b
    ensures |a| <= |b|
  {
    assert b == a + (b - a);
  }

  /** No more chunks are mapped than the awake allocations have. */
  lemma MappedAtMost(s: State, order: seq<int>)
    requires Valid(s) && forall a :: a in s.recs ==> a in order
    ensures |s.mapped.Keys| <= AwakeChunks(s, order)
  {
    AwakeCount(s, order);
    hide AllAwakeAddrs;
    forall x | x in s.mapped ensures x in AllAwakeAddrs(s, order) {
      var a, i := Owner(s, x);
      assert x in AwakeAddrs(s, a);
      AwakeIn(s, order, a, x);
    }
    Smaller(s.mapped.Keys, AllAwakeAddrs(s, order));
  }

  lemma {:induction false} EntriesCount(s: State, registry: map<int, Record>, order: seq<int>)
    requires Tracks(s.recs, registry) && forall i :: 0 <= i < |order| ==> order[i] in registry
    ensures AwakeChunks(s, order) <= Chunks(registry, order)
    ensures AwakeChunks(s, order) == Chunks(registry, order) ==>
              forall i :: 0 <= i < |order| && registry[order[i]].sizes != [] ==>
                            order[i] in s.recs && s.recs[order[i]].awake
  {
    if order != [] {
      EntriesCount(s, registry, order[..|order| - 1]);
    }
  }

  /** If as many chunks are mapped as the dictionary has, every entry with chunks is an awake allocation. */
  lemma EnoughMapped(s: State, registry: map<int, Record>, order: seq<int>, a: int)
    requires Valid(s) && Tracks(s.recs, registry) && (forall a :: a in order <==> a in registry)
    requires forall i :: 0 <= i < |order| ==> order[i] in registry
    requires Chunks(registry, order) <= |s.mapped.Keys| && a in registry && registry[a].sizes != []
    ensures a in s.recs && s.recs[a].awake
  {
    hide Valid;
    MappedAtMost(s, order);
    EntriesCount(s, registry, order);
    var i :| 0 <= i < |order| && order[i] == a;
  }

  /** In a run, all entries with chunks are awake allocations if and only if no entry is left over and all allocations
      are awake. */
  lemma EntriesAwake(worlds: seq<World>, ops: seq<Op>, k: nat)
    requires Run(worlds, ops) && k < |worlds|
    ensures var w := worlds[k];
            (forall a :: a in w.registry && w.registry[a].sizes != [] ==> a in w.state.recs && w.state.recs[a].awake)
            <==> Stale(ops[..k]) == {} && forall a :: a in w.state.recs ==> w.state.recs[a].awake
  {
    hide Enabled, Step;
    RegistryHolds(worlds, ops, k);
    var w := worlds[k];
    if forall a :: a in w.registry && w.registry[a].sizes != [] ==> a in w.state.recs && w.state.recs[a].awake {
      forall a | a in w.registry ensures a in w.state.recs && w.state.recs[a].awake {}
      assert Stale(ops[..k]) == Stale(ops[..k]) * w.state.recs.Keys;
      assert forall a :: a in w.state.recs ==> a in w.registry;
    }
  }

  /** Nothing is mapped and no handle is live once every allocation sleeps. */
  lemma AllAsleep(s: State)
    requires Valid(s) && forall a :: a in s.recs ==> !s.recs[a].awake
    ensures s.mapped == map[] && s.live == {}
  {
    forall x ensures x !in s.mapped {
      if x in s.mapped { var a, i := Owner(s, x); }
    }
    assert s.mapped.Keys == {};
    forall h ensures h !in s.live {
      if h in s.live { LiveHasChunk(s, h); }
    }
  }

  /** One allocation of one chunk, rolled back after its callback: its entry stays, with a cell that is gone. */
  lemma StaleEntry()
    ensures var r, op := Record(1, [0], [1], true), AllocateFailed(0, Record(1, [0], [1], true));
            && Enabled(INITIAL, op)
            && var w := Step(World(INITIAL, map[]), op);
            w.registry == map[0 := r] && 0 !in w.state.recs && 0 !in w.state.cells
  {
    var sizes := [1];
    assert sizes[..0] == [];
    assert Sum(sizes) == 1;
  }

  /** What my_free leaves is consistent exactly when the size it is given is the reserved one: with any other size the
      allocation is gone and its reservation is not. */
  lemma FreedWithSize(s: State, a: int, size: int)
    requires Valid(s) && Enabled(s, Release(a))
    ensures var t := Apply(s, Release(a));
            Valid(if size == s.recs[a].size then t else t.(reserved := s.reserved)) <==> size == s.recs[a].size
  {
    hide Valid, Apply;
    ApplyValid(s, Release(a));
    AppliedRecords(s, Release(a));
    KeysAgree(s);
    LeakedReservation(Apply(s, Release(a)).(reserved := s.reserved), a);
  }

  lemma LeakedReservation(s: State, a: int)
    requires a in s.reserved && a !in s.recs
    ensures !Valid(s)
  {
    if Valid(s) { KeysAgree(s); }
  }
}
