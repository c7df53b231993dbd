/** How an allocation is cut into physical chunks, in 64-bit unsigned arithmetic. */
module ChunkSizes {
  import opened Arithmetic
  import opened Collections

  const WORD: int := 0x1_0000_0000_0000_0000
  const MB: int := 1024 * 1024
  const DEFAULT_CHUNK: int := 256 * MB

  /** The environment variable: absent, not a number (or out of range), or a number of megabytes. */
  datatype ChunkSetting = Absent | Unparsable | Megabytes(value: nat)

  /** The base chunk size in bytes; every value the program cannot use falls back to the default. */
  function BaseChunk(env: ChunkSetting): (b: int)
    requires env.Megabytes? ==> env.value < WORD
    ensures 0 < b < WORD && b % 0x10_0000 == 0
    ensures env.Megabytes? && 0 < env.value && env.value * 0x10_0000 < WORD ==> b == env.value * 0x10_0000
    ensures env.Megabytes? && (env.value == 0 || env.value * 0x10_0000 >= WORD) ==> b == 0x1000_0000
    ensures env.Absent? || env.Unparsable? ==> b == 0x1000_0000
  {
    match env
    case Megabytes(v) => if v == 0 || v > (WORD - 1) / MB then DEFAULT_CHUNK else v * MB
    case _ => DEFAULT_CHUNK
  }

  /** The chunk size in use: the least multiple of the granularity that holds the setting's megabytes, or 256 of them if
      the setting is absent, not a number, zero or beyond 64 bits. */
  ghost predicate ChunkOf(env: ChunkSetting, g: int, chunk: int) {
    var bytes := if env.Megabytes? && 0 < env.value * 0x10_0000 < WORD then env.value * 0x10_0000 else 0x1000_0000;
    g > 0 && chunk % g == 0 && bytes <= chunk < bytes + g
  }

  /** Rounding the setting's bytes up to the granularity does not fit 64 bits. */
  ghost predicate ChunkTooLarge(env: ChunkSetting, g: int) {
    var bytes := if env.Megabytes? && 0 < env.value * 0x10_0000 < WORD then env.value * 0x10_0000 else 0x1000_0000;
    bytes + g - 1 >= WORD
  }

  lemma ChunkIs(env: ChunkSetting, g: int)
    requires (env.Megabytes? ==> env.value < WORD) && 0 < g <= WORD
    ensures RoundUp(BaseChunk(env), g) == 0 <==> ChunkTooLarge(env, g)
    ensures RoundUp(BaseChunk(env), g) != 0 ==> ChunkOf(env, g, RoundUp(BaseChunk(env), g))
  {
    ChunkUsable(BaseChunk(env), g);
    if BaseChunk(env) + g - 1 < WORD { RoundUpExact(BaseChunk(env), g); } else { RoundUpWraps(BaseChunk(env), g); }
  }

  /** ((x + g - 1) / g) * g, where the sum wraps around. */
  function RoundUp(x: int, g: int): int
    requires g > 0
  {
    ((x + g - 1) % WORD) / g * g
  }

  /** Number of chunks, where the sum wraps around; the division needs a nonzero chunk. */
  function CountChunks(aligned: int, chunk: int): int
    requires chunk > 0
  {
    ((aligned + chunk - 1) % WORD) / chunk
  }

  /** Without wrap-around, rounding up gives the least multiple of g that is at least x. */
  lemma RoundUpExact(x: int, g: int)
    requires 0 <= x && 0 < g && x + g - 1 < WORD
    ensures RoundUp(x, g) % g == 0 && x <= RoundUp(x, g) < x + g
  {
    DivBounds(x + g - 1, g);
    var q := (x + g - 1) / g;
    DivUnique(q * g, g, q);
  }

  /** With wrap-around it gives zero. */
  lemma RoundUpWraps(x: int, g: int)
    requires 0 <= x < WORD && 0 < g <= WORD && x + g - 1 >= WORD
    ensures RoundUp(x, g) == 0
  {
    DivUnique(x + g - 1, WORD, 1);
    DivUnique(x + g - 1 - WORD, g, 0);
  }

  /** The chunk size is usable exactly when rounding the base up does not wrap. */
  lemma ChunkUsable(base: int, g: int)
    requires 0 < base < WORD && 0 < g <= WORD
    ensures RoundUp(base, g) > 0 <==> base + g - 1 < WORD
  {
    if base + g - 1 < WORD {
      RoundUpExact(base, g);
    } else {
      RoundUpWraps(base, g);
    }
  }

  /** 2^44 - 1 megabytes rounded up to 2 MB: the chunk size is zero. */
  lemma WrappingSetting()
    ensures BaseChunk(Megabytes(0xFFF_FFFF_FFFF)) == 0xFFF_FFFF_FFFF * MB
    ensures RoundUp(BaseChunk(Megabytes(0xFFF_FFFF_FFFF)), 2 * MB) == 0
  {
  }

  /** 2^44 - 2 megabytes at the same granularity is usable, but an allocation of 4 MB then gets no chunk at all. */
  lemma WrappingCount()
    ensures RoundUp(BaseChunk(Megabytes(0xFFF_FFFF_FFFE)), 2 * MB) == WORD - 2 * MB
    ensures RoundUp(4 * MB, 2 * MB) == 4 * MB && CountChunks(4 * MB, WORD - 2 * MB) == 0
  {
  }

  /** All but the last chunk are full, the last one is what is left, and nothing else is. */
  ghost predicate Tiles(sizes: seq<int>, aligned: int, chunk: int) {
    && Sum(sizes) == aligned
    && (forall i :: 0 <= i < |sizes| - 1 ==> sizes[i] == chunk)
    && forall i :: 0 <= i < |sizes| ==> 0 < sizes[i] <= chunk
  }

  lemma CountExact(aligned: int, chunk: int)
    requires 0 < chunk && 0 <= aligned && aligned + chunk - 1 < WORD
    ensures CountChunks(aligned, chunk) == CeilDiv(aligned, chunk)
    ensures aligned <= CountChunks(aligned, chunk) * chunk < aligned + chunk
  {
    DivBounds(aligned + chunk - 1, chunk);
  }

  lemma CountWraps(aligned: int, chunk: int)
    requires 0 < chunk < WORD && 0 <= aligned < WORD && aligned + chunk - 1 >= WORD
    ensures CountChunks(aligned, chunk) == 0
  {
    DivUnique(aligned + chunk - 1, WORD, 1);
    DivUnique(aligned + chunk - 1 - WORD, chunk, 0);
  }

  /** Chunk k of n: what is left after k full chunks, at most one full chunk. */
  function SizeAt(aligned: int, chunk: int, k: nat): int {
    Min(aligned - k * chunk, chunk)
  }

  lemma {:induction false} SumOfSizes(sizes: seq<int>, aligned: int, chunk: int)
    requires 0 < chunk && 0 < aligned
    requires forall k :: 0 <= k < |sizes| ==> sizes[k] == SizeAt(aligned, chunk, k) && k * chunk < aligned
    ensures Sum(sizes) == Min(|sizes| * chunk, aligned)
  {
    if sizes != [] {
      var n := |sizes| - 1;
      SumOfSizes(sizes[..n], aligned, chunk);
      MulNext(n, chunk);
      assert sizes[n] == SizeAt(aligned, chunk, n);
    }
  }

  lemma SizesTile(sizes: seq<int>, aligned: int, chunk: int)
    requires 0 < chunk && 0 < aligned && aligned <= |sizes| * chunk < aligned + chunk
    requires forall k :: 0 <= k < |sizes| ==> sizes[k] == SizeAt(aligned, chunk, k) && k * chunk < aligned
    ensures Tiles(sizes, aligned, chunk)
  {
    hide Sum;
    SumOfSizes(sizes, aligned, chunk);
    forall k | 0 <= k < |sizes| - 1 ensures sizes[k] == chunk {
      MulLe(k + 2, |sizes|, chunk);
      assert (k + 2) * chunk == k * chunk + 2 * chunk;
      assert sizes[k] == SizeAt(aligned, chunk, k);
    }
  }

  lemma MultipleMinus(a: int, c: int, i: int, g: int)
    requires 0 < g && a % g == 0 && c % g == 0
    ensures (a - i * c) % g == 0
  {
    DivBounds(a, g);
    DivBounds(c, g);
    var q := a / g - i * (c / g);
    assert i * c == (i * (c / g)) * g;
    assert q * g == a - i * c;
    DivUnique(a - i * c, g, q);
  }

  lemma SizeInWord(aligned: int, chunk: int, i: nat, n: nat)
    requires 0 < chunk && 0 < aligned < WORD && i < n && n * chunk < aligned + chunk
    ensures i * chunk < aligned && (i * chunk) % WORD == i * chunk
  {
    MulLe(i + 1, n, chunk);
    MulNext(i, chunk);
    MulLe(0, i, chunk);
    DivUnique(i * chunk, WORD, 0);
  }

  /** The loop that fills the size array; g is the granularity both sizes were rounded to. */
  method FillSizes(aligned: int, chunk: int, ghost g: int) returns (sizes: array<int>)
    requires 0 < chunk < WORD && 0 < aligned < WORD
    requires 0 < g && aligned % g == 0 && chunk % g == 0
    ensures sizes.Length == CountChunks(aligned, chunk)
    ensures Tiles(sizes[..], aligned, chunk) <==> aligned + chunk - 1 < WORD
    ensures aligned + chunk - 1 >= WORD ==> sizes.Length == 0
    ensures forall i :: 0 <= i < sizes.Length ==> sizes[i] % g == 0
  {
    hide Tiles;
    var n := CountChunks(aligned, chunk);
    if aligned + chunk - 1 < WORD {
      CountExact(aligned, chunk);
    } else {
      CountWraps(aligned, chunk);
    }
    sizes := new int[n];
    for i := 0 to n
      invariant forall k :: 0 <= k < i ==> sizes[k] == SizeAt(aligned, chunk, k) && k * chunk < aligned
      invariant forall k :: 0 <= k < i ==> sizes[k] % g == 0
    {
      SizeInWord(aligned, chunk, i, n);
      MultipleMinus(aligned, chunk, i, g);
      sizes[i] := Min(aligned - (i * chunk) % WORD, chunk);
    }
    if n > 0 {
      SizesTile(sizes[..], aligned, chunk);
    } else {
      NothingTiles(sizes[..], aligned, chunk);
    }
  }

  lemma NothingTiles(sizes: seq<int>, aligned: int, chunk: int)
    requires sizes == [] && aligned > 0
    ensures !Tiles(sizes, aligned, chunk)
  {
  }
}
