/** Tensors as sequences of rows: concatenation along the first dimension and its inverse. */
module Tensors {
  import opened Arithmetic

  function Concat<T>(parts: seq<seq<T>>): seq<T> {
    if parts == [] then [] else Concat(parts[..|parts| - 1]) + parts[|parts| - 1]
  }

  /** Consecutive pieces of c rows, the last one possibly shorter. */
  function Pieces<T>(s: seq<T>, c: nat): seq<seq<T>>
    requires c > 0
  {
    if |s| <= c then [s] else [s[..c]] + Pieces(s[c..], c)
  }

  /** tensor.chunk(n): pieces of ceil(len / n) rows, possibly fewer than n of them. */
  function TorchChunk<T>(s: seq<T>, n: nat): seq<seq<T>>
    requires n > 0
  {
    if s == [] then seq(n, _ => []) else
      CeilStep(|s|, n);
      Pieces(s, CeilDiv(|s|, n))
  }

  ghost predicate Uniform<T>(parts: seq<seq<T>>, c: nat) {
    forall i :: 0 <= i < |parts| ==> |parts[i]| == c
  }

  lemma {:induction false} ConcatAppend<T>(a: seq<seq<T>>, b: seq<seq<T>>)
    ensures Concat(a + b) == Concat(a) + Concat(b)
    decreases |b|
  {
    if b == [] {
      assert a + b == a;
    } else {
      var n := |b| - 1;
      assert (a + b)[..|a| + n] == a + b[..n];
      ConcatAppend(a, b[..n]);
    }
  }

  lemma ConcatOne<T>(s: seq<T>)
    ensures Concat([s]) == s
  {
    assert [s][..0] == [];
  }

  lemma {:induction false} ConcatLength<T>(parts: seq<seq<T>>, c: nat)
    requires Uniform(parts, c)
    ensures |Concat(parts)| == |parts| * c
  {
    if parts != [] {
      ConcatLength(parts[..|parts| - 1], c);
      MulNext(|parts| - 1, c);
    }
  }

  /** Cutting a concatenation of equal parts gives the parts back. */
  lemma {:induction false} PiecesOfConcat<T>(parts: seq<seq<T>>, c: nat)
    requires Uniform(parts, c) && c > 0 && parts != []
    ensures Pieces(Concat(parts), c) == parts
  {
    var s := Concat(parts);
    assert parts == [parts[0]] + parts[1..];
    ConcatAppend([parts[0]], parts[1..]);
    ConcatOne(parts[0]);
    ConcatLength(parts[1..], c);
    if |parts| > 1 {
      MulLe(1, |parts| - 1, c);
      assert s[..c] == parts[0] && s[c..] == Concat(parts[1..]);
      PiecesOfConcat(parts[1..], c);
    } else {
      assert parts[1..] == [];
    }
  }

  lemma ChunkOfConcat<T>(parts: seq<seq<T>>, c: nat)
    requires Uniform(parts, c) && c > 0 && parts != []
    ensures TorchChunk(Concat(parts), |parts|) == parts
  {
    hide Pieces, Concat, Uniform;
    ConcatLength(parts, c);
    MulLe(1, |parts|, c);
    var n := |parts|;
    assert n * c == c * n;
    DivUnique(n * c + n - 1, n, c);
    PiecesOfConcat(parts, c);
  }

  /** The concatenation of the pieces is the tensor, whatever the piece size. */
  lemma {:induction false} ConcatOfPieces<T>(s: seq<T>, c: nat)
    requires c > 0
    ensures Concat(Pieces(s, c)) == s
    decreases |s|
  {
    if |s| <= c {
      ConcatOne(s);
    } else {
      ConcatOfPieces(s[c..], c);
      ConcatAppend([s[..c]], Pieces(s[c..], c));
      ConcatOne(s[..c]);
    }
  }

  /** n * c rows make n pieces of c rows each: view([n, c, ...]). */
  lemma {:induction false} PiecesUniform<T>(s: seq<T>, c: nat, n: nat)
    requires c > 0 && n > 0 && |s| == n * c
    ensures |Pieces(s, c)| == n && Uniform(Pieces(s, c), c)
    decreases n
  {
    MulNext(n - 1, c);
    if n > 1 {
      MulLe(1, n - 1, c);
      PiecesUniform(s[c..], c, n - 1);
    }
  }

  function ConcatEach<T>(groups: seq<seq<seq<T>>>): (r: seq<seq<T>>)
    ensures |r| == |groups|
  {
    seq(|groups|, i requires 0 <= i < |groups| => Concat(groups[i]))
  }

  /** Splitting rows into shards of n blocks each is splitting the block list. */
  lemma {:induction false} ShardsAreBlocks<T>(blocks: seq<seq<T>>, b: nat, n: nat, shards: nat)
    requires Uniform(blocks, b) && b > 0 && n > 0 && shards > 0 && |blocks| == shards * n
    ensures n * b > 0 && Pieces(Concat(blocks), n * b) == ConcatEach(Pieces(blocks, n))
    decreases shards
  {
    MulLe(1, n, b);
    ConcatLength(blocks, b);
    MulNext(shards - 1, n);
    if shards == 1 {
      assert ConcatEach([blocks]) == [Concat(blocks)];
    } else {
      MulLe(1, shards - 1, n);
      var head, tail := blocks[..n], blocks[n..];
      assert blocks == head + tail;
      ConcatAppend(head, tail);
      ConcatLength(head, b);
      ConcatLength(tail, b);
      MulLe(1, |tail|, b);
      ShardsAreBlocks(tail, b, n, shards - 1);
      assert Concat(blocks)[..n * b] == Concat(head) && Concat(blocks)[n * b..] == Concat(tail);
      assert ConcatEach([head] + Pieces(tail, n)) == [Concat(head)] + ConcatEach(Pieces(tail, n));
    }
  }

  // ----- row by row

  lemma {:induction false} ConcatIndex<T>(parts: seq<seq<T>>, c: nat, g: nat, r: nat)
    requires Uniform(parts, c) && g < |parts| && r < c
    ensures 0 <= g * c + r < |Concat(parts)| && Concat(parts)[g * c + r] == parts[g][r]
  {
    var n := |parts| - 1;
    ConcatLength(parts, c);
    ConcatLength(parts[..n], c);
    MulNext(n, c);
    MulLe(0, g, c);
    MulLe(g + 1, n, c);
    MulNext(g, c);
    if g < n {
      ConcatIndex(parts[..n], c, g, r);
    }
  }

  lemma PiecesIndex<T>(s: seq<T>, c: nat, n: nat, g: nat, r: nat)
    requires c > 0 && n > 0 && |s| == n * c && g < n && r < c
    ensures |Pieces(s, c)| == n && |Pieces(s, c)[g]| == c
    ensures 0 <= g * c + r < |s| && Pieces(s, c)[g][r] == s[g * c + r]
  {
    PiecesUniform(s, c, n);
    ConcatOfPieces(s, c);
    ConcatIndex(Pieces(s, c), c, g, r);
  }

  function Map<T, U>(s: seq<T>, f: T -> U): (r: seq<U>)
    ensures |r| == |s|
    ensures forall i :: 0 <= i < |s| ==> r[i] == f(s[i])
  {
    seq(|s|, i requires 0 <= i < |s| => f(s[i]))
  }

  lemma MapAppend<T, U>(a: seq<T>, b: seq<T>, f: T -> U)
    ensures Map(a + b, f) == Map(a, f) + Map(b, f)
  {
  }

  function MapEach<T, U>(parts: seq<seq<T>>, f: T -> U): (r: seq<seq<U>>)
    ensures |r| == |parts|
    ensures forall i :: 0 <= i < |parts| ==> r[i] == Map(parts[i], f)
  {
    seq(|parts|, i requires 0 <= i < |parts| => Map(parts[i], f))
  }

  lemma {:induction false} MapConcat<T, U>(parts: seq<seq<T>>, f: T -> U)
    ensures Map(Concat(parts), f) == Concat(MapEach(parts, f))
  {
    if parts != [] {
      var n := |parts| - 1;
      MapConcat(parts[..n], f);
      assert MapEach(parts, f)[..n] == MapEach(parts[..n], f);
      MapAppend(Concat(parts[..n]), parts[n], f);
    }
  }

  lemma {:induction false} MapPieces<T, U>(s: seq<T>, c: nat, f: T -> U)
    requires c > 0
    ensures Pieces(Map(s, f), c) == MapEach(Pieces(s, c), f)
    decreases |s|
  {
    if |s| > c {
      MapPieces(s[c..], c, f);
      assert Map(s, f)[..c] == Map(s[..c], f) && Map(s, f)[c..] == Map(s[c..], f);
    }
  }
}
