/** The fixed chunk grid over a file, and files patched chunk by chunk. */
module ChunkGrid {
  import opened Prelude

  function NumChunks(size: nat, chunk: nat): nat
    requires chunk > 0
  {
    (size + chunk - 1) / chunk
  }

  function Start(i: nat, chunk: nat): nat { i * chunk }

  function End(i: nat, size: nat, chunk: nat): nat {
    if i * chunk + chunk > size then size else i * chunk + chunk
  }

  lemma DivBounds(x: nat, d: nat)
    requires d > 0
    ensures x / d * d <= x < x / d * d + d
  {
    assert x == x / d * d + x % d;
  }

  lemma MulMono(a: nat, b: nat, d: nat)
    requires a <= b
    ensures a * d <= b * d
  {
  }

  lemma MulNext(a: nat, b: nat, d: nat)
    requires a < b
    ensures a * d + d <= b * d
  {
    MulMono(a + 1, b, d);
    assert (a + 1) * d == a * d + d;
  }

  /** Chunk `i` is a nonempty range inside the file. */
  lemma ChunkInFile(i: nat, size: nat, chunk: nat)
    requires chunk > 0 && i < NumChunks(size, chunk)
    ensures Start(i, chunk) < End(i, size, chunk) <= size
  {
    var n := NumChunks(size, chunk);
    DivBounds(size + chunk - 1, chunk);
    MulNext(i, n, chunk);
  }

  /** Every offset lies in a chunk of the grid. */
  lemma ChunkOf(x: nat, size: nat, chunk: nat) returns (i: nat)
    requires chunk > 0 && x < size
    ensures i < NumChunks(size, chunk) && Start(i, chunk) <= x < End(i, size, chunk)
  {
    i := x / chunk;
    DivBounds(x, chunk);
    var n := NumChunks(size, chunk);
    DivBounds(size + chunk - 1, chunk);
    if i >= n {
      MulMono(n, i, chunk);
      assert false;
    }
  }

  /** Every chunk but the last has the full size, and the last one at most that. */
  lemma FullButTheLast(i: nat, size: nat, chunk: nat)
    requires chunk > 0 && i < NumChunks(size, chunk)
    ensures End(i, size, chunk) - Start(i, chunk) <= chunk
    ensures i + 1 < NumChunks(size, chunk) ==> End(i, size, chunk) - Start(i, chunk) == chunk
    ensures i + 1 == NumChunks(size, chunk) ==> End(i, size, chunk) == size
  {
    DivBounds(size + chunk - 1, chunk);
    MulNext(i, i + 1, chunk);
    if i + 1 < NumChunks(size, chunk) { ChunkInFile(i + 1, size, chunk); }
    assert (i + 1) * chunk == i * chunk + chunk;
  }

  /** Two chunks never overlap. */
  lemma ChunksDisjoint(i: nat, j: nat, size: nat, chunk: nat)
    requires chunk > 0 && i < j < NumChunks(size, chunk)
    ensures End(i, size, chunk) <= Start(j, chunk)
  {
    MulNext(i, j, chunk);
  }

  /** Bytes covered by the chunks of `s` among the first `n`. */
  ghost function BytesOf(s: set<nat>, n: nat, size: nat, chunk: nat): int {
    if n == 0 then 0
    else BytesOf(s, n - 1, size, chunk) +
         if n - 1 in s then End(n - 1, size, chunk) - Start(n - 1, chunk) else 0
  }

  lemma {:induction false} BytesOfAdd(s: set<nat>, i: nat, n: nat, size: nat, chunk: nat)
    requires i !in s
    ensures BytesOf(s + {i}, n, size, chunk) ==
            BytesOf(s, n, size, chunk) + if i < n then End(i, size, chunk) - Start(i, chunk) else 0
  {
    if n > 0 { BytesOfAdd(s, i, n - 1, size, chunk); }
  }

  lemma {:induction false} BytesOfUnion(s: set<nat>, t: set<nat>, n: nat, size: nat, chunk: nat)
    requires s !! t
    ensures BytesOf(s + t, n, size, chunk) == BytesOf(s, n, size, chunk) + BytesOf(t, n, size, chunk)
  {
    if n > 0 { BytesOfUnion(s, t, n - 1, size, chunk); }
  }

  lemma {:induction false} BytesOfPrefix(s: set<nat>, k: nat, size: nat, chunk: nat)
    requires chunk > 0 && k <= NumChunks(size, chunk) && (forall i :: 0 <= i < k ==> i in s)
    ensures BytesOf(s, k, size, chunk) == if k * chunk > size then size else k * chunk
  {
    if k > 0 {
      BytesOfPrefix(s, k - 1, size, chunk);
      ChunkInFile(k - 1, size, chunk);
      assert (k - 1) * chunk + chunk == k * chunk;
    }
  }

  /** The whole grid covers exactly the file. */
  lemma GridCovers(s: set<nat>, size: nat, chunk: nat)
    requires chunk > 0 && (forall i :: 0 <= i < NumChunks(size, chunk) ==> i in s)
    ensures BytesOf(s, NumChunks(size, chunk), size, chunk) == size
  {
    BytesOfPrefix(s, NumChunks(size, chunk), size, chunk);
    DivBounds(size + chunk - 1, chunk);
  }

  // ----- patched files ------------------------------------------------------

  /** `WriteAt`: overwrite in place, the file does not grow. */
  function Patch(f: seq<Byte>, at: nat, data: seq<Byte>): (g: seq<Byte>)
    requires at + |data| <= |f|
    ensures |g| == |f|
  {
    f[..at] + data + f[at + |data|..]
  }

  function Slice(f: seq<Byte>, i: nat, size: nat, chunk: nat): seq<Byte>
    requires chunk > 0 && i < NumChunks(size, chunk) && |f| == size
  {
    ChunkInFile(i, size, chunk);
    f[Start(i, chunk)..End(i, size, chunk)]
  }

  predicate Fits(data: seq<Byte>, i: nat, size: nat, chunk: nat) {
    |data| == End(i, size, chunk) - Start(i, chunk)
  }

  function PatchChunk(f: seq<Byte>, i: nat, data: seq<Byte>, size: nat, chunk: nat): (g: seq<Byte>)
    requires chunk > 0 && i < NumChunks(size, chunk) && |f| == size && Fits(data, i, size, chunk)
    ensures |g| == size
  {
    ChunkInFile(i, size, chunk);
    Patch(f, Start(i, chunk), data)
  }

  /** A chunk write puts its data in its own range and leaves every other chunk alone. */
  lemma PatchOwnChunk(f: seq<Byte>, i: nat, data: seq<Byte>, j: nat, size: nat, chunk: nat)
    requires chunk > 0 && i < NumChunks(size, chunk) && j < NumChunks(size, chunk)
    requires |f| == size && Fits(data, i, size, chunk)
    ensures Slice(PatchChunk(f, i, data, size, chunk), j, size, chunk) ==
            if i == j then data else Slice(f, j, size, chunk)
  {
    ChunkInFile(i, size, chunk);
    ChunkInFile(j, size, chunk);
    if i < j { ChunksDisjoint(i, j, size, chunk); }
    if j < i { ChunksDisjoint(j, i, size, chunk); }
  }

  /** Two files that agree on every chunk are equal. */
  lemma ChunksDetermineFile(f: seq<Byte>, g: seq<Byte>, size: nat, chunk: nat)
    requires chunk > 0 && |f| == size && |g| == size
    requires forall i :: 0 <= i < NumChunks(size, chunk) ==> Slice(f, i, size, chunk) == Slice(g, i, size, chunk)
    ensures f == g
  {
    forall x | 0 <= x < size ensures f[x] == g[x] {
      var i := ChunkOf(x, size, chunk);
      assert Slice(f, i, size, chunk)[x - Start(i, chunk)] == Slice(g, i, size, chunk)[x - Start(i, chunk)];
    }
  }

  // ----- two grids over one file --------------------------------------------

  /** The range of chunk `i` in the recorded grid lies within its range in the grid that is written. */
  ghost predicate Covers(i: nat, size: nat, written: nat, recorded: nat) {
    Start(i, written) <= Start(i, recorded) && End(i, size, recorded) <= End(i, size, written)
  }

  ghost predicate InBoth(i: nat, size: nat, written: nat, recorded: nat) {
    written > 0 && recorded > 0 && i < NumChunks(size, written) && i < NumChunks(size, recorded)
  }

  /** Writing chunk `i` of one grid puts the bytes of row `i` of the other in place. */
  ghost predicate RowMadeTrue(i: nat, size: nat, written: nat, recorded: nat, f: seq<Byte>, content: seq<Byte>)
    requires InBoth(i, size, written, recorded) && |f| == |content| == size
  {
    ChunkInFile(i, size, written);
    var g := PatchChunk(f, i, Slice(content, i, size, written), size, written);
    Slice(g, i, size, recorded) == Slice(content, i, size, recorded)
  }

  lemma PatchedPart(f: seq<Byte>, content: seq<Byte>, a: nat, b: nat, from: nat, to: nat)
    requires a <= from <= to <= b <= |f| == |content|
    ensures Patch(f, a, content[a..b])[from..to] == content[from..to]
  {
    var g := Patch(f, a, content[a..b]);
    assert forall x :: a <= x < b ==> g[x] == content[x];
  }

  lemma CoveredRow(i: nat, size: nat, written: nat, recorded: nat, f: seq<Byte>, content: seq<Byte>)
    requires InBoth(i, size, written, recorded) && |f| == |content| == size && Covers(i, size, written, recorded)
    ensures RowMadeTrue(i, size, written, recorded, f, content)
  {
    ChunkInFile(i, size, written);
    ChunkInFile(i, size, recorded);
    PatchedPart(f, content, Start(i, written), End(i, size, written), Start(i, recorded), End(i, size, recorded));
  }

  lemma UncoveredRow(i: nat, size: nat, written: nat, recorded: nat)
    requires InBoth(i, size, written, recorded) && !Covers(i, size, written, recorded)
    ensures var f: seq<Byte>, content: seq<Byte> := seq(size, k => 0), seq(size, k => 1);
            !RowMadeTrue(i, size, written, recorded, f, content)
  {
    ChunkInFile(i, size, written);
    ChunkInFile(i, size, recorded);
    var f: seq<Byte>, content: seq<Byte> := seq(size, k => 0), seq(size, k => 1);
    var g := PatchChunk(f, i, Slice(content, i, size, written), size, written);
    var from, to := Start(i, recorded), End(i, size, recorded);
    var x := if Start(i, written) > from then from else to - 1;
    assert g[x] == 0;
    assert Slice(g, i, size, recorded)[x - from] == 0 && Slice(content, i, size, recorded)[x - from] == 1;
  }

  /**
   An attempt with another chunk size marks row `i` of the recorded grid after
   writing chunk `i` of its own. That row is true, whatever the file and the content,
   exactly when the written chunk covers it.
   */
  lemma ForeignRowExactly(i: nat, size: nat, written: nat, recorded: nat)
    requires InBoth(i, size, written, recorded)
    ensures Covers(i, size, written, recorded) <==>
            forall f, content :: |f| == |content| == size ==> RowMadeTrue(i, size, written, recorded, f, content)
  {
    if Covers(i, size, written, recorded) {
      forall f, content | |f| == |content| == size ensures RowMadeTrue(i, size, written, recorded, f, content) {
        CoveredRow(i, size, written, recorded, f, content);
      }
    } else {
      UncoveredRow(i, size, written, recorded);
    }
  }

  /** Between the first and the last chunk of the file only the same chunk size covers. */
  lemma InnerRowsNeedSameGrid(i: nat, size: nat, written: nat, recorded: nat)
    requires InBoth(i, size, written, recorded) && 0 < i && i + 1 < NumChunks(size, written)
    ensures Covers(i, size, written, recorded) <==> written == recorded
  {
    ChunkInFile(i + 1, size, written);
    MulNext(i, i + 1, written);
    if written < recorded { MulGrows(i + 1, written, recorded); }
    if recorded < written { MulGrows(i, recorded, written); }
    assert (i + 1) * written == i * written + written && (i + 1) * recorded == i * recorded + recorded;
  }

  lemma MulGrows(k: nat, a: nat, b: nat)
    requires k > 0 && a < b
    ensures k * a < k * b
  {
  }
}
