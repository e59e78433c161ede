/**
 The loops of the downloader, in the form the code has them: planning the chunks,
 one worker's retries, the collector writing into the assembly file, and the race
 between full downloads.
 */
module Downloader {
  import opened ChunkGrid
  import opened ChunkedDownload
  import opened Prelude

  datatype Chunk = Chunk(index: nat, start: nat, end: nat)

  /** The chunks still to download, in order, with the grid's offsets. */
  method PlanChunks(size: nat, chunk: nat, recovered: set<nat>) returns (todo: seq<Chunk>)
    requires chunk > 0
    ensures |todo| == |Missing(NumChunks(size, chunk), recovered)|
    ensures forall k :: 0 <= k < |todo| ==>
              && todo[k].index == Missing(NumChunks(size, chunk), recovered)[k]
              && todo[k].start == Start(todo[k].index, chunk)
              && todo[k].end == End(todo[k].index, size, chunk)
    ensures forall k, l :: 0 <= k < l < |todo| ==> todo[k].index < todo[l].index
    ensures forall k :: 0 <= k < |todo| ==> todo[k].index < NumChunks(size, chunk) && todo[k].index !in recovered
    ensures forall i: nat :: i < NumChunks(size, chunk) && i !in recovered ==>
              exists k :: 0 <= k < |todo| && todo[k].index == i
  {
    todo := [];
    var i := 0;
    while i < NumChunks(size, chunk)
      invariant 0 <= i <= NumChunks(size, chunk)
      invariant |todo| == |Missing(i, recovered)|
      invariant forall k :: 0 <= k < |todo| ==>
                  && todo[k].index == Missing(i, recovered)[k]
                  && todo[k].start == Start(todo[k].index, chunk)
                  && todo[k].end == End(todo[k].index, size, chunk)
    {
      if i !in recovered {
        var start := i * chunk;
        var end := start + chunk;
        if end > size { end := size; }
        todo := todo + [Chunk(i, start, end)];
      }
      i := i + 1;
    }
    ghost var m := Missing(NumChunks(size, chunk), recovered);
    MissingInOrder(NumChunks(size, chunk), recovered);
    assert forall k :: 0 <= k < |m| ==> m[k] in m;
    assert forall i: nat :: i in m ==> exists k :: 0 <= k < |todo| && todo[k].index == i;
  }

  /** The missing chunks are listed in order, each of them once. */
  lemma {:induction false} MissingInOrder(n: nat, recovered: set<nat>)
    ensures var m := Missing(n, recovered);
            && (forall k, l :: 0 <= k < l < |m| ==> m[k] < m[l])
            && (forall i: nat :: i in m <==> i < n && i !in recovered)
  {
    if n > 0 {
      MissingInOrder(n - 1, recovered);
      var m := Missing(n - 1, recovered);
      assert forall k :: 0 <= k < |m| ==> m[k] in m;
    }
  }

  predicate Accepts(j: Job, i: nat, r: Reply) { r.Data? && Fits(r.bytes, i, j.size, j.chunk) }

  /** One chunk, up to three tries: the first reply of the right length, or an error when there is none. */
  method FetchChunk(j: Job, i: nat, replies: seq<Reply>) returns (r: Result)
    requires |replies| == MAX_CHUNK_RETRIES
    ensures r.index == i
    ensures r.Bad? <==> forall k :: 0 <= k < |replies| ==> !Accepts(j, i, replies[k])
    ensures r.Good? ==> exists k :: 0 <= k < |replies| && Accepts(j, i, replies[k]) &&
                          r == Good(i, replies[k].bytes, replies[k].fromPeer) &&
                          forall m :: 0 <= m < k ==> !Accepts(j, i, replies[m])
  {
    var attempt := 0;
    while attempt < MAX_CHUNK_RETRIES
      invariant 0 <= attempt <= MAX_CHUNK_RETRIES
      invariant forall m :: 0 <= m < attempt ==> !Accepts(j, i, replies[m])
    {
      var reply := replies[attempt];
      if reply.Data? && |reply.bytes| == End(i, j.size, j.chunk) - Start(i, j.chunk) {
        return Good(i, reply.bytes, reply.fromPeer);
      }
      attempt := attempt + 1;
    }
    return Bad(i);
  }

  // ----- the collector ------------------------------------------------------

  /** A result and what becomes of writing it. */
  datatype Arrival = Arrival(result: Result, write: Write) {
    predicate Stored() { result.Good? && write.Written? }

    /** The bytes that end up in the chunk's range. */
    function Bytes(): seq<Byte>
      requires result.Good?
    {
      if write.Torn? then write.junk else result.data
    }
  }

  ghost predicate ArrivalOk(j: Job, a: Arrival)
    requires j.chunk > 0
  {
    && ResultOk(j, a.result)
    && (a.result.Good? && a.write.Torn? ==> Fits(a.write.junk, a.result.index, j.size, j.chunk))
  }

  ghost predicate AllOk(j: Job, arrivals: seq<Arrival>)
    requires j.chunk > 0
  {
    forall k :: 0 <= k < |arrivals| ==> ArrivalOk(j, arrivals[k])
  }

  ghost function Assembled(j: Job, f: seq<Byte>, arrivals: seq<Arrival>): (g: seq<Byte>)
    requires j.chunk > 0 && |f| == j.size && AllOk(j, arrivals)
    ensures |g| == j.size
    decreases |arrivals|
  {
    if arrivals == [] then f
    else
      assert ArrivalOk(j, arrivals[0]);
      Assembled(j, Landed(j, f, arrivals[0]), arrivals[1..])
  }

  ghost function Landed(j: Job, f: seq<Byte>, a: Arrival): (g: seq<Byte>)
    requires j.chunk > 0 && |f| == j.size && ArrivalOk(j, a)
    ensures |g| == j.size
  {
    if a.result.Good? then PatchChunk(f, a.result.index, a.Bytes(), j.size, j.chunk) else f
  }

  method WriteAt(f: array<Byte>, at: nat, data: seq<Byte>)
    requires at + |data| <= f.Length
    modifies f
    ensures f[..] == Patch(old(f[..]), at, data)
  {
    var k := 0;
    while k < |data|
      invariant 0 <= k <= |data|
      invariant forall x :: 0 <= x < f.Length ==> f[x] == if at <= x < at + k then data[x - at] else old(f[x])
    {
      f[at + k] := data[k];
      k := k + 1;
    }
  }

  method WriteChunk(j: Job, f: array<Byte>, a: Arrival)
    requires j.chunk > 0 && f.Length == j.size && ArrivalOk(j, a)
    modifies f
    ensures f[..] == Landed(j, old(f[..]), a)
  {
    if a.result.Good? {
      ChunkInFile(a.result.index, j.size, j.chunk);
      WriteAt(f, Start(a.result.index, j.chunk), a.Bytes());
    }
  }

  ghost predicate StoredAt(arrivals: seq<Arrival>, i: int) {
    exists k :: 0 <= k < |arrivals| && arrivals[k].Stored() && arrivals[k].result.index == i
  }

  method CollectOne(j: Job, f: array<Byte>, received: array<bool>, a: Arrival)
    requires j.chunk > 0 && f.Length == j.size && received.Length == N(j) && ArrivalOk(j, a)
    modifies f, received
    ensures f[..] == Landed(j, old(f[..]), a)
    ensures forall i :: 0 <= i < received.Length ==>
              (received[i] <==> old(received[i]) || (a.Stored() && a.result.index == i))
  {
    WriteChunk(j, f, a);
    if a.Stored() { received[a.result.index] := true; }
  }

  /**
   Drains the result stream, writing every good chunk in place; an error or a failed
   write is noted, the workers are cancelled, and draining goes on.
   */
  method CollectResults(j: Job, f: array<Byte>, received: array<bool>, arrivals: seq<Arrival>)
    returns (failed: bool, cancelled: bool)
    requires j.chunk > 0 && f.Length == j.size && received.Length == N(j) && AllOk(j, arrivals)
    modifies f, received
    ensures f[..] == Assembled(j, old(f[..]), arrivals)
    ensures forall i :: 0 <= i < received.Length ==> (received[i] <==> old(received[i]) || StoredAt(arrivals, i))
    ensures failed == cancelled == exists k :: 0 <= k < |arrivals| && !arrivals[k].Stored()
  {
    failed, cancelled := false, false;
    var n := 0;
    while n < |arrivals|
      invariant 0 <= n <= |arrivals|
      invariant Assembled(j, f[..], arrivals[n..]) == Assembled(j, old(f[..]), arrivals)
      invariant forall i :: 0 <= i < received.Length ==> (received[i] <==> old(received[i]) || StoredAt(arrivals[..n], i))
      invariant failed == cancelled == exists k :: 0 <= k < n && !arrivals[k].Stored()
    {
      var a := arrivals[n];
      assert ArrivalOk(j, a);
      assert arrivals[n..] == [a] + arrivals[n + 1..];
      StoredAtExtends(arrivals[..n], a);
      assert arrivals[..n + 1] == arrivals[..n] + [a];
      CollectOne(j, f, received, a);
      if !a.Stored() && !failed {
        failed, cancelled := true, true;
      }
      n := n + 1;
    }
    assert arrivals[..n] == arrivals;
  }

  lemma StoredAtExtends(arrivals: seq<Arrival>, a: Arrival)
    ensures forall i :: StoredAt(arrivals + [a], i) <==> StoredAt(arrivals, i) || (a.Stored() && a.result.index == i)
  {
    var all := arrivals + [a];
    forall i ensures StoredAt(all, i) <==> StoredAt(arrivals, i) || (a.Stored() && a.result.index == i) {
      if StoredAt(arrivals, i) {
        var k :| 0 <= k < |arrivals| && arrivals[k].Stored() && arrivals[k].result.index == i;
        assert all[k] == arrivals[k];
      }
      if a.Stored() && a.result.index == i { assert all[|arrivals|] == a; }
    }
  }

  ghost predicate DistinctIndices(arrivals: seq<Arrival>) {
    forall k, m :: 0 <= k < m < |arrivals| ==> arrivals[k].result.index != arrivals[m].result.index
  }

  ghost predicate LandsAt(arrivals: seq<Arrival>, i: int) {
    exists k :: 0 <= k < |arrivals| && arrivals[k].result.Good? && arrivals[k].result.index == i
  }

  /** Each chunk of the assembled file is what was written for it, or what was there before. */
  lemma {:induction false} AssembledSlices(j: Job, f: seq<Byte>, arrivals: seq<Arrival>, i: nat)
    requires j.chunk > 0 && |f| == j.size && AllOk(j, arrivals) && DistinctIndices(arrivals) && i < N(j)
    ensures forall k :: 0 <= k < |arrivals| && arrivals[k].result.Good? && arrivals[k].result.index == i ==>
              Slice(Assembled(j, f, arrivals), i, j.size, j.chunk) ==
                if arrivals[k].write.Torn? then arrivals[k].write.junk else arrivals[k].result.data
    ensures !LandsAt(arrivals, i) ==> Slice(Assembled(j, f, arrivals), i, j.size, j.chunk) == Slice(f, i, j.size, j.chunk)
    decreases |arrivals|
  {
    if arrivals != [] {
      var a, rest := arrivals[0], arrivals[1..];
      assert ArrivalOk(j, a);
      assert forall k :: 0 <= k < |rest| ==> rest[k] == arrivals[k + 1];
      AssembledSlices(j, Landed(j, f, a), rest, i);
      if a.result.Good? { PatchOwnChunk(f, a.result.index, a.Bytes(), i, j.size, j.chunk); }
      if a.result.index == i { assert !LandsAt(rest, i); }
      if LandsAt(rest, i) {
        var k :| 0 <= k < |rest| && rest[k].result.Good? && rest[k].result.index == i;
        assert arrivals[k + 1].result.Good?;
      }
    }
  }

  /** Chunks may arrive in any order: the file is the same. */
  lemma OutOfOrderArrival(j: Job, f: seq<Byte>, arrivals: seq<Arrival>, others: seq<Arrival>)
    requires j.chunk > 0 && |f| == j.size && AllOk(j, arrivals) && AllOk(j, others)
    requires DistinctIndices(arrivals) && DistinctIndices(others) && (forall a :: a in arrivals <==> a in others)
    ensures Assembled(j, f, arrivals) == Assembled(j, f, others)
  {
    forall i | 0 <= i < N(j)
      ensures Slice(Assembled(j, f, arrivals), i, j.size, j.chunk) == Slice(Assembled(j, f, others), i, j.size, j.chunk)
    {
      AssembledSlices(j, f, arrivals, i);
      AssembledSlices(j, f, others, i);
      if LandsAt(arrivals, i) {
        var k :| 0 <= k < |arrivals| && arrivals[k].result.Good? && arrivals[k].result.index == i;
        assert arrivals[k] in others;
      } else {
        assert forall k :: 0 <= k < |others| ==> others[k] in arrivals;
      }
    }
    ChunksDetermineFile(Assembled(j, f, arrivals), Assembled(j, f, others), j.size, j.chunk);
  }

  // ----- racing -------------------------------------------------------------

  datatype Racer = Finished(data: seq<Byte>) | Broke

  predicate Wins(digest: seq<Byte> -> string, expected: string, r: Racer) {
    r.Finished? && digest(r.data) == expected
  }

  /** The first racer whose data has the expected digest wins; without one the race fails after all reported. */
  method Race(digest: seq<Byte> -> string, expected: string, arrivals: seq<Racer>) returns (won: Option<seq<Byte>>)
    ensures won.Some? ==> exists k :: 0 <= k < |arrivals| && Wins(digest, expected, arrivals[k]) &&
                            won.value == arrivals[k].data &&
                            forall m :: 0 <= m < k ==> !Wins(digest, expected, arrivals[m])
    ensures won.None? ==> forall k :: 0 <= k < |arrivals| ==> !Wins(digest, expected, arrivals[k])
  {
    var k := 0;
    while k < |arrivals|
      invariant 0 <= k <= |arrivals|
      invariant forall m :: 0 <= m < k ==> !Wins(digest, expected, arrivals[m])
    {
      var r := arrivals[k];
      if r.Finished? && digest(r.data) == expected { return Some(r.data); }
      k := k + 1;
    }
    return None;
  }
}
