/**
 The persisted download state: one table of downloads and one of chunk rows, the
 latter grouped by download and ordered by chunk index. Foreign keys are not
 enforced, so deleting a download removes its chunk rows only where the code says
 so. A transaction that does not commit changes nothing.
 */
module DownloadState {
  import opened ChunkGrid
  import opened ChunkedDownload
  import opened Prelude

  type Hash = string

  datatype Status = Pending | InProgress | Completed | Failed

  datatype DownloadRow = DownloadRow(
    url: string, size: nat, chunk: nat, total: nat, completedSize: int, status: Status, retries: nat)

  datatype ChunkRow = ChunkRow(start: nat, end: nat, status: Status)

  ghost function Done(rows: seq<ChunkRow>): set<nat> {
    set i: nat | i < |rows| && rows[i].status.Completed?
  }

  /** The rows are the grid of the download, and its byte total is that of its completed rows. */
  ghost predicate Tiled(d: DownloadRow, rows: seq<ChunkRow>) {
    && d.chunk > 0 && d.total == NumChunks(d.size, d.chunk) == |rows|
    && (forall i :: 0 <= i < |rows| ==> rows[i].start == Start(i, d.chunk) && rows[i].end == End(i, d.size, d.chunk))
    && d.completedSize == BytesOf(Done(rows), d.total, d.size, d.chunk)
  }

  ghost function Seen(d: DownloadRow, rows: seq<ChunkRow>): Record {
    Record(Done(rows), d.completedSize, d.status.Failed?, d.retries)
  }

  /** The SQL total over the first `n` completed rows. */
  function SumCompleted(rows: seq<ChunkRow>, n: nat): int
    requires n <= |rows|
  {
    if n == 0 then 0
    else SumCompleted(rows, n - 1) + if rows[n - 1].status.Completed? then rows[n - 1].end - rows[n - 1].start else 0
  }

  lemma {:induction false} SumIsBytes(rows: seq<ChunkRow>, n: nat, size: nat, chunk: nat)
    requires n <= |rows|
    requires forall i :: 0 <= i < |rows| ==> rows[i].start == Start(i, chunk) && rows[i].end == End(i, size, chunk)
    ensures SumCompleted(rows, n) == BytesOf(Done(rows), n, size, chunk)
  {
    if n > 0 { SumIsBytes(rows, n - 1, size, chunk); }
  }

  /** The chunk rows of a new download, all pending. */
  method PlanRows(size: nat, chunk: nat) returns (rows: seq<ChunkRow>)
    requires chunk > 0
    ensures |rows| == NumChunks(size, chunk)
    ensures forall k :: 0 <= k < |rows| ==> rows[k] == ChunkRow(Start(k, chunk), End(k, size, chunk), Pending)
  {
    rows := [];
    var i := 0;
    while i < NumChunks(size, chunk)
      invariant 0 <= i <= NumChunks(size, chunk) && |rows| == i
      invariant forall k :: 0 <= k < i ==> rows[k] == ChunkRow(Start(k, chunk), End(k, size, chunk), Pending)
    {
      var start := i * chunk;
      var end := start + chunk;
      if end > size { end := size; }
      rows := rows + [ChunkRow(start, end, Pending)];
      i := i + 1;
    }
  }

  method NewDownload(url: string, size: nat, chunk: nat) returns (d: DownloadRow, rows: seq<ChunkRow>)
    requires chunk > 0
    ensures d == DownloadRow(url, size, chunk, NumChunks(size, chunk), 0, Pending, 0)
    ensures Tiled(d, rows) && Seen(d, rows) == FRESH_RECORD && forall k :: 0 <= k < |rows| ==> rows[k].status.Pending?
  {
    rows := PlanRows(size, chunk);
    d := DownloadRow(url, size, chunk, |rows|, 0, Pending, 0);
    assert Done(rows) == {};
    BytesOfNone(|rows|, size, chunk);
  }

  method SumRows(rows: seq<ChunkRow>) returns (sum: int)
    ensures sum == SumCompleted(rows, |rows|)
  {
    sum := 0;
    var k := 0;
    while k < |rows|
      invariant 0 <= k <= |rows| && sum == SumCompleted(rows, k)
    {
      if rows[k].status.Completed? { sum := sum + (rows[k].end - rows[k].start); }
      k := k + 1;
    }
  }

  /** Marks row `i` completed and recomputes the byte total from the rows. */
  method CompleteRow(d: DownloadRow, rows: seq<ChunkRow>, i: nat) returns (d': DownloadRow, rows': seq<ChunkRow>)
    requires Tiled(d, rows)
    ensures Tiled(d', rows')
    ensures Seen(d', rows') == if i < |rows| then Marked(d.size, d.chunk, Seen(d, rows), i) else Seen(d, rows)
    ensures rows' == if i < |rows| then rows[i := rows[i].(status := Completed)] else rows
    ensures d' == d.(completedSize := BytesOf(Done(rows'), |rows|, d.size, d.chunk))
  {
    rows' := rows;
    if i < |rows| {
      rows' := rows[i := rows[i].(status := Completed)];
      assert Done(rows') == Done(rows) + {i};
    }
    var sum := SumRows(rows');
    SumIsBytes(rows', |rows'|, d.size, d.chunk);
    d' := d.(completedSize := sum);
  }

  /** Every row that is not completed goes back to pending. */
  method ResetRows(rows: seq<ChunkRow>) returns (r: seq<ChunkRow>)
    ensures |r| == |rows|
    ensures forall k :: 0 <= k < |rows| ==>
              r[k] == if rows[k].status.Completed? then rows[k] else rows[k].(status := Pending)
  {
    r := rows;
    var i := 0;
    while i < |r|
      invariant 0 <= i <= |r| == |rows|
      invariant forall k :: 0 <= k < i ==>
                  r[k] == if rows[k].status.Completed? then rows[k] else rows[k].(status := Pending)
      invariant forall k :: i <= k < |rows| ==> r[k] == rows[k]
    {
      if !r[i].status.Completed? { r := r[i := r[i].(status := Pending)]; }
      i := i + 1;
    }
  }

  method RetryRows(d: DownloadRow, rows: seq<ChunkRow>) returns (d': DownloadRow, rows': seq<ChunkRow>)
    requires Tiled(d, rows)
    ensures Tiled(d', rows')
    ensures Seen(d', rows') == Retried(Seen(d, rows))
    ensures d' == d.(status := Pending, retries := d.retries + 1) && |rows'| == |rows|
    ensures forall k :: 0 <= k < |rows| ==>
              rows'[k] == if rows[k].status.Completed? then rows[k] else rows[k].(status := Pending)
  {
    rows' := ResetRows(rows);
    assert Done(rows') == Done(rows);
    d' := d.(status := Pending, retries := d.retries + 1);
  }

  datatype Db = Db(downloads: map<Hash, DownloadRow>, chunks: map<Hash, seq<ChunkRow>>)

  ghost predicate Sound(db: Db) {
    db.chunks.Keys == db.downloads.Keys && forall h :: h in db.downloads ==> Tiled(db.downloads[h], db.chunks[h])
  }

  /** What the downloader sees of a download. */
  ghost function View(db: Db, h: Hash): Option<Record> {
    if h in db.downloads && h in db.chunks then Some(Seen(db.downloads[h], db.chunks[h])) else None
  }

  /** Nothing but download `h` differs. */
  ghost predicate OnlyTouches(was: Db, now: Db, h: Hash) {
    was.downloads - {h} == now.downloads - {h} && was.chunks - {h} == now.chunks - {h}
  }

  lemma Stored(db: Db, h: Hash, d: DownloadRow, rows: seq<ChunkRow>)
    requires Sound(db) && Tiled(d, rows)
    ensures var db' := Db(db.downloads[h := d], db.chunks[h := rows]);
            Sound(db') && OnlyTouches(db, db', h) && View(db', h) == Some(Seen(d, rows))
  {
  }

  class StateManager {
    var downloads: map<Hash, DownloadRow>
    var chunks: map<Hash, seq<ChunkRow>>

    ghost function State(): Db
      reads this
    {
      Db(downloads, chunks)
    }

    constructor ()
      ensures Sound(State()) && downloads == map[]
    {
      downloads, chunks := map[], map[];
    }

    method CreateDownload(h: Hash, url: string, size: nat, chunk: nat, commits: bool) returns (ok: bool)
      requires Sound(State()) && chunk > 0
      modifies this
      ensures Sound(State()) && OnlyTouches(old(State()), State(), h)
      ensures ok <==> commits && h !in old(downloads)
      ensures ok ==> h in downloads && downloads[h] == DownloadRow(url, size, chunk, NumChunks(size, chunk), 0, Pending, 0)
      ensures ok ==> forall k :: 0 <= k < |chunks[h]| ==> chunks[h][k].status.Pending?
      ensures ok ==> View(State(), h) == Some(FRESH_RECORD)
      ensures !ok ==> State() == old(State())
    {
      if h in downloads || !commits { return false; }
      var d, rows := NewDownload(url, size, chunk);
      Stored(State(), h, d, rows);
      downloads := downloads[h := d];
      chunks := chunks[h := rows];
      return true;
    }

    /** Marks a chunk completed and recomputes the byte total from the rows. */
    method UpdateChunk(h: Hash, i: nat, commits: bool)
      requires Sound(State())
      modifies this
      ensures Sound(State()) && OnlyTouches(old(State()), State(), h)
      ensures !commits || h !in old(downloads) || |old(chunks)[h]| <= i ==> State() == old(State())
      ensures commits && h in old(downloads) && i < |old(chunks)[h]| ==>
                var d := old(downloads)[h];
                && View(State(), h) == Some(Marked(d.size, d.chunk, Seen(d, old(chunks)[h]), i))
                && chunks[h] == old(chunks)[h][i := old(chunks)[h][i].(status := Completed)]
                && downloads[h] == d.(completedSize := BytesOf(Done(chunks[h]), |chunks[h]|, d.size, d.chunk))
    {
      if !commits || h !in downloads { return; }
      var d, rows := CompleteRow(downloads[h], chunks[h], i);
      Stored(State(), h, d, rows);
      chunks := chunks[h := rows];
      downloads := downloads[h := d];
    }

    method UpdateDownloadStatus(h: Hash, status: Status)
      requires Sound(State())
      modifies `downloads
      ensures Sound(State()) && OnlyTouches(old(State()), State(), h)
      ensures h in old(downloads) ==>
                && View(State(), h) == Some(Seen(old(downloads)[h], chunks[h]).(failed := status.Failed?))
                && downloads[h] == old(downloads)[h].(status := status)
      ensures h !in old(downloads) ==> State() == old(State())
    {
      if h in downloads {
        downloads := downloads[h := downloads[h].(status := status)];
      }
    }

    /** Only a failed download can be retried; completed chunks stay completed. */
    method MarkForRetry(h: Hash, commits: bool) returns (ok: bool)
      requires Sound(State())
      modifies this
      ensures Sound(State()) && OnlyTouches(old(State()), State(), h)
      ensures ok <==> commits && h in old(downloads) && old(downloads)[h].status.Failed?
      ensures !ok ==> State() == old(State())
      ensures ok ==> View(State(), h) == Some(Retried(Seen(old(downloads)[h], old(chunks)[h])))
      ensures ok ==> downloads[h] == old(downloads)[h].(status := Pending, retries := old(downloads)[h].retries + 1)
      ensures ok ==> |chunks[h]| == |old(chunks)[h]| && forall k :: 0 <= k < |chunks[h]| ==>
                (chunks[h][k].status == if old(chunks)[h][k].status.Completed? then Completed else Pending)
    {
      if !commits || h !in downloads || !downloads[h].status.Failed? { return false; }
      var d, rows := RetryRows(downloads[h], chunks[h]);
      Stored(State(), h, d, rows);
      chunks := chunks[h := rows];
      downloads := downloads[h := d];
      return true;
    }

    method DeleteDownload(h: Hash, commits: bool)
      requires Sound(State())
      modifies this
      ensures Sound(State()) && OnlyTouches(old(State()), State(), h)
      ensures commits ==> View(State(), h) == None
      ensures !commits ==> State() == old(State())
    {
      if commits {
        chunks := chunks - {h};
        downloads := downloads - {h};
      }
    }
  }
}
