/**
 The chunked downloader over its whole life: attempts, crashes, retries and
 resumption of one download, with a pool of workers racing over a closed queue
 and a collector that writes chunks into the preallocated assembly file.

 What survives a crash is `Disk`: the assembly file and the download record.
 A record row set to completed is what a later attempt trusts.
 */
module ChunkedDownload {
  import opened ChunkGrid
  import opened Prelude

  const MAX_CHUNK_RETRIES := 3

  /** One download; `digest` stands for SHA-256. */
  datatype Job = Job(size: nat, chunk: nat, digest: seq<Byte> -> string, expected: string)

  ghost predicate ValidJob(j: Job) { j.size > 0 && j.chunk > 0 }

  function N(j: Job): nat
    requires j.chunk > 0
  {
    NumChunks(j.size, j.chunk)
  }

  /** The persisted rows: which chunks are completed, and the byte total kept beside them. */
  datatype Record = Record(done: set<nat>, completedSize: int, failed: bool, retries: nat)

  datatype Disk = Disk(record: Option<Record>, file: Option<seq<Byte>>)

  datatype Worker = Ready | Busy(index: nat, tries: nat) | Exited

  datatype Result = Good(index: nat, data: seq<Byte>, fromPeer: bool) | Bad(index: nat)

  datatype Attempt = Attempt(
    resuming: bool,           // progress is recorded and was read back
    recovered: set<nat>,
    queue: seq<nat>,
    workers: seq<Worker>,
    results: seq<Result>,
    received: set<nat>,
    lost: set<nat>,           // chunks whose error or failed write was seen
    cancelled: bool,
    unsaved: Option<nat>,     // written, row not updated yet
    peerBytes: int,
    mirrorBytes: int,
    capacity: nat,            // of the result channel
    drained: nat)             // results collected so far

  /** `accepted` and `delivered` are history: data last written per chunk, files returned. */
  datatype System = System(disk: Disk, attempt: Option<Attempt>, accepted: map<nat, seq<Byte>>, delivered: seq<seq<Byte>>)

  // ----- steps --------------------------------------------------------------

  datatype Reply = Data(bytes: seq<Byte>, fromPeer: bool) | Error

  datatype Write = Written | Torn(junk: seq<Byte>)

  datatype Action =
    | Begin(resuming: bool, creates: bool, workers: nat)
    | Take(w: nat)
    | Leave(w: nat)
    | Fetch(w: nat, reply: Reply)
    | Cancel
    | Collect(write: Write)
    | Save(ok: bool)
    | Crash
    | Fail
    | Deliver(deleted: bool)
    | Wipe
    | Retry

  ghost function Zeros(n: nat): seq<Byte> { seq(n, i => 0) }

  /** `Truncate`: cut or pad with zeros. */
  ghost function Sized(f: Option<seq<Byte>>, n: nat): seq<Byte> {
    if f.None? then Zeros(n)
    else if |f.value| >= n then f.value[..n] else f.value + Zeros(n - |f.value|)
  }

  ghost function Missing(n: nat, recovered: set<nat>): seq<nat> {
    if n == 0 then [] else Missing(n - 1, recovered) + (if n - 1 in recovered then [] else [n - 1])
  }

  ghost predicate Settled(a: Attempt) {
    && (forall w :: 0 <= w < |a.workers| ==> a.workers[w].Exited?)
    && a.results == [] && a.unsaved.None?
  }

  ghost predicate AllHere(j: Job, a: Attempt)
    requires j.chunk > 0
  {
    forall i :: 0 <= i < N(j) ==> i in a.received || i in a.recovered
  }

  ghost predicate Running(j: Job, s: System) {
    s.attempt.Some? && s.disk.file.Some? && |s.disk.file.value| == j.size
  }

  ghost predicate PoolEnabled(j: Job, f: seq<Byte>, a: Attempt, act: Action)
    requires j.chunk > 0
  {
    match act
    case Begin(_, _, _) => false
    case Retry => false
    case Take(w) => w < |a.workers| && a.workers[w].Ready? && a.queue != []
    case Leave(w) => w < |a.workers| && a.workers[w].Ready? && a.queue == []
    case Fetch(w, reply) => w < |a.workers| && a.workers[w].Busy? && a.workers[w].index < N(j)
    case Collect(write) =>
      && a.results != [] && a.unsaved.None? && a.results[0].index < N(j)
      && (a.results[0].Good? ==> Fits(a.results[0].data, a.results[0].index, j.size, j.chunk))
      && (write.Torn? ==> a.results[0].Good? && Fits(write.junk, a.results[0].index, j.size, j.chunk))
    case Save(_) => a.unsaved.Some?
    case Fail => Settled(a) && a.lost != {}
    case Deliver(_) => Settled(a) && a.lost == {} && AllHere(j, a) && j.digest(f) == j.expected
    case Wipe => Settled(a) && a.lost == {} && AllHere(j, a) && j.digest(f) != j.expected
    case Cancel => true
    case Crash => true
  }

  ghost predicate Enabled(j: Job, s: System, act: Action)
    requires j.chunk > 0
  {
    if act.Begin? then s.attempt.None? && act.workers > 0 && (act.resuming ==> act.creates)
    else if act.Retry? then s.attempt.None? && s.disk.record.Some? && s.disk.record.value.failed
    else Running(j, s) && PoolEnabled(j, s.disk.file.value, s.attempt.value, act)
  }

  const FRESH_RECORD := Record({}, 0, false, 0)

  /** Disk after an attempt has opened; one that `starts` work takes a failed record back in progress. */
  ghost function Opened(j: Job, d: Disk, creates: bool, starts: bool): Disk {
    var record := if d.record.None? && creates then Some(FRESH_RECORD) else d.record;
    Disk(if record.Some? && starts then Some(record.value.(failed := false)) else record, Some(Sized(d.file, j.size)))
  }

  ghost function Recovered(j: Job, d: Disk, resuming: bool): set<nat>
    requires j.chunk > 0
  {
    if resuming && d.record.Some? && d.file.Some? && |d.file.value| == j.size
    then set i | i in d.record.value.done && i < N(j) else {}
  }

  ghost function Tried(j: Job, a: Attempt, w: nat, reply: Reply): Attempt
    requires w < |a.workers| && a.workers[w].Busy?
  {
    var i, k := a.workers[w].index, a.workers[w].tries;
    if reply.Data? && Fits(reply.bytes, i, j.size, j.chunk) then
      a.(workers := a.workers[w := Ready], results := a.results + [Good(i, reply.bytes, reply.fromPeer)])
    else if k + 1 < MAX_CHUNK_RETRIES then a.(workers := a.workers[w := Busy(i, k + 1)])
    else a.(workers := a.workers[w := Ready], results := a.results + [Bad(i)])
  }

  ghost function Taken(a: Attempt, w: nat): Attempt
    requires w < |a.workers| && a.queue != []
  {
    var i := a.queue[0];
    if a.cancelled then
      a.(queue := a.queue[1..], workers := a.workers[w := Exited], results := a.results + [Bad(i)])
    else a.(queue := a.queue[1..], workers := a.workers[w := Busy(i, 0)])
  }

  ghost function Collected(a: Attempt, write: Write): Attempt
    requires a.results != []
  {
    var r := a.results[0];
    var b := a.(results := a.results[1..], drained := a.drained + 1);
    if r.Bad? || write.Torn? then b.(lost := b.lost + {r.index}, cancelled := true)
    else
      b.(received := b.received + {r.index},
         unsaved := if b.resuming then Some(r.index) else None,
         peerBytes := b.peerBytes + (if r.fromPeer then |r.data| else 0),
         mirrorBytes := b.mirrorBytes + (if r.fromPeer then 0 else |r.data|))
  }

  /** A record after chunk `i` was marked completed and the byte total recomputed. */
  ghost function Marked(size: nat, chunk: nat, r: Record, i: nat): Record
    requires chunk > 0
  {
    r.(done := r.done + {i}, completedSize := BytesOf(r.done + {i}, NumChunks(size, chunk), size, chunk))
  }

  function Retried(r: Record): Record { r.(failed := false, retries := r.retries + 1) }

  ghost function Apply(j: Job, s: System, act: Action): System
    requires j.chunk > 0 && Enabled(j, s, act)
  {
    match act
    case Begin(resuming, creates, workers) =>
      var rec := Recovered(j, s.disk, resuming);
      var queue := Missing(N(j), rec);
      s.(disk := Opened(j, s.disk, creates, resuming && queue != []),
         attempt := Some(Attempt(resuming, rec, queue,
                                 seq(if workers > |queue| then |queue| else workers, i => Ready),
                                 [], {}, {}, false, None, 0, 0, |queue|, 0)))
    case Take(w) => s.(attempt := Some(Taken(s.attempt.value, w)))
    case Leave(w) => s.(attempt := Some(s.attempt.value.(workers := s.attempt.value.workers[w := Exited])))
    case Fetch(w, reply) => s.(attempt := Some(Tried(j, s.attempt.value, w, reply)))
    case Cancel => s.(attempt := Some(s.attempt.value.(cancelled := true)))
    case Collect(write) =>
      var r := s.attempt.value.results[0];
      var t := s.(attempt := Some(Collected(s.attempt.value, write)));
      if r.Bad? then t
      else if write.Torn? then
        t.(disk := s.disk.(file := Some(PatchChunk(s.disk.file.value, r.index, write.junk, j.size, j.chunk))))
      else
        t.(disk := s.disk.(file := Some(PatchChunk(s.disk.file.value, r.index, r.data, j.size, j.chunk))),
           accepted := s.accepted[r.index := r.data])
    case Save(ok) =>
      var i := s.attempt.value.unsaved.value;
      var rec := if ok && s.disk.record.Some? then Some(Marked(j.size, j.chunk, s.disk.record.value, i)) else s.disk.record;
      s.(attempt := Some(s.attempt.value.(unsaved := None)), disk := s.disk.(record := rec))
    case Crash => s.(attempt := None)
    case Fail => s.(attempt := None, disk := Failed(s.disk, s.attempt.value.resuming))
    case Deliver(deleted) =>
      s.(attempt := None, delivered := s.delivered + [s.disk.file.value],
         disk := Disk(if deleted then None else s.disk.record, None))
    case Wipe => s.(attempt := None, disk := Failed(s.disk, s.attempt.value.resuming).(file := None))
    case Retry =>
      s.(disk := s.disk.(record := Some(Retried(s.disk.record.value))))
  }

  ghost function Failed(d: Disk, resuming: bool): Disk {
    if resuming && d.record.Some? then d.(record := Some(d.record.value.(failed := true))) else d
  }

  ghost predicate Executes(j: Job, s: System, run: seq<Action>, ok: (System, Action) -> bool)
    requires j.chunk > 0
    decreases |run|
  {
    run != [] ==> Enabled(j, s, run[0]) && ok(s, run[0]) && Executes(j, Apply(j, s, run[0]), run[1..], ok)
  }

  ghost function After(j: Job, s: System, run: seq<Action>, ok: (System, Action) -> bool): System
    requires j.chunk > 0 && Executes(j, s, run, ok)
    decreases |run|
  {
    if run == [] then s else After(j, Apply(j, s, run[0]), run[1..], ok)
  }

  ghost predicate Any(s: System, act: Action) { true }

  const BLANK := System(Disk(None, None), None, map[], [])

  // ----- where every chunk is -----------------------------------------------

  function One(b: bool): nat { if b then 1 else 0 }

  ghost function Queued(q: seq<nat>, i: nat): nat {
    if q == [] then 0 else One(q[0] == i) + Queued(q[1..], i)
  }

  ghost function Held(ws: seq<Worker>, i: nat): nat {
    if ws == [] then 0 else One(ws[0].Busy? && ws[0].index == i) + Held(ws[1..], i)
  }

  ghost function Reported(rs: seq<Result>, i: nat): nat {
    if rs == [] then 0 else One(rs[0].index == i) + Reported(rs[1..], i)
  }

  /** In how many places chunk `i` is: queued, held, on its way to the collector, or settled. */
  ghost function Places(a: Attempt, i: nat): nat {
    Queued(a.queue, i) + Held(a.workers, i) + Reported(a.results, i)
      + One(i in a.received) + One(i in a.lost) + One(i in a.recovered)
  }

  ghost predicate Accounted(n: nat, a: Attempt) {
    forall i: nat :: Places(a, i) == One(i < n)
  }

  lemma {:induction false} HeldUpdate(ws: seq<Worker>, w: nat, x: Worker, i: nat)
    requires w < |ws|
    ensures Held(ws[w := x], i) + One(ws[w].Busy? && ws[w].index == i) == Held(ws, i) + One(x.Busy? && x.index == i)
  {
    if w > 0 {
      HeldUpdate(ws[1..], w - 1, x, i);
      assert ws[w := x][1..] == ws[1..][w - 1 := x];
    } else {
      assert ws[w := x][1..] == ws[1..];
    }
  }

  lemma {:induction false} ReportedAppend(rs: seq<Result>, r: Result, i: nat)
    ensures Reported(rs + [r], i) == Reported(rs, i) + One(r.index == i)
  {
    if rs == [] {
      assert rs + [r] == [r] && [r][1..] == [];
    } else {
      ReportedAppend(rs[1..], r, i);
      assert (rs + [r])[1..] == rs[1..] + [r];
    }
  }

  lemma {:induction false} QueuedAppend(q: seq<nat>, x: nat, i: nat)
    ensures Queued(q + [x], i) == Queued(q, i) + One(x == i)
  {
    if q == [] {
      assert q + [x] == [x] && [x][1..] == [];
    } else {
      QueuedAppend(q[1..], x, i);
      assert (q + [x])[1..] == q[1..] + [x];
    }
  }

  lemma {:induction false} NoneHeld(ws: seq<Worker>, i: nat)
    requires forall w :: 0 <= w < |ws| ==> !ws[w].Busy?
    ensures Held(ws, i) == 0
  {
    if ws != [] { NoneHeld(ws[1..], i); }
  }

  lemma {:induction false} HeldMember(ws: seq<Worker>, w: nat)
    requires w < |ws| && ws[w].Busy?
    ensures Held(ws, ws[w].index) > 0
  {
    if w > 0 { HeldMember(ws[1..], w - 1); }
  }

  lemma {:induction false} MissingIsRest(n: nat, recovered: set<nat>, i: nat)
    ensures Queued(Missing(n, recovered), i) == One(i < n && i !in recovered)
  {
    if n > 0 {
      MissingIsRest(n - 1, recovered, i);
      QueuedAppend(Missing(n - 1, recovered), n - 1, i);
      assert Missing(n - 1, recovered) + [] == Missing(n - 1, recovered);
    }
  }

  /** Some chunk failed, or is about to be seen to have failed. */
  ghost predicate Alarmed(a: Attempt) {
    a.lost != {} || exists k :: 0 <= k < |a.results| && a.results[k].Bad?
  }

  ghost function Working(ws: seq<Worker>): nat {
    if ws == [] then 0 else One(ws[0].Busy?) + Working(ws[1..])
  }

  lemma {:induction false} WorkingUpdate(ws: seq<Worker>, w: nat, x: Worker)
    requires w < |ws|
    ensures Working(ws[w := x]) + One(ws[w].Busy?) == Working(ws) + One(x.Busy?)
  {
    if w > 0 {
      WorkingUpdate(ws[1..], w - 1, x);
      assert ws[w := x][1..] == ws[1..][w - 1 := x];
    } else {
      assert ws[w := x][1..] == ws[1..];
    }
  }

  lemma {:induction false} NoneWorking(ws: seq<Worker>)
    requires forall w :: 0 <= w < |ws| ==> !ws[w].Busy?
    ensures Working(ws) == 0
  {
    if ws != [] { NoneWorking(ws[1..]); }
  }

  ghost predicate Metered(a: Attempt) {
    |a.queue| + Working(a.workers) + |a.results| + a.drained == a.capacity
  }

  /** A worker leaves queued chunks behind only after it reported an error. */
  ghost predicate NoDeserters(a: Attempt) {
    && (a.queue != [] ==> |a.workers| > 0)
    && (a.queue != [] && (exists w :: 0 <= w < |a.workers| && a.workers[w].Exited?) ==> Alarmed(a))
  }

  ghost predicate PoolInv(n: nat, a: Attempt) { Accounted(n, a) && NoDeserters(a) && Metered(a) }

  lemma AlarmStays(a: Attempt, b: Attempt)
    requires Alarmed(a) && a.lost <= b.lost && a.results <= b.results
    ensures Alarmed(b)
  {
    if a.lost == {} {
      var k :| 0 <= k < |a.results| && a.results[k].Bad?;
      assert b.results[k].Bad?;
    }
  }

  lemma TakeAccounted(n: nat, a: Attempt, w: nat)
    requires PoolInv(n, a) && w < |a.workers| && a.workers[w].Ready? && a.queue != []
    ensures PoolInv(n, Taken(a, w))
  {
    var b := Taken(a, w);
    WorkingUpdate(a.workers, w, b.workers[w]);
    forall i: nat ensures Places(b, i) == Places(a, i) {
      HeldUpdate(a.workers, w, b.workers[w], i);
      ReportedAppend(a.results, Bad(a.queue[0]), i);
    }
    if a.cancelled {
      assert b.results[|a.results|].Bad?;
    } else if Alarmed(a) {
      AlarmStays(a, b);
    }
  }

  lemma TriedPlaces(j: Job, a: Attempt, w: nat, reply: Reply, i: nat)
    requires w < |a.workers| && a.workers[w].Busy?
    ensures Places(Tried(j, a, w, reply), i) == Places(a, i)
  {
    var b := Tried(j, a, w, reply);
    HeldUpdate(a.workers, w, b.workers[w], i);
    if b.workers[w].Ready? { ReportedAppend(a.results, b.results[|a.results|], i); }
  }

  lemma TriedAccounted(j: Job, n: nat, a: Attempt, w: nat, reply: Reply)
    requires PoolInv(n, a) && w < |a.workers| && a.workers[w].Busy?
    ensures PoolInv(n, Tried(j, a, w, reply))
  {
    WorkingUpdate(a.workers, w, Tried(j, a, w, reply).workers[w]);
    forall i: nat { TriedPlaces(j, a, w, reply, i); }
    if Alarmed(a) { AlarmStays(a, Tried(j, a, w, reply)); }
  }

  lemma LeaveAccounted(n: nat, a: Attempt, w: nat)
    requires PoolInv(n, a) && w < |a.workers| && a.workers[w].Ready? && a.queue == []
    ensures PoolInv(n, a.(workers := a.workers[w := Exited]))
  {
    WorkingUpdate(a.workers, w, Exited);
    var b := a.(workers := a.workers[w := Exited]);
    forall i: nat ensures Places(b, i) == Places(a, i) {
      HeldUpdate(a.workers, w, Exited, i);
    }
  }

  lemma CollectAccounted(n: nat, a: Attempt, write: Write)
    requires PoolInv(n, a) && a.results != []
    ensures PoolInv(n, Collected(a, write))
    ensures a.results[0].index !in a.received && a.results[0].index !in a.recovered && a.results[0].index < n
  {
    var b := Collected(a, write);
    var x := a.results[0].index;
    assert Places(a, x) == One(x < n);
    forall i: nat ensures Places(b, i) == Places(a, i) {
    }
    if Alarmed(a) && b.lost == {} {
      var k :| 0 <= k < |a.results| && a.results[k].Bad?;
      assert b.results[k - 1] == a.results[k];
    }
  }

  lemma BeginAccounted(n: nat, a: Attempt)
    requires a.queue == Missing(n, a.recovered) && a.results == [] && a.received == {} && a.lost == {}
    requires forall i :: i in a.recovered ==> i < n
    requires forall w :: 0 <= w < |a.workers| ==> a.workers[w].Ready?
    requires a.queue != [] ==> |a.workers| > 0
    requires a.capacity == |a.queue| && a.drained == 0
    ensures PoolInv(n, a)
  {
    NoneWorking(a.workers);
    forall i: nat ensures Places(a, i) == One(i < n) {
      MissingIsRest(n, a.recovered, i);
      NoneHeld(a.workers, i);
    }
  }

  // ----- no chunk is lost ---------------------------------------------------

  ghost predicate ResultOk(j: Job, r: Result)
    requires j.chunk > 0
  {
    r.index < N(j) && (r.Good? ==> Fits(r.data, r.index, j.size, j.chunk))
  }

  /** The pool accounts for every chunk, and the counters for every byte received. */
  ghost predicate PoolOk(j: Job, a: Attempt)
    requires j.chunk > 0
  {
    && PoolInv(N(j), a)
    && (forall k :: 0 <= k < |a.results| ==> ResultOk(j, a.results[k]))
    && a.peerBytes + a.mirrorBytes == BytesOf(a.received, N(j), j.size, j.chunk)
  }

  lemma {:induction false} BytesOfNone(n: nat, size: nat, chunk: nat)
    ensures BytesOf({}, n, size, chunk) == 0
  {
    if n > 0 { BytesOfNone(n - 1, size, chunk); }
  }

  lemma BeginOk(j: Job, s: System, act: Action)
    requires j.chunk > 0 && Enabled(j, s, act) && act.Begin?
    ensures PoolOk(j, Apply(j, s, act).attempt.value)
  {
    BytesOfNone(N(j), j.size, j.chunk);
    BeginAccounted(N(j), Apply(j, s, act).attempt.value);
  }

  lemma TakeOk(j: Job, a: Attempt, w: nat)
    requires j.chunk > 0 && PoolOk(j, a) && w < |a.workers| && a.workers[w].Ready? && a.queue != []
    ensures PoolOk(j, Taken(a, w))
  {
    assert Places(a, a.queue[0]) > 0;
    TakeAccounted(N(j), a, w);
  }

  lemma TriedOk(j: Job, a: Attempt, w: nat, reply: Reply)
    requires j.chunk > 0 && PoolOk(j, a) && w < |a.workers| && a.workers[w].Busy?
    ensures PoolOk(j, Tried(j, a, w, reply))
  {
    BusyInGrid(N(j), a, w);
    TriedAccounted(j, N(j), a, w, reply);
  }

  lemma CollectOk(j: Job, a: Attempt, write: Write)
    requires j.chunk > 0 && PoolOk(j, a) && a.results != []
    ensures PoolOk(j, Collected(a, write))
  {
    var r := a.results[0];
    CollectAccounted(N(j), a, write);
    assert forall k :: 0 <= k < |a.results| - 1 ==> a.results[1..][k] == a.results[k + 1];
    BytesOfAdd(a.received, r.index, N(j), j.size, j.chunk);
  }

  /** Cancelling and saving move no chunk. */
  lemma SamePlaces(n: nat, a: Attempt, b: Attempt)
    requires PoolInv(n, a) && b == a.(cancelled := b.cancelled, unsaved := b.unsaved)
    ensures PoolInv(n, b)
  {
    assert forall i: nat :: Places(b, i) == Places(a, i);
    assert Alarmed(a) ==> Alarmed(b);
  }

  /** Every step of every worker, the collector and the surroundings keeps the pool's books. */
  lemma StepOk(j: Job, s: System, act: Action)
    requires j.chunk > 0 && Enabled(j, s, act) && (s.attempt.Some? ==> PoolOk(j, s.attempt.value))
    ensures var t := Apply(j, s, act); t.attempt.Some? ==> PoolOk(j, t.attempt.value)
  {
    if act.Begin? {
      BeginOk(j, s, act);
    } else if s.attempt.Some? {
      var a := s.attempt.value;
      match act {
        case Take(w) => TakeOk(j, a, w);
        case Leave(w) => LeaveAccounted(N(j), a, w);
        case Fetch(w, reply) => TriedOk(j, a, w, reply);
        case Collect(write) => CollectOk(j, a, write);
        case Cancel => SamePlaces(N(j), a, Apply(j, s, act).attempt.value);
        case Save(_) => SamePlaces(N(j), a, Apply(j, s, act).attempt.value);
        case _ =>
      }
    }
  }

  lemma {:induction false} RunOk(j: Job, s: System, run: seq<Action>)
    requires j.chunk > 0 && (s.attempt.Some? ==> PoolOk(j, s.attempt.value)) && Executes(j, s, run, Any)
    ensures var t := After(j, s, run, Any); t.attempt.Some? ==> PoolOk(j, t.attempt.value)
    decreases |run|
  {
    if run != [] {
      StepOk(j, s, run[0]);
      RunOk(j, Apply(j, s, run[0]), run[1..]);
    }
  }

  lemma SettledMeansAllHere(j: Job, a: Attempt)
    requires j.chunk > 0 && PoolInv(N(j), a) && Settled(a) && a.lost == {}
    ensures AllHere(j, a)
  {
    assert |a.workers| > 0 ==> a.workers[0].Exited?;
    assert a.queue == [];
    forall i | 0 <= i < N(j) ensures i in a.received || i in a.recovered {
      NoneHeld(a.workers, i);
      assert Places(a, i) == 1;
    }
  }

  lemma BytesAddUp(j: Job, a: Attempt)
    requires j.chunk > 0 && PoolOk(j, a) && AllHere(j, a)
    ensures a.peerBytes + a.mirrorBytes + BytesOf(a.recovered, N(j), j.size, j.chunk) == j.size
  {
    forall i | i in a.received ensures i !in a.recovered { assert Places(a, i) == One(i < N(j)); }
    BytesOfUnion(a.received, a.recovered, N(j), j.size, j.chunk);
    GridCovers(a.received + a.recovered, j.size, j.chunk);
  }

  lemma {:induction false} BusyIsWorking(ws: seq<Worker>, w: nat)
    requires w < |ws| && ws[w].Busy?
    ensures Working(ws) > 0
  {
    if w > 0 { BusyIsWorking(ws[1..], w - 1); }
  }

  lemma BusyInGrid(n: nat, a: Attempt, w: nat)
    requires Accounted(n, a) && w < |a.workers| && a.workers[w].Busy?
    ensures a.workers[w].index < n
  {
    HeldMember(a.workers, w);
    assert Places(a, a.workers[w].index) > 0;
  }

  /**
   No chunk is lost, in any run whatsoever — whatever the sources send, the disk
   does and crashes interrupt, wiped and torn files included. When the result stream
   of an attempt has ended without a recorded error, every chunk was received or
   recovered (the "chunk missing" branch is dead) and the bytes add up to the size;
   whoever may send a result finds room for it, and every result can be collected.
   */
  lemma NoChunkLost(j: Job, run: seq<Action>)
    requires j.chunk > 0 && Executes(j, BLANK, run, Any)
    ensures var s := After(j, BLANK, run, Any);
            s.attempt.Some? ==>
              var a := s.attempt.value;
              && (Settled(a) && a.lost == {} ==>
                    && AllHere(j, a)
                    && a.peerBytes + a.mirrorBytes + BytesOf(a.recovered, N(j), j.size, j.chunk) == j.size)
              && (a.queue != [] ==> |a.results| < a.capacity)
              && (forall w :: 0 <= w < |a.workers| && a.workers[w].Busy? ==>
                    |a.results| < a.capacity && a.workers[w].index < N(j))
              && (forall k :: 0 <= k < |a.results| ==> ResultOk(j, a.results[k]))
  {
    RunOk(j, BLANK, run);
    var s := After(j, BLANK, run, Any);
    if s.attempt.Some? {
      var a := s.attempt.value;
      if Settled(a) && a.lost == {} {
        SettledMeansAllHere(j, a);
        BytesAddUp(j, a);
      }
      forall w | 0 <= w < |a.workers| && a.workers[w].Busy?
        ensures |a.results| < a.capacity && a.workers[w].index < N(j)
      {
        BusyIsWorking(a.workers, w);
        BusyInGrid(N(j), a, w);
      }
    }
  }

  // ----- what a completed row promises --------------------------------------

  ghost predicate OnDisk(j: Job, s: System, i: nat)
    requires j.chunk > 0
  {
    && i < N(j) && i in s.accepted && Fits(s.accepted[i], i, j.size, j.chunk)
    && s.disk.file.Some? && |s.disk.file.value| == j.size
    && Slice(s.disk.file.value, i, j.size, j.chunk) == s.accepted[i]
  }

  /** Every completed row has its bytes in the file, and the byte total matches the rows. */
  ghost predicate Trust(j: Job, s: System)
    requires j.chunk > 0
  {
    s.disk.record.Some? ==>
      && (forall i :: i in s.disk.record.value.done ==> OnDisk(j, s, i))
      && s.disk.record.value.completedSize == BytesOf(s.disk.record.value.done, N(j), j.size, j.chunk)
  }

  ghost predicate AttemptInv(j: Job, s: System, a: Attempt)
    requires j.chunk > 0
  {
    && PoolOk(j, a)
    && s.disk.file.Some? && |s.disk.file.value| == j.size
    && (forall i :: i in a.received || i in a.recovered ==> OnDisk(j, s, i))
    && (a.unsaved.Some? ==> a.unsaved.value in a.received)
    && (a.resuming && s.disk.record.Some? ==> s.disk.record.value.done <= a.recovered + a.received)
  }

  ghost predicate Inv(j: Job, s: System) {
    && ValidJob(j)
    && Trust(j, s)
    && (s.attempt.Some? ==> AttemptInv(j, s, s.attempt.value))
  }

  ghost predicate RowsDone(d: Disk) { d.record.Some? && d.record.value.done != {} }

  /**
   The transitions that make completed rows lie: dropping the file while completed
   rows stay (after a hash mismatch, or when the record could not be deleted on
   success), and a torn write over a completed chunk.
   */
  ghost predicate Betrays(j: Job, s: System, act: Action) {
    match act
    case Wipe => RowsDone(s.disk)
    case Deliver(deleted) => !deleted && RowsDone(s.disk)
    case Collect(write) =>
      && s.attempt.Some? && s.attempt.value.results != []
      && write.Torn? && s.attempt.value.results[0].Good?
      && var i := s.attempt.value.results[0].index;
         RowsDone(s.disk) && i in s.disk.record.value.done && i in s.accepted && write.junk != s.accepted[i]
    case _ => false
  }

  lemma BeginKeeps(j: Job, s: System, act: Action)
    requires Inv(j, s) && Enabled(j, s, act) && act.Begin?
    ensures Inv(j, Apply(j, s, act))
  {
    var t := Apply(j, s, act);
    var d := s.disk;
    assert d.file.Some? && |d.file.value| == j.size ==> Sized(d.file, j.size) == d.file.value;
    assert d.record.Some? ==> forall i :: i in d.record.value.done ==> OnDisk(j, s, i);
    assert RowsDone(d) ==> t.disk.file == d.file by {
      if RowsDone(d) { var i :| i in d.record.value.done; }
    }
    forall i | d.record.Some? && i in d.record.value.done ensures OnDisk(j, t, i) { assert OnDisk(j, s, i); }
    BeginOk(j, s, act);
  }

  /** A write to chunk `x` leaves every other chunk's bytes where they were. */
  lemma OthersStay(j: Job, s: System, t: System, x: nat, data: seq<Byte>, i: nat)
    requires j.chunk > 0 && x < N(j) && Fits(data, x, j.size, j.chunk)
    requires s.disk.file.Some? && |s.disk.file.value| == j.size
    requires t.disk.file == Some(PatchChunk(s.disk.file.value, x, data, j.size, j.chunk))
    requires t.accepted == s.accepted || t.accepted == s.accepted[x := data]
    requires OnDisk(j, s, i)
    ensures i != x ==> OnDisk(j, t, i)
    ensures i == x ==> (OnDisk(j, t, i) <==> t.accepted[x] == data)
  {
    PatchOwnChunk(s.disk.file.value, x, data, i, j.size, j.chunk);
  }

  lemma WrittenOnDisk(j: Job, s: System, t: System, x: nat, data: seq<Byte>)
    requires j.chunk > 0 && x < N(j) && Fits(data, x, j.size, j.chunk)
    requires s.disk.file.Some? && |s.disk.file.value| == j.size
    requires t.disk.file == Some(PatchChunk(s.disk.file.value, x, data, j.size, j.chunk))
    requires t.accepted == s.accepted[x := data]
    ensures OnDisk(j, t, x)
  {
    PatchOwnChunk(s.disk.file.value, x, data, x, j.size, j.chunk);
  }

  lemma CollectKeeps(j: Job, s: System, act: Action)
    requires Inv(j, s) && Enabled(j, s, act) && act.Collect?
    ensures Trust(j, Apply(j, s, act)) <==> !Betrays(j, s, act)
    ensures !Betrays(j, s, act) ==> Inv(j, Apply(j, s, act))
  {
    var t := Apply(j, s, act);
    var a := s.attempt.value;
    var r := a.results[0];
    var x := r.index;
    CollectAccounted(N(j), a, act.write);
    CollectOk(j, a, act.write);
    if r.Bad? {
      assert forall i :: OnDisk(j, s, i) ==> OnDisk(j, t, i);
    } else {
      var data := if act.write.Torn? then act.write.junk else r.data;
      forall i | OnDisk(j, s, i)
        ensures i != x ==> OnDisk(j, t, i)
        ensures i == x ==> (OnDisk(j, t, i) <==> t.accepted[x] == data)
      {
        OthersStay(j, s, t, x, data, i);
      }
      if act.write.Written? {
        WrittenOnDisk(j, s, t, x, data);
      }
    }
  }

  lemma OtherStepKeeps(j: Job, s: System, act: Action)
    requires Inv(j, s) && Enabled(j, s, act) && !act.Begin? && !act.Collect? && !act.Wipe? && !act.Deliver?
    ensures Inv(j, Apply(j, s, act))
  {
    var t := Apply(j, s, act);
    StepOk(j, s, act);
    assert forall i :: OnDisk(j, s, i) ==> OnDisk(j, t, i);
  }

  /** Completed rows stay true after a step exactly when the step is none of the three that betray them. */
  lemma StepKeeps(j: Job, s: System, act: Action)
    requires Inv(j, s) && Enabled(j, s, act)
    ensures Trust(j, Apply(j, s, act)) <==> !Betrays(j, s, act)
    ensures !Betrays(j, s, act) ==> Inv(j, Apply(j, s, act))
  {
    var t := Apply(j, s, act);
    match act {
      case Begin(_, _, _) => BeginKeeps(j, s, act);
      case Collect(_) => CollectKeeps(j, s, act);
      case Wipe => DroppedFile(j, s, t);
      case Deliver(_) => DroppedFile(j, s, t);
      case _ => OtherStepKeeps(j, s, act);
    }
  }

  lemma DroppedFile(j: Job, s: System, t: System)
    requires Inv(j, s) && t.disk.file.None? && t.attempt.None?
    requires t.disk.record.Some? ==>
               && s.disk.record.Some? && t.disk.record.value.done == s.disk.record.value.done
               && t.disk.record.value.completedSize == s.disk.record.value.completedSize
    ensures Trust(j, t) <==> !RowsDone(t.disk)
    ensures Trust(j, t) ==> Inv(j, t)
  {
    if RowsDone(t.disk) {
      var i :| i in t.disk.record.value.done;
      assert !OnDisk(j, t, i);
    }
  }

  // ----- whole lives --------------------------------------------------------

  ghost function Faithful(j: Job): (System, Action) -> bool {
    (s: System, act: Action) => !Betrays(j, s, act)
  }

  lemma {:induction false} RunKeeps(j: Job, s: System, run: seq<Action>)
    requires Inv(j, s) && Executes(j, s, run, Faithful(j))
    ensures Inv(j, After(j, s, run, Faithful(j)))
    decreases |run|
  {
    if run != [] {
      StepKeeps(j, s, run[0]);
      RunKeeps(j, Apply(j, s, run[0]), run[1..]);
    }
  }

  /**
   Crash-safe resume: over any sequence of attempts, crashes and retries without a
   betraying step, every completed row has its bytes at its offsets in the file.
   */
  lemma ResumeIsSafe(j: Job, run: seq<Action>)
    requires ValidJob(j) && Executes(j, BLANK, run, Faithful(j))
    ensures Trust(j, After(j, BLANK, run, Faithful(j)))
  {
    RunKeeps(j, BLANK, run);
  }

  ghost predicate Verified(j: Job, files: seq<seq<Byte>>) {
    forall k :: 0 <= k < |files| ==> |files[k]| == j.size && j.digest(files[k]) == j.expected
  }

  /** Whatever the sources send and whatever goes wrong, a returned file has the expected size and digest. */
  lemma {:induction false} OnlyVerifiedFilesReturned(j: Job, s: System, run: seq<Action>)
    requires j.chunk > 0 && Verified(j, s.delivered) && Executes(j, s, run, Any)
    ensures Verified(j, After(j, s, run, Any).delivered)
    decreases |run|
  {
    if run != [] { OnlyVerifiedFilesReturned(j, Apply(j, s, run[0]), run[1..]); }
  }
}
