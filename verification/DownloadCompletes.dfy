/**
 What an attempt does with the work before it: it fetches what is missing and nothing
 else, tries each chunk three times, credits every byte to its source, stops starting
 chunks once it is cancelled — and with honest sources it can always be brought to
 its end, with the content delivered.
 */
module DownloadCompletes {
  import opened Assembly
  import opened ChunkGrid
  import opened ChunkedDownload
  import opened Prelude

  // ----- beginning ----------------------------------------------------------

  lemma {:induction false} MissingMembers(n: nat, recovered: set<nat>, i: nat)
    ensures i in Missing(n, recovered) <==> i < n && i !in recovered
  {
    if n > 0 { MissingMembers(n - 1, recovered, i); }
  }

  /**
   A resumed attempt fetches exactly the chunks whose rows are not completed; without
   resumption, without a record or with a file of another size it fetches all. It
   never has more workers than chunks.
   */
  lemma ResumesWhereItStopped(j: Job, s: System, act: Action, i: nat)
    requires j.chunk > 0 && Enabled(j, s, act) && act.Begin?
    ensures var a, d := Apply(j, s, act).attempt.value, s.disk;
            if act.resuming && d.record.Some? && d.file.Some? && |d.file.value| == j.size
            then i in a.queue <==> i < NumChunks(j.size, j.chunk) && i !in d.record.value.done
            else i in a.queue <==> i < NumChunks(j.size, j.chunk)
    ensures var a := Apply(j, s, act).attempt.value;
            && |a.workers| == (if act.workers < |a.queue| then act.workers else |a.queue|)
            && forall w :: 0 <= w < |a.workers| ==> a.workers[w].Ready?
  {
    MissingMembers(N(j), Recovered(j, s.disk, act.resuming), i);
  }

  /** What each step writes about the download as a whole. */
  lemma RecordFlags(j: Job, s: System, act: Action)
    requires j.chunk > 0 && Enabled(j, s, act) && s.disk.record.Some? && Apply(j, s, act).disk.record.Some?
    ensures var was, now := s.disk.record.value, Apply(j, s, act).disk.record.value;
            && now.retries == was.retries + (if act.Retry? then 1 else 0)
            && (act.Fail? || act.Wipe? ==> now.failed == (was.failed || s.attempt.value.resuming))
            && (act.Retry? ==> !now.failed)
            && (act.Begin? ==> now.failed == (was.failed && !(act.resuming && Apply(j, s, act).attempt.value.queue != [])))
            && (!act.Fail? && !act.Wipe? && !act.Retry? && !act.Begin? ==> now.failed == was.failed)
            && was.done <= now.done
            && (now.done == was.done || (act.Save? && act.ok && now.done == was.done + {s.attempt.value.unsaved.value}))
  {
  }

  // ----- three tries --------------------------------------------------------

  /** The replies to worker `w`, one after the other, as long as it is busy. */
  ghost function Fed(j: Job, a: Attempt, w: nat, replies: seq<Reply>): Attempt
    requires w < |a.workers|
    decreases |replies|
  {
    if replies == [] || !a.workers[w].Busy? then a else Fed(j, Tried(j, a, w, replies[0]), w, replies[1..])
  }

  predicate Usable(j: Job, i: nat, r: Reply) {
    r.Data? && |r.bytes| == End(i, j.size, j.chunk) - Start(i, j.chunk)
  }

  ghost function Reports(a: Attempt, w: nat, r: Result): Attempt
    requires w < |a.workers|
  {
    a.(workers := a.workers[w := Ready], results := a.results + [r])
  }

  lemma FedOnce(j: Job, a: Attempt, w: nat, replies: seq<Reply>)
    requires w < |a.workers| && a.workers[w].Busy? && replies != []
    ensures Fed(j, a, w, replies) == Fed(j, Tried(j, a, w, replies[0]), w, replies[1..])
  {
  }

  /** A chunk is reported with the first reply of the right length among three, and as failed when there is none. */
  lemma ThreeTries(j: Job, a: Attempt, w: nat, i: nat, r0: Reply, r1: Reply, r2: Reply)
    requires w < |a.workers| && a.workers[w] == Busy(i, 0)
    ensures Fed(j, a, w, [r0, r1, r2]) ==
            if Usable(j, i, r0) then Reports(a, w, Good(i, r0.bytes, r0.fromPeer))
            else if Usable(j, i, r1) then Reports(a, w, Good(i, r1.bytes, r1.fromPeer))
            else if Usable(j, i, r2) then Reports(a, w, Good(i, r2.bytes, r2.fromPeer))
            else Reports(a, w, Bad(i))
  {
    var b, c := a.(workers := a.workers[w := Busy(i, 1)]), a.(workers := a.workers[w := Busy(i, 2)]);
    assert [r0, r1, r2][1..] == [r1, r2] && [r1, r2][1..] == [r2] && [r2][1..] == [];
    FedOnce(j, a, w, [r0, r1, r2]);
    if !Usable(j, i, r0) {
      assert Tried(j, a, w, r0) == b;
      FedOnce(j, b, w, [r1, r2]);
      if !Usable(j, i, r1) {
        assert Tried(j, b, w, r1) == c;
        FedOnce(j, c, w, [r2]);
      }
    }
  }

  // ----- bytes by source ----------------------------------------------------

  ghost predicate WithinAttempt(run: seq<Action>) { forall k :: 0 <= k < |run| ==> !run[k].Begin? }

  /** The bytes that arrived from peers, or from mirrors, and were written. */
  ghost function Credit(j: Job, s: System, run: seq<Action>, peer: bool): int
    requires j.chunk > 0 && Executes(j, s, run, Any)
    decreases |run|
  {
    if run == [] then 0
    else
      Arrived(s, run[0], peer) + Credit(j, Apply(j, s, run[0]), run[1..], peer)
  }

  ghost function Arrived(s: System, act: Action, peer: bool): int {
    if act.Collect? && act.write.Written? && s.attempt.Some? && s.attempt.value.results != [] then
      var r := s.attempt.value.results[0];
      if r.Good? && r.fromPeer == peer then |r.data| else 0
    else 0
  }

  lemma CreditStep(j: Job, s: System, act: Action)
    requires j.chunk > 0 && Enabled(j, s, act) && !act.Begin? && s.attempt.Some?
    ensures var t := Apply(j, s, act);
            t.attempt.Some? ==>
              && t.attempt.value.peerBytes == s.attempt.value.peerBytes + Arrived(s, act, true)
              && t.attempt.value.mirrorBytes == s.attempt.value.mirrorBytes + Arrived(s, act, false)
  {
  }

  lemma {:induction false} CreditRun(j: Job, s: System, run: seq<Action>)
    requires j.chunk > 0 && Executes(j, s, run, Any) && WithinAttempt(run) && After(j, s, run, Any).attempt.Some?
    ensures s.attempt.Some?
    ensures var a, b := s.attempt.value, After(j, s, run, Any).attempt.value;
            && b.peerBytes == a.peerBytes + Credit(j, s, run, true)
            && b.mirrorBytes == a.mirrorBytes + Credit(j, s, run, false)
    decreases |run|
  {
    if run != [] {
      assert forall k :: 0 <= k < |run[1..]| ==> run[1..][k] == run[k + 1];
      CreditRun(j, Apply(j, s, run[0]), run[1..]);
      assert s.attempt.Some?;
      CreditStep(j, s, run[0]);
    }
  }

  /** From its beginning on, an attempt has counted exactly the bytes it wrote, peers and mirrors apart. */
  lemma BytesBySource(j: Job, s: System, act: Action, during: seq<Action>)
    requires j.chunk > 0 && Enabled(j, s, act) && act.Begin? && WithinAttempt(during)
    requires Executes(j, Apply(j, s, act), during, Any) && After(j, Apply(j, s, act), during, Any).attempt.Some?
    ensures var a := After(j, Apply(j, s, act), during, Any).attempt.value;
            && a.peerBytes == Credit(j, Apply(j, s, act), during, true)
            && a.mirrorBytes == Credit(j, Apply(j, s, act), during, false)
  {
    CreditRun(j, Apply(j, s, act), during);
  }

  // ----- after a failure ----------------------------------------------------

  /** A failure that was seen cancels the attempt, and only an attempt that records progress has a row to save. */
  ghost predicate Disciplined(a: Attempt) { (a.lost != {} ==> a.cancelled) && (a.unsaved.Some? ==> a.resuming) }

  lemma {:induction false} DisciplinedRun(j: Job, s: System, run: seq<Action>)
    requires j.chunk > 0 && Executes(j, s, run, Any) && (s.attempt.Some? ==> Disciplined(s.attempt.value))
    ensures var t := After(j, s, run, Any); t.attempt.Some? ==> Disciplined(t.attempt.value)
    decreases |run|
  {
    if run != [] { DisciplinedRun(j, Apply(j, s, run[0]), run[1..]); }
  }

  /** In every run, an attempt that has seen a failure is cancelled, and one without resumption records no chunk. */
  lemma FailureCancels(j: Job, run: seq<Action>)
    requires j.chunk > 0 && Executes(j, BLANK, run, Any)
    ensures var t := After(j, BLANK, run, Any);
            t.attempt.Some? ==>
              && (t.attempt.value.lost != {} ==> t.attempt.value.cancelled)
              && (t.attempt.value.unsaved.Some? ==> t.attempt.value.resuming)
  {
    DisciplinedRun(j, BLANK, run);
  }

  /** Whoever is busy in `b` was busy with the same chunk in `a`. */
  ghost predicate NothingStarted(a: Attempt, b: Attempt) {
    && |b.workers| == |a.workers|
    && forall w :: 0 <= w < |b.workers| && b.workers[w].Busy? ==>
         a.workers[w].Busy? && a.workers[w].index == b.workers[w].index
  }

  lemma CancelledStep(j: Job, s: System, act: Action)
    requires j.chunk > 0 && Enabled(j, s, act) && !act.Begin? && s.attempt.Some? && s.attempt.value.cancelled
    ensures var t := Apply(j, s, act);
            t.attempt.Some? ==> t.attempt.value.cancelled && NothingStarted(s.attempt.value, t.attempt.value)
  {
  }

  /** A cancelled attempt starts no further chunk. */
  lemma {:induction false} CancelledStartsNothing(j: Job, s: System, run: seq<Action>)
    requires j.chunk > 0 && Executes(j, s, run, Any) && WithinAttempt(run)
    requires s.attempt.Some? && s.attempt.value.cancelled && After(j, s, run, Any).attempt.Some?
    ensures NothingStarted(s.attempt.value, After(j, s, run, Any).attempt.value)
    decreases |run|
  {
    if run != [] {
      assert forall k :: 0 <= k < |run[1..]| ==> run[1..][k] == run[k + 1];
      CancelledStep(j, s, run[0]);
      CreditRun(j, Apply(j, s, run[0]), run[1..]);
      CancelledStartsNothing(j, Apply(j, s, run[0]), run[1..]);
    }
  }

  // ----- to the end ---------------------------------------------------------

  function Load(w: Worker): nat { match w case Busy(_, _) => 4 case Ready => 1 case Exited => 0 }

  ghost function Loads(ws: seq<Worker>): nat { if ws == [] then 0 else Load(ws[0]) + Loads(ws[1..]) }

  lemma {:induction false} LoadsUpdate(ws: seq<Worker>, w: nat, x: Worker)
    requires w < |ws|
    ensures Loads(ws[w := x]) + Load(ws[w]) == Loads(ws) + Load(x)
  {
    if w > 0 {
      LoadsUpdate(ws[1..], w - 1, x);
      assert ws[w := x][1..] == ws[1..][w - 1 := x];
    } else {
      assert ws[w := x][1..] == ws[1..];
    }
  }

  /** The work ahead of an attempt. */
  ghost function Work(a: Attempt): nat {
    5 * |a.queue| + Loads(a.workers) + 2 * |a.results| + (if a.unsaved.Some? then 1 else 0)
  }

  /** Nothing has gone wrong in this attempt. */
  ghost predicate Smooth(a: Attempt) {
    a.lost == {} && !a.cancelled && forall k :: 0 <= k < |a.results| ==> a.results[k].Good?
  }

  ghost predicate OnCourse(j: Job, content: seq<Byte>, s: System) {
    && j.chunk > 0 && |content| == j.size && j.digest(content) == j.expected
    && AttemptRight(j, content, s) && RecoveredRight(j, content, s)
    && s.attempt.Some? && Smooth(s.attempt.value)
  }

  /** A step of an honest attempt that brings it nearer to its end. */
  ghost predicate Forward(j: Job, content: seq<Byte>, s: System, act: Action)
    requires j.chunk > 0
  {
    && Enabled(j, s, act) && HonestResumed(j, content)(s, act) && s.attempt.Some?
    && var t := Apply(j, s, act);
       && t.attempt.Some? && Smooth(t.attempt.value) && t.delivered == s.delivered
       && Work(t.attempt.value) < Work(s.attempt.value)
  }

  lemma SaveForward(j: Job, content: seq<Byte>, s: System)
    requires OnCourse(j, content, s) && s.attempt.value.unsaved.Some?
    ensures Forward(j, content, s, Save(true))
  {
  }

  lemma CollectForward(j: Job, content: seq<Byte>, s: System)
    requires OnCourse(j, content, s) && s.attempt.value.unsaved.None? && s.attempt.value.results != []
    ensures Forward(j, content, s, Collect(Written))
  {
    var a := s.attempt.value;
    assert ResultOk(j, a.results[0]);
    assert forall k :: 0 <= k < |a.results[1..]| ==> a.results[1..][k] == a.results[k + 1];
  }

  lemma FetchForward(j: Job, content: seq<Byte>, s: System, w: nat)
    requires OnCourse(j, content, s) && w < |s.attempt.value.workers| && s.attempt.value.workers[w].Busy?
    ensures s.attempt.value.workers[w].index < N(j)
    ensures Forward(j, content, s, Fetch(w, Data(Slice(content, s.attempt.value.workers[w].index, j.size, j.chunk), false)))
  {
    var a := s.attempt.value;
    BusyInGrid(N(j), a, w);
    ChunkInFile(a.workers[w].index, j.size, j.chunk);
    LoadsUpdate(a.workers, w, Ready);
  }

  lemma ReadyForward(j: Job, content: seq<Byte>, s: System, w: nat)
    requires OnCourse(j, content, s) && w < |s.attempt.value.workers| && s.attempt.value.workers[w].Ready?
    ensures Forward(j, content, s, if s.attempt.value.queue == [] then Leave(w) else Take(w))
  {
    var a := s.attempt.value;
    if a.queue == [] { LoadsUpdate(a.workers, w, Exited); } else { LoadsUpdate(a.workers, w, Busy(a.queue[0], 0)); }
  }

  /** With everything settled the digest is right, and the file is returned. */
  lemma SettledDelivers(j: Job, content: seq<Byte>, s: System)
    requires OnCourse(j, content, s) && Settled(s.attempt.value)
    ensures Enabled(j, s, Deliver(true)) && Apply(j, s, Deliver(true)).delivered == s.delivered + [content]
    ensures Apply(j, s, Deliver(true)).attempt.None?
  {
    SettledMeansAllHere(j, s.attempt.value);
    FinishedExactly(j, content, s);
  }

  /** Until everything is settled, some step leads on. */
  lemma SomethingToDo(j: Job, content: seq<Byte>, s: System) returns (act: Action)
    requires OnCourse(j, content, s) && !Settled(s.attempt.value)
    ensures Forward(j, content, s, act)
  {
    var a := s.attempt.value;
    if a.unsaved.Some? {
      SaveForward(j, content, s);
      act := Save(true);
    } else if a.results != [] {
      CollectForward(j, content, s);
      act := Collect(Written);
    } else {
      var w :| 0 <= w < |a.workers| && !a.workers[w].Exited?;
      if a.workers[w].Busy? {
        FetchForward(j, content, s, w);
        act := Fetch(w, Data(Slice(content, a.workers[w].index, j.size, j.chunk), false));
      } else {
        ReadyForward(j, content, s, w);
        act := if a.queue == [] then Leave(w) else Take(w);
      }
    }
  }

  lemma ForwardStays(j: Job, content: seq<Byte>, s: System, act: Action)
    requires OnCourse(j, content, s) && Forward(j, content, s, act)
    ensures OnCourse(j, content, Apply(j, s, act))
  {
    HonestStep(j, content, s, act);
  }

  lemma {:induction false} RunsToTheEnd(j: Job, content: seq<Byte>, s: System) returns (run: seq<Action>)
    requires OnCourse(j, content, s)
    ensures Executes(j, s, run, HonestResumed(j, content))
    ensures var t := After(j, s, run, HonestResumed(j, content)); t.attempt.None? && t.delivered == s.delivered + [content]
    decreases Work(s.attempt.value)
  {
    if Settled(s.attempt.value) {
      SettledDelivers(j, content, s);
      run := [Deliver(true)];
      assert run[1..] == [];
      assert Executes(j, Apply(j, s, Deliver(true)), [], HonestResumed(j, content));
    } else {
      var act := SomethingToDo(j, content, s);
      ForwardStays(j, content, s, act);
      var rest := RunsToTheEnd(j, content, Apply(j, s, act));
      run := [act] + rest;
      assert run[0] == act && run[1..] == rest;
    }
  }

  /**
   An honest download is never stuck: whatever interleaving of workers and collector, and
   whatever attempts and crashes before, an attempt in which nothing has failed can be
   continued, with honest sources, until it returns the content.
   */
  lemma AlwaysDelivers(j: Job, content: seq<Byte>, before: seq<Action>) returns (run: seq<Action>)
    requires j.chunk > 0 && |content| == j.size && j.digest(content) == j.expected
    requires Executes(j, BLANK, before, HonestResumed(j, content))
    requires var s := After(j, BLANK, before, HonestResumed(j, content)); s.attempt.Some? && Smooth(s.attempt.value)
    ensures var s := After(j, BLANK, before, HonestResumed(j, content));
            && Executes(j, s, run, HonestResumed(j, content))
            && After(j, s, run, HonestResumed(j, content)).delivered == s.delivered + [content]
  {
    StaysRight(j, content, BLANK, before);
    run := RunsToTheEnd(j, content, After(j, BLANK, before, HonestResumed(j, content)));
  }

  lemma {:induction false} StaysRight(j: Job, content: seq<Byte>, s: System, run: seq<Action>)
    requires j.chunk > 0 && |content| == j.size && AttemptRight(j, content, s) && RecoveredRight(j, content, s)
    requires Executes(j, s, run, HonestResumed(j, content))
    ensures AttemptRight(j, content, After(j, s, run, HonestResumed(j, content)))
    ensures RecoveredRight(j, content, After(j, s, run, HonestResumed(j, content)))
    decreases |run|
  {
    if run != [] {
      HonestStep(j, content, s, run[0]);
      if run[0].Begin? { BeginRight(j, content, s, run[0]); }
      StaysRight(j, content, Apply(j, s, run[0]), run[1..]);
    }
  }
}
