/**
 What a download assembles when its sources are honest: they may fail or send the
 wrong number of bytes, but never wrong bytes of the right number.
 */
module Assembly {
  import opened ChunkGrid
  import opened ChunkedDownload
  import opened Prelude

  // ----- honest sources -----------------------------------------------------

  ghost predicate Slices(j: Job, content: seq<Byte>, i: nat, data: seq<Byte>)
    requires j.chunk > 0
  {
    i < N(j) && |content| == j.size && data == Slice(content, i, j.size, j.chunk)
  }

  /** A source may fail or send the wrong number of bytes, but never wrong bytes of the right number. */
  ghost predicate HonestReply(j: Job, content: seq<Byte>, s: System, act: Action)
    requires j.chunk > 0
  {
    act.Fetch? && act.reply.Data? && s.attempt.Some? && act.w < |s.attempt.value.workers| &&
    s.attempt.value.workers[act.w].Busy? &&
    Fits(act.reply.bytes, s.attempt.value.workers[act.w].index, j.size, j.chunk)
    ==> Slices(j, content, s.attempt.value.workers[act.w].index, act.reply.bytes)
  }

  /** Everything downloaded, written or returned so far is a piece of the content. */
  ghost predicate TrueBytes(j: Job, content: seq<Byte>, s: System)
    requires j.chunk > 0
  {
    && (forall i :: i in s.accepted ==> Slices(j, content, i, s.accepted[i]))
    && (s.attempt.Some? ==> TrueResults(j, content, s.attempt.value.results))
    && (forall k :: 0 <= k < |s.delivered| ==> s.delivered[k] == content)
  }

  ghost predicate TrueResults(j: Job, content: seq<Byte>, rs: seq<Result>)
    requires j.chunk > 0
  {
    forall k :: 0 <= k < |rs| && rs[k].Good? ==> Slices(j, content, rs[k].index, rs[k].data)
  }

  ghost predicate HonestInv(j: Job, content: seq<Byte>, s: System) {
    Inv(j, s) && |content| == j.size && j.digest(content) == j.expected && TrueBytes(j, content, s)
  }

  lemma CompleteFileIsContent(j: Job, content: seq<Byte>, s: System)
    requires HonestInv(j, content, s) && s.attempt.Some? && AllHere(j, s.attempt.value)
    ensures s.disk.file.value == content
  {
    var f := s.disk.file.value;
    forall i | 0 <= i < N(j) ensures Slice(f, i, j.size, j.chunk) == Slice(content, i, j.size, j.chunk) {
      assert OnDisk(j, s, i);
      assert Slices(j, content, i, s.accepted[i]);
    }
    ChunksDetermineFile(f, content, j.size, j.chunk);
  }

  lemma HonestData(j: Job, content: seq<Byte>, s: System, act: Action)
    requires j.chunk > 0 && TrueBytes(j, content, s) && Enabled(j, s, act) && HonestReply(j, content, s, act)
    requires act.Deliver? ==> s.disk.file.value == content
    ensures TrueBytes(j, content, Apply(j, s, act))
  {
  }

  // ----- what an attempt assembles ------------------------------------------

  ghost function HonestSources(j: Job, content: seq<Byte>): (System, Action) -> bool
    requires j.chunk > 0
  {
    (s: System, act: Action) => HonestReply(j, content, s, act)
  }

  /** The file has the content's bytes in chunk `i`. */
  ghost predicate Right(j: Job, content: seq<Byte>, f: seq<Byte>, i: nat)
    requires j.chunk > 0
  {
    i < N(j) && |f| == |content| == j.size && Slice(f, i, j.size, j.chunk) == Slice(content, i, j.size, j.chunk)
  }

  /** What this attempt received so far is right; nothing is said of what it recovered. */
  ghost predicate AttemptRight(j: Job, content: seq<Byte>, s: System)
    requires j.chunk > 0
  {
    s.attempt.Some? ==>
      && PoolOk(j, s.attempt.value) && Running(j, s) && |content| == j.size
      && TrueResults(j, content, s.attempt.value.results)
      && forall i :: i in s.attempt.value.received ==> Right(j, content, s.disk.file.value, i)
  }

  ghost predicate RecoveredRight(j: Job, content: seq<Byte>, s: System)
    requires j.chunk > 0
  {
    s.attempt.Some? && s.disk.file.Some? ==>
      forall i :: i in s.attempt.value.recovered ==> Right(j, content, s.disk.file.value, i)
  }

  lemma PatchRight(j: Job, content: seq<Byte>, f: seq<Byte>, x: nat, data: seq<Byte>, i: nat)
    requires j.chunk > 0 && x < N(j) && |f| == |content| == j.size && Fits(data, x, j.size, j.chunk)
    ensures i != x ==>
              (Right(j, content, PatchChunk(f, x, data, j.size, j.chunk), i) <==> Right(j, content, f, i))
    ensures Slices(j, content, x, data) ==> Right(j, content, PatchChunk(f, x, data, j.size, j.chunk), x)
  {
    if i < N(j) { PatchOwnChunk(f, x, data, i, j.size, j.chunk); }
    PatchOwnChunk(f, x, data, x, j.size, j.chunk);
  }

  /** Collecting a result leaves the chunks received and recovered before as they were. */
  lemma CollectRight(j: Job, content: seq<Byte>, s: System, act: Action)
    requires j.chunk > 0 && AttemptRight(j, content, s) && Enabled(j, s, act) && act.Collect?
    ensures AttemptRight(j, content, Apply(j, s, act))
    ensures RecoveredRight(j, content, Apply(j, s, act)) <==> RecoveredRight(j, content, s)
  {
    var t, a := Apply(j, s, act), s.attempt.value;
    var r := a.results[0];
    CollectAccounted(N(j), a, act.write);
    CollectOk(j, a, act.write);
    assert ResultOk(j, r);
    assert forall k :: 0 <= k < |a.results[1..]| ==> a.results[1..][k] == a.results[k + 1];
    if r.Good? {
      var data := if act.write.Torn? then act.write.junk else r.data;
      forall i: nat
        ensures i != r.index ==>
                  (Right(j, content, t.disk.file.value, i) <==> Right(j, content, s.disk.file.value, i))
        ensures Slices(j, content, r.index, data) ==> Right(j, content, t.disk.file.value, r.index)
      {
        PatchRight(j, content, s.disk.file.value, r.index, data, i);
      }
    }
  }

  /**
   A step of an attempt with honest sources keeps what it received right, and what it
   recovered as right as it was — whatever was wiped, torn or left behind before.
   */
  lemma HonestStep(j: Job, content: seq<Byte>, s: System, act: Action)
    requires j.chunk > 0 && |content| == j.size && AttemptRight(j, content, s)
    requires Enabled(j, s, act) && HonestReply(j, content, s, act)
    ensures AttemptRight(j, content, Apply(j, s, act))
    ensures s.attempt.Some? && Apply(j, s, act).attempt.Some? ==>
              (RecoveredRight(j, content, Apply(j, s, act)) <==> RecoveredRight(j, content, s))
  {
    StepOk(j, s, act);
    if act.Collect? { CollectRight(j, content, s, act); }
  }

  lemma AllRight(j: Job, content: seq<Byte>, f: seq<Byte>)
    requires j.chunk > 0 && |f| == |content| == j.size && forall i :: 0 <= i < N(j) ==> Right(j, content, f, i)
    ensures f == content
  {
    forall i | 0 <= i < N(j) ensures Slice(f, i, j.size, j.chunk) == Slice(content, i, j.size, j.chunk) {
      assert Right(j, content, f, i);
    }
    ChunksDetermineFile(f, content, j.size, j.chunk);
  }

  lemma RecoveredInGrid(n: nat, a: Attempt, i: nat)
    requires Accounted(n, a) && i in a.recovered
    ensures i < n
  {
    assert Places(a, i) == One(i < n);
  }

  /** A complete file is the content if and only if every chunk the attempt recovered was right. */
  lemma FinishedExactly(j: Job, content: seq<Byte>, s: System)
    requires j.chunk > 0 && AttemptRight(j, content, s) && s.attempt.Some? && AllHere(j, s.attempt.value)
    ensures s.disk.file.value == content <==> RecoveredRight(j, content, s)
  {
    var f, a := s.disk.file.value, s.attempt.value;
    if RecoveredRight(j, content, s) { AllRight(j, content, f); }
    if f == content {
      forall i | i in a.recovered ensures Right(j, content, f, i) { RecoveredInGrid(N(j), a, i); }
    }
  }

  /** From its beginning to its end, an attempt with honest sources keeps its recovered chunks as right as they were. */
  lemma {:induction false} SinceBegin(j: Job, content: seq<Byte>, s: System, run: seq<Action>)
    requires j.chunk > 0 && |content| == j.size && AttemptRight(j, content, s) && s.attempt.Some?
    requires Executes(j, s, run, HonestSources(j, content)) && forall k :: 0 <= k < |run| ==> !run[k].Begin?
    ensures var t := After(j, s, run, HonestSources(j, content));
            && AttemptRight(j, content, t)
            && (t.attempt.Some? ==> (RecoveredRight(j, content, t) <==> RecoveredRight(j, content, s)))
    decreases |run|
  {
    if run != [] {
      HonestStep(j, content, s, run[0]);
      var t := Apply(j, s, run[0]);
      if t.attempt.Some? {
        SinceBegin(j, content, t, run[1..]);
      } else {
        NoAttempt(j, content, t, run[1..]);
      }
    }
  }

  lemma {:induction false} NoAttempt(j: Job, content: seq<Byte>, s: System, run: seq<Action>)
    requires j.chunk > 0 && s.attempt.None?
    requires Executes(j, s, run, HonestSources(j, content)) && forall k :: 0 <= k < |run| ==> !run[k].Begin?
    ensures After(j, s, run, HonestSources(j, content)).attempt.None?
    decreases |run|
  {
    if run != [] { NoAttempt(j, content, Apply(j, s, run[0]), run[1..]); }
  }

  /** A new attempt that recovers chunks recovers right ones. */
  ghost predicate ResumesRight(j: Job, content: seq<Byte>, s: System, act: Action)
    requires j.chunk > 0
  {
    act.Begin? && s.disk.file.Some? ==>
      forall i :: i in Recovered(j, s.disk, act.resuming) ==> Right(j, content, s.disk.file.value, i)
  }

  lemma BeginRight(j: Job, content: seq<Byte>, s: System, act: Action)
    requires j.chunk > 0 && Enabled(j, s, act) && act.Begin?
    ensures RecoveredRight(j, content, Apply(j, s, act)) <==> ResumesRight(j, content, s, act)
  {
    var d := s.disk;
    assert d.file.Some? && |d.file.value| == j.size ==> Sized(d.file, j.size) == d.file.value;
  }

  lemma {:induction false} HonestRun(j: Job, content: seq<Byte>, s: System, run: seq<Action>)
    requires j.chunk > 0 && |content| == j.size && AttemptRight(j, content, s)
    requires Executes(j, s, run, HonestSources(j, content))
    ensures AttemptRight(j, content, After(j, s, run, HonestSources(j, content)))
    decreases |run|
  {
    if run != [] {
      HonestStep(j, content, s, run[0]);
      HonestRun(j, content, Apply(j, s, run[0]), run[1..]);
    }
  }

  /**
   Given honest sources and nothing else: the file an attempt completes is the content
   if and only if every chunk it recovered when it began was right.
   */
  lemma AssembledExactly(j: Job, content: seq<Byte>, before: seq<Action>, act: Action, during: seq<Action>)
    requires j.chunk > 0 && |content| == j.size && Executes(j, BLANK, before, HonestSources(j, content)) && act.Begin?
    requires Enabled(j, After(j, BLANK, before, HonestSources(j, content)), act)
    requires var begun := Apply(j, After(j, BLANK, before, HonestSources(j, content)), act);
             && Executes(j, begun, during, HonestSources(j, content))
             && (forall k :: 0 <= k < |during| ==> !during[k].Begin?)
             && After(j, begun, during, HonestSources(j, content)).attempt.Some?
             && AllHere(j, After(j, begun, during, HonestSources(j, content)).attempt.value)
    ensures var s := After(j, BLANK, before, HonestSources(j, content));
            var t := After(j, Apply(j, s, act), during, HonestSources(j, content));
            t.disk.file == Some(content) <==> ResumesRight(j, content, s, act)
  {
    HonestRun(j, content, BLANK, before);
    var s := After(j, BLANK, before, HonestSources(j, content));
    HonestStep(j, content, s, act);
    BeginRight(j, content, s, act);
    SinceBegin(j, content, Apply(j, s, act), during);
    FinishedExactly(j, content, After(j, Apply(j, s, act), during, HonestSources(j, content)));
  }

  ghost function HonestResumed(j: Job, content: seq<Byte>): (System, Action) -> bool
    requires j.chunk > 0
  {
    (s: System, act: Action) => HonestReply(j, content, s, act) && ResumesRight(j, content, s, act)
  }

  ghost predicate AllContent(content: seq<Byte>, files: seq<seq<Byte>>) {
    forall k :: 0 <= k < |files| ==> files[k] == content
  }

  /** How many files a run returns. */
  ghost function Delivers(run: seq<Action>): nat {
    if run == [] then 0 else One(run[0].Deliver?) + Delivers(run[1..])
  }

  lemma {:induction false} AssemblyRun(j: Job, content: seq<Byte>, s: System, run: seq<Action>)
    requires j.chunk > 0 && |content| == j.size && j.digest(content) == j.expected
    requires AttemptRight(j, content, s) && RecoveredRight(j, content, s) && AllContent(content, s.delivered)
    requires Executes(j, s, run, HonestResumed(j, content))
    ensures Wipe !in run
    ensures AllContent(content, After(j, s, run, HonestResumed(j, content)).delivered)
    ensures |After(j, s, run, HonestResumed(j, content)).delivered| == |s.delivered| + Delivers(run)
    decreases |run|
  {
    if run != [] {
      var act := run[0];
      HonestStep(j, content, s, act);
      if act.Begin? { BeginRight(j, content, s, act); }
      if act.Wipe? || act.Deliver? { FinishedExactly(j, content, s); }
      AssemblyRun(j, content, Apply(j, s, act), run[1..]);
      assert run == [act] + run[1..];
    }
  }

  /**
   With honest sources and correctly resumed chunks, for every number of workers,
   every interleaving, retry pattern, crash, wipe, torn write and undeleted record: the
   digest check never fails, and every attempt that ends well returns the content.
   */
  lemma AssemblyCorrect(j: Job, content: seq<Byte>, run: seq<Action>)
    requires j.chunk > 0 && |content| == j.size && j.digest(content) == j.expected
    requires Executes(j, BLANK, run, HonestResumed(j, content))
    ensures Wipe !in run
    ensures |After(j, BLANK, run, HonestResumed(j, content)).delivered| == Delivers(run)
    ensures forall f :: f in After(j, BLANK, run, HonestResumed(j, content)).delivered ==> f == content
  {
    AssemblyRun(j, content, BLANK, run);
  }

  // ----- rows that are true resume right ------------------------------------

  /** Honest sources, and no step but a mismatch that makes a completed row lie. */
  ghost function Faithfully(j: Job, content: seq<Byte>): (System, Action) -> bool
    requires j.chunk > 0
  {
    (s: System, act: Action) => HonestReply(j, content, s, act) && (act.Wipe? || !Betrays(j, s, act))
  }

  lemma TrustResumesRight(j: Job, content: seq<Byte>, s: System, act: Action)
    requires HonestInv(j, content, s)
    ensures ResumesRight(j, content, s, act)
  {
    if act.Begin? && s.disk.file.Some? {
      forall i | i in Recovered(j, s.disk, act.resuming) ensures Right(j, content, s.disk.file.value, i) {
        assert OnDisk(j, s, i);
        assert Slices(j, content, i, s.accepted[i]);
      }
    }
  }

  lemma FaithfulStep(j: Job, content: seq<Byte>, s: System, act: Action)
    requires HonestInv(j, content, s) && Enabled(j, s, act) && Faithfully(j, content)(s, act)
    ensures HonestInv(j, content, Apply(j, s, act)) && !act.Wipe?
  {
    if act.Wipe? || act.Deliver? { CompleteFileIsContent(j, content, s); }
    assert !act.Wipe?;
    StepKeeps(j, s, act);
    HonestData(j, content, s, act);
  }

  /** Without a betraying step every attempt resumes right, so the digest check never fails. */
  lemma {:induction false} FaithfulRunsResumeRight(j: Job, content: seq<Byte>, s: System, run: seq<Action>)
    requires HonestInv(j, content, s) && Executes(j, s, run, Faithfully(j, content))
    ensures Executes(j, s, run, HonestResumed(j, content))
    decreases |run|
  {
    if run != [] {
      TrustResumesRight(j, content, s, run[0]);
      FaithfulStep(j, content, s, run[0]);
      FaithfulRunsResumeRight(j, content, Apply(j, s, run[0]), run[1..]);
    }
  }

  lemma FaithfulAssembly(j: Job, content: seq<Byte>, run: seq<Action>)
    requires ValidJob(j) && |content| == j.size && j.digest(content) == j.expected
    requires Executes(j, BLANK, run, Faithfully(j, content))
    ensures Wipe !in run
    ensures Executes(j, BLANK, run, HonestResumed(j, content))
    ensures forall f :: f in After(j, BLANK, run, HonestResumed(j, content)).delivered ==> f == content
  {
    FaithfulRunsResumeRight(j, content, BLANK, run);
    AssemblyCorrect(j, content, run);
  }
}
