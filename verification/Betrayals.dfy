/**
 Runs of a download of one byte in one chunk that break a promise: each of the three
 steps that make a completed row lie, and an honest download that fails its digest
 because of a row that lies.
 */
module Betrayals {
  import opened Assembly
  import opened ChunkGrid
  import opened ChunkedDownload
  import opened Prelude

  type Rule = (System, Action) -> bool

  /** `s` is the state after some run that keeps to the rule. */
  ghost predicate Reached(j: Job, s: System, ok: Rule)
    requires j.chunk > 0
  {
    exists run :: Executes(j, BLANK, run, ok) && After(j, BLANK, run, ok) == s
  }

  lemma {:induction false} ExecutesThen(j: Job, s: System, run: seq<Action>, act: Action, ok: Rule)
    requires j.chunk > 0 && Executes(j, s, run, ok)
    requires Enabled(j, After(j, s, run, ok), act) && ok(After(j, s, run, ok), act)
    ensures Executes(j, s, run + [act], ok)
    ensures After(j, s, run + [act], ok) == Apply(j, After(j, s, run, ok), act)
    decreases |run|
  {
    if run == [] {
      assert run + [act] == [act] && [act][1..] == [];
    } else {
      assert (run + [act])[0] == run[0] && (run + [act])[1..] == run[1..] + [act];
      ExecutesThen(j, Apply(j, s, run[0]), run[1..], act, ok);
    }
  }

  lemma ReachedThen(j: Job, s: System, act: Action, ok: Rule)
    requires j.chunk > 0 && Reached(j, s, ok) && Enabled(j, s, act) && ok(s, act)
    ensures Reached(j, Apply(j, s, act), ok)
  {
    var run :| Executes(j, BLANK, run, ok) && After(j, BLANK, run, ok) == s;
    ExecutesThen(j, BLANK, run, act, ok);
  }

  /** The first betraying step of a run ends the truth of the rows. */
  lemma FirstBetrayal(j: Job, s: System, act: Action)
    requires ValidJob(j) && Reached(j, s, Faithful(j)) && Enabled(j, s, act) && Betrays(j, s, act)
    ensures Trust(j, s) && !Trust(j, Apply(j, s, act))
  {
    var run :| Executes(j, BLANK, run, Faithful(j)) && After(j, BLANK, run, Faithful(j)) == s;
    RunKeeps(j, BLANK, run);
    StepKeeps(j, s, act);
  }

  // ----- one byte -----------------------------------------------------------

  ghost predicate OneByte(j: Job, data: seq<Byte>) { j.size == 1 && j.chunk == 1 && |data| == 1 }

  /** Steps that betray nothing and fetch only `data`. */
  ghost predicate Tame(j: Job, data: seq<Byte>, s: System, act: Action) {
    !Betrays(j, s, act) && (act.Fetch? ==> act.reply == Data(data, false))
  }

  ghost predicate Permits(ok: Rule, j: Job, data: seq<Byte>) {
    forall s, act :: Tame(j, data, s, act) ==> ok(s, act)
  }

  lemma OneChunk(j: Job, data: seq<Byte>)
    requires OneByte(j, data)
    ensures N(j) == 1 && Start(0, j.chunk) == 0 && End(0, j.size, j.chunk) == 1
  {
  }

  lemma OneRow(j: Job, data: seq<Byte>)
    requires OneByte(j, data)
    ensures BytesOf({0}, N(j), j.size, j.chunk) == 1
  {
    OneChunk(j, data);
    assert BytesOf({0}, 0, j.size, j.chunk) == 0;
  }

  lemma OneMissing(j: Job, data: seq<Byte>)
    requires OneByte(j, data)
    ensures Missing(N(j), {}) == [0] && Missing(N(j), {0}) == []
  {
    OneChunk(j, data);
    assert Missing(0, {}) == [] && Missing(0, {0}) == [];
  }

  lemma HonestPermits(j: Job, data: seq<Byte>)
    requires OneByte(j, data)
    ensures Permits(HonestSources(j, data), j, data)
  {
    OneChunk(j, data);
    WholeSlice(j, data, data);
    forall s, act | Tame(j, data, s, act) ensures HonestSources(j, data)(s, act) {
      if act.Fetch? && s.attempt.Some? && act.w < |s.attempt.value.workers| && s.attempt.value.workers[act.w].Busy? &&
         Fits(data, s.attempt.value.workers[act.w].index, j.size, j.chunk) {
        OnlyChunk(j, s.attempt.value.workers[act.w].index, data);
      }
    }
  }

  lemma OnlyChunk(j: Job, i: nat, data: seq<Byte>)
    requires OneByte(j, data) && Fits(data, i, j.size, j.chunk)
    ensures i == 0
  {
  }

  lemma WholeSlice(j: Job, data: seq<Byte>, f: seq<Byte>)
    requires OneByte(j, data) && |f| == 1
    ensures N(j) == 1 && Slice(f, 0, j.size, j.chunk) == f
  {
    OneChunk(j, data);
  }

  function Queueing(resuming: bool): Attempt {
    Attempt(resuming, {}, [0], [Ready], [], {}, {}, false, None, 0, 0, 1, 0)
  }

  function Sent(resuming: bool, data: seq<Byte>): Attempt {
    Queueing(resuming).(queue := [], results := [Good(0, data, false)])
  }

  function Stored(): Attempt { Queueing(true).(queue := [], received := {0}, mirrorBytes := 1, drained := 1) }

  function Holding(resuming: bool): Attempt { Queueing(resuming).(queue := [], workers := [Busy(0, 0)]) }

  lemma TakesIt(resuming: bool)
    ensures Taken(Queueing(resuming), 0) == Holding(resuming)
  {
    assert [0][1..] == [] && [Ready][0 := Busy(0, 0)] == [Busy(0, 0)];
  }

  lemma GetsIt(j: Job, resuming: bool, data: seq<Byte>)
    requires OneByte(j, data)
    ensures Tried(j, Holding(resuming), 0, Data(data, false)) == Sent(resuming, data)
  {
    OneChunk(j, data);
    assert [Busy(0, 0)][0 := Ready] == [Ready] && [] + [Good(0, data, false)] == [Good(0, data, false)];
  }

  /** A worker takes the chunk and a mirror sends it. */
  lemma ChunkFetched(j: Job, s: System, resuming: bool, data: seq<Byte>, ok: Rule)
    requires OneByte(j, data) && Permits(ok, j, data)
    requires Reached(j, s, ok) && Running(j, s) && s.attempt.value == Queueing(resuming)
    ensures Reached(j, s.(attempt := Some(Sent(resuming, data))), ok)
  {
    OneChunk(j, data);
    TakesIt(resuming);
    assert Tame(j, data, s, Take(0));
    ReachedThen(j, s, Take(0), ok);
    GetsIt(j, resuming, data);
    var held := s.(attempt := Some(Holding(resuming)));
    assert Tame(j, data, held, Fetch(0, Data(data, false)));
    ReachedThen(j, held, Fetch(0, Data(data, false)), ok);
  }

  function Opening(f: seq<Byte>): System { System(Disk(Some(FRESH_RECORD), Some(f)), Some(Queueing(true)), map[], []) }

  function Writing(f: seq<Byte>, data: seq<Byte>): System {
    System(Disk(Some(FRESH_RECORD), Some(f)), Some(Stored().(unsaved := Some(0))), map[0 := data], [])
  }

  function Saved(f: seq<Byte>, data: seq<Byte>): System {
    System(Disk(Some(Record({0}, 1, false, 0)), Some(f)), Some(Stored()), map[0 := data], [])
  }

  lemma Begun(j: Job, data: seq<Byte>, ok: Rule) returns (f: seq<Byte>)
    requires OneByte(j, data) && Permits(ok, j, data)
    ensures |f| == 1 && Reached(j, Opening(f), ok)
  {
    OneChunk(j, data);
    OneMissing(j, data);
    assert Executes(j, BLANK, [], ok) && After(j, BLANK, [], ok) == BLANK;
    var s := Apply(j, BLANK, Begin(true, true, 1));
    assert s.attempt.value.workers == [Ready];
    assert Tame(j, data, BLANK, Begin(true, true, 1));
    ReachedThen(j, BLANK, Begin(true, true, 1), ok);
    f := s.disk.file.value;
    assert s == Opening(f);
  }

  /** The only chunk is the whole file. */
  lemma PatchAll(j: Job, f: seq<Byte>, data: seq<Byte>)
    requires OneByte(j, data) && |f| == 1
    ensures N(j) == 1 && Fits(data, 0, j.size, j.chunk) && PatchChunk(f, 0, data, j.size, j.chunk) == data
  {
    OneChunk(j, data);
    PatchOwnChunk(f, 0, data, 0, j.size, j.chunk);
    WholeSlice(j, data, PatchChunk(f, 0, data, j.size, j.chunk));
  }

  lemma CollectsIt(j: Job, f: seq<Byte>, data: seq<Byte>)
    requires OneByte(j, data) && |f| == 1
    ensures var s := Opening(f).(attempt := Some(Sent(true, data)));
            && Enabled(j, s, Collect(Written))
            && Apply(j, s, Collect(Written)) == Writing(data, data)
  {
    PatchAll(j, f, data);
    assert [Good(0, data, false)][1..] == [] && {} + {0} == {0};
    assert Collected(Sent(true, data), Written) == Writing(data, data).attempt.value;
  }

  lemma SavesIt(j: Job, f: seq<Byte>, data: seq<Byte>)
    requires OneByte(j, data) && |f| == 1
    ensures Enabled(j, Writing(f, data), Save(true)) && Apply(j, Writing(f, data), Save(true)) == Saved(f, data)
  {
    OneChunk(j, data);
    assert {} + {0} == {0};
    OneRow(j, data);
    assert Marked(j.size, j.chunk, FRESH_RECORD, 0) == Saved(f, data).disk.record.value;
  }

  /** The only chunk is fetched, written and recorded. */
  lemma ChunkSaved(j: Job, data: seq<Byte>, ok: Rule)
    requires OneByte(j, data) && Permits(ok, j, data)
    ensures Reached(j, Saved(data, data), ok)
  {
    var f := Begun(j, data, ok);
    ChunkFetched(j, Opening(f), true, data, ok);
    CollectsIt(j, f, data);
    var sent := Opening(f).(attempt := Some(Sent(true, data)));
    assert Tame(j, data, sent, Collect(Written));
    ReachedThen(j, sent, Collect(Written), ok);
    SavesIt(j, data, data);
    assert Tame(j, data, Writing(data, data), Save(true));
    ReachedThen(j, Writing(data, data), Save(true), ok);
  }

  function Settling(data: seq<Byte>): System {
    Saved(data, data).(attempt := Some(Stored().(workers := [Exited])))
  }

  lemma Settles(j: Job, data: seq<Byte>, ok: Rule)
    requires OneByte(j, data) && Permits(ok, j, data)
    ensures Reached(j, Settling(data), ok)
    ensures Running(j, Settling(data)) && Settled(Settling(data).attempt.value) && AllHere(j, Settling(data).attempt.value)
    ensures RowsDone(Settling(data).disk)
  {
    ChunkSaved(j, data, ok);
    OneChunk(j, data);
    assert Tame(j, data, Saved(data, data), Leave(0));
    ReachedThen(j, Saved(data, data), Leave(0), ok);
    assert [Ready][0 := Exited] == [Exited];
    assert Apply(j, Saved(data, data), Leave(0)) == Settling(data);
    assert 0 in Settling(data).disk.record.value.done;
  }

  // ----- three betrayals ----------------------------------------------------

  /** A mismatch after the chunk was recorded: the wipe leaves a completed row without bytes. */
  lemma WipeBetrays(j: Job, data: seq<Byte>)
    requires OneByte(j, data) && j.digest(data) != j.expected
    ensures var s := Settling(data);
            && Reached(j, s, Faithful(j)) && Enabled(j, s, Wipe) && Betrays(j, s, Wipe)
            && Trust(j, s) && !Trust(j, Apply(j, s, Wipe))
  {
    Settles(j, data, Faithful(j));
    FirstBetrayal(j, Settling(data), Wipe);
  }

  /** A success whose record is not deleted does the same. */
  lemma UndeletedRecordBetrays(j: Job, data: seq<Byte>)
    requires OneByte(j, data) && j.digest(data) == j.expected
    ensures var s := Settling(data);
            && Reached(j, s, Faithful(j)) && Enabled(j, s, Deliver(false)) && Betrays(j, s, Deliver(false))
            && Trust(j, s) && !Trust(j, Apply(j, s, Deliver(false)))
  {
    Settles(j, data, Faithful(j));
    FirstBetrayal(j, Settling(data), Deliver(false));
  }

  lemma StartsOver(j: Job, data: seq<Byte>)
    requires OneByte(j, data)
    ensures var s := Saved(data, data).(attempt := None);
            && Enabled(j, s, Begin(false, false, 1))
            && Apply(j, s, Begin(false, false, 1)) == Saved(data, data).(attempt := Some(Queueing(false)))
  {
    OneChunk(j, data);
    OneMissing(j, data);
    var s := Saved(data, data).(attempt := None);
    var again := Apply(j, s, Begin(false, false, 1));
    assert again.attempt.value.workers == [Ready];
    assert data[..1] == data;
  }

  /** A crash, and then an attempt with resumption off whose write tears over the recorded chunk. */
  lemma TornWriteBetrays(j: Job, data: seq<Byte>, junk: seq<Byte>)
    requires OneByte(j, data) && |junk| == 1 && junk != data
    ensures var s := Saved(data, data).(attempt := Some(Sent(false, data)));
            && Reached(j, s, Faithful(j)) && Enabled(j, s, Collect(Torn(junk))) && Betrays(j, s, Collect(Torn(junk)))
            && Trust(j, s) && !Trust(j, Apply(j, s, Collect(Torn(junk))))
  {
    OneChunk(j, data);
    ChunkSaved(j, data, Faithful(j));
    var saved := Saved(data, data);
    ReachedThen(j, saved, Crash, Faithful(j));
    StartsOver(j, data);
    ReachedThen(j, saved.(attempt := None), Begin(false, false, 1), Faithful(j));
    ChunkFetched(j, saved.(attempt := Some(Queueing(false))), false, data, Faithful(j));
    var s := saved.(attempt := Some(Sent(false, data)));
    assert 0 in s.disk.record.value.done;
    FirstBetrayal(j, s, Collect(Torn(junk)));
  }

  // ----- an honest download that fails --------------------------------------

  function Ended(data: seq<Byte>, file: Option<seq<Byte>>, attempt: Option<Attempt>): System {
    System(Disk(Some(Record({0}, 1, false, 0)), file), attempt, map[0 := data], [data])
  }

  /** The attempt after a success whose record stayed begins from nothing, on a file of zeros. */
  lemma BeginsEmpty(j: Job, data: seq<Byte>)
    requires OneByte(j, data)
    ensures var s := Ended(data, None, None);
            && Enabled(j, s, Begin(true, true, 1))
            && Apply(j, s, Begin(true, true, 1)) == Ended(data, Some(Zeros(1)), Some(Queueing(true)))
  {
    OneChunk(j, data);
    OneMissing(j, data);
    var t := Apply(j, Ended(data, None, None), Begin(true, true, 1));
    assert t.attempt.value.workers == [Ready];
  }

  function Resumed(): Attempt { Attempt(true, {0}, [], [], [], {}, {}, false, None, 0, 0, 0, 0) }

  /** The one after that takes the row at its word. */
  lemma BeginsComplete(j: Job, data: seq<Byte>)
    requires OneByte(j, data)
    ensures var s := Ended(data, Some(Zeros(1)), None);
            && Enabled(j, s, Begin(true, true, 1))
            && Apply(j, s, Begin(true, true, 1)) == Ended(data, Some(Zeros(1)), Some(Resumed()))
  {
    OneChunk(j, data);
    var s := Ended(data, Some(Zeros(1)), None);
    var t := Apply(j, s, Begin(true, true, 1));
    assert Recovered(j, s.disk, true) == {0};
    OneMissing(j, data);
    assert t.attempt.value.workers == [];
    assert Zeros(1)[..1] == Zeros(1);
  }

  /**
   Honest sources do not save a download from a row that lies: after a success whose
   record was not deleted and a crash, the next attempt recovers a chunk that is not
   there, and its digest check fails.
   */
  lemma HonestDownloadFails(j: Job, data: seq<Byte>)
    requires OneByte(j, data) && j.digest(data) == j.expected && j.digest(Zeros(1)) != j.expected
    ensures var s := Ended(data, Some(Zeros(1)), Some(Resumed()));
            Reached(j, s, HonestSources(j, data)) && Enabled(j, s, Wipe)
  {
    var ok := HonestSources(j, data);
    HonestPermits(j, data);
    Settles(j, data, ok);
    ReachedThen(j, Settling(data), Deliver(false), ok);
    assert Apply(j, Settling(data), Deliver(false)) == Ended(data, None, None);
    BeginsEmpty(j, data);
    ReachedThen(j, Ended(data, None, None), Begin(true, true, 1), ok);
    ReachedThen(j, Ended(data, Some(Zeros(1)), Some(Queueing(true))), Crash, ok);
    BeginsComplete(j, data);
    ReachedThen(j, Ended(data, Some(Zeros(1)), None), Begin(true, true, 1), ok);
    OneChunk(j, data);
  }
}
