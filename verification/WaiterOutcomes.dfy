/**
 What a waiter is told, over every run of a node, with or without the discipline of
 one request per package: success exactly when its entry ended in success.
 */
module WaiterOutcomes {
  import opened Coordinator
  import opened Prelude

  ghost predicate Queued(n: Node, h: Hash, w: int) { h in n.inFlight && w in n.inFlight[h].waiters }

  /** Each waiter of `h` has received `o` and one close; all other channels and entries are as they were. */
  ghost predicate Ended(n: Node, h: Hash, o: Outcome, r: Node) {
    && r.inFlight == n.inFlight - {h}
    && |r.bank.chans| == |n.bank.chans|
    && forall w :: 0 <= w < |n.bank.chans| ==>
         if Queued(n, h, w) then r.bank.chans[w].sent == [o] && r.bank.chans[w].closes == 1
         else r.bank.chans[w] == n.bank.chans[w]
  }

  /** The recorded fetcher's report reaches every waiter: success after `Fetched`, failure after `FetchFailed`. */
  lemma ReportReachesWaiters(n: Node, from: PeerId, h: Hash, now: int)
    requires Sound(n) && h in n.inFlight && n.inFlight[h].fetcher == from
    ensures Ended(n, h, Success, OnMessage(n, from, Fetched(h), now))
    ensures Ended(n, h, PeerFetchFailed, OnMessage(n, from, FetchFailed(h), now))
  {
    DropExactly(n, h, Success);
    DropExactly(n, h, PeerFetchFailed);
  }

  /** An announced fetch is recorded under the announcing peer, unless there is an entry; progress is its fetcher's. */
  lemma AnnouncementRecorded(n: Node, from: PeerId, h: Hash, size: int, nonce: nat, offset: int, now: int)
    ensures var r := OnMessage(n, from, Fetching(h, size, nonce), now);
            && r.bank == n.bank && r.inFlight - {h} == n.inFlight - {h} && h in r.inFlight
            && if h in n.inFlight then r.inFlight[h] == n.inFlight[h]
               else && r.inFlight[h].fetcher == from && r.inFlight[h].nonce == nonce && r.inFlight[h].size == size
                    && r.inFlight[h].lastUpdate == now && r.inFlight[h].waiters == []
    ensures var r := OnMessage(n, from, FetchProgress(h, offset), now);
            && r.bank == n.bank && r.inFlight.Keys == n.inFlight.Keys && r.inFlight - {h} == n.inFlight - {h}
            && (h in n.inFlight && n.inFlight[h].fetcher == from ==>
                  && r.inFlight[h].offset == offset && r.inFlight[h].lastUpdate == now
                  && r.inFlight[h].waiters == n.inFlight[h].waiters && r.inFlight[h].fetcher == from)
            && (h in n.inFlight && n.inFlight[h].fetcher != from ==> r.inFlight[h] == n.inFlight[h])
  {
  }

  // ----- how an entry ends --------------------------------------------------

  /** Entry `h` ends in success: this node completed it, or its recorded fetcher did. */
  ghost predicate Succeeds(s: World, a: Action, h: Hash) {
    && h in s.node.inFlight
    && (|| (a.Complete? && a.r in s.requests && s.requests[a.r].hash == h)
        || (a.PeerSays? && a.message == Fetched(h) && a.from == s.node.inFlight[h].fetcher))
  }

  /** Entry `h` ends in failure: this node failed, its recorded fetcher did, or it was reaped. */
  ghost predicate Breaks(s: World, a: Action, h: Hash) {
    && h in s.node.inFlight
    && (|| (a.Fail? && a.r in s.requests && s.requests[a.r].hash == h)
        || (a.PeerSays? && a.message == FetchFailed(h) && a.from == s.node.inFlight[h].fetcher)
        || (a.ReapOne? && a.hash == h))
  }

  ghost predicate ToldSuccess(n: Node, w: nat) { w < |n.bank.chans| && n.bank.chans[w].sent == [Success] }

  ghost predicate ToldFailure(n: Node, w: nat) {
    w < |n.bank.chans| && |n.bank.chans[w].sent| == 1 && !n.bank.chans[w].sent[0].Success?
  }

  ghost predicate Grants(s: World, a: Action, w: nat, h: Hash) { Queued(s.node, h, w) && Succeeds(s, a, h) }

  ghost predicate Denies(s: World, a: Action, w: nat, h: Hash) { Queued(s.node, h, w) && Breaks(s, a, h) }

  /** What changes for channel `w` between two nodes when no entry ends. */
  ghost predicate Untold(n: Node, r: Node) {
    && |n.bank.chans| <= |r.bank.chans|
    && (forall w :: 0 <= w < |n.bank.chans| ==> r.bank.chans[w].sent == n.bank.chans[w].sent)
    && (forall w :: |n.bank.chans| <= w < |r.bank.chans| ==> r.bank.chans[w].sent == [])
  }

  lemma DropTells(n: Node, h: Hash, o: Outcome, w: nat)
    requires Sound(n)
    ensures Sound(Drop(n, h, o))
    ensures ToldSuccess(Drop(n, h, o), w) <==> ToldSuccess(n, w) || (Queued(n, h, w) && o.Success?)
    ensures ToldFailure(Drop(n, h, o), w) <==> ToldFailure(n, w) || (Queued(n, h, w) && !o.Success?)
  {
    DropExactly(n, h, o);
    if Queued(n, h, w) {
      var k :| 0 <= k < |n.inFlight[h].waiters| && n.inFlight[h].waiters[k] == w;
      assert Holds(n, h, k, w);
      assert ChanOk(n.bank.chans[w]);
    }
  }

  /** The steps that end no entry tell nobody anything. */
  lemma OtherStepTells(s: World, a: Action)
    requires Sound(s.node) && Enabled(s, a)
    requires !a.Complete? && !a.Fail? && !a.ReapOne? && !(a.PeerSays? && (a.message.Fetched? || a.message.FetchFailed?))
    ensures Sound(Apply(s, a).node) && Untold(s.node, Apply(s, a).node)
  {
    var t := Apply(s, a);
    match a {
      case Join(r) => JoinTells(s, a);
      case Elect(r, winner, nonce, size, now) =>
        if winner.Some? { EnqueueSound(s.node, s.requests[r].hash, size, winner.value, nonce, now); }
        else { FewerWaitersSound(s.node, t.node); }
      case Follow(r, from, nonce, size, now) => EnqueueSound(s.node, s.requests[r].hash, size, from, nonce, now);
      case Receive(r) => ReceiveTells(s, a);
      case Start(_, _, _, _) => FewerWaitersSound(s.node, t.node);
      case Progress(_, _, _) => FewerWaitersSound(s.node, t.node);
      case PeerSays(_, _, _) => FewerWaitersSound(s.node, t.node);
      case _ =>
    }
  }

  lemma JoinTells(s: World, a: Action)
    requires Sound(s.node) && Enabled(s, a) && a.Join?
    ensures Sound(Apply(s, a).node) && Untold(s.node, Apply(s, a).node)
  {
    var t, h := Apply(s, a), s.requests[a.r].hash;
    if h in s.node.inFlight {
      EnqueueSound(s.node, h, 0, SELF, 0, 0);
    } else {
      assert forall g, k, w :: Holds(t.node, g, k, w) <==> Holds(s.node, g, k, w);
    }
  }

  lemma ReceiveTells(s: World, a: Action)
    requires Sound(s.node) && Enabled(s, a) && a.Receive?
    ensures Sound(Apply(s, a).node) && Untold(s.node, Apply(s, a).node)
  {
    var t := Apply(s, a);
    assert ChanOk(s.node.bank.chans[s.requests[a.r].chan.value]);
    assert forall g, k, w :: Holds(t.node, g, k, w) <==> Holds(s.node, g, k, w);
  }

  /** One step: who is told what. */
  lemma StepTells(s: World, a: Action, w: nat)
    requires Sound(s.node) && Enabled(s, a)
    ensures Sound(Apply(s, a).node)
    ensures ToldSuccess(Apply(s, a).node, w) <==> ToldSuccess(s.node, w) || exists h :: Grants(s, a, w, h)
    ensures ToldFailure(Apply(s, a).node, w) <==> ToldFailure(s.node, w) || exists h :: Denies(s, a, w, h)
  {
    match a {
      case Complete(r) => EndTells(s, a, s.requests[r].hash, Success, w);
      case Fail(r, reason) => EndTells(s, a, s.requests[r].hash, FetchError(reason), w);
      case ReapOne(h, _, _) => EndTells(s, a, h, PeerFetchFailed, w);
      case PeerSays(from, m, now) => PeerTells(s, a, w);
      case _ => OtherStepTells(s, a);
    }
  }

  lemma EndTells(s: World, a: Action, h: Hash, o: Outcome, w: nat)
    requires Sound(s.node) && Enabled(s, a) && Apply(s, a).node == Drop(s.node, h, o)
    requires h in s.node.inFlight ==> if o.Success? then Succeeds(s, a, h) else Breaks(s, a, h)
    requires forall g :: (Succeeds(s, a, g) ==> g == h && o.Success?) && (Breaks(s, a, g) ==> g == h && !o.Success?)
    ensures Sound(Apply(s, a).node)
    ensures ToldSuccess(Apply(s, a).node, w) <==> ToldSuccess(s.node, w) || exists g :: Grants(s, a, w, g)
    ensures ToldFailure(Apply(s, a).node, w) <==> ToldFailure(s.node, w) || exists g :: Denies(s, a, w, g)
  {
    DropTells(s.node, h, o, w);
    if Queued(s.node, h, w) { assert if o.Success? then Grants(s, a, w, h) else Denies(s, a, w, h); }
  }

  lemma PeerTells(s: World, a: Action, w: nat)
    requires Sound(s.node) && Enabled(s, a) && a.PeerSays?
    ensures Sound(Apply(s, a).node)
    ensures ToldSuccess(Apply(s, a).node, w) <==> ToldSuccess(s.node, w) || exists h :: Grants(s, a, w, h)
    ensures ToldFailure(Apply(s, a).node, w) <==> ToldFailure(s.node, w) || exists h :: Denies(s, a, w, h)
  {
    var m, h := a.message, a.message.hash;
    if !m.Fetched? && !m.FetchFailed? {
      OtherStepTells(s, a);
    } else if h in s.node.inFlight && s.node.inFlight[h].fetcher == a.from {
      EndTells(s, a, h, if m.Fetched? then Success else PeerFetchFailed, w);
    }
  }

  // ----- runs ---------------------------------------------------------------

  /** Some step of the run ended the entry `w` was queued on, package `h`, in success. */
  ghost predicate Granted(s: World, run: seq<Action>, d: bool, w: nat, h: Hash)
    requires Executes(s, run, d)
    decreases |run|
  {
    run != [] && (Grants(s, run[0], w, h) || Granted(Apply(s, run[0]), run[1..], d, w, h))
  }

  /** Some step of the run ended it in failure. */
  ghost predicate Denied(s: World, run: seq<Action>, d: bool, w: nat, h: Hash)
    requires Executes(s, run, d)
    decreases |run|
  {
    run != [] && (Denies(s, run[0], w, h) || Denied(Apply(s, run[0]), run[1..], d, w, h))
  }

  /** A channel has one owner, who is queued under its own package, and nothing was taken from it while its owner waits. */
  ghost predicate Kept(s: World) {
    && (forall r :: r in s.requests && s.requests[r].chan.Some? ==>
          && s.requests[r].chan.value < |s.node.bank.chans|
          && s.node.bank.chans[s.requests[r].chan.value].handedOut
          && (s.requests[r].phase.Waiting? ==> s.node.bank.chans[s.requests[r].chan.value].taken == 0))
    && (forall r, q :: r in s.requests && q in s.requests && s.requests[r].chan.Some? ==>
          s.requests[r].chan == s.requests[q].chan ==> r == q)
    && (forall h, k, w :: Holds(s.node, h, k, w) ==> OnlyFor(s, w, h))
  }

  /** Channel `w` exists and belongs to requests for `h` only. */
  ghost predicate OnlyFor(s: World, w: int, h: Hash) {
    && 0 <= w < |s.node.bank.chans|
    && forall r :: r in s.requests && s.requests[r].chan == Some(w) ==> s.requests[r].hash == h
  }

  lemma KeptFrame(s: World, t: World)
    requires Kept(s) && |s.node.bank.chans| <= |t.node.bank.chans|
    requires forall w :: 0 <= w < |s.node.bank.chans| ==>
               && t.node.bank.chans[w].handedOut == s.node.bank.chans[w].handedOut
               && t.node.bank.chans[w].taken == s.node.bank.chans[w].taken
    requires forall h, k, w :: Holds(t.node, h, k, w) ==> Holds(s.node, h, k, w)
    requires forall r :: r in t.requests && t.requests[r].chan.Some? ==>
               && r in s.requests && t.requests[r].hash == s.requests[r].hash && t.requests[r].chan == s.requests[r].chan
               && (t.requests[r].phase.Waiting? ==> s.requests[r].phase.Waiting?)
    ensures Kept(t)
  {
    forall h, k, w | Holds(t.node, h, k, w) ensures OnlyFor(t, w, h) { assert OnlyFor(s, w, h); }
  }

  lemma KeptQueue(s: World, r: RequestId, size: int, from: PeerId, nonce: nat, now: int, t: World)
    requires Kept(s) && r in s.requests
    requires var q := s.requests[r];
             var (node, w) := Enqueue(s.node, q.hash, size, from, nonce, now);
             t == SetRequest(s, node, r, q.(phase := Waiting, chan := Some(w)))
    ensures Kept(t)
  {
    var made, h0 := |s.node.bank.chans|, s.requests[r].hash;
    forall h, k, w | Holds(t.node, h, k, w) ensures OnlyFor(t, w, h) {
      if w == made {
        assert h != h0 ==> Holds(s.node, h, k, w);
        assert h != h0 ==> OnlyFor(s, w, h);
      } else {
        assert Holds(s.node, h, k, w);
        assert OnlyFor(s, w, h);
      }
    }
  }

  lemma KeptReceive(s: World, a: Action)
    requires Kept(s) && Enabled(s, a) && a.Receive?
    ensures Kept(Apply(s, a))
  {
    var t := Apply(s, a);
    forall h, k, w | Holds(t.node, h, k, w) ensures OnlyFor(t, w, h) {
      assert Holds(s.node, h, k, w);
      assert OnlyFor(s, w, h);
    }
  }

  lemma KeptDrop(s: World, h: Hash, o: Outcome, t: World)
    requires Sound(s.node) && Kept(s) && t.node == Drop(s.node, h, o)
    requires forall r :: r in t.requests ==> r in s.requests && t.requests[r] == s.requests[r]
    ensures Kept(t)
  {
    DropExactly(s.node, h, o);
    KeptFrame(s, t);
  }

  lemma KeptWait(s: World, a: Action)
    requires Kept(s) && Enabled(s, a) && (a.Join? || a.Elect? || a.Follow?)
    ensures Kept(Apply(s, a))
  {
    var t := Apply(s, a);
    match a {
      case Join(r) =>
        if s.requests[r].hash in s.node.inFlight { KeptQueue(s, r, 0, SELF, 0, 0, t); } else { KeptFrame(s, t); }
      case Elect(r, winner, nonce, size, now) =>
        if winner.Some? { KeptQueue(s, r, size, winner.value, nonce, now, t); } else { KeptFrame(s, t); }
      case Follow(r, from, nonce, size, now) => KeptQueue(s, r, size, from, nonce, now, t);
    }
  }

  lemma KeptRest(s: World, a: Action)
    requires Kept(s) && Enabled(s, a)
    requires a.Begin? || a.TakeLan? || a.GiveUp? || a.CopyFromLan? || a.Start? || a.Progress?
    ensures Kept(Apply(s, a))
  {
    KeptFrame(s, Apply(s, a));
  }

  lemma KeptStep(s: World, a: Action)
    requires Sound(s.node) && Kept(s) && Enabled(s, a)
    ensures Kept(Apply(s, a))
  {
    match a {
      case Receive(_) => KeptReceive(s, a);
      case Complete(r) => KeptDrop(s, s.requests[r].hash, Success, Apply(s, a));
      case Fail(r, reason) => KeptDrop(s, s.requests[r].hash, FetchError(reason), Apply(s, a));
      case PeerSays(_, _, _) => KeptPeer(s, a);
      case ReapOne(h, _, _) => KeptDrop(s, h, PeerFetchFailed, Apply(s, a));
      case _ => if a.Join? || a.Elect? || a.Follow? { KeptWait(s, a); } else { KeptRest(s, a); }
    }
  }

  lemma KeptPeer(s: World, a: Action)
    requires Sound(s.node) && Kept(s) && Enabled(s, a) && a.PeerSays?
    ensures Kept(Apply(s, a))
  {
    var t := Apply(s, a);
    if t.node == s.node {
    } else if a.message.Fetched? {
      KeptDrop(s, a.message.hash, Success, t);
    } else if a.message.FetchFailed? {
      KeptDrop(s, a.message.hash, PeerFetchFailed, t);
    } else {
      KeptFrame(s, t);
    }
  }

  /** A channel never changes hands: new requests get new channels. */
  lemma OwnerStays(s: World, a: Action, w: nat, h: Hash)
    requires Sound(s.node) && Enabled(s, a) && OnlyFor(s, w, h)
    ensures OnlyFor(Apply(s, a), w, h)
  {
    match a {
      case Complete(r) => DropExactly(s.node, s.requests[r].hash, Success);
      case Fail(r, reason) => DropExactly(s.node, s.requests[r].hash, FetchError(reason));
      case PeerSays(_, m, _) => DropExactly(s.node, m.hash, Success); DropExactly(s.node, m.hash, PeerFetchFailed);
      case ReapOne(g, _, _) => DropExactly(s.node, g, PeerFetchFailed);
      case _ =>
    }
  }

  lemma {:induction false} OwnerStaysRun(s: World, run: seq<Action>, d: bool, w: nat, h: Hash)
    requires Sound(s.node) && Executes(s, run, d) && OnlyFor(s, w, h)
    ensures OnlyFor(After(s, run, d), w, h)
    decreases |run|
  {
    if run != [] {
      StepTells(s, run[0], w);
      OwnerStays(s, run[0], w, h);
      OwnerStaysRun(Apply(s, run[0]), run[1..], d, w, h);
    }
  }

  /** The channel of a request was queued, whenever it was queued, on that request's own package. */
  lemma QueuedForOwner(s: World, run: seq<Action>, d: bool, r: RequestId, w: nat, g: Hash)
    requires Sound(s.node) && Kept(s) && Executes(s, run, d) && Queued(s.node, g, w)
    requires var t := After(s, run, d); r in t.requests && t.requests[r].chan == Some(w)
    ensures After(s, run, d).requests[r].hash == g
  {
    var k :| 0 <= k < |s.node.inFlight[g].waiters| && s.node.inFlight[g].waiters[k] == w;
    assert Holds(s.node, g, k, w);
    OwnerStaysRun(s, run, d, w, g);
  }

  lemma {:induction false} RunTells(s: World, run: seq<Action>, d: bool, r: RequestId, w: nat, h: Hash)
    requires Sound(s.node) && Kept(s) && Executes(s, run, d)
    requires var t := After(s, run, d); r in t.requests && t.requests[r].chan == Some(w) && t.requests[r].hash == h
    ensures var t := After(s, run, d);
            && Sound(t.node) && Kept(t)
            && (ToldSuccess(t.node, w) <==> ToldSuccess(s.node, w) || Granted(s, run, d, w, h))
            && (ToldFailure(t.node, w) <==> ToldFailure(s.node, w) || Denied(s, run, d, w, h))
    decreases |run|
  {
    if run != [] {
      var a := run[0];
      StepTells(s, a, w);
      KeptStep(s, a);
      forall g | Queued(s.node, g, w) ensures g == h { QueuedForOwner(s, run, d, r, w, g); }
      RunTells(Apply(s, a), run[1..], d, r, w, h);
    }
  }

  /**
   In every run, a waiting request that receives from its channel is granted the LAN
   copy if and only if the entry it was queued on, that of its own package, was ended
   by a completion on this node or by the recorded fetcher reporting that it has the
   package; it must fetch itself if and only if the entry failed or was reaped.
   */
  lemma GrantedExactly(run: seq<Action>, d: bool, r: RequestId)
    requires Executes(EMPTY, run, d) && Enabled(After(EMPTY, run, d), Receive(r))
    ensures var s := After(EMPTY, run, d);
            var q, phase := s.requests[r], Apply(s, Receive(r)).requests[r].phase;
            && (phase.LanGranted? <==> Granted(EMPTY, run, d, q.chan.value, q.hash))
            && (phase.MayFetch? <==> Denied(EMPTY, run, d, q.chan.value, q.hash))
  {
    var s := After(EMPTY, run, d);
    var w := s.requests[r].chan.value;
    RunTells(EMPTY, run, d, r, w, s.requests[r].hash);
    assert ChanOk(s.node.bank.chans[w]);
  }

  // ----- requests -----------------------------------------------------------

  /** Where a request stands after a step of its own. */
  lemma RequestStands(s: World, a: Action)
    requires Enabled(s, a)
    ensures var t := Apply(s, a);
            match a
            case Begin(r, h, cached, reaches) =>
              && r in t.requests && t.requests[r].hash == h && t.requests[r].chan == None && t.node == s.node
              && (cached ==> t.requests[r].phase.MayFetch?)
              && (!cached && h in s.node.inFlight ==> t.requests[r].phase.Joining?)
              && (!cached && h !in s.node.inFlight ==> t.requests[r].phase == if reaches then Collecting else MayFetch)
            case TakeLan(r) => t.requests == s.requests[r := s.requests[r].(phase := LanGranted)] && t.node == s.node
            case GiveUp(r) => t.requests == s.requests[r := s.requests[r].(phase := MayFetch)] && t.node == s.node
            case CopyFromLan(r, ok) =>
              && t.node == s.node && (r in t.requests <==> !ok)
              && (!ok ==> t.requests == s.requests[r := s.requests[r].(phase := MayFetch)])
            case _ => true
  {
  }

  /** Whoever downloads is recorded as the fetcher of its package. */
  ghost predicate SelfRecorded(s: World) {
    forall r :: r in s.requests && s.requests[r].phase.Downloading? ==>
      s.requests[r].hash in s.node.inFlight && s.node.inFlight[s.requests[r].hash].fetcher == SELF
  }

  lemma SelfRecordedStep(s: World, a: Action)
    requires SelfRecorded(s) && SingleFlight(s) && Enabled(s, a)
    ensures SelfRecorded(Apply(s, a))
  {
  }

  lemma {:induction false} SelfRecordedRun(s: World, run: seq<Action>)
    requires SelfRecorded(s) && SingleFlight(s) && Executes(s, run, true)
    ensures SelfRecorded(After(s, run, true))
    decreases |run|
  {
    if run != [] {
      SelfRecordedStep(s, run[0]);
      SelfRecordedRun(Apply(s, run[0]), run[1..]);
    }
  }

  /**
   With one active download per package, in every run: while a request downloads, this
   node is recorded as the fetcher of its package, whatever peers say and the reaper
   does, so that wants for it are answered.
   */
  lemma DownloadsAreRecorded(run: seq<Action>, r: RequestId)
    requires Executes(EMPTY, run, true) && InPhase(After(EMPTY, run, true), r, Downloading)
    ensures var s := After(EMPTY, run, true);
            s.requests[r].hash in s.node.inFlight && s.node.inFlight[s.requests[r].hash].fetcher == SELF
  {
    SelfRecordedRun(EMPTY, run);
  }

  function Rank(p: Phase): nat {
    match p
    case Joining => 5
    case Collecting => 4
    case Waiting => 4
    case MayFetch => 3
    case Downloading => 2
    case LanGranted => 1
  }

  /** The next step of a request left to itself: it gives up waiting and fetches. */
  function NextStep(r: RequestId, p: Phase): Action {
    match p
    case Joining => Join(r)
    case Collecting => GiveUp(r)
    case Waiting => GiveUp(r)
    case MayFetch => Start(r, 0, 0, 0)
    case Downloading => Complete(r)
    case LanGranted => CopyFromLan(r, true)
  }

  /** From every state each request can finish by its own steps, and leaves the others where they are. */
  lemma {:induction false} RequestFinishes(s: World, r: RequestId) returns (run: seq<Action>)
    requires r in s.requests
    ensures Executes(s, run, false) && After(s, run, false).requests == s.requests - {r}
    decreases Rank(s.requests[r].phase)
  {
    var a := NextStep(r, s.requests[r].phase);
    var t := Apply(s, a);
    if r in t.requests {
      var rest := RequestFinishes(t, r);
      run := [a] + rest;
      assert run[0] == a && run[1..] == rest;
      assert t.requests - {r} == s.requests - {r};
    } else {
      run := [a];
      assert run[1..] == [];
      assert Executes(t, [], false);
    }
  }
}
