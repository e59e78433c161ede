/**
 One fleet node: its in-flight table, the wait channels it hands to local callers,
 and everything that touches them — local requests, peer messages, the reaper.

 Channels live in a bank so that a second close, or a send after a close (both of
 which abort the program), can be seen: `panicked` records it.
 */
module Coordinator {
  import opened Prelude

  type PeerId = string
  type Hash = string
  type ChanId = nat

  const SELF: PeerId := ""

  datatype Outcome = Success | PeerFetchFailed | FetchError(reason: string)

  /** A `chan error` of capacity one; `taken` values have been received. */
  datatype WaitChan = WaitChan(sent: seq<Outcome>, taken: nat, closes: nat, handedOut: bool)

  datatype Bank = Bank(chans: seq<WaitChan>, panicked: bool)

  datatype FetchState = FetchState(
    size: int, offset: int, fetcher: PeerId, nonce: nat, startTime: int, lastUpdate: int, waiters: seq<ChanId>)

  datatype Node = Node(inFlight: map<Hash, FetchState>, bank: Bank)

  // ----- channels -----------------------------------------------------------

  /** A send that gives up when the buffer is full, then a close. */
  function Release(b: Bank, w: ChanId, o: Outcome): Bank {
    if |b.chans| <= w || b.chans[w].closes > 0 then b.(panicked := true)
    else
      var ch := b.chans[w];
      var sent := if |ch.sent| <= ch.taken then ch.sent + [o] else ch.sent;
      b.(chans := b.chans[w := ch.(sent := sent, closes := 1)])
  }

  function ReleaseAll(b: Bank, ws: seq<ChanId>, o: Outcome): Bank
    decreases |ws|
  {
    if ws == [] then b else ReleaseAll(Release(b, ws[0], o), ws[1..], o)
  }

  function Make(b: Bank): (r: (Bank, ChanId)) {
    (b.(chans := b.chans + [WaitChan([], 0, 0, true)]), |b.chans|)
  }

  // ----- the locked sections, as functions ----------------------------------

  function Drop(n: Node, h: Hash, o: Outcome): Node {
    if h in n.inFlight then Node(n.inFlight - {h}, ReleaseAll(n.bank, n.inFlight[h].waiters, o)) else n
  }

  /** Queue a new wait channel on `h`, recording `fetcher` when nobody is recorded yet. */
  function Enqueue(n: Node, h: Hash, size: int, fetcher: PeerId, nonce: nat, now: int): (Node, ChanId) {
    var (bank, w) := Make(n.bank);
    var st := if h in n.inFlight then n.inFlight[h] else FetchState(size, 0, fetcher, nonce, now, now, []);
    (Node(n.inFlight[h := st.(waiters := st.waiters + [w])], bank), w)
  }

  function ClaimSelf(n: Node, h: Hash, size: int, nonce: nat, now: int): Node {
    n.(inFlight := n.inFlight[h := FetchState(size, 0, SELF, nonce, now, now, [])])
  }

  function StartFetching(n: Node, h: Hash, size: int, nonce: nat, now: int): Node {
    if h in n.inFlight then
      n.(inFlight := n.inFlight[h := n.inFlight[h].(size := size, fetcher := SELF, nonce := nonce,
                                                    startTime := now, lastUpdate := now)])
    else ClaimSelf(n, h, size, nonce, now)
  }

  function Touch(n: Node, h: Hash, offset: int, now: int): Node {
    if h in n.inFlight then n.(inFlight := n.inFlight[h := n.inFlight[h].(offset := offset, lastUpdate := now)]) else n
  }

  predicate Stale(st: FetchState, now: int, timeout: int) {
    st.fetcher != SELF && now - st.lastUpdate > timeout
  }

  datatype Message =
    | Fetching(hash: Hash, size: int, nonce: nat)
    | FetchProgress(hash: Hash, offset: int)
    | Fetched(hash: Hash)
    | FetchFailed(hash: Hash)
    | Have(hash: Hash)
    | DontHave(hash: Hash, nonce: nat, alsoWanting: bool)

  function OnMessage(n: Node, from: PeerId, m: Message, now: int): Node {
    match m
    case Fetching(h, size, nonce) =>
      if h in n.inFlight then n
      else n.(inFlight := n.inFlight[h := FetchState(size, 0, from, nonce, now, now, [])])
    case FetchProgress(h, offset) =>
      if h in n.inFlight && n.inFlight[h].fetcher == from then Touch(n, h, offset, now) else n
    case Fetched(h) =>
      if h in n.inFlight && n.inFlight[h].fetcher == from then Drop(n, h, Success) else n
    case FetchFailed(h) =>
      if h in n.inFlight && n.inFlight[h].fetcher == from then Drop(n, h, PeerFetchFailed) else n
    case _ => n
  }

  /** Reaping the entries of `order`, one after the other. */
  function Reap(n: Node, order: seq<Hash>): Node
    decreases |order|
  {
    if order == [] then n else Reap(Drop(n, order[0], PeerFetchFailed), order[1..])
  }

  // ----- conservation of wait channels --------------------------------------

  ghost predicate Holds(n: Node, h: Hash, k: int, w: int) {
    h in n.inFlight && 0 <= k < |n.inFlight[h].waiters| && n.inFlight[h].waiters[k] == w
  }

  /**
   Nothing has aborted; a channel in the table is open and there in one place only; it
   was closed at most once, and a handed-out channel that was closed had received
   exactly one outcome.
   */
  ghost predicate Sound(n: Node) {
    && !n.bank.panicked
    && (forall h, k, w :: Holds(n, h, k, w) ==> w < |n.bank.chans| && n.bank.chans[w].closes == 0)
    && (forall h, k, h', k', w :: Holds(n, h, k, w) && Holds(n, h', k', w) ==> h == h' && k == k')
    && (forall w :: 0 <= w < |n.bank.chans| ==> ChanOk(n.bank.chans[w]))
  }

  /** And no open channel is missing from the table. */
  ghost predicate Conserved(n: Node) {
    && Sound(n)
    && (forall w :: 0 <= w < |n.bank.chans| && n.bank.chans[w].closes == 0 ==> exists h, k :: Holds(n, h, k, w))
  }

  ghost predicate ChanOk(ch: WaitChan) {
    && ch.taken <= |ch.sent|
    && ch.closes <= 1
    && (ch.handedOut ==> |ch.sent| == ch.closes)
    && (ch.closes == 0 ==> ch.handedOut)
  }

  ghost predicate Open(b: Bank, ws: seq<ChanId>) {
    forall k :: 0 <= k < |ws| ==>
      ws[k] < |b.chans| && b.chans[ws[k]].closes == 0 && ChanOk(b.chans[ws[k]])
  }

  lemma ReleaseOne(b: Bank, w: ChanId, o: Outcome)
    requires w < |b.chans| && b.chans[w].closes == 0 && ChanOk(b.chans[w])
    ensures Release(b, w, o) == b.(chans := b.chans[w := b.chans[w].(sent := [o], closes := 1)])
  {
    assert b.chans[w].sent == [] && [] + [o] == [o];
  }

  /** Releasing distinct open channels closes exactly those, each with the outcome, and never aborts. */
  lemma {:induction false} ReleaseAllExactly(b: Bank, ws: seq<ChanId>, o: Outcome)
    requires !b.panicked && Distinct(ws) && Open(b, ws)
    ensures var r := ReleaseAll(b, ws, o);
            && !r.panicked
            && |r.chans| == |b.chans|
            && forall w :: 0 <= w < |b.chans| ==>
                 r.chans[w] == if w in ws then b.chans[w].(sent := [o], closes := 1) else b.chans[w]
    decreases |ws|
  {
    if ws != [] {
      ReleaseOne(b, ws[0], o);
      RestOpen(b, ws, o);
      ReleaseAllExactly(Release(b, ws[0], o), ws[1..], o);
    }
  }

  lemma RestOpen(b: Bank, ws: seq<ChanId>, o: Outcome)
    requires ws != [] && Distinct(ws) && Open(b, ws)
    ensures Distinct(ws[1..]) && Open(Release(b, ws[0], o), ws[1..])
    ensures ws[0] !in ws[1..] && forall w :: w in ws <==> w == ws[0] || w in ws[1..]
  {
    assert forall k :: 0 <= k < |ws[1..]| ==> ws[1..][k] == ws[k + 1] != ws[0];
    assert ws == [ws[0]] + ws[1..];
  }

  lemma WaitersOpen(n: Node, h: Hash)
    requires Sound(n) && h in n.inFlight
    ensures Distinct(n.inFlight[h].waiters) && Open(n.bank, n.inFlight[h].waiters)
  {
    var ws := n.inFlight[h].waiters;
    forall k | 0 <= k < |ws| ensures ws[k] < |n.bank.chans| && n.bank.chans[ws[k]].closes == 0 {
      assert Holds(n, h, k, ws[k]);
    }
    forall j, k | 0 <= j < k < |ws| ensures ws[j] != ws[k] {
      assert Holds(n, h, j, ws[j]) && Holds(n, h, k, ws[k]);
    }
  }

  /** Ending an entry gives each of its waiters the outcome and one close, and touches no other channel. */
  lemma DropExactly(n: Node, h: Hash, o: Outcome)
    requires Sound(n)
    ensures Sound(Drop(n, h, o)) && |Drop(n, h, o).bank.chans| == |n.bank.chans|
    ensures forall w :: 0 <= w < |n.bank.chans| ==>
              Drop(n, h, o).bank.chans[w] ==
                if h in n.inFlight && w in n.inFlight[h].waiters
                then n.bank.chans[w].(sent := [o], closes := 1) else n.bank.chans[w]
  {
    if h in n.inFlight {
      var ws := n.inFlight[h].waiters;
      WaitersOpen(n, h);
      ReleaseAllExactly(n.bank, ws, o);
      var r := Drop(n, h, o);
      forall g, k, w | Holds(r, g, k, w) ensures Holds(n, g, k, w) && w !in ws {
        assert Holds(n, g, k, w);
        if j :| 0 <= j < |ws| && ws[j] == w { assert Holds(n, h, j, w); }
      }
    }
  }

  lemma DropConserves(n: Node, h: Hash, o: Outcome)
    requires Conserved(n)
    ensures Conserved(Drop(n, h, o)) && |Drop(n, h, o).bank.chans| == |n.bank.chans|
    ensures forall w :: 0 <= w < |n.bank.chans| ==>
              Drop(n, h, o).bank.chans[w] ==
                if h in n.inFlight && w in n.inFlight[h].waiters
                then n.bank.chans[w].(sent := [o], closes := 1) else n.bank.chans[w]
  {
    DropExactly(n, h, o);
    var r := Drop(n, h, o);
    forall w | 0 <= w < |r.bank.chans| && r.bank.chans[w].closes == 0
      ensures exists g, k :: Holds(r, g, k, w)
    {
      var g, k :| Holds(n, g, k, w);
      assert Holds(r, g, k, w);
    }
  }

  lemma EnqueueSound(n: Node, h: Hash, size: int, fetcher: PeerId, nonce: nat, now: int)
    requires Sound(n)
    ensures Sound(Enqueue(n, h, size, fetcher, nonce, now).0)
  {
    var (r, w) := Enqueue(n, h, size, fetcher, nonce, now);
    var ws := if h in n.inFlight then n.inFlight[h].waiters else [];
    forall g, k, v | Holds(r, g, k, v) ensures Holds(n, g, k, v) || (g == h && k == |ws| && v == w) {
    }
  }

  /**
   A new waiter is queued last on exactly one entry: the one that is there, with its
   fetcher left as it was, or a new one under the given fetcher. Everybody else waits
   where they were.
   */
  lemma EnqueueConserves(n: Node, h: Hash, size: int, fetcher: PeerId, nonce: nat, now: int)
    requires Conserved(n)
    ensures Conserved(Enqueue(n, h, size, fetcher, nonce, now).0)
    ensures var (r, w) := Enqueue(n, h, size, fetcher, nonce, now);
            var ws := if h in n.inFlight then n.inFlight[h].waiters else [];
            && r.bank.chans == n.bank.chans + [WaitChan([], 0, 0, true)] && w == |n.bank.chans|
            && r.inFlight - {h} == n.inFlight - {h}
            && h in r.inFlight && r.inFlight[h].waiters == ws + [w]
            && (h in n.inFlight ==> r.inFlight[h].(waiters := ws) == n.inFlight[h])
            && (h !in n.inFlight ==>
                  && r.inFlight[h].fetcher == fetcher && r.inFlight[h].nonce == nonce && r.inFlight[h].size == size
                  && r.inFlight[h].offset == 0 && r.inFlight[h].startTime == now && r.inFlight[h].lastUpdate == now)
  {
    var (r, w) := Enqueue(n, h, size, fetcher, nonce, now);
    var ws := if h in n.inFlight then n.inFlight[h].waiters else [];
    assert Holds(r, h, |ws|, w);
    EnqueueSound(n, h, size, fetcher, nonce, now);
    forall v | 0 <= v < |r.bank.chans| && r.bank.chans[v].closes == 0
      ensures exists g, k :: Holds(r, g, k, v)
    {
      if v != w {
        var g, k :| Holds(n, g, k, v);
        assert Holds(r, g, k, v);
      }
    }
  }

  /** A table with no more waiters than before, over the same channels. */
  lemma FewerWaitersSound(n: Node, r: Node)
    requires Sound(n) && r.bank == n.bank
    requires forall h, k, w :: Holds(r, h, k, w) ==> Holds(n, h, k, w)
    ensures Sound(r)
  {
  }

  lemma SameWaitersConserve(n: Node, r: Node)
    requires Conserved(n) && r.bank == n.bank
    requires forall h, k, w :: Holds(r, h, k, w) <==> Holds(n, h, k, w)
    ensures Conserved(r)
  {
    forall w | 0 <= w < |r.bank.chans| && r.bank.chans[w].closes == 0
      ensures exists h, k :: Holds(r, h, k, w)
    {
      var h, k :| Holds(n, h, k, w);
      assert Holds(r, h, k, w);
    }
  }

  /**
   Winning the election overwrites whatever entry is there. That loses no wait
   channel exactly when the entry had no waiters.
   */
  lemma ClaimSelfConservesExactly(n: Node, h: Hash, size: int, nonce: nat, now: int)
    requires Conserved(n)
    ensures Conserved(ClaimSelf(n, h, size, nonce, now)) <==> (h in n.inFlight ==> n.inFlight[h].waiters == [])
  {
    var r := ClaimSelf(n, h, size, nonce, now);
    if h in n.inFlight && n.inFlight[h].waiters != [] {
      var w := n.inFlight[h].waiters[0];
      assert Holds(n, h, 0, w);
      if Conserved(r) {
        var g, k :| Holds(r, g, k, w);
        assert Holds(n, g, k, w);
      }
    } else {
      SameWaitersConserve(n, r);
    }
  }

  lemma MessageConserves(n: Node, from: PeerId, m: Message, now: int)
    requires Conserved(n)
    ensures Conserved(OnMessage(n, from, m, now))
  {
    var r := OnMessage(n, from, m, now);
    match m {
      case Fetching(_, _, _) => SameWaitersConserve(n, r);
      case FetchProgress(_, _) => SameWaitersConserve(n, r);
      case Fetched(h) => DropConserves(n, h, Success);
      case FetchFailed(h) => DropConserves(n, h, PeerFetchFailed);
      case _ =>
    }
  }

  // ----- local requests -----------------------------------------------------

  type RequestId = nat

  datatype Phase =
    | Joining                 // saw an entry under the read lock
    | Collecting              // pending want registered, claim window open
    | Waiting                 // was told to wait on its channel
    | LanGranted              // may copy from a LAN peer
    | MayFetch                // must fetch itself
    | Downloading             // NotifyFetching has run

  /** One run of `downloadPackage`; `chan` is the wait channel it was handed, if any. */
  datatype Request = Request(hash: Hash, phase: Phase, chan: Option<ChanId>)

  datatype World = World(node: Node, requests: map<RequestId, Request>)

  datatype Action =
    | Begin(r: RequestId, hash: Hash, cached: bool, reachesPeers: bool)
    | Join(r: RequestId)
    | Elect(r: RequestId, winner: Option<PeerId>, nonce: nat, size: int, now: int)
    | Follow(r: RequestId, from: PeerId, nonce: nat, size: int, now: int)
    | TakeLan(r: RequestId)
    | GiveUp(r: RequestId)
    | Receive(r: RequestId)
    | CopyFromLan(r: RequestId, ok: bool)
    | Start(r: RequestId, size: int, nonce: nat, now: int)
    | Complete(r: RequestId)
    | Fail(r: RequestId, reason: string)
    | Progress(hash: Hash, offset: int, now: int)
    | PeerSays(from: PeerId, message: Message, now: int)
    | ReapOne(hash: Hash, now: int, timeout: int)

  predicate InPhase(s: World, r: RequestId, p: Phase) {
    r in s.requests && s.requests[r].phase == p
  }

  predicate Enabled(s: World, a: Action) {
    match a
    case Begin(r, _, _, _) => r !in s.requests
    case Join(r) => InPhase(s, r, Joining)
    case Elect(r, _, _, _, _) => InPhase(s, r, Collecting)
    case Follow(r, _, _, _, _) => InPhase(s, r, Collecting)
    case TakeLan(r) => InPhase(s, r, Collecting)
    case GiveUp(r) => InPhase(s, r, Collecting) || InPhase(s, r, Waiting)
    case Receive(r) =>
      && InPhase(s, r, Waiting)
      && s.requests[r].chan.Some?
      && var w := s.requests[r].chan.value;
         && w < |s.node.bank.chans|
         && var ch := s.node.bank.chans[w]; ch.taken < |ch.sent| || ch.closes > 0
    case CopyFromLan(r, _) => InPhase(s, r, LanGranted)
    case Start(r, _, _, _) => InPhase(s, r, MayFetch)
    case Complete(r) => InPhase(s, r, Downloading)
    case Fail(r, _) => InPhase(s, r, Downloading)
    case Progress(_, _, _) => true
    case PeerSays(from, _, _) => from != SELF
    case ReapOne(h, now, timeout) => h in s.node.inFlight && Stale(s.node.inFlight[h], now, timeout)
  }

  function SetRequest(s: World, node: Node, r: RequestId, q: Request): World {
    World(node, s.requests[r := q])
  }

  /** A receive: the buffered value, or `nil` from a closed and drained channel. */
  function Taken(ch: WaitChan): (WaitChan, Outcome) {
    if ch.taken < |ch.sent| then (ch.(taken := ch.taken + 1), ch.sent[ch.taken]) else (ch, Success)
  }

  function Apply(s: World, a: Action): World
    requires Enabled(s, a)
  {
    match a
    case Begin(r, h, cached, reaches) =>
      var p := if cached then MayFetch
               else if h in s.node.inFlight then Joining
               else if reaches then Collecting else MayFetch;
      SetRequest(s, s.node, r, Request(h, p, None))
    case Join(r) =>
      var q := s.requests[r];
      if q.hash in s.node.inFlight then
        var (node, w) := Enqueue(s.node, q.hash, 0, SELF, 0, 0);
        SetRequest(s, node, r, q.(phase := Waiting, chan := Some(w)))
      else
        var b := s.node.bank;
        var node := s.node.(bank := b.(chans := b.chans + [WaitChan([], 0, 1, false)]));
        SetRequest(s, node, r, q.(phase := MayFetch))
    case Elect(r, winner, nonce, size, now) =>
      var q := s.requests[r];
      if winner.Some? then
        var (node, w) := Enqueue(s.node, q.hash, size, winner.value, nonce, now);
        SetRequest(s, node, r, q.(phase := Waiting, chan := Some(w)))
      else SetRequest(s, ClaimSelf(s.node, q.hash, size, nonce, now), r, q.(phase := MayFetch))
    case Follow(r, from, nonce, size, now) =>
      var q := s.requests[r];
      var (node, w) := Enqueue(s.node, q.hash, size, from, nonce, now);
      SetRequest(s, node, r, q.(phase := Waiting, chan := Some(w)))
    case TakeLan(r) => SetRequest(s, s.node, r, s.requests[r].(phase := LanGranted))
    case GiveUp(r) => SetRequest(s, s.node, r, s.requests[r].(phase := MayFetch))
    case Receive(r) =>
      var q := s.requests[r];
      var b := s.node.bank;
      var (ch, o) := Taken(b.chans[q.chan.value]);
      SetRequest(s, s.node.(bank := b.(chans := b.chans[q.chan.value := ch])), r,
                 q.(phase := if o.Success? then LanGranted else MayFetch))
    case CopyFromLan(r, ok) =>
      if ok then s.(requests := s.requests - {r}) else SetRequest(s, s.node, r, s.requests[r].(phase := MayFetch))
    case Start(r, size, nonce, now) =>
      SetRequest(s, StartFetching(s.node, s.requests[r].hash, size, nonce, now), r,
                 s.requests[r].(phase := Downloading))
    case Complete(r) => World(Drop(s.node, s.requests[r].hash, Success), s.requests - {r})
    case Fail(r, reason) => World(Drop(s.node, s.requests[r].hash, FetchError(reason)), s.requests - {r})
    case Progress(h, offset, now) => s.(node := Touch(s.node, h, offset, now))
    case PeerSays(from, m, now) => s.(node := OnMessage(s.node, from, m, now))
    case ReapOne(h, _, _) => s.(node := Drop(s.node, h, PeerFetchFailed))
  }

  /** The discipline of the caller: at most one active download per package. */
  ghost predicate SingleFlight(s: World) {
    forall r, q :: r in s.requests && q in s.requests && s.requests[r].hash == s.requests[q].hash ==> r == q
  }

  ghost predicate Executes(s: World, run: seq<Action>, disciplined: bool)
    decreases |run|
  {
    run != [] ==>
      && Enabled(s, run[0])
      && (disciplined ==> SingleFlight(Apply(s, run[0])))
      && Executes(Apply(s, run[0]), run[1..], disciplined)
  }

  ghost function After(s: World, run: seq<Action>, disciplined: bool): World
    requires Executes(s, run, disciplined)
    decreases |run|
  {
    if run == [] then s else After(Apply(s, run[0]), run[1..], disciplined)
  }

  const EMPTY := World(Node(map[], Bank([], false)), map[])

  /** Every queued channel belongs to an active request for that package. */
  ghost predicate Owned(s: World) {
    forall h, k, w :: Holds(s.node, h, k, w) ==> exists r :: Owns(s, r, h, w)
  }

  ghost predicate Owns(s: World, r: RequestId, h: Hash, w: int) {
    r in s.requests && s.requests[r].hash == h && s.requests[r].chan == Some(w)
  }

  ghost predicate RequestOk(s: World, q: Request) {
    && (q.phase.Joining? || q.phase.Collecting? ==> q.chan.None?)
    && (q.phase.LanGranted? && q.chan.Some? ==>
          q.chan.value < |s.node.bank.chans| && s.node.bank.chans[q.chan.value].closes > 0)
    && (q.chan.Some? ==> q.chan.value < |s.node.bank.chans| && s.node.bank.chans[q.chan.value].handedOut)
  }

  ghost predicate Inv(s: World) {
    && Conserved(s.node)
    && Owned(s)
    && forall r :: r in s.requests ==> RequestOk(s, s.requests[r])
  }

  /** Channels keep their place and only gain closes, requests stay or lose nothing they own. */
  lemma FrameKeeps(s: World, t: World)
    requires Inv(s) && Conserved(t.node)
    requires |s.node.bank.chans| <= |t.node.bank.chans|
    requires forall w :: 0 <= w < |s.node.bank.chans| ==>
               && s.node.bank.chans[w].closes <= t.node.bank.chans[w].closes
               && t.node.bank.chans[w].handedOut == s.node.bank.chans[w].handedOut
    requires forall h, k, w :: Holds(t.node, h, k, w) ==> Holds(s.node, h, k, w)
    requires forall r :: r in t.requests ==> r in s.requests && t.requests[r] == s.requests[r]
    requires forall r :: r in s.requests && r !in t.requests ==>
               forall k, w :: Holds(t.node, s.requests[r].hash, k, w) ==> s.requests[r].chan != Some(w)
    ensures Inv(t)
  {
    forall h, k, w | Holds(t.node, h, k, w) ensures exists r :: Owns(t, r, h, w) {
      var r :| Owns(s, r, h, w);
      assert Owns(t, r, h, w);
    }
  }

  lemma DropKeeps(s: World, h: Hash, o: Outcome, t: World)
    requires Inv(s) && t.node == Drop(s.node, h, o)
    requires t.requests == s.requests || exists r :: r in s.requests && s.requests[r].hash == h && t.requests == s.requests - {r}
    ensures Inv(t)
  {
    DropConserves(s.node, h, o);
    FrameKeeps(s, t);
  }

  /** Changing the phase of one request, and nothing it owns. */
  lemma PhaseKeeps(s: World, r: RequestId, q: Request, t: World)
    requires Inv(s) && t == SetRequest(s, s.node, r, q) && RequestOk(t, q)
    requires r in s.requests ==> q.hash == s.requests[r].hash && (s.requests[r].chan.Some? ==> q.chan == s.requests[r].chan)
    ensures Inv(t)
  {
    forall h, k, w | Holds(t.node, h, k, w) ensures exists r' :: Owns(t, r', h, w) {
      var r' :| Owns(s, r', h, w);
      assert Owns(t, r', h, w);
    }
  }

  lemma QueueKeeps(s: World, r: RequestId, size: int, from: PeerId, nonce: nat, now: int, t: World)
    requires Inv(s) && r in s.requests && s.requests[r].chan.None?
    requires var q := s.requests[r];
             var (node, w) := Enqueue(s.node, q.hash, size, from, nonce, now);
             t == SetRequest(s, node, r, q.(phase := Waiting, chan := Some(w)))
    ensures Inv(t)
  {
    var q := s.requests[r];
    var (node, w) := Enqueue(s.node, q.hash, size, from, nonce, now);
    EnqueueConserves(s.node, q.hash, size, from, nonce, now);
    forall h, k, v | Holds(t.node, h, k, v) ensures exists r' :: Owns(t, r', h, v) {
      if v == w {
        assert Holds(t.node, q.hash, |node.inFlight[q.hash].waiters| - 1, w);
        assert Owns(t, r, h, v);
      } else {
        assert Holds(s.node, h, k, v);
        var r' :| Owns(s, r', h, v);
        assert Owns(t, r', h, v);
      }
    }
  }

  lemma SameTableKeeps(s: World, node: Node)
    requires Inv(s) && node.bank == s.node.bank
    requires forall h, k, w :: Holds(node, h, k, w) <==> Holds(s.node, h, k, w)
    ensures Inv(s.(node := node))
  {
    SameWaitersConserve(s.node, node);
    FrameKeeps(s, s.(node := node));
  }

  lemma ElectKeeps(s: World, a: Action)
    requires Inv(s) && SingleFlight(s) && Enabled(s, a) && a.Elect?
    ensures Inv(Apply(s, a))
  {
    var q := s.requests[a.r];
    if a.winner.Some? {
      QueueKeeps(s, a.r, a.size, a.winner.value, a.nonce, a.now, Apply(s, a));
    } else {
      var node := ClaimSelf(s.node, q.hash, a.size, a.nonce, a.now);
      if q.hash in s.node.inFlight && s.node.inFlight[q.hash].waiters != [] {
        var w := s.node.inFlight[q.hash].waiters[0];
        assert Holds(s.node, q.hash, 0, w);
        assert false;
      }
      SameTableKeeps(s, node);
      PhaseKeeps(s.(node := node), a.r, q.(phase := MayFetch), Apply(s, a));
    }
  }

  lemma JoinKeeps(s: World, a: Action)
    requires Inv(s) && Enabled(s, a) && a.Join?
    ensures Inv(Apply(s, a))
  {
    var q := s.requests[a.r];
    if q.hash in s.node.inFlight {
      QueueKeeps(s, a.r, 0, SELF, 0, 0, Apply(s, a));
    } else {
      var b := s.node.bank;
      var node := s.node.(bank := b.(chans := b.chans + [WaitChan([], 0, 1, false)]));
      assert Conserved(node) by {
        assert forall h, k, w :: Holds(node, h, k, w) <==> Holds(s.node, h, k, w);
        forall w | 0 <= w < |node.bank.chans| && node.bank.chans[w].closes == 0
          ensures exists h, k :: Holds(node, h, k, w)
        {
          var h, k :| Holds(s.node, h, k, w);
          assert Holds(node, h, k, w);
        }
      }
      FrameKeeps(s, s.(node := node));
      PhaseKeeps(s.(node := node), a.r, q.(phase := MayFetch), Apply(s, a));
    }
  }

  lemma ReceiveKeeps(s: World, a: Action)
    requires Inv(s) && Enabled(s, a) && a.Receive?
    ensures Inv(Apply(s, a))
  {
    var q := s.requests[a.r];
    var b := s.node.bank;
    var w := q.chan.value;
    var (ch, o) := Taken(b.chans[w]);
    var node := s.node.(bank := b.(chans := b.chans[w := ch]));
    assert RequestOk(s, q) && ChanOk(b.chans[w]);
    assert Conserved(node) by {
      assert forall h, k, v :: Holds(node, h, k, v) <==> Holds(s.node, h, k, v);
      forall v | 0 <= v < |node.bank.chans| && node.bank.chans[v].closes == 0
        ensures exists h, k :: Holds(node, h, k, v)
      {
        var h, k :| Holds(s.node, h, k, v);
        assert Holds(node, h, k, v);
      }
    }
    FrameKeeps(s, s.(node := node));
    PhaseKeeps(s.(node := node), a.r, q.(phase := if o.Success? then LanGranted else MayFetch), Apply(s, a));
  }

  lemma StepKeeps(s: World, a: Action)
    requires Inv(s) && SingleFlight(s) && Enabled(s, a)
    ensures Inv(Apply(s, a))
  {
    var t := Apply(s, a);
    match a {
      case Begin(r, h, _, _) => PhaseKeeps(s, r, t.requests[r], t);
      case Join(r) => JoinKeeps(s, a);
      case Elect(_, _, _, _, _) => ElectKeeps(s, a);
      case Follow(r, from, nonce, size, now) =>
        assert RequestOk(s, s.requests[r]);
        QueueKeeps(s, r, size, from, nonce, now, t);
      case TakeLan(r) => assert RequestOk(s, s.requests[r]); PhaseKeeps(s, r, t.requests[r], t);
      case GiveUp(r) => assert RequestOk(s, s.requests[r]); PhaseKeeps(s, r, t.requests[r], t);
      case Receive(r) => ReceiveKeeps(s, a);
      case CopyFromLan(r, ok) =>
        assert RequestOk(s, s.requests[r]);
        if ok { FrameKeeps(s, t); } else { PhaseKeeps(s, r, t.requests[r], t); }
      case Start(r, size, nonce, now) =>
        assert RequestOk(s, s.requests[r]);
        SameTableKeeps(s, t.node);
        PhaseKeeps(s.(node := t.node), r, t.requests[r], t);
      case Complete(r) => DropKeeps(s, s.requests[r].hash, Success, t);
      case Fail(r, reason) => DropKeeps(s, s.requests[r].hash, FetchError(reason), t);
      case Progress(_, _, _) => SameTableKeeps(s, t.node);
      case PeerSays(from, m, now) => PeerKeeps(s, from, m, now);
      case ReapOne(h, _, _) => DropKeeps(s, h, PeerFetchFailed, t);
    }
  }

  lemma PeerKeeps(s: World, from: PeerId, m: Message, now: int)
    requires Inv(s)
    ensures Inv(s.(node := OnMessage(s.node, from, m, now)))
  {
    var t := s.(node := OnMessage(s.node, from, m, now));
    if t.node == s.node {
    } else if m.Fetched? {
      DropKeeps(s, m.hash, Success, t);
    } else if m.FetchFailed? {
      DropKeeps(s, m.hash, PeerFetchFailed, t);
    } else {
      SameTableKeeps(s, t.node);
    }
  }

  lemma {:induction false} RunKeeps(s: World, run: seq<Action>)
    requires Inv(s) && SingleFlight(s) && Executes(s, run, true)
    ensures Inv(After(s, run, true))
    decreases |run|
  {
    if run != [] {
      StepKeeps(s, run[0]);
      RunKeeps(Apply(s, run[0]), run[1..]);
    }
  }

  /**
   With one active download per package, no interleaving of local requests, peer
   messages, timeouts and reaper ticks aborts, loses a wait channel or closes one
   twice; and when no request is active, every channel handed out has received
   exactly one outcome and was closed exactly once.
   */
  lemma WaitersConserved(run: seq<Action>)
    requires Executes(EMPTY, run, true)
    ensures var s := After(EMPTY, run, true);
            && Conserved(s.node)
            && (s.requests == map[] ==>
                  forall w :: 0 <= w < |s.node.bank.chans| && s.node.bank.chans[w].handedOut ==>
                    |s.node.bank.chans[w].sent| == 1 && s.node.bank.chans[w].closes == 1)
  {
    RunKeeps(EMPTY, run);
    var s := After(EMPTY, run, true);
    if s.requests == map[] {
      forall w | 0 <= w < |s.node.bank.chans| && s.node.bank.chans[w].handedOut
        ensures s.node.bank.chans[w].closes == 1
      {
        assert forall h, k :: Holds(s.node, h, k, w) ==> exists r :: Owns(s, r, h, w);
        assert ChanOk(s.node.bank.chans[w]);
      }
    }
  }

  /** Without that discipline two overlapping local requests can strand a waiter. */
  lemma OverlappingRequestsStrandWaiter() returns (run: seq<Action>)
    ensures Executes(EMPTY, run, false) && !Conserved(After(EMPTY, run, false).node)
  {
    var b0, b1 := Begin(0, "h", false, true), Begin(1, "h", false, true);
    var f, e := Follow(0, "p", 1, 9, 0), Elect(1, None, 2, 9, 0);
    var s1 := Apply(EMPTY, b0);
    var s2 := Apply(s1, b1);
    var s3 := Apply(s2, f);
    var s4 := Apply(s3, e);
    run := [b0, b1, f, e];
    assert run[1..] == [b1, f, e] && run[1..][1..] == [f, e] && run[1..][1..][1..] == [e];
    assert Executes(s4, [], false) && Executes(s3, [e], false) && Executes(s2, [f, e], false);
    assert Executes(s1, [b1, f, e], false);
    assert After(EMPTY, run, false) == After(s1, [b1, f, e], false) == After(s2, [f, e], false)
           == After(s3, [e], false) == s4;
    assert s4.node.bank.chans[0].closes == 0;
    assert forall h, k :: !Holds(s4.node, h, k, 0);
  }

  // ----- who may touch an entry ---------------------------------------------

  /** A peer message or reaper tick that is not the recorded fetcher speaking about its own entry. */
  ghost predicate Foreign(a: Action, h: Hash, fetcher: PeerId) {
    || (a.PeerSays? && (a.from != fetcher || a.message.hash != h || a.message.Fetching?))
    || (a.ReapOne? && (a.hash != h || fetcher == SELF))
  }

  /** Whatever others say, an entry changes only when its recorded fetcher reports on it. */
  lemma {:induction false} OnlyTheFetcherSpeaks(s: World, run: seq<Action>, h: Hash)
    requires Executes(s, run, false) && h in s.node.inFlight
    requires forall k :: 0 <= k < |run| ==> Foreign(run[k], h, s.node.inFlight[h].fetcher)
    ensures var t := After(s, run, false); h in t.node.inFlight && t.node.inFlight[h] == s.node.inFlight[h]
    decreases |run|
  {
    if run != [] {
      var f := s.node.inFlight[h].fetcher;
      assert Foreign(run[0], h, f);
      forall k | 0 <= k < |run[1..]| ensures Foreign(run[1..][k], h, f) { assert run[1..][k] == run[k + 1]; }
      OnlyTheFetcherSpeaks(Apply(s, run[0]), run[1..], h);
    }
  }

  /** This node's own downloads survive every sequence of peer messages and reaper ticks, untouched. */
  lemma OwnEntrySurvives(s: World, run: seq<Action>, h: Hash)
    requires Executes(s, run, false) && h in s.node.inFlight && s.node.inFlight[h].fetcher == SELF
    requires forall k :: 0 <= k < |run| ==> run[k].ReapOne? || (run[k].PeerSays? && run[k].from != SELF)
    ensures var t := After(s, run, false); h in t.node.inFlight && t.node.inFlight[h] == s.node.inFlight[h]
  {
    OnlyTheFetcherSpeaks(s, run, h);
  }

  // ----- the reaper ---------------------------------------------------------

  ghost predicate Enumerates(order: seq<Hash>, hashes: set<Hash>) {
    && (forall h :: h in order <==> h in hashes)
    && (forall j, k :: 0 <= j < k < |order| ==> order[j] != order[k])
  }

  ghost predicate QueuedOn(n: Node, order: seq<Hash>, w: int) {
    exists h :: h in order && h in n.inFlight && w in n.inFlight[h].waiters
  }

  ghost function Failed(ch: WaitChan): WaitChan { ch.(sent := [PeerFetchFailed], closes := 1) }

  lemma QueuedOnce(n: Node, h: Hash, rest: seq<Hash>, w: int)
    requires Conserved(n) && h in n.inFlight && h !in rest
    ensures w in n.inFlight[h].waiters ==> !QueuedOn(n, rest, w)
    ensures QueuedOn(n, [h] + rest, w) <==> w in n.inFlight[h].waiters || QueuedOn(n, rest, w)
    ensures QueuedOn(Drop(n, h, PeerFetchFailed), rest, w) <==> QueuedOn(n, rest, w)
  {
    var m := Drop(n, h, PeerFetchFailed);
    if w in n.inFlight[h].waiters {
      var k :| 0 <= k < |n.inFlight[h].waiters| && n.inFlight[h].waiters[k] == w;
      assert Holds(n, h, k, w);
      forall g | g in rest && g in n.inFlight ensures w !in n.inFlight[g].waiters {
        forall j | 0 <= j < |n.inFlight[g].waiters| ensures n.inFlight[g].waiters[j] != w {
          assert Holds(n, g, j, n.inFlight[g].waiters[j]);
        }
      }
    }
    assert h in [h] + rest;
    if QueuedOn(n, rest, w) {
      var g :| g in rest && g in n.inFlight && w in n.inFlight[g].waiters;
      assert g in [h] + rest && g in m.inFlight;
    }
  }

  /**
   Reaping drops exactly the listed entries and fails exactly their waiters, each
   once, whatever the order of the table walk.
   */
  lemma {:induction false} ReapExactly(n: Node, order: seq<Hash>)
    requires Conserved(n) && Enumerates(order, set h | h in order) && forall h :: h in order ==> h in n.inFlight
    ensures var r := Reap(n, order);
            && Conserved(r)
            && r.inFlight == n.inFlight - (set h | h in order)
            && |r.bank.chans| == |n.bank.chans|
            && forall w :: 0 <= w < |n.bank.chans| ==>
                 r.bank.chans[w] == if QueuedOn(n, order, w) then Failed(n.bank.chans[w]) else n.bank.chans[w]
    decreases |order|
  {
    if order != [] {
      var h, rest := order[0], order[1..];
      assert forall k :: 0 <= k < |rest| ==> rest[k] == order[k + 1];
      assert order == [h] + rest;
      DropConserves(n, h, PeerFetchFailed);
      ReapExactly(Drop(n, h, PeerFetchFailed), rest);
      assert (set g | g in order) == {h} + (set g | g in rest);
      forall w | 0 <= w < |n.bank.chans| { QueuedOnce(n, h, rest, w); }
    }
  }

  // ----- the coordinator ----------------------------------------------------

  /** A registered claim window: our nonce and what was routed to each of its channels so far. */
  datatype PendingWant = PendingWant(
    nonce: nat,
    haves: seq<PeerId>,
    claims: seq<(PeerId, nat)>,
    bids: seq<(PeerId, nat)>,
    denials: seq<(PeerId, nat, bool)>)

  /** Answers reach the claim window of their package, and no other. */
  function Routed(pending: map<Hash, PendingWant>, from: PeerId, m: Message): map<Hash, PendingWant> {
    if m.hash !in pending then pending
    else
      var pw := pending[m.hash];
      match m
      case Fetching(h, _, nonce) => pending[h := pw.(claims := pw.claims + [(from, nonce)])]
      case Have(h) => pending[h := pw.(haves := pw.haves + [from])]
      case DontHave(h, nonce, also) => pending[h := pw.(denials := pw.denials + [(from, nonce, also)])]
      case _ => pending
  }

  /** A rival's want joins the bids of the window, if there is one. */
  function Bid(pending: map<Hash, PendingWant>, from: PeerId, h: Hash, nonce: nat): map<Hash, PendingWant> {
    if h in pending then pending[h := pending[h].(bids := pending[h].bids + [(from, nonce)])] else pending
  }

  datatype Event = Told(from: PeerId, message: Message) | Asked(from: PeerId, hash: Hash, nonce: nat)

  function Deliver(pending: map<Hash, PendingWant>, e: Event): map<Hash, PendingWant> {
    match e
    case Told(from, m) => Routed(pending, from, m)
    case Asked(from, h, nonce) => Bid(pending, from, h, nonce)
  }

  function Delivered(pending: map<Hash, PendingWant>, events: seq<Event>): map<Hash, PendingWant>
    decreases |events|
  {
    if events == [] then pending
    else Deliver(Delivered(pending, events[..|events| - 1]), events[|events| - 1])
  }

  /** What the events say about package `h`, channel by channel, in order of arrival. */
  function Answers(nonce: nat, events: seq<Event>, h: Hash): PendingWant
    decreases |events|
  {
    if events == [] then PendingWant(nonce, [], [], [], [])
    else
      var pw := Answers(nonce, events[..|events| - 1], h);
      match events[|events| - 1]
      case Told(from, Have(g)) => if g == h then pw.(haves := pw.haves + [from]) else pw
      case Told(from, Fetching(g, _, n)) => if g == h then pw.(claims := pw.claims + [(from, n)]) else pw
      case Told(from, DontHave(g, n, also)) => if g == h then pw.(denials := pw.denials + [(from, n, also)]) else pw
      case Told(_, _) => pw
      case Asked(from, g, n) => if g == h then pw.(bids := pw.bids + [(from, n)]) else pw
  }

  /**
   From its registration on, a claim window holds exactly what arrived about its
   package, in order; opening and closing it changes no other window.
   */
  lemma {:induction false} WindowHoldsExactly(pending: map<Hash, PendingWant>, h: Hash, nonce: nat, events: seq<Event>)
    ensures var windows := Delivered(pending[h := Answers(nonce, [], h)], events);
            && h in windows && windows[h] == Answers(nonce, events, h)
            && windows - {h} == Delivered(pending, events) - {h}
    decreases |events|
  {
    if events == [] {
      assert pending[h := Answers(nonce, [], h)] - {h} == pending - {h};
    } else {
      var before, e := events[..|events| - 1], events[|events| - 1];
      WindowHoldsExactly(pending, h, nonce, before);
      DeliverElsewhere(Delivered(pending[h := Answers(nonce, [], h)], before), Delivered(pending, before), h, e);
    }
  }

  lemma DeliverElsewhere(p: map<Hash, PendingWant>, q: map<Hash, PendingWant>, h: Hash, e: Event)
    requires p - {h} == q - {h}
    ensures Deliver(p, e) - {h} == Deliver(q, e) - {h}
  {
    forall g | g != h
      ensures g in Deliver(p, e) <==> g in Deliver(q, e)
      ensures g in Deliver(p, e) ==> Deliver(p, e)[g] == Deliver(q, e)[g]
    {
      assert g in p <==> g in p - {h};
      assert g in q <==> g in q - {h};
    }
  }

  datatype Reply = HaveReply | FetchingReply(size: int, nonce: nat) | DontHaveReply(nonce: nat, alsoWanting: bool)

  class FleetCoordinator {
    var inFlight: map<Hash, FetchState>
    var chans: seq<WaitChan>
    var panicked: bool
    var pendingWants: map<Hash, PendingWant>

    ghost function State(): Node
      reads this
    {
      Node(inFlight, Bank(chans, panicked))
    }

    constructor ()
      ensures State() == EMPTY.node && pendingWants == map[]
    {
      inFlight, chans, panicked, pendingWants := map[], [], false, map[];
    }

    /** A request opens its claim window before it asks anybody, and closes it when it returns. */
    method RegisterWant(h: Hash, nonce: nat)
      modifies `pendingWants
      ensures pendingWants == old(pendingWants)[h := Answers(nonce, [], h)]
    {
      pendingWants := pendingWants[h := PendingWant(nonce, [], [], [], [])];
    }

    method RetireWant(h: Hash)
      modifies `pendingWants
      ensures pendingWants == old(pendingWants) - {h}
    {
      pendingWants := pendingWants - {h};
    }

    method ReleaseWaiters(ws: seq<ChanId>, o: Outcome)
      modifies `chans, `panicked
      ensures State().bank == ReleaseAll(old(State().bank), ws, o)
    {
      var i := 0;
      while i < |ws|
        invariant 0 <= i <= |ws|
        invariant ReleaseAll(Bank(chans, panicked), ws[i..], o) == ReleaseAll(old(State().bank), ws, o)
      {
        var w := ws[i];
        assert ws[i..] == [w] + ws[i + 1..];
        if |chans| <= w || chans[w].closes > 0 {
          panicked := true;
        } else {
          var ch := chans[w];
          if |ch.sent| <= ch.taken {
            ch := ch.(sent := ch.sent + [o]);
          }
          chans := chans[w := ch.(closes := 1)];
        }
        i := i + 1;
      }
    }

    /** NotifyComplete, NotifyFailed and a peer's report all end an entry this way. */
    method EndEntry(h: Hash, o: Outcome)
      modifies `inFlight, `chans, `panicked
      ensures State() == Drop(old(State()), h, o)
    {
      if h in inFlight {
        ReleaseWaiters(inFlight[h].waiters, o);
        inFlight := inFlight - {h};
      }
    }

    method NotifyFetching(h: Hash, size: int, nonce: nat, now: int)
      modifies `inFlight
      ensures State() == StartFetching(old(State()), h, size, nonce, now)
      ensures h in inFlight && inFlight[h].waiters == if h in old(inFlight) then old(inFlight)[h].waiters else []
      ensures inFlight[h].fetcher == SELF && inFlight[h].nonce == nonce && inFlight[h].size == size
      ensures inFlight[h].startTime == now && inFlight[h].lastUpdate == now
      ensures inFlight - {h} == old(inFlight) - {h}
    {
      if h in inFlight {
        var st := inFlight[h];
        st := st.(size := size, fetcher := SELF, nonce := nonce, startTime := now, lastUpdate := now);
        inFlight := inFlight[h := st];
      } else {
        inFlight := inFlight[h := FetchState(size, 0, SELF, nonce, now, now, [])];
      }
    }

    method NotifyProgress(h: Hash, offset: int, now: int)
      modifies `inFlight
      ensures State() == Touch(old(State()), h, offset, now)
      ensures inFlight.Keys == old(inFlight).Keys && inFlight - {h} == old(inFlight) - {h}
      ensures h in inFlight ==> inFlight[h] == old(inFlight)[h].(offset := offset, lastUpdate := now)
    {
      if h in inFlight {
        inFlight := inFlight[h := inFlight[h].(offset := offset, lastUpdate := now)];
      }
    }

    /** The end of the claim window, for the winner and for a loser. */
    method Decide(h: Hash, size: int, winner: Option<PeerId>, winnerNonce: nat, nonce: nat, now: int)
      returns (waitOn: Option<ChanId>)
      modifies `inFlight, `chans
      ensures winner.None? ==> waitOn.None? && State() == ClaimSelf(old(State()), h, size, nonce, now)
      ensures winner.None? ==> inFlight == old(inFlight)[h := FetchState(size, 0, SELF, nonce, now, now, [])]
      ensures winner.Some? ==>
                waitOn.Some? && (State(), waitOn.value) == Enqueue(old(State()), h, size, winner.value, winnerNonce, now)
    {
      if winner.Some? {
        var w := |chans|;
        chans := chans + [WaitChan([], 0, 0, true)];
        if h in inFlight {
          inFlight := inFlight[h := inFlight[h].(waiters := inFlight[h].waiters + [w])];
        } else {
          inFlight := inFlight[h := FetchState(size, 0, winner.value, winnerNonce, now, now, [w])];
          assert [] + [w] == [w];
        }
        waitOn := Some(w);
      } else {
        inFlight := inFlight[h := FetchState(size, 0, SELF, nonce, now, now, [])];
        waitOn := None;
      }
    }

    method HandleMessage(from: PeerId, m: Message, now: int)
      modifies `inFlight, `chans, `panicked, `pendingWants
      ensures State() == OnMessage(old(State()), from, m, now)
      ensures pendingWants == Routed(old(pendingWants), from, m)
    {
      match m {
        case Fetching(h, size, nonce) =>
          if h !in inFlight {
            inFlight := inFlight[h := FetchState(size, 0, from, nonce, now, now, [])];
          }
          if h in pendingWants {
            var pw := pendingWants[h];
            pendingWants := pendingWants[h := pw.(claims := pw.claims + [(from, nonce)])];
          }
        case FetchProgress(h, offset) =>
          if h in inFlight && inFlight[h].fetcher == from { NotifyProgress(h, offset, now); }
        case Fetched(h) =>
          if h in inFlight && inFlight[h].fetcher == from { EndEntry(h, Success); }
        case FetchFailed(h) =>
          if h in inFlight && inFlight[h].fetcher == from { EndEntry(h, PeerFetchFailed); }
        case Have(h) =>
          if h in pendingWants {
            var pw := pendingWants[h];
            pendingWants := pendingWants[h := pw.(haves := pw.haves + [from])];
          }
        case DontHave(h, nonce, also) =>
          if h in pendingWants {
            var pw := pendingWants[h];
            pendingWants := pendingWants[h := pw.(denials := pw.denials + [(from, nonce, also)])];
          }
      }
    }

    /** The second locked section of the want handler: is this node fetching the package? */
    method AnswerFetching(h: Hash) returns (reply: Option<Reply>)
      ensures reply.Some? <==> h in inFlight && inFlight[h].fetcher == SELF
      ensures reply.Some? ==> reply.value == FetchingReply(inFlight[h].size, inFlight[h].nonce)
    {
      if h in inFlight && inFlight[h].fetcher == SELF {
        return Some(FetchingReply(inFlight[h].size, inFlight[h].nonce));
      }
      return None;
    }

    /** The third: the bid is routed to the own window, if it is open, and the answer tells the own bid. */
    method AnswerRacing(from: PeerId, h: Hash, nonce: nat) returns (reply: Reply)
      modifies `pendingWants
      ensures pendingWants == Bid(old(pendingWants), from, h, nonce)
      ensures reply == if h in old(pendingWants) then DontHaveReply(old(pendingWants)[h].nonce, true) else DontHaveReply(0, false)
    {
      if h in pendingWants {
        var pw := pendingWants[h];
        pendingWants := pendingWants[h := pw.(bids := pw.bids + [(from, nonce)])];
        return DontHaveReply(pw.nonce, true);
      }
      return DontHaveReply(0, false);
    }

    /** A want is answered by what this node knows, most useful answer first; a rival's bid is routed. */
    method HandleWant(from: PeerId, h: Hash, nonce: nat, cached: bool) returns (reply: Reply)
      modifies `pendingWants
      ensures reply.HaveReply? <==> cached
      ensures reply.FetchingReply? <==> !cached && h in inFlight && inFlight[h].fetcher == SELF
      ensures reply.FetchingReply? ==> reply.nonce == inFlight[h].nonce && reply.size == inFlight[h].size
      ensures reply.DontHaveReply? ==>
                && reply.alsoWanting == (h in old(pendingWants))
                && reply.nonce == (if h in old(pendingWants) then old(pendingWants)[h].nonce else 0)
      ensures pendingWants == if reply.DontHaveReply? then Bid(old(pendingWants), from, h, nonce) else old(pendingWants)
    {
      if cached { return HaveReply; }
      var fetching := AnswerFetching(h);
      if fetching.Some? { return fetching.value; }
      reply := AnswerRacing(from, h, nonce);
    }

    method ReapStale(now: int, timeout: int) returns (ghost order: seq<Hash>)
      modifies `inFlight, `chans, `panicked
      ensures Enumerates(order, set h | h in old(inFlight) && old(inFlight)[h].fetcher != SELF
                                        && now - old(inFlight)[h].lastUpdate > timeout)
      ensures State() == Reap(old(State()), order)
    {
      order := [];
      var todo := inFlight.Keys;
      ghost var done: set<Hash> := {};
      while todo != {}
        invariant todo !! done && todo + done == old(inFlight).Keys
        invariant forall h :: h in order <==> h in done && Stale(old(inFlight)[h], now, timeout)
        invariant forall j, k :: 0 <= j < k < |order| ==> order[j] != order[k]
        invariant forall h :: h in todo ==> h in inFlight && inFlight[h] == old(inFlight)[h]
        invariant State() == Reap(old(State()), order)
        decreases todo
      {
        var h :| h in todo;
        todo := todo - {h};
        done := done + {h};
        if Stale(inFlight[h], now, timeout) {
          ReapThen(old(State()), order, h);
          EndEntry(h, PeerFetchFailed);
          assert forall g :: g in order + [h] <==> g in order || g == h;
          order := order + [h];
        }
      }
      assert done == old(inFlight).Keys;
    }
  }

  lemma {:induction false} ReapThen(n: Node, order: seq<Hash>, h: Hash)
    ensures Reap(n, order + [h]) == Drop(Reap(n, order), h, PeerFetchFailed)
    decreases |order|
  {
    if order == [] {
      assert order + [h] == [h] && [h][1..] == [];
    } else {
      assert (order + [h])[0] == order[0] && (order + [h])[1..] == order[1..] + [h];
      ReapThen(Drop(n, order[0], PeerFetchFailed), order[1..], h);
    }
  }
}
