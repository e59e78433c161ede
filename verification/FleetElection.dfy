/**
 One election for one cold package, played by a whole fleet.

 Every node runs the same program: a local request (`WantPackage`, then the WAN
 download or the LAN copy) and a message handler. Each locked section of the
 program is one step, so the three locked sections of the want handler (cache,
 in-flight table, pending wants) are three steps that anything may separate.
 Sent messages stay in `soup` for ever, so the model covers every delay, every
 reordering, every duplication and every loss.

 No WAN download fails here; the failure and reaper paths of one node are in module
 `Coordinator`. Requests may be cancelled, waits run out and copies fail.
 */
module FleetElection {
  import opened Prelude

  type Id = nat

  datatype Msg =
    | Want(nonce: nat)
    | Have
    | Fetching(nonce: nat)
    | DontHave(nonce: nat, alsoWanting: bool)
    | Fetched

  datatype Packet = Packet(src: Id, dst: Id, msg: Msg)

  datatype Bid = Bid(peer: Id, nonce: nat)

  /** The in-flight entry of this package; a node that fetches itself is its own fetcher. */
  datatype Claim = Claim(fetcher: Id, nonce: nat)

  datatype Phase =
    | Idle
    | Joining(on: Id)         // saw a claim under the read lock
    | Registered              // pending want recorded, nothing sent yet
    | Collecting              // in the select loop
    | Waiting(on: Id)         // ActionWaitPeer
    | Released(on: Id)        // the wait channel delivered success
    | Lan(from: Id)           // ActionFetchLAN
    | Served                  // copied from a LAN peer
    | Wan                     // ActionFetchWAN
    | Announced               // NotifyFetching has run
    | Stored                  // downloaded and in the cache
    | Done                    // NotifyComplete has run

  datatype Handler =
    | Free
    | WantAtInFlight(packet: Packet)     // cache checked: not cached
    | WantAtPending(packet: Packet)      // in-flight table checked: not fetching
    | FetchingAtPending(packet: Packet)  // claim recorded, not routed yet

  datatype Node = Node(
    phase: Phase,
    cached: bool,
    claim: Option<Claim>,
    awaiting: set<Id>,
    elected: Option<Bid>,
    inbox: set<Packet>,    // routed to the pending want
    seen: set<Packet>,     // consumed by the select loop
    campaigned: bool,      // found no claim to wait on and asked the fleet
    strayed: bool,         // went to the WAN without an election
    handler: Handler)

  datatype Fleet = Fleet(nodes: map<Id, Node>, soup: set<Packet>)

  datatype Config = Config(nodes: set<Id>, wanters: set<Id>, nonce: map<Id, nat>)

  ghost predicate ValidConfig(c: Config) {
    && c.wanters <= c.nodes
    && c.nonce.Keys == c.wanters
    && forall v, w :: v in c.wanters && w in c.wanters && c.nonce[v] == c.nonce[w] ==> v == w
  }

  const FRESH := Node(Idle, false, None, {}, None, {}, {}, false, false, Free)

  function Init(c: Config): Fleet {
    Fleet(map i | i in c.nodes :: FRESH, {})
  }

  predicate FetchesWan(p: Phase) { p.Wan? || p.Announced? || p.Stored? || p.Done? }

  predicate Pending(n: Node) { n.phase.Registered? || n.phase.Collecting? }

  predicate Undecided(n: Node) { n.phase.Idle? || n.phase.Joining? || Pending(n) }

  predicate MidWant(n: Node) { n.handler.WantAtInFlight? || n.handler.WantAtPending? }

  // ----- one node's reactions -----------------------------------------------

  predicate IsBid(p: Packet) {
    p.msg.Want? || (p.msg.DontHave? && p.msg.alsoWanting)
  }

  function Fold(own: nat, elected: Option<Bid>, peer: Id, nonce: nat): Option<Bid> {
    if nonce < own && (elected.None? || nonce < elected.value.nonce) then Some(Bid(peer, nonce)) else elected
  }

  function Decide(n: Node, self: Id, own: nat): Node {
    match n.elected
    case Some(b) =>
      n.(phase := Waiting(b.peer), claim := if n.claim.Some? then n.claim else Some(Claim(b.peer, b.nonce)))
    case None =>
      n.(phase := Wan, claim := Some(Claim(self, own)))
  }

  /** One pass through the select loop that takes packet `p`. */
  function Select(n: Node, self: Id, own: nat, p: Packet): Node {
    var n := n.(seen := n.seen + {p});
    match p.msg
    case Have => n.(phase := Lan(p.src))
    case Want(k) => n.(elected := Fold(own, n.elected, p.src, k))
    case Fetching(k) =>
      if k < own then
        n.(phase := Waiting(p.src), claim := if n.claim.Some? then n.claim else Some(Claim(p.src, k)))
      else n
    case DontHave(k, also) =>
      var n := n.(elected := if also then Fold(own, n.elected, p.src, k) else n.elected,
                  awaiting := n.awaiting - {p.src});
      if n.awaiting == {} then Decide(n, self, own) else n
    case Fetched => n
  }

  /** The first locked section of the handler for packet `p`. */
  function Accept(n: Node, p: Packet): Node {
    match p.msg
    case Want(_) => if n.cached then n else n.(handler := WantAtInFlight(p))
    case Have => if Pending(n) then n.(inbox := n.inbox + {p}) else n
    case DontHave(_, _) => if Pending(n) then n.(inbox := n.inbox + {p}) else n
    case Fetching(k) =>
      n.(claim := if n.claim.None? then Some(Claim(p.src, k)) else n.claim, handler := FetchingAtPending(p))
    case Fetched =>
      if n.claim.Some? && n.claim.value.fetcher == p.src then
        n.(claim := None, phase := if n.phase.Waiting? then Released(n.phase.on) else n.phase)
      else n
  }

  function AcceptReplies(n: Node, self: Id, p: Packet): set<Packet> {
    if p.msg.Want? && n.cached then {Packet(self, p.src, Have)} else {}
  }

  /** The next locked section of a handler that is under way. */
  function Continue(n: Node, self: Id): Node {
    match n.handler
    case Free => n
    case WantAtInFlight(p) =>
      if n.claim.Some? && n.claim.value.fetcher == self then n.(handler := Free) else n.(handler := WantAtPending(p))
    case WantAtPending(p) =>
      n.(handler := Free, inbox := if Pending(n) then n.inbox + {p} else n.inbox)
    case FetchingAtPending(p) =>
      n.(handler := Free, inbox := if Pending(n) then n.inbox + {p} else n.inbox)
  }

  function ContinueReplies(c: Config, n: Node, self: Id): set<Packet> {
    match n.handler
    case WantAtInFlight(p) =>
      if n.claim.Some? && n.claim.value.fetcher == self
      then {Packet(self, p.src, Fetching(n.claim.value.nonce))} else {}
    case WantAtPending(p) =>
      if Pending(n) && self in c.nonce then {Packet(self, p.src, DontHave(c.nonce[self], true))}
      else {Packet(self, p.src, DontHave(0, false))}
    case _ => {}
  }

  function ToAll(src: Id, peers: set<Id>, msg: Msg): set<Packet> {
    set q | q in peers :: Packet(src, q, msg)
  }

  // ----- fleet steps --------------------------------------------------------

  datatype Action =
    | Register(i: Id)
    | Join(i: Id)             // the write lock after `Joining`
    | Broadcast(i: Id, reached: set<Id>)
    | Receive(i: Id, packet: Packet)
    | Handle(i: Id)
    | Consume(i: Id, packet: Packet)
    | Timer(i: Id)
    | Announce(i: Id, nonce: nat)
    | Store(i: Id)
    | Finish(i: Id)
    | Copy(i: Id)
    | Stray(i: Id)            // the request is cancelled, its wait runs out, or the copy fails

  predicate Enabled(c: Config, s: Fleet, a: Action) {
    && a.i in s.nodes
    && var n := s.nodes[a.i];
       match a
       case Register(i) => i in c.wanters && n.phase.Idle?
       case Join(i) => n.phase.Joining?
       case Stray(i) => n.phase.Collecting? || n.phase.Waiting? || n.phase.Released? || n.phase.Lan?
       case Broadcast(i, reached) => i in c.nonce && n.phase.Registered? && reached <= c.nodes - {i}
       case Receive(i, p) => p in s.soup && p.dst == i && n.handler.Free?
       case Handle(i) => !n.handler.Free?
       case Consume(i, p) => i in c.nonce && n.phase.Collecting? && p in n.inbox
       case Timer(i) => i in c.nonce && n.phase.Collecting?
       case Announce(i, _) => n.phase.Wan?
       case Store(i) => n.phase.Announced?
       case Finish(i) => n.phase.Stored?
       case Copy(i) =>
         && (n.phase.Released? ==> n.phase.on in s.nodes && s.nodes[n.phase.on].cached)
         && (n.phase.Lan? ==> n.phase.from in s.nodes && s.nodes[n.phase.from].cached)
         && (n.phase.Released? || n.phase.Lan?)
  }

  function Next(c: Config, s: Fleet, a: Action): Node
    requires Enabled(c, s, a)
  {
    var n := s.nodes[a.i];
    match a
    case Register(i) =>
      if n.claim.Some? then n.(phase := Joining(n.claim.value.fetcher)) else n.(phase := Registered)
    case Join(i) =>
      if n.claim.Some? then n.(phase := Waiting(n.phase.on)) else n.(phase := Wan, strayed := true)
    case Stray(i) => n.(phase := Wan, strayed := true)
    case Broadcast(i, reached) =>
      n.(phase := if reached == {} then Wan else Collecting, awaiting := reached, campaigned := true)
    case Receive(i, p) => Accept(n, p)
    case Handle(i) => Continue(n, i)
    case Consume(i, p) => Select(n, i, c.nonce[i], p)
    case Timer(i) => Decide(n, i, c.nonce[i])
    case Announce(i, k) => n.(phase := Announced, claim := Some(Claim(i, k)))
    case Store(i) => n.(phase := Stored, cached := true)
    case Finish(i) => n.(phase := Done, claim := None)
    case Copy(i) => n.(phase := Served, cached := true)
  }

  function Sends(c: Config, s: Fleet, a: Action): set<Packet>
    requires Enabled(c, s, a)
  {
    var n := s.nodes[a.i];
    match a
    case Broadcast(i, reached) => ToAll(i, reached, Want(c.nonce[i]))
    case Receive(i, p) => AcceptReplies(n, i, p)
    case Handle(i) => ContinueReplies(c, n, i)
    case Announce(i, k) => ToAll(i, c.nodes - {i}, Fetching(k))
    case Finish(i) => ToAll(i, c.nodes - {i}, Fetched)
    case _ => {}
  }

  function Apply(c: Config, s: Fleet, a: Action): Fleet
    requires Enabled(c, s, a)
  {
    Fleet(s.nodes[a.i := Next(c, s, a)], s.soup + Sends(c, s, a))
  }

  /** `run` can be executed from `s` and every step of it satisfies `ok`. */
  ghost predicate Executes(c: Config, s: Fleet, run: seq<Action>, ok: (Fleet, Action) -> bool)
    decreases |run|
  {
    run != [] ==>
      Enabled(c, s, run[0]) && ok(s, run[0]) && Executes(c, Apply(c, s, run[0]), run[1..], ok)
  }

  ghost function After(c: Config, s: Fleet, run: seq<Action>, ok: (Fleet, Action) -> bool): Fleet
    requires Executes(c, s, run, ok)
    decreases |run|
  {
    if run == [] then s else After(c, Apply(c, s, run[0]), run[1..], ok)
  }

  lemma {:induction false} ExecutesThen(c: Config, s: Fleet, run: seq<Action>, a: Action, ok: (Fleet, Action) -> bool)
    requires Executes(c, s, run, ok)
    requires Enabled(c, After(c, s, run, ok), a) && ok(After(c, s, run, ok), a)
    ensures Executes(c, s, run + [a], ok)
    ensures After(c, s, run + [a], ok) == Apply(c, After(c, s, run, ok), a)
    decreases |run|
  {
    if run == [] {
      assert run + [a] == [a] && [a][1..] == [];
    } else {
      assert (run + [a])[0] == run[0] && (run + [a])[1..] == run[1..] + [a];
      ExecutesThen(c, Apply(c, s, run[0]), run[1..], a, ok);
    }
  }

  // ----- every run: who fetches from the WAN --------------------------------

  ghost predicate Any(s: Fleet, a: Action) { true }

  /** Nothing consumed tells this node that somebody else should fetch. */
  ghost predicate Quiet(own: nat, seen: set<Packet>) {
    forall p :: p in seen ==>
      && (IsBid(p) ==> own <= p.msg.nonce)
      && !p.msg.Have?
      && (p.msg.Fetching? ==> own <= p.msg.nonce)
  }

  /** `elected` is the least consumed bid below our own nonce, if there is one. */
  ghost predicate LeastBid(own: nat, seen: set<Packet>, elected: Option<Bid>) {
    match elected
    case None => forall p :: p in seen && IsBid(p) ==> own <= p.msg.nonce
    case Some(b) =>
      && b.nonce < own
      && (exists p :: p in seen && IsBid(p) && p.src == b.peer && p.msg.nonce == b.nonce)
      && forall p :: p in seen && IsBid(p) ==> b.nonce <= p.msg.nonce
  }

  ghost predicate Truthful(own: nat, n: Node) {
    && (Pending(n) || n.phase.Idle? ==> LeastBid(own, n.seen, n.elected))
    && (n.phase.Idle? || n.phase.Joining? || n.phase.Registered? ==> n.seen == {} && !n.campaigned)
    && (Undecided(n) ==> !n.strayed)
    && (n.phase.Collecting? ==>
          && n.campaigned
          && forall p :: p in n.seen ==> !p.msg.Have? && (p.msg.Fetching? ==> own <= p.msg.nonce))
    && (!Undecided(n) ==> (FetchesWan(n.phase) <==> n.strayed || (n.campaigned && Quiet(own, n.seen))))
  }

  lemma DecideTruthful(n: Node, self: Id, own: nat)
    requires LeastBid(own, n.seen, n.elected) && n.campaigned && !n.strayed
    requires forall p :: p in n.seen ==> !p.msg.Have? && (p.msg.Fetching? ==> own <= p.msg.nonce)
    ensures Truthful(own, Decide(n, self, own))
  {
  }

  lemma FoldLeastBid(own: nat, seen: set<Packet>, elected: Option<Bid>, p: Packet)
    requires LeastBid(own, seen, elected) && IsBid(p)
    ensures LeastBid(own, seen + {p}, Fold(own, elected, p.src, p.msg.nonce))
  {
    var e := Fold(own, elected, p.src, p.msg.nonce);
    assert p in seen + {p};
    if e == elected && e.Some? {
      var q :| q in seen && IsBid(q) && q.src == e.value.peer && q.msg.nonce == e.value.nonce;
      assert q in seen + {p};
    }
  }

  lemma SelectTruthful(n: Node, self: Id, own: nat, p: Packet)
    requires Truthful(own, n) && n.phase.Collecting?
    ensures Truthful(own, Select(n, self, own, p))
  {
    if IsBid(p) {
      FoldLeastBid(own, n.seen, n.elected, p);
    } else {
      assert LeastBid(own, n.seen + {p}, n.elected) by {
        if n.elected.Some? {
          var q :| q in n.seen && IsBid(q) && q.src == n.elected.value.peer && q.msg.nonce == n.elected.value.nonce;
          assert q in n.seen + {p};
        }
      }
    }
    assert p in n.seen + {p};
  }

  ghost predicate AllTruthful(c: Config, s: Fleet) {
    && s.nodes.Keys == c.nodes
    && forall i :: i in c.wanters && i in s.nodes && i in c.nonce ==> Truthful(c.nonce[i], s.nodes[i])
  }

  lemma OwnTruthful(c: Config, s: Fleet, a: Action)
    requires Enabled(c, s, a) && a.i in c.nonce && Truthful(c.nonce[a.i], s.nodes[a.i])
    ensures Truthful(c.nonce[a.i], Next(c, s, a))
  {
    var n := s.nodes[a.i];
    match a {
      case Consume(i, p) => SelectTruthful(n, i, c.nonce[i], p);
      case Timer(i) => DecideTruthful(n, i, c.nonce[i]);
      case Receive(i, p) =>
        assert Accept(n, p).seen == n.seen && Accept(n, p).elected == n.elected;
      case _ =>
        assert Next(c, s, a).seen == n.seen && Next(c, s, a).elected == n.elected;
    }
  }

  lemma StepTruthful(c: Config, s: Fleet, a: Action)
    requires ValidConfig(c) && AllTruthful(c, s) && Enabled(c, s, a)
    ensures AllTruthful(c, Apply(c, s, a))
  {
    if a.i in c.wanters { OwnTruthful(c, s, a); }
  }

  lemma {:induction false} RunTruthful(c: Config, s: Fleet, run: seq<Action>)
    requires ValidConfig(c) && AllTruthful(c, s) && Executes(c, s, run, Any)
    ensures AllTruthful(c, After(c, s, run, Any))
    decreases |run|
  {
    if run != [] {
      StepTruthful(c, s, run[0]);
      RunTruthful(c, Apply(c, s, run[0]), run[1..]);
    }
  }

  /** Sent to the WAN: without an election, or by one in which nothing told it to stand back. */
  ghost predicate Candidate(c: Config, s: Fleet, i: Id) {
    && i in s.nodes && i in c.nonce
    && (s.nodes[i].strayed || (s.nodes[i].campaigned && Quiet(c.nonce[i], s.nodes[i].seen)))
  }

  /**
   In every run whatsoever, a wanter that has decided is a WAN fetcher exactly when
   it strayed — the claim it had found was gone when it came to queue, its request was
   cancelled, its wait ran out or its copy failed — or it found no claim and none of
   the messages it consumed told it to stand back: no lower bid, no cached copy, no
   announced fetch below its own nonce.
   */
  lemma WanFetchersExactly(c: Config, run: seq<Action>, i: Id)
    requires ValidConfig(c) && i in c.wanters
    requires Executes(c, Init(c), run, Any)
    ensures var s := After(c, Init(c), run, Any);
            i in s.nodes && (!Undecided(s.nodes[i]) ==> (FetchesWan(s.nodes[i].phase) <==> Candidate(c, s, i)))
  {
    RunTruthful(c, Init(c), run);
  }

  /**
   The same for the whole fleet: once every wanter has decided, node `m` is the only
   one that fetches from the WAN if and only if it is the only candidate.
   */
  lemma OnlyFetcherExactly(c: Config, run: seq<Action>, m: Id)
    requires ValidConfig(c) && m in c.wanters && Executes(c, Init(c), run, Any)
    requires forall i :: i in c.wanters && i in After(c, Init(c), run, Any).nodes ==>
               !Undecided(After(c, Init(c), run, Any).nodes[i])
    ensures var s := After(c, Init(c), run, Any);
            (set i | i in c.wanters && i in s.nodes && FetchesWan(s.nodes[i].phase)) == {m} <==>
              Candidate(c, s, m) && forall i :: i in c.wanters && i != m ==> !Candidate(c, s, i)
  {
    var s := After(c, Init(c), run, Any);
    var fetchers := set i | i in c.wanters && i in s.nodes && FetchesWan(s.nodes[i].phase);
    forall i | i in c.wanters ensures i in fetchers <==> Candidate(c, s, i) { WanFetchersExactly(c, run, i); }
    assert fetchers == {m} <==> m in fetchers && forall i :: i in fetchers ==> i == m;
  }

  // ----- orderly runs: exactly one fetcher ----------------------------------

  /**
   The overlap an election needs: nobody answers a want before every wanter has
   registered, wants reach every peer, a claim timer fires only after the wants of
   all rivals were consumed, and no request is cancelled or gives up waiting.
   */
  ghost predicate Overlap(c: Config, s: Fleet, a: Action) {
    && (a.Receive? && a.packet.msg.Want? ==>
          forall w :: w in c.wanters && w in s.nodes ==> !s.nodes[w].phase.Idle? && !s.nodes[w].phase.Joining?)
    && !a.Stray?
    && (a.Broadcast? ==> a.reached == c.nodes - {a.i})
    && (a.Timer? && a.i in s.nodes ==>
          forall w :: w in c.wanters && w != a.i ==> HeardWant(s.nodes[a.i], w))
  }

  /**
   The lowest-nonce node itself, between two locked sections of its want handler,
   decides after the in-flight check or retires its claim before it. What any other
   node does in the middle of its handler is harmless.
   */
  ghost predicate Straddles(c: Config, s: Fleet, a: Action) {
    && a.i in s.nodes && IsMin(c, a.i)
    && var n := s.nodes[a.i];
       || (n.handler.WantAtPending? &&
           (a.Timer? || (a.Consume? && a.packet.msg.DontHave? && n.awaiting <= {a.packet.src})))
       || (n.handler.WantAtInFlight? && a.Finish?)
  }

  ghost predicate Orderly(c: Config, s: Fleet, a: Action) {
    Overlap(c, s, a) && !Straddles(c, s, a)
  }

  ghost predicate HeardWant(n: Node, w: Id) {
    exists p :: p in n.seen && p.src == w && p.msg.Want?
  }

  ghost predicate HeardBid(seen: set<Packet>, w: Id) {
    exists p :: p in seen && p.src == w && IsBid(p)
  }

  ghost function InOrder(c: Config): (Fleet, Action) -> bool {
    (s: Fleet, a: Action) => Orderly(c, s, a)
  }

  ghost predicate IsMin(c: Config, m: Id) {
    m in c.wanters && m in c.nonce && forall w :: w in c.wanters && w in c.nonce && w != m ==> c.nonce[m] < c.nonce[w]
  }

  ghost predicate PacketInv(c: Config, m: Id, s: Fleet, p: Packet)
    requires m in s.nodes
  {
    && p.src in s.nodes && p.dst in s.nodes && p.src != p.dst
    && (IsBid(p) ==> p.src in c.wanters && p.src in c.nonce && p.msg.nonce == c.nonce[p.src])
    && (p.msg.DontHave? && p.src == m ==> p.msg.alsoWanting)
    && (p.msg.Have? ==> s.nodes[p.src].cached)
    && (p.msg.Fetching? || p.msg.Fetched? ==> p.src == m)
  }

  /** Nothing was answered yet: no claim, no routed message, no handler under way, only wants on the wire. */
  ghost predicate Untouched(n: Node) {
    n.claim.None? && n.inbox == {} && n.handler.Free? && (n.phase.Idle? || Pending(n))
  }

  ghost predicate Early(c: Config, s: Fleet) {
    exists w :: w in c.wanters && w in s.nodes && s.nodes[w].phase.Idle?
  }

  ghost predicate EarlyInv(c: Config, s: Fleet) {
    Early(c, s) ==>
      && (forall i :: i in s.nodes ==> Untouched(s.nodes[i]))
      && (forall p :: p in s.soup ==> p.msg.Want?)
  }

  /** What holds of a rival of the lowest-nonce wanter `m`. */
  ghost predicate RivalInv(c: Config, m: Id, n: Node) {
    && !FetchesWan(n.phase) && !n.phase.Joining?
    && (n.claim.Some? ==> n.claim.value.fetcher == m)
    && (n.phase.Waiting? || n.phase.Released? ==> n.phase.on == m)
    && (n.phase.Waiting? ==> n.claim.Some?)
    && (n.phase.Collecting? && m !in n.awaiting ==> HeardBid(n.seen, m))
  }

  /** What holds of the lowest-nonce wanter itself. */
  ghost predicate WinnerInv(c: Config, m: Id, n: Node) {
    && (Undecided(n) || FetchesWan(n.phase)) && !n.phase.Joining?
    && n.elected.None?
    && (Undecided(n) ==> n.claim.None?)
    && (n.claim.Some? ==> n.claim.value.fetcher == m)
    && (n.cached <==> n.phase.Stored? || n.phase.Done?)
    && (n.handler.WantAtPending? ==> Pending(n))
    && (n.handler.WantAtInFlight? ==> Pending(n) || n.claim.Some?)
    && (n.phase.Wan? || n.phase.Announced? || n.phase.Stored? ==> n.claim.Some? || c.nodes == {m})
  }

  ghost predicate RoleInv(c: Config, m: Id, i: Id, n: Node) {
    if i == m then WinnerInv(c, m, n) else RivalInv(c, m, n)
  }

  ghost predicate MailInv(soup: set<Packet>, i: Id, n: Node) {
    && n.seen <= n.inbox <= soup
    && (forall p :: p in n.inbox ==> p.dst == i)
    && (!n.handler.Free? ==> n.handler.packet in soup && n.handler.packet.dst == i)
    && (MidWant(n) ==> n.handler.packet.msg.Want?)
    && (n.handler.FetchingAtPending? ==> n.handler.packet.msg.Fetching?)
  }

  ghost predicate CopyInv(c: Config, m: Id, s: Fleet, i: Id)
    requires m in s.nodes && i in s.nodes
  {
    var n := s.nodes[i];
    && (n.cached ==> s.nodes[m].cached)
    && (n.phase.Lan? ==> n.phase.from in s.nodes && s.nodes[n.phase.from].cached)
    && (n.phase.Served? ==> n.cached)
    && (i !in c.wanters ==> n.phase.Idle?)
  }

  ghost predicate BallotInv(c: Config, i: Id, n: Node) {
    i in c.nonce ==>
      && (n.phase.Idle? || n.phase.Registered? ==> n.seen == {})
      && (Undecided(n) ==> LeastBid(c.nonce[i], n.seen, n.elected))
  }

  ghost predicate NodeInv(c: Config, m: Id, s: Fleet, i: Id)
    requires m in s.nodes && i in s.nodes
  {
    var n := s.nodes[i];
    RoleInv(c, m, i, n) && MailInv(s.soup, i, n) && CopyInv(c, m, s, i) && BallotInv(c, i, n)
  }

  ghost predicate ElectionInv(c: Config, m: Id, s: Fleet) {
    && s.nodes.Keys == c.nodes
    && m in s.nodes
    && (forall i :: i in s.nodes ==> NodeInv(c, m, s, i))
    && (forall p :: p in s.soup ==> PacketInv(c, m, s, p))
  }

  lemma LeastBidIsMin(c: Config, m: Id, s: Fleet, i: Id, seen: set<Packet>, elected: Option<Bid>)
    requires ValidConfig(c) && IsMin(c, m) && i in c.wanters && m in s.nodes
    requires forall p :: p in seen ==> PacketInv(c, m, s, p)
    requires LeastBid(c.nonce[i], seen, elected)
    ensures i == m ==> elected.None?
    ensures i != m && HeardBid(seen, m) ==> elected.Some? && elected.value.peer == m
  {
  }

  /** What consuming `p` tells node `i` about the winner. */
  lemma SelectEvidence(c: Config, m: Id, s: Fleet, i: Id, p: Packet)
    requires ValidConfig(c) && IsMin(c, m) && ElectionInv(c, m, s) && Enabled(c, s, Consume(i, p))
    ensures var n, own := s.nodes[i], c.nonce[i];
            var seen := n.seen + {p};
            var elected := if IsBid(p) then Fold(own, n.elected, p.src, p.msg.nonce) else n.elected;
            && LeastBid(own, seen, elected)
            && (i == m ==> elected.None?)
            && (i != m && (m !in n.awaiting || (p.msg.DontHave? && p.src == m)) ==>
                  HeardBid(seen, m) && elected.Some? && elected.value.peer == m)
  {
    var n, own := s.nodes[i], c.nonce[i];
    assert NodeInv(c, m, s, i);
    var seen := n.seen + {p};
    var elected := if IsBid(p) then Fold(own, n.elected, p.src, p.msg.nonce) else n.elected;
    assert LeastBid(own, seen, elected) by {
      if IsBid(p) {
        FoldLeastBid(own, n.seen, n.elected, p);
      } else if elected.Some? {
        var q :| q in n.seen && IsBid(q) && q.src == elected.value.peer && q.msg.nonce == elected.value.nonce;
        assert q in seen;
      }
    }
    assert p in seen;
    assert forall q :: q in seen ==> PacketInv(c, m, s, q);
    LeastBidIsMin(c, m, s, i, seen, elected);
    if i != m && p.msg.DontHave? && p.src == m {
      assert IsBid(p);
    } else if i != m && m !in n.awaiting {
      var q :| q in n.seen && q.src == m && IsBid(q);
      assert q in seen;
    }
  }

  /** The select loop of `i` takes `p`: the winner stays a candidate, rivals learn of the winner. */
  lemma SelectKeeps(c: Config, m: Id, s: Fleet, i: Id, p: Packet)
    requires ValidConfig(c) && IsMin(c, m) && ElectionInv(c, m, s)
    requires Enabled(c, s, Consume(i, p)) && Orderly(c, s, Consume(i, p))
    ensures RoleInv(c, m, i, Select(s.nodes[i], i, c.nonce[i], p))
    ensures BallotInv(c, i, Select(s.nodes[i], i, c.nonce[i], p))
  {
    var n := s.nodes[i];
    SelectEvidence(c, m, s, i, p);
    assert NodeInv(c, m, s, i) && NodeInv(c, m, s, m) && PacketInv(c, m, s, p);
    if i == m { WinnerSelects(c, m, n, p); } else { RivalSelects(c, m, i, n, p); }
  }

  lemma WinnerSelects(c: Config, m: Id, n: Node, p: Packet)
    requires m in c.nonce && WinnerInv(c, m, n) && n.phase.Collecting?
    requires !p.msg.Have? && !p.msg.Fetching?
    requires p.msg.DontHave? && n.awaiting <= {p.src} ==> !n.handler.WantAtPending?
    requires var elected := if IsBid(p) then Fold(c.nonce[m], n.elected, p.src, p.msg.nonce) else n.elected;
             elected.None? && LeastBid(c.nonce[m], n.seen + {p}, elected)
    ensures WinnerInv(c, m, Select(n, m, c.nonce[m], p))
    ensures BallotInv(c, m, Select(n, m, c.nonce[m], p))
  {
    assert n.awaiting - {p.src} == {} ==> n.awaiting <= {p.src};
  }

  lemma RivalSelects(c: Config, m: Id, i: Id, n: Node, p: Packet)
    requires i in c.nonce && i != m && RivalInv(c, m, n) && n.phase.Collecting?
    requires p.msg.Fetching? ==> p.src == m
    requires var elected := if IsBid(p) then Fold(c.nonce[i], n.elected, p.src, p.msg.nonce) else n.elected;
             && LeastBid(c.nonce[i], n.seen + {p}, elected)
             && (m !in n.awaiting || (p.msg.DontHave? && p.src == m) ==>
                   HeardBid(n.seen + {p}, m) && elected.Some? && elected.value.peer == m)
    ensures RivalInv(c, m, Select(n, i, c.nonce[i], p))
    ensures BallotInv(c, i, Select(n, i, c.nonce[i], p))
  {
    if p.msg.DontHave? {
      assert n.awaiting - {p.src} == {} ==> m !in n.awaiting - {p.src};
    }
  }

  /** A claim timer that fires in order elects the winner. */
  lemma TimerKeeps(c: Config, m: Id, s: Fleet, i: Id)
    requires ValidConfig(c) && IsMin(c, m) && ElectionInv(c, m, s)
    requires Enabled(c, s, Timer(i)) && Orderly(c, s, Timer(i))
    ensures RoleInv(c, m, i, Decide(s.nodes[i], i, c.nonce[i]))
  {
    var n := s.nodes[i];
    assert NodeInv(c, m, s, i);
    LeastBidIsMin(c, m, s, i, n.seen, n.elected);
    if i != m {
      assert HeardWant(n, m);
      var p :| p in n.seen && p.src == m && p.msg.Want?;
      assert IsBid(p);
    }
  }

  ghost predicate RoleStep(c: Config, m: Id, s: Fleet, a: Action) {
    && ValidConfig(c) && IsMin(c, m) && m in s.nodes && s.nodes.Keys == c.nodes
    && Enabled(c, s, a) && Orderly(c, s, a) && !a.Consume? && !a.Timer?
    && NodeInv(c, m, s, a.i)
    && (a.Register? ==> s.nodes[a.i].claim.None?)
    && (a.Receive? ==> PacketInv(c, m, s, a.packet))
    && (!s.nodes[a.i].handler.Free? ==> PacketInv(c, m, s, s.nodes[a.i].handler.packet))
  }

  lemma WinnerKeeps(c: Config, m: Id, s: Fleet, a: Action)
    requires RoleStep(c, m, s, a) && a.i == m
    ensures WinnerInv(c, m, Next(c, s, a))
  {
    if a.Broadcast? { assert MidWant(s.nodes[m]) ==> s.nodes[m].handler.packet.src in c.nodes - {m}; }
  }

  lemma RivalKeeps(c: Config, m: Id, s: Fleet, a: Action)
    requires RoleStep(c, m, s, a) && a.i != m
    ensures RivalInv(c, m, Next(c, s, a))
  {
    if a.Broadcast? { assert m in c.nodes - {a.i}; }
  }

  lemma NewPacketKeeps(c: Config, m: Id, s: Fleet, a: Action, p: Packet)
    requires ValidConfig(c) && m in c.wanters && m in s.nodes && s.nodes.Keys == c.nodes
    requires Enabled(c, s, a) && NodeInv(c, m, s, a.i)
    requires a.Receive? ==> PacketInv(c, m, s, a.packet)
    requires !s.nodes[a.i].handler.Free? ==> PacketInv(c, m, s, s.nodes[a.i].handler.packet)
    requires p in Sends(c, s, a)
    ensures PacketInv(c, m, Apply(c, s, a), p)
  {
  }

  lemma SendsKeep(c: Config, m: Id, s: Fleet, a: Action)
    requires ValidConfig(c) && m in c.wanters && ElectionInv(c, m, s)
    requires Enabled(c, s, a)
    ensures forall p :: p in Apply(c, s, a).soup ==> PacketInv(c, m, Apply(c, s, a), p)
  {
    var t := Apply(c, s, a);
    assert NodeInv(c, m, s, a.i);
    forall p | p in t.soup
      ensures PacketInv(c, m, t, p)
    {
      if p in s.soup {
        assert PacketInv(c, m, s, p);
        CachedOnlyGrows(c, s, a, p.src);
      } else {
        NewPacketKeeps(c, m, s, a, p);
      }
    }
  }

  lemma CachedOnlyGrows(c: Config, s: Fleet, a: Action, j: Id)
    requires Enabled(c, s, a) && j in s.nodes
    ensures s.nodes[j].cached ==> Apply(c, s, a).nodes[j].cached
  {
  }

  lemma OthersKeep(c: Config, m: Id, s: Fleet, a: Action, i: Id)
    requires ElectionInv(c, m, s) && Enabled(c, s, a) && i in s.nodes && i != a.i
    ensures NodeInv(c, m, Apply(c, s, a), i)
  {
    assert NodeInv(c, m, s, i);
    CachedOnlyGrows(c, s, a, m);
    if s.nodes[i].phase.Lan? { CachedOnlyGrows(c, s, a, s.nodes[i].phase.from); }
  }

  lemma StandingKeeps(c: Config, m: Id, s: Fleet, a: Action)
    requires ValidConfig(c) && IsMin(c, m) && ElectionInv(c, m, s)
    requires Enabled(c, s, a) && Orderly(c, s, a) && (a.Register? ==> s.nodes[a.i].claim.None?)
    ensures RoleInv(c, m, a.i, Next(c, s, a)) && BallotInv(c, a.i, Next(c, s, a))
  {
    assert NodeInv(c, m, s, a.i);
    match a {
      case Consume(i, p) => SelectKeeps(c, m, s, i, p);
      case Timer(i) => TimerKeeps(c, m, s, i); BallotKeeps(c, s, a);
      case _ =>
        if a.i == m { WinnerKeeps(c, m, s, a); } else { RivalKeeps(c, m, s, a); }
        BallotKeeps(c, s, a);
    }
  }

  lemma HoldingsKeep(c: Config, m: Id, s: Fleet, a: Action)
    requires ValidConfig(c) && ElectionInv(c, m, s) && Enabled(c, s, a)
    requires RoleInv(c, m, a.i, Next(c, s, a))
    ensures MailInv(Apply(c, s, a).soup, a.i, Next(c, s, a)) && CopyInv(c, m, Apply(c, s, a), a.i)
  {
    assert NodeInv(c, m, s, a.i);
    MailKeeps(c, s, a);
    if a.Copy? && s.nodes[a.i].phase.Lan? { assert NodeInv(c, m, s, s.nodes[a.i].phase.from); }
    CopiesKeep(c, m, s, a);
  }

  lemma OwnKeeps(c: Config, m: Id, s: Fleet, a: Action)
    requires ValidConfig(c) && IsMin(c, m) && ElectionInv(c, m, s)
    requires Enabled(c, s, a) && Orderly(c, s, a) && (a.Register? ==> s.nodes[a.i].claim.None?)
    ensures NodeInv(c, m, Apply(c, s, a), a.i)
  {
    StandingKeeps(c, m, s, a);
    HoldingsKeep(c, m, s, a);
  }

  lemma MailFrame(soup: set<Packet>, soup': set<Packet>, i: Id, n: Node, n': Node)
    requires MailInv(soup, i, n) && soup <= soup'
    requires n'.inbox == n.inbox && n'.seen == n.seen && n'.handler == n.handler
    ensures MailInv(soup', i, n')
  {
  }

  lemma AcceptMail(soup: set<Packet>, i: Id, n: Node, p: Packet)
    requires MailInv(soup, i, n) && n.handler.Free? && p in soup && p.dst == i
    ensures MailInv(soup, i, Accept(n, p))
  {
  }

  lemma ContinueMail(soup: set<Packet>, i: Id, n: Node)
    requires MailInv(soup, i, n)
    ensures MailInv(soup, i, Continue(n, i))
  {
  }

  lemma SelectMail(soup: set<Packet>, i: Id, n: Node, own: nat, p: Packet)
    requires MailInv(soup, i, n) && p in n.inbox
    ensures MailInv(soup, i, Select(n, i, own, p))
  {
    var n' := Select(n, i, own, p);
    assert n'.inbox == n.inbox && n'.seen == n.seen + {p} && n'.handler == n.handler;
  }

  lemma MailKeeps(c: Config, s: Fleet, a: Action)
    requires Enabled(c, s, a) && MailInv(s.soup, a.i, s.nodes[a.i])
    ensures MailInv(Apply(c, s, a).soup, a.i, Next(c, s, a))
  {
    var n, n', soup := s.nodes[a.i], Next(c, s, a), Apply(c, s, a).soup;
    match a {
      case Consume(i, p) => SelectMail(s.soup, i, n, c.nonce[i], p); MailFrame(s.soup, soup, i, n', n');
      case Receive(i, p) => AcceptMail(s.soup, i, n, p); MailFrame(s.soup, soup, i, n', n');
      case Handle(i) => ContinueMail(s.soup, i, n); MailFrame(s.soup, soup, i, n', n');
      case _ => MailFrame(s.soup, soup, a.i, n, n');
    }
  }

  lemma CopiesKeep(c: Config, m: Id, s: Fleet, a: Action)
    requires ValidConfig(c) && m in s.nodes && Enabled(c, s, a)
    requires RoleInv(c, m, a.i, s.nodes[a.i]) && CopyInv(c, m, s, a.i)
    requires RoleInv(c, m, a.i, Next(c, s, a))
    requires a.Consume? ==> PacketInv(c, m, s, a.packet)
    requires a.Copy? && s.nodes[a.i].phase.Lan? ==> CopyInv(c, m, s, s.nodes[a.i].phase.from)
    ensures CopyInv(c, m, Apply(c, s, a), a.i)
  {
  }

  lemma BallotKeeps(c: Config, s: Fleet, a: Action)
    requires Enabled(c, s, a) && !a.Consume? && BallotInv(c, a.i, s.nodes[a.i])
    ensures BallotInv(c, a.i, Next(c, s, a))
  {
  }

  /** Until every wanter has registered, no step but registering and asking is possible. */
  lemma EarlyKeeps(c: Config, m: Id, s: Fleet, a: Action)
    requires EarlyInv(c, s) && s.nodes.Keys == c.nodes && Enabled(c, s, a) && Orderly(c, s, a)
    requires MailInv(s.soup, a.i, s.nodes[a.i])
    ensures EarlyInv(c, Apply(c, s, a))
  {
    var t := Apply(c, s, a);
    if w :| w in c.wanters && w in t.nodes && t.nodes[w].phase.Idle? {
      assert s.nodes[w].phase.Idle?;
      assert Untouched(s.nodes[a.i]);
      assert a.Register? || a.Broadcast?;
      if a.Broadcast? { assert w in a.reached; }
    }
  }

  lemma ElectionStep(c: Config, m: Id, s: Fleet, a: Action)
    requires ValidConfig(c) && IsMin(c, m) && ElectionInv(c, m, s) && EarlyInv(c, s)
    requires Enabled(c, s, a) && Orderly(c, s, a)
    ensures ElectionInv(c, m, Apply(c, s, a)) && EarlyInv(c, Apply(c, s, a))
  {
    assert a.Register? ==> Untouched(s.nodes[a.i]);
    assert NodeInv(c, m, s, a.i);
    EarlyKeeps(c, m, s, a);
    CoreStep(c, m, s, a);
  }

  lemma CoreStep(c: Config, m: Id, s: Fleet, a: Action)
    requires ValidConfig(c) && IsMin(c, m) && ElectionInv(c, m, s)
    requires Enabled(c, s, a) && Orderly(c, s, a) && (a.Register? ==> s.nodes[a.i].claim.None?)
    ensures ElectionInv(c, m, Apply(c, s, a))
  {
    SendsKeep(c, m, s, a);
    OwnKeeps(c, m, s, a);
    forall i | i in s.nodes && i != a.i { OthersKeep(c, m, s, a, i); }
  }

  lemma {:induction false} ElectionRun(c: Config, m: Id, s: Fleet, run: seq<Action>)
    requires ValidConfig(c) && IsMin(c, m) && ElectionInv(c, m, s) && EarlyInv(c, s)
    requires Executes(c, s, run, InOrder(c))
    ensures ElectionInv(c, m, After(c, s, run, InOrder(c))) && EarlyInv(c, After(c, s, run, InOrder(c)))
    decreases |run|
  {
    if run != [] {
      ElectionStep(c, m, s, run[0]);
      ElectionRun(c, m, Apply(c, s, run[0]), run[1..]);
    }
  }

  /**
   In every orderly run of any number of nodes, only the lowest-nonce wanter ever
   fetches from the WAN; every other wanter that has decided waits on that node or
   copies from a node that holds the package, and once everybody has decided the
   set of WAN fetchers is exactly the lowest-nonce wanter.
   */
  lemma ElectionTheorem(c: Config, m: Id, run: seq<Action>)
    requires ValidConfig(c) && IsMin(c, m) && Executes(c, Init(c), run, InOrder(c))
    ensures var s := After(c, Init(c), run, InOrder(c));
            && s.nodes.Keys == c.nodes
            && (forall i :: i in c.nodes && FetchesWan(s.nodes[i].phase) ==> i == m)
            && (forall i :: i in c.wanters && i != m && !Undecided(s.nodes[i]) ==> ServedBy(s, m, s.nodes[i].phase))
            && ((forall i :: i in c.wanters ==> !Undecided(s.nodes[i])) ==>
                  (set i | i in c.nodes && FetchesWan(s.nodes[i].phase)) == {m})
  {
    assert ElectionInv(c, m, Init(c));
    ElectionRun(c, m, Init(c), run);
    var s := After(c, Init(c), run, InOrder(c));
    forall i | i in c.nodes
      ensures FetchesWan(s.nodes[i].phase) ==> i == m
      ensures i != m && !Undecided(s.nodes[i]) ==> ServedBy(s, m, s.nodes[i].phase)
    {
      assert NodeInv(c, m, s, i);
    }
    assert NodeInv(c, m, s, m);
  }

  ghost predicate ServedBy(s: Fleet, m: Id, p: Phase) {
    match p
    case Waiting(on) => on == m
    case Released(on) => on == m
    case Lan(from) => from in s.nodes && s.nodes[from].cached
    case Served => m in s.nodes && s.nodes[m].cached
    case _ => false
  }
}
