/**
 An orderly fleet is never stuck: whatever state it is in, it can go on in order until
 the lowest-nonce wanter has fetched the package and every other wanter has a copy.
 Every continuation is a run of the same machine, message by message.
 */
module ElectionCompletes {
  import opened FleetElection
  import opened Prelude

  // ----- what stays on the wire ---------------------------------------------

  /** Whoever got past registration has asked every peer. */
  ghost predicate AskedAll(c: Config, s: Fleet, i: Id) {
    i in s.nodes && i in c.nonce && !s.nodes[i].phase.Idle? && !s.nodes[i].phase.Registered? ==>
      forall j :: j in c.nodes && j != i ==> Packet(i, j, Want(c.nonce[i])) in s.soup
  }

  /** Whoever is done has told every peer. */
  ghost predicate ToldAll(c: Config, s: Fleet, i: Id) {
    i in s.nodes && s.nodes[i].phase.Done? ==> forall j :: j in c.nodes && j != i ==> Packet(i, j, Fetched) in s.soup
  }

  ghost predicate Calm(c: Config, m: Id, s: Fleet) {
    && ValidConfig(c) && IsMin(c, m) && ElectionInv(c, m, s) && EarlyInv(c, s)
    && (forall i :: i in c.wanters ==> AskedAll(c, s, i))
    && ToldAll(c, s, m)
  }

  lemma AskedKeeps(c: Config, s: Fleet, a: Action, i: Id)
    requires Enabled(c, s, a) && AskedAll(c, s, i)
    requires a.i == i ==> !s.nodes[i].phase.Joining? && (a.Register? ==> s.nodes[i].claim.None?)
    requires a.Broadcast? ==> a.reached == c.nodes - {a.i}
    ensures AskedAll(c, Apply(c, s, a), i)
  {
    if a.i == i && i in c.nonce && s.nodes[i].phase.Registered? && !Next(c, s, a).phase.Registered? {
      assert a.Broadcast?;
    }
  }

  lemma ToldKeeps(c: Config, s: Fleet, a: Action, i: Id)
    requires Enabled(c, s, a) && ToldAll(c, s, i)
    ensures ToldAll(c, Apply(c, s, a), i)
  {
    if a.i == i && !s.nodes[i].phase.Done? && Next(c, s, a).phase.Done? { assert a.Finish?; }
  }

  lemma CalmStep(c: Config, m: Id, s: Fleet, a: Action)
    requires Calm(c, m, s) && Enabled(c, s, a) && Orderly(c, s, a)
    ensures Calm(c, m, Apply(c, s, a))
  {
    assert NodeInv(c, m, s, a.i);
    assert a.Register? ==> Untouched(s.nodes[a.i]);
    ToldKeeps(c, s, a, m);
    forall i | i in c.wanters ensures AskedAll(c, Apply(c, s, a), i) { AskedKeeps(c, s, a, i); }
    ElectionStep(c, m, s, a);
  }

  lemma {:induction false} CalmRun(c: Config, m: Id, s: Fleet, run: seq<Action>)
    requires Calm(c, m, s) && Executes(c, s, run, InOrder(c))
    ensures Calm(c, m, After(c, s, run, InOrder(c)))
    decreases |run|
  {
    if run != [] {
      CalmStep(c, m, s, run[0]);
      CalmRun(c, m, Apply(c, s, run[0]), run[1..]);
    }
  }

  lemma StartsCalm(c: Config, m: Id)
    requires ValidConfig(c) && IsMin(c, m)
    ensures Calm(c, m, Init(c))
  {
  }

  // ----- a want is answered -------------------------------------------------

  /**
   Left alone, a node answers a want by what it knows when its sections run: a cached
   copy, else its own announced fetch, else its bid if it collects bids itself — and
   then it takes the asker's bid into account — else that it is not in the race.
   */
  lemma WantIsAnswered(c: Config, s: Fleet, i: Id, p: Packet)
    requires i in s.nodes && s.nodes[i].handler.Free? && p in s.soup && p.dst == i && p.msg.Want?
    ensures Enabled(c, s, Receive(i, p))
    ensures var n, t := s.nodes[i], Apply(c, s, Receive(i, p));
            if n.cached then Packet(i, p.src, Have) in t.soup && t.nodes == s.nodes
            else
              && Enabled(c, t, Handle(i))
              && var u := Apply(c, t, Handle(i));
                 if n.claim.Some? && n.claim.value.fetcher == i
                 then Packet(i, p.src, Fetching(n.claim.value.nonce)) in u.soup && u.nodes == s.nodes
                 else
                   && Enabled(c, u, Handle(i))
                   && Answered(c, n, i, p, Apply(c, u, Handle(i)))
  {
    assert s.nodes[i := s.nodes[i]] == s.nodes;
  }

  ghost predicate Answered(c: Config, n: Node, i: Id, p: Packet, t: Fleet) {
    && i in t.nodes
    && (if (n.phase.Registered? || n.phase.Collecting?) && i in c.nonce
        then Packet(i, p.src, DontHave(c.nonce[i], true)) in t.soup else Packet(i, p.src, DontHave(0, false)) in t.soup)
    && t.nodes[i] == n.(inbox := if n.phase.Registered? || n.phase.Collecting? then n.inbox + {p} else n.inbox)
  }

  /**
   Left alone, a node that hears of a fetch records it, unless it has a claim already,
   and takes it into account if it collects answers.
   */
  lemma AnnouncementIsRouted(c: Config, s: Fleet, i: Id, p: Packet)
    requires i in s.nodes && s.nodes[i].handler.Free? && p in s.soup && p.dst == i && p.msg.Fetching?
    ensures Enabled(c, s, Receive(i, p))
    ensures var n, t := s.nodes[i], Apply(c, s, Receive(i, p));
            && Enabled(c, t, Handle(i))
            && var u := Apply(c, t, Handle(i));
               && u.soup == s.soup
               && var claim := if n.claim.Some? then n.claim else Some(Claim(p.src, p.msg.nonce));
                  var inbox := if n.phase.Registered? || n.phase.Collecting? then n.inbox + {p} else n.inbox;
                  u.nodes == s.nodes[i := n.(claim := claim, inbox := inbox)]
  {
  }

  /** A node that reaches nobody fetches at once. */
  lemma NobodyToAsk(c: Config, s: Fleet, i: Id)
    requires Enabled(c, s, Broadcast(i, {}))
    ensures var t := Apply(c, s, Broadcast(i, {})); t.nodes[i].phase.Wan? && t.soup == s.soup
  {
  }

  // ----- a report that finds its waiter -------------------------------------

  ghost predicate Freed(p: Phase) { p.Released? || p.Served? }

  lemma {:induction false} StaysFreed(c: Config, s: Fleet, run: seq<Action>, i: Id)
    requires Executes(c, s, run, InOrder(c)) && i in s.nodes && Freed(s.nodes[i].phase)
    ensures var t := After(c, s, run, InOrder(c)); i in t.nodes && Freed(t.nodes[i].phase)
    decreases |run|
  {
    if run != [] { StaysFreed(c, Apply(c, s, run[0]), run[1..], i); }
  }

  lemma ReportFrees(c: Config, s: Fleet, i: Id, m: Id)
    requires Enabled(c, s, Receive(i, Packet(m, i, Fetched))) && s.nodes[i].phase.Waiting?
    requires s.nodes[i].claim.Some? && s.nodes[i].claim.value.fetcher == m
    ensures Freed(Apply(c, s, Receive(i, Packet(m, i, Fetched))).nodes[i].phase)
  {
  }

  /**
   A waiting node that is told by its fetcher stops waiting, at once and for good: it
   is released, with the copy there to be taken, until it has taken it.
   */
  lemma ReportReleases(c: Config, m: Id, run: seq<Action>, i: Id, more: seq<Action>)
    requires ValidConfig(c) && IsMin(c, m) && Executes(c, Init(c), run, InOrder(c))
    requires var s, a := After(c, Init(c), run, InOrder(c)), Receive(i, Packet(m, i, Fetched));
             && i != m && Enabled(c, s, a) && s.nodes[i].phase.Waiting?
             && Executes(c, Apply(c, s, a), more, InOrder(c))
    ensures var s, a := After(c, Init(c), run, InOrder(c)), Receive(i, Packet(m, i, Fetched));
            var t := After(c, Apply(c, s, a), more, InOrder(c));
            i in t.nodes && (t.nodes[i].phase.Released? || t.nodes[i].phase.Served?)
  {
    var s, a := After(c, Init(c), run, InOrder(c)), Receive(i, Packet(m, i, Fetched));
    StartsCalm(c, m);
    CalmRun(c, m, Init(c), run);
    assert NodeInv(c, m, s, i);
    ReportFrees(c, s, i, m);
    StaysFreed(c, Apply(c, s, a), more, i);
  }

  // ----- going on -----------------------------------------------------------

  /** Some orderly run leads from `s` to `t`. */
  ghost predicate Leads(c: Config, s: Fleet, t: Fleet) {
    exists run :: Executes(c, s, run, InOrder(c)) && After(c, s, run, InOrder(c)) == t
  }

  /** `s` can be reached in order, by way of `s0`. */
  ghost predicate By(c: Config, s0: Fleet, s: Fleet) { Leads(c, Init(c), s) && Leads(c, s0, s) }

  lemma LeadsThen(c: Config, s0: Fleet, s: Fleet, a: Action)
    requires Leads(c, s0, s) && Enabled(c, s, a) && Orderly(c, s, a)
    ensures Leads(c, s0, Apply(c, s, a))
  {
    var run :| Executes(c, s0, run, InOrder(c)) && After(c, s0, run, InOrder(c)) == s;
    ExecutesThen(c, s0, run, a, InOrder(c));
  }

  /** One more orderly step. */
  lemma Advance(c: Config, s0: Fleet, s: Fleet, a: Action) returns (t: Fleet)
    requires By(c, s0, s) && Enabled(c, s, a) && Orderly(c, s, a)
    ensures By(c, s0, t)
    ensures t == Apply(c, s, a) && t.nodes == s.nodes[a.i := Next(c, s, a)] && t.soup == s.soup + Sends(c, s, a)
  {
    t := Apply(c, s, a);
    LeadsThen(c, Init(c), s, a);
    LeadsThen(c, s0, s, a);
  }

  lemma ReachedCalm(c: Config, m: Id, s: Fleet)
    requires ValidConfig(c) && IsMin(c, m) && Leads(c, Init(c), s)
    ensures Calm(c, m, s)
  {
    var run :| Executes(c, Init(c), run, InOrder(c)) && After(c, Init(c), run, InOrder(c)) == s;
    StartsCalm(c, m);
    CalmRun(c, m, Init(c), run);
  }

  /** Only node `i` moved. */
  ghost predicate OnlyMoves(s: Fleet, t: Fleet, i: Id) {
    && t.nodes.Keys == s.nodes.Keys && s.soup <= t.soup
    && forall j :: j in s.nodes && j != i ==> t.nodes[j] == s.nodes[j]
  }

  /** The request of a node stands where it stood; its handler may have moved. */
  ghost predicate SameRequest(n: Node, k: Node) {
    k.phase == n.phase && k.cached == n.cached && k.claim == n.claim && k.seen == n.seen && n.inbox <= k.inbox
  }

  function HandlerSteps(h: Handler): nat { if h.Free? then 0 else if h.WantAtInFlight? then 2 else 1 }

  /** A locked section of the handler is always in order and leaves the request where it stands. */
  lemma HandleMoves(c: Config, s: Fleet, i: Id)
    requires i in s.nodes && !s.nodes[i].handler.Free?
    ensures Enabled(c, s, Handle(i)) && Orderly(c, s, Handle(i))
    ensures var t := Apply(c, s, Handle(i));
            && OnlyMoves(s, t, i) && SameRequest(s.nodes[i], t.nodes[i])
            && HandlerSteps(t.nodes[i].handler) < HandlerSteps(s.nodes[i].handler)
  {
  }

  lemma HandleOnce(c: Config, s0: Fleet, s: Fleet, i: Id) returns (t: Fleet)
    requires By(c, s0, s) && i in s.nodes && !s.nodes[i].handler.Free?
    ensures By(c, s0, t) && OnlyMoves(s, t, i) && SameRequest(s.nodes[i], t.nodes[i])
    ensures HandlerSteps(t.nodes[i].handler) < HandlerSteps(s.nodes[i].handler)
  {
    HandleMoves(c, s, i);
    t := Advance(c, s0, s, Handle(i));
  }

  lemma {:induction false} FinishHandler(c: Config, s0: Fleet, s: Fleet, i: Id) returns (t: Fleet)
    requires By(c, s0, s) && i in s.nodes
    ensures By(c, s0, t) && OnlyMoves(s, t, i)
    ensures SameRequest(s.nodes[i], t.nodes[i]) && t.nodes[i].handler.Free?
    decreases HandlerSteps(s.nodes[i].handler)
  {
    t := s;
    if !s.nodes[i].handler.Free? {
      t := HandleOnce(c, s0, s, i);
      t := FinishHandler(c, s0, t, i);
    }
  }

  // ----- rivals, once the winner is done ------------------------------------

  /** `i` has its copy; nobody but `i` and the handler of `m` moved. */
  ghost predicate Served(m: Id, s: Fleet, t: Fleet, i: Id) {
    && t.nodes.Keys == s.nodes.Keys && i in t.nodes && m in t.nodes
    && t.nodes[i].phase.Served? && t.nodes[i].cached
    && t.nodes[m].phase == s.nodes[m].phase
    && forall j :: j in s.nodes && j != i && j != m ==> t.nodes[j] == s.nodes[j]
  }

  /** What is known of a rival once the winner is done. */
  lemma RivalKnows(c: Config, m: Id, s: Fleet, i: Id)
    requires ValidConfig(c) && IsMin(c, m) && Leads(c, Init(c), s) && i in c.wanters && i != m
    requires m in s.nodes && s.nodes[m].phase.Done?
    ensures s.nodes.Keys == c.nodes && s.nodes[m].cached && Packet(m, i, Fetched) in s.soup
    ensures RivalInv(c, m, s.nodes[i])
    ensures s.nodes[i].phase.Lan? ==> s.nodes[i].phase.from in s.nodes && s.nodes[s.nodes[i].phase.from].cached
    ensures s.nodes[i].phase.Served? ==> s.nodes[i].cached
    ensures !s.nodes[i].phase.Idle? && !s.nodes[i].phase.Joining?
    ensures s.nodes[i].phase.Collecting? ==> Packet(i, m, Want(c.nonce[i])) in s.soup
  {
    ReachedCalm(c, m, s);
    assert NodeInv(c, m, s, i) && NodeInv(c, m, s, m) && AskedAll(c, s, i);
    assert !Untouched(s.nodes[m]);
  }

  lemma CopyTaken(c: Config, m: Id, s0: Fleet, s: Fleet, i: Id) returns (t: Fleet)
    requires By(c, s0, s) && i in s.nodes && i != m && m in s.nodes
    requires s.nodes[i].phase == Released(m) || s.nodes[i].phase.Lan?
    requires s.nodes[m].cached
    requires s.nodes[i].phase.Lan? ==> s.nodes[i].phase.from in s.nodes && s.nodes[s.nodes[i].phase.from].cached
    ensures By(c, s0, t) && Served(m, s, t, i)
  {
    t := Advance(c, s0, s, Copy(i));
  }

  /**
   A rival that waits on the winner when the winner is done still has its claim, and
   the report is there for it; it takes the report and then the copy.
   */
  lemma WaiterServed(c: Config, m: Id, s0: Fleet, s: Fleet, i: Id) returns (t: Fleet)
    requires ValidConfig(c) && IsMin(c, m) && By(c, s0, s) && i in c.wanters && i != m
    requires m in s.nodes && s.nodes[m].phase.Done? && i in s.nodes && s.nodes[i].phase.Waiting?
    ensures s.nodes[i].phase.on == m && s.nodes[i].claim.Some? && s.nodes[i].claim.value.fetcher == m
    ensures Packet(m, i, Fetched) in s.soup
    ensures By(c, s0, t) && Served(m, s, t, i)
  {
    RivalKnows(c, m, s, i);
    t := FinishHandler(c, s0, s, i);
    t := Advance(c, s0, t, Receive(i, Packet(m, i, Fetched)));
    t := CopyTaken(c, m, s0, t, i);
  }

  function Handles(i: Id, n: nat): seq<Action> { if n == 0 then [] else [Handle(i)] + Handles(i, n - 1) }

  /** Finish the handler at hand, take the report, take the copy. */
  function Rest(i: Id, m: Id, h: Handler): seq<Action> {
    Handles(i, HandlerSteps(h)) + [Receive(i, Packet(m, i, Fetched)), Copy(i)]
  }

  /** A node that waits on `m`, which has the package and has told it so. */
  ghost predicate Tellable(s: Fleet, m: Id, i: Id) {
    && i != m && i in s.nodes && m in s.nodes && s.nodes[m].cached && Packet(m, i, Fetched) in s.soup
    && s.nodes[i].phase == Waiting(m) && s.nodes[i].claim.Some? && s.nodes[i].claim.value.fetcher == m
  }

  lemma TakesBoth(c: Config, s: Fleet, m: Id, i: Id)
    requires Tellable(s, m, i) && s.nodes[i].handler.Free?
    ensures var run := [Receive(i, Packet(m, i, Fetched)), Copy(i)];
            && Executes(c, s, run, InOrder(c))
            && var t := After(c, s, run, InOrder(c)); i in t.nodes && t.nodes[i].phase.Served? && t.nodes[i].cached
  {
    var p, q := Receive(i, Packet(m, i, Fetched)), Copy(i);
    var t := Apply(c, s, p);
    assert [p, q][1..] == [q] && [q][1..] == [];
    assert Executes(c, Apply(c, t, q), [], InOrder(c));
    assert Executes(c, t, [q], InOrder(c)) && After(c, t, [q], InOrder(c)) == Apply(c, t, q);
  }

  lemma {:induction false} RestRuns(c: Config, s: Fleet, m: Id, i: Id)
    requires Tellable(s, m, i)
    ensures var run := Rest(i, m, s.nodes[i].handler);
            && Executes(c, s, run, InOrder(c))
            && var t := After(c, s, run, InOrder(c)); i in t.nodes && t.nodes[i].phase.Served? && t.nodes[i].cached
    decreases HandlerSteps(s.nodes[i].handler)
  {
    var n, run := HandlerSteps(s.nodes[i].handler), Rest(i, m, s.nodes[i].handler);
    if n == 0 {
      TakesBoth(c, s, m, i);
      assert run == [Receive(i, Packet(m, i, Fetched)), Copy(i)];
    } else {
      HandleMoves(c, s, i);
      var t := Apply(c, s, Handle(i));
      assert HandlerSteps(t.nodes[i].handler) == n - 1;
      assert run[0] == Handle(i) && run[1..] == Rest(i, m, t.nodes[i].handler);
      RestRuns(c, t, m, i);
    }
  }

  /**
   In every orderly run: a node that waits on the winner when the winner is done still
   has its claim on it, the report lies on the wire for it, and finishing the handler at
   hand, taking the report and taking the copy is an orderly run that serves it.
   */
  lemma WaiterFinishes(c: Config, m: Id, run: seq<Action>, i: Id)
    requires ValidConfig(c) && IsMin(c, m) && Executes(c, Init(c), run, InOrder(c))
    requires var s := After(c, Init(c), run, InOrder(c));
             i in s.nodes && m in s.nodes && i != m && s.nodes[m].phase.Done? && s.nodes[i].phase.Waiting?
    ensures var s := After(c, Init(c), run, InOrder(c));
            && s.nodes[i].phase.on == m && s.nodes[i].claim.Some? && s.nodes[i].claim.value.fetcher == m
            && Packet(m, i, Fetched) in s.soup
            && Executes(c, s, Rest(i, m, s.nodes[i].handler), InOrder(c))
            && var t := After(c, s, Rest(i, m, s.nodes[i].handler), InOrder(c));
               i in t.nodes && t.nodes[i].phase.Served? && t.nodes[i].cached
  {
    var s := After(c, Init(c), run, InOrder(c));
    StartsCalm(c, m);
    CalmRun(c, m, Init(c), run);
    assert NodeInv(c, m, s, i) && NodeInv(c, m, s, m);
    RestRuns(c, s, m, i);
  }

  lemma NobodyIdle(c: Config, m: Id, s: Fleet)
    requires ValidConfig(c) && IsMin(c, m) && Leads(c, Init(c), s) && m in s.nodes && s.nodes[m].phase.Done?
    ensures forall w :: w in c.wanters && w in s.nodes ==> !s.nodes[w].phase.Idle? && !s.nodes[w].phase.Joining?
  {
    ReachedCalm(c, m, s);
    forall w | w in c.wanters && w in s.nodes ensures !s.nodes[w].phase.Idle? && !s.nodes[w].phase.Joining? {
      if w != m { RivalKnows(c, m, s, w); }
    }
  }

  /** The winner tells whoever asks that it has the package. */
  lemma WinnerAnswers(c: Config, m: Id, s0: Fleet, s: Fleet, i: Id) returns (t: Fleet)
    requires ValidConfig(c) && IsMin(c, m) && By(c, s0, s) && i in c.wanters && i != m
    requires m in s.nodes && s.nodes[m].phase.Done? && i in s.nodes && s.nodes[i].phase.Collecting?
    ensures By(c, s0, t) && OnlyMoves(s, t, m) && SameRequest(s.nodes[m], t.nodes[m])
    ensures Packet(m, i, Have) in t.soup
  {
    t := FinishHandler(c, s0, s, m);
    RivalKnows(c, m, t, i);
    NobodyIdle(c, m, t);
    t := Advance(c, s0, t, Receive(m, Packet(i, m, Want(c.nonce[i]))));
  }

  lemma HaveTaken(c: Config, m: Id, s0: Fleet, s: Fleet, i: Id) returns (t: Fleet)
    requires By(c, s0, s) && i in c.nonce && i in s.nodes && i != m && m in s.nodes && Packet(m, i, Have) in s.soup
    requires s.nodes[i].phase.Collecting? && s.nodes[i].handler.Free?
    ensures By(c, s0, t) && OnlyMoves(s, t, i) && t.nodes[i].phase == Lan(m)
  {
    t := Advance(c, s0, s, Receive(i, Packet(m, i, Have)));
    t := Advance(c, s0, t, Consume(i, Packet(m, i, Have)));
  }

  lemma CollectorServed(c: Config, m: Id, s0: Fleet, s: Fleet, i: Id) returns (t: Fleet)
    requires ValidConfig(c) && IsMin(c, m) && By(c, s0, s) && i in c.wanters && i != m
    requires m in s.nodes && s.nodes[m].phase.Done? && i in s.nodes && s.nodes[i].phase.Collecting?
    ensures By(c, s0, t) && Served(m, s, t, i)
  {
    RivalKnows(c, m, s, i);
    t := WinnerAnswers(c, m, s0, s, i);
    t := FinishHandler(c, s0, t, i);
    t := HaveTaken(c, m, s0, t, i);
    t := CopyTaken(c, m, s0, t, i);
  }

  lemma RivalServed(c: Config, m: Id, s0: Fleet, s: Fleet, i: Id) returns (t: Fleet)
    requires ValidConfig(c) && IsMin(c, m) && By(c, s0, s) && i in c.wanters && i != m
    requires m in s.nodes && s.nodes[m].phase.Done?
    ensures By(c, s0, t) && Served(m, s, t, i)
  {
    RivalKnows(c, m, s, i);
    t := s;
    match s.nodes[i].phase {
      case Registered =>
        assert m in c.nodes - {i};
        t := Advance(c, s0, s, Broadcast(i, c.nodes - {i}));
        t := CollectorServed(c, m, s0, t, i);
      case Collecting => t := CollectorServed(c, m, s0, s, i);
      case Waiting(_) => t := WaiterServed(c, m, s0, s, i);
      case Released(_) => t := CopyTaken(c, m, s0, s, i);
      case Lan(_) => t := CopyTaken(c, m, s0, s, i);
      case _ =>
    }
  }

  ghost function Unserved(c: Config, m: Id, s: Fleet): set<Id> {
    set i | i in c.wanters && i != m && !(i in s.nodes && s.nodes[i].phase.Served? && s.nodes[i].cached)
  }

  lemma {:induction false} AllServed(c: Config, m: Id, s0: Fleet, s: Fleet) returns (t: Fleet)
    requires ValidConfig(c) && IsMin(c, m) && By(c, s0, s) && m in s.nodes && s.nodes[m].phase.Done?
    ensures By(c, s0, t) && m in t.nodes && t.nodes[m].phase.Done? && Unserved(c, m, t) == {}
    decreases Unserved(c, m, s)
  {
    t := s;
    if Unserved(c, m, s) != {} {
      var i :| i in Unserved(c, m, s);
      t := RivalServed(c, m, s0, s, i);
      assert Unserved(c, m, t) < Unserved(c, m, s) by { assert i !in Unserved(c, m, t); }
      t := AllServed(c, m, s0, t);
    }
  }

  // ----- the winner ---------------------------------------------------------

  ghost function Idlers(c: Config, s: Fleet): set<Id> { set w | w in c.wanters && w in s.nodes && s.nodes[w].phase.Idle? }

  ghost function Silent(c: Config, s: Fleet): set<Id> {
    set w | w in c.wanters && w in s.nodes && s.nodes[w].phase.Registered?
  }

  lemma IdlerKnows(c: Config, m: Id, s: Fleet, w: Id)
    requires ValidConfig(c) && IsMin(c, m) && Leads(c, Init(c), s) && w in Idlers(c, s)
    ensures s.nodes[w].claim.None?
  {
    ReachedCalm(c, m, s);
    assert Untouched(s.nodes[w]);
  }

  lemma {:induction false} AllRegister(c: Config, m: Id, s0: Fleet, s: Fleet) returns (t: Fleet)
    requires ValidConfig(c) && IsMin(c, m) && By(c, s0, s)
    ensures By(c, s0, t) && Idlers(c, t) == {}
    decreases Idlers(c, s)
  {
    t := s;
    if Idlers(c, s) != {} {
      var w :| w in Idlers(c, s);
      IdlerKnows(c, m, s, w);
      t := Advance(c, s0, s, Register(w));
      assert Idlers(c, t) < Idlers(c, s) by { assert w !in Idlers(c, t); }
      t := AllRegister(c, m, s0, t);
    }
  }

  lemma {:induction false} AllAsk(c: Config, s0: Fleet, s: Fleet) returns (t: Fleet)
    requires ValidConfig(c) && By(c, s0, s) && Idlers(c, s) == {}
    ensures By(c, s0, t) && Idlers(c, t) == {} && Silent(c, t) == {}
    decreases Silent(c, s)
  {
    t := s;
    if Silent(c, s) != {} {
      var w :| w in Silent(c, s);
      t := Advance(c, s0, s, Broadcast(w, c.nodes - {w}));
      assert Silent(c, t) < Silent(c, s) by { assert w !in Silent(c, t); }
      assert Idlers(c, t) == {} by { assert forall v :: v in Idlers(c, t) ==> v in Idlers(c, s); }
      t := AllAsk(c, s0, t);
    }
  }

  /** What is known of the winner once everybody has asked. */
  lemma WinnerKnows(c: Config, m: Id, s: Fleet)
    requires ValidConfig(c) && IsMin(c, m) && Leads(c, Init(c), s) && Idlers(c, s) == {} && Silent(c, s) == {}
    ensures s.nodes.Keys == c.nodes && m in s.nodes && WinnerInv(c, m, s.nodes[m])
    ensures s.nodes[m].phase.Collecting? || FetchesWan(s.nodes[m].phase)
    ensures forall w :: w in c.wanters && w in s.nodes ==> !s.nodes[w].phase.Idle? && !s.nodes[w].phase.Joining?
    ensures forall w :: w in c.wanters && w != m ==> w in c.nonce && Packet(w, m, Want(c.nonce[w])) in s.soup
  {
    ReachedCalm(c, m, s);
    forall w | w in c.wanters
      ensures w in s.nodes && !s.nodes[w].phase.Idle? && !s.nodes[w].phase.Registered? && !s.nodes[w].phase.Joining?
    {
      assert w !in Idlers(c, s) && w !in Silent(c, s);
      assert NodeInv(c, m, s, w);
    }
    forall w | w in c.wanters && w != m ensures Packet(w, m, Want(c.nonce[w])) in s.soup { assert AskedAll(c, s, w); }
  }

  /** What the two further locked sections do with a want, in a node that collects. */
  lemma WantRouted(c: Config, s: Fleet, m: Id, p: Packet)
    requires m in s.nodes && s.nodes[m].handler == WantAtInFlight(p)
    requires s.nodes[m].phase.Collecting? && s.nodes[m].claim.None?
    ensures Enabled(c, s, Handle(m))
    ensures var t := Apply(c, s, Handle(m));
            && t.nodes[m].handler == WantAtPending(p) && Enabled(c, t, Handle(m))
            && p in Apply(c, t, Handle(m)).nodes[m].inbox && Apply(c, t, Handle(m)).nodes[m].handler.Free?
  {
  }

  /** The winner's handler takes up the want of `w`. */
  lemma WinnerTakesUp(c: Config, m: Id, s0: Fleet, s: Fleet, w: Id) returns (t: Fleet)
    requires ValidConfig(c) && IsMin(c, m) && By(c, s0, s) && Idlers(c, s) == {} && Silent(c, s) == {}
    requires m in s.nodes && s.nodes[m].phase.Collecting? && s.nodes[m].handler.Free? && w in c.wanters && w != m
    ensures By(c, s0, t) && OnlyMoves(s, t, m) && SameRequest(s.nodes[m], t.nodes[m])
    ensures t.nodes[m].handler == WantAtInFlight(Packet(w, m, Want(c.nonce[w]))) && t.nodes[m].claim.None?
  {
    WinnerKnows(c, m, s);
    t := Advance(c, s0, s, Receive(m, Packet(w, m, Want(c.nonce[w]))));
  }

  /** And routes it to the claim window. */
  lemma WinnerRoutes(c: Config, m: Id, s0: Fleet, s: Fleet, w: Id) returns (t: Fleet)
    requires ValidConfig(c) && IsMin(c, m) && By(c, s0, s) && Idlers(c, s) == {} && Silent(c, s) == {}
    requires m in s.nodes && s.nodes[m].phase.Collecting? && s.nodes[m].handler.Free? && w in c.wanters && w != m
    ensures By(c, s0, t) && OnlyMoves(s, t, m) && SameRequest(s.nodes[m], t.nodes[m]) && t.nodes[m].handler.Free?
    ensures Packet(w, m, Want(c.nonce[w])) in t.nodes[m].inbox
  {
    t := WinnerTakesUp(c, m, s0, s, w);
    WantRouted(c, t, m, Packet(w, m, Want(c.nonce[w])));
    HandleMoves(c, t, m);
    t := Advance(c, s0, t, Handle(m));
    HandleMoves(c, t, m);
    t := Advance(c, s0, t, Handle(m));
  }

  ghost function Unheard(c: Config, m: Id, s: Fleet): set<Id> {
    set w | w in c.wanters && w != m && !(m in s.nodes && HeardWant(s.nodes[m], w))
  }

  lemma WinnerHears(c: Config, m: Id, s0: Fleet, s: Fleet, w: Id) returns (t: Fleet)
    requires ValidConfig(c) && IsMin(c, m) && By(c, s0, s) && Idlers(c, s) == {} && Silent(c, s) == {}
    requires m in s.nodes && s.nodes[m].phase.Collecting? && s.nodes[m].handler.Free? && w in Unheard(c, m, s)
    ensures By(c, s0, t) && OnlyMoves(s, t, m) && t.nodes[m].phase.Collecting? && t.nodes[m].handler.Free?
    ensures Unheard(c, m, t) < Unheard(c, m, s)
  {
    var p := Packet(w, m, Want(c.nonce[w]));
    t := WinnerRoutes(c, m, s0, s, w);
    t := Advance(c, s0, t, Consume(m, p));
    assert t.nodes[m].seen == s.nodes[m].seen + {p};
    assert HeardWant(t.nodes[m], w);
    assert forall v :: HeardWant(s.nodes[m], v) ==> HeardWant(t.nodes[m], v);
    assert w !in Unheard(c, m, t);
  }

  lemma NobodySlips(c: Config, m: Id, s: Fleet, t: Fleet)
    requires OnlyMoves(s, t, m) && m in s.nodes && Idlers(c, s) == {} && Silent(c, s) == {}
    requires !t.nodes[m].phase.Idle? && !t.nodes[m].phase.Registered?
    ensures Idlers(c, t) == {} && Silent(c, t) == {}
  {
    assert forall w :: w in Idlers(c, t) ==> w in Idlers(c, s);
    assert forall w :: w in Silent(c, t) ==> w in Silent(c, s);
  }

  lemma {:induction false} WinnerHearsAll(c: Config, m: Id, s0: Fleet, s: Fleet) returns (t: Fleet)
    requires ValidConfig(c) && IsMin(c, m) && By(c, s0, s) && Idlers(c, s) == {} && Silent(c, s) == {}
    requires m in s.nodes && s.nodes[m].phase.Collecting? && s.nodes[m].handler.Free?
    ensures By(c, s0, t) && Idlers(c, t) == {} && Silent(c, t) == {} && Unheard(c, m, t) == {}
    ensures m in t.nodes && t.nodes[m].phase.Collecting? && t.nodes[m].handler.Free?
    decreases Unheard(c, m, s)
  {
    t := s;
    if Unheard(c, m, s) != {} {
      var w :| w in Unheard(c, m, s);
      t := WinnerHears(c, m, s0, s, w);
      NobodySlips(c, m, s, t);
      t := WinnerHearsAll(c, m, s0, t);
    }
  }

  /** Having heard every rival, the winner's timer sends it to the WAN. */
  lemma WinnerDecides(c: Config, m: Id, s0: Fleet, s: Fleet) returns (t: Fleet)
    requires ValidConfig(c) && IsMin(c, m) && By(c, s0, s) && Idlers(c, s) == {} && Silent(c, s) == {}
    requires m in s.nodes && s.nodes[m].phase.Collecting?
    ensures By(c, s0, t) && m in t.nodes && t.nodes[m].phase.Wan? && t.nodes[m].handler.Free?
  {
    t := FinishHandler(c, s0, s, m);
    NobodySlips(c, m, s, t);
    t := WinnerHearsAll(c, m, s0, t);
    WinnerKnows(c, m, t);
    assert forall w :: w in c.wanters && w != m ==> w !in Unheard(c, m, t);
    t := Advance(c, s0, t, Timer(m));
  }

  /** From the decision to the end of the download. */
  lemma WinnerFetches(c: Config, m: Id, s0: Fleet, s: Fleet) returns (t: Fleet)
    requires By(c, s0, s) && m in s.nodes && FetchesWan(s.nodes[m].phase)
    ensures By(c, s0, t) && m in t.nodes && t.nodes[m].phase.Done?
  {
    t := FinishHandler(c, s0, s, m);
    if t.nodes[m].phase.Wan? { t := Advance(c, s0, t, Announce(m, 0)); }
    if t.nodes[m].phase.Announced? { t := Advance(c, s0, t, Store(m)); }
    if t.nodes[m].phase.Stored? { t := Advance(c, s0, t, Finish(m)); }
  }

  lemma WinnerDone(c: Config, m: Id, s0: Fleet, s: Fleet) returns (t: Fleet)
    requires ValidConfig(c) && IsMin(c, m) && By(c, s0, s)
    ensures By(c, s0, t) && m in t.nodes && t.nodes[m].phase.Done?
  {
    t := AllRegister(c, m, s0, s);
    t := AllAsk(c, s0, t);
    WinnerKnows(c, m, t);
    if t.nodes[m].phase.Collecting? { t := WinnerDecides(c, m, s0, t); }
    t := WinnerFetches(c, m, s0, t);
  }

  /**
   Whatever has happened in an orderly run, it can be continued in order until the
   lowest-nonce wanter is done and every other wanter has its copy: no interleaving
   leaves anybody waiting with nothing left to wait for.
   */
  lemma AlwaysCompletes(c: Config, m: Id, run: seq<Action>) returns (more: seq<Action>)
    requires ValidConfig(c) && IsMin(c, m) && Executes(c, Init(c), run, InOrder(c))
    ensures Executes(c, After(c, Init(c), run, InOrder(c)), more, InOrder(c))
    ensures var t := After(c, After(c, Init(c), run, InOrder(c)), more, InOrder(c));
            && m in t.nodes && t.nodes[m].phase.Done? && t.nodes[m].cached
            && forall i :: i in c.wanters && i != m ==> i in t.nodes && t.nodes[i].phase.Served? && t.nodes[i].cached
  {
    var s := After(c, Init(c), run, InOrder(c));
    assert Executes(c, s, [], InOrder(c)) && After(c, s, [], InOrder(c)) == s;
    assert By(c, s, s);
    var t := WinnerDone(c, m, s, s);
    t := AllServed(c, m, s, t);
    more :| Executes(c, s, more, InOrder(c)) && After(c, s, more, InOrder(c)) == t;
    forall i | i in c.wanters && i != m ensures i in t.nodes && t.nodes[i].phase.Served? && t.nodes[i].cached {
      assert i !in Unserved(c, m, t);
    }
    ReachedCalm(c, m, t);
    assert NodeInv(c, m, t, m);
  }
}
