/** Runs of a fleet of two that break a promise: two end with two WAN fetchers, one with a node that waits in vain. */
module ElectionRuns {
  import opened FleetElection
  import opened Prelude

  // ----- runs of two --------------------------------------------------------

  ghost function Overlapping(c: Config): (Fleet, Action) -> bool {
    (s: Fleet, a: Action) => Overlap(c, s, a)
  }

  const DUEL := Config({0, 1}, {0, 1}, map[0 := 10, 1 := 20])
  const W0 := Packet(0, 1, Want(10))
  const W1 := Packet(1, 0, Want(20))
  const D0 := Packet(0, 1, DontHave(0, false))
  const D1 := Packet(1, 0, DontHave(20, true))
  const F0 := Packet(0, 1, Fetching(5))
  const G0 := Packet(0, 1, Fetched)

  /** Orderly runs, or runs with overlap only. */
  ghost function Rule(orderly: bool): (Fleet, Action) -> bool { if orderly then InOrder(DUEL) else Overlapping(DUEL) }

  /** `s` is the state after some run that obeys the rule; if `told`, node 1 has received the report of node 0 in it. */
  ghost predicate Reached(orderly: bool, told: bool, s: Fleet) {
    exists run :: Executes(DUEL, Init(DUEL), run, Rule(orderly)) && After(DUEL, Init(DUEL), run, Rule(orderly)) == s
                  && (told ==> Receive(1, G0) in run)
  }

  lemma ReachedThen(orderly: bool, told: bool, s: Fleet, a: Action)
    requires Reached(orderly, told, s) && Enabled(DUEL, s, a) && Rule(orderly)(s, a)
    ensures Reached(orderly, told || a == Receive(1, G0), Fleet(s.nodes[a.i := Next(DUEL, s, a)], s.soup + Sends(DUEL, s, a)))
  {
    var ok := Rule(orderly);
    var run :| Executes(DUEL, Init(DUEL), run, ok) && After(DUEL, Init(DUEL), run, ok) == s && (told ==> Receive(1, G0) in run);
    ExecutesThen(DUEL, Init(DUEL), run, a, ok);
    assert a in run + [a];
  }

  function Two(n0: Node, n1: Node, soup: set<Packet>): Fleet { Fleet(map[0 := n0, 1 := n1], soup) }

  predicate Racing(n: Node) { !n.phase.Idle? && !n.phase.Joining? }

  ghost predicate DuelOk(orderly: bool, n0: Node, n1: Node, a: Action) {
    && !a.Stray?
    && (a.Timer? ==> a.i == 1 && W0 in n1.seen)
    && (a.Receive? && a.packet.msg.Want? ==> Racing(n0) && Racing(n1))
    && (a.Broadcast? ==> a.reached == if a.i == 0 then {1} else {0})
    && (orderly && a.i == 0 && (a.Consume? || a.Finish?) ==> n0.handler.Free?)
  }

  lemma DuelOverlaps(n0: Node, n1: Node, soup: set<Packet>, a: Action)
    requires Enabled(DUEL, Two(n0, n1, soup), a) && DuelOk(false, n0, n1, a)
    ensures Overlap(DUEL, Two(n0, n1, soup), a)
  {
    assert DUEL.nodes - {0} == {1} && DUEL.nodes - {1} == {0};
    assert W0 in n1.seen ==> HeardWant(n1, 0);
  }

  lemma DuelRuled(orderly: bool, n0: Node, n1: Node, soup: set<Packet>, a: Action)
    requires Enabled(DUEL, Two(n0, n1, soup), a) && DuelOk(orderly, n0, n1, a)
    ensures Rule(orderly)(Two(n0, n1, soup), a)
  {
    DuelOverlaps(n0, n1, soup, a);
    assert !IsMin(DUEL, 1) by { assert DUEL.nonce[0] < DUEL.nonce[1]; }
  }

  lemma DuelStep(orderly: bool, told: bool, n0: Node, n1: Node, soup: set<Packet>, a: Action,
                 n0': Node, n1': Node, soup': set<Packet>)
    requires var s := Two(n0, n1, soup);
             && Reached(orderly, told, s) && Enabled(DUEL, s, a) && DuelOk(orderly, n0, n1, a)
             && (if a.i == 0 then n0' == Next(DUEL, s, a) && n1' == n1 else n1' == Next(DUEL, s, a) && n0' == n0)
             && soup' == soup + Sends(DUEL, s, a)
    ensures Reached(orderly, told || a == Receive(1, G0), Two(n0', n1', soup'))
  {
    DuelRuled(orderly, n0, n1, soup, a);
    ReachedThen(orderly, told, Two(n0, n1, soup), a);
    assert map[0 := n0, 1 := n1][a.i := if a.i == 0 then n0' else n1'] == map[0 := n0', 1 := n1'];
  }

  const ENROLLED := FRESH.(phase := Registered)
  const RACING_0 := FRESH.(phase := Collecting, awaiting := {1}, campaigned := true)
  const RACING_1 := FRESH.(phase := Collecting, awaiting := {0}, campaigned := true)

  lemma DuelOpens(orderly: bool)
    ensures Reached(orderly, false, Two(ENROLLED, ENROLLED, {}))
  {
    var ok := Rule(orderly);
    assert Executes(DUEL, Init(DUEL), [], ok) && After(DUEL, Init(DUEL), [], ok) == Init(DUEL);
    assert Init(DUEL) == Two(FRESH, FRESH, {});
    DuelStep(orderly, false, FRESH, FRESH, {}, Register(0), ENROLLED, FRESH, {});
    DuelStep(orderly, false, ENROLLED, FRESH, {}, Register(1), ENROLLED, ENROLLED, {});
  }

  lemma DuelStarts(orderly: bool)
    ensures Reached(orderly, false, Two(RACING_0, RACING_1, {W0, W1}))
  {
    DuelOpens(orderly);
    DuelStep(orderly, false, ENROLLED, ENROLLED, {}, Broadcast(0, {1}), RACING_0, ENROLLED, {W0});
    DuelStep(orderly, false, RACING_0, ENROLLED, {W0}, Broadcast(1, {0}), RACING_0, RACING_1, {W0, W1});
  }

  const ASKED := RACING_1.(inbox := {W0})

  lemma RivalConsiders(orderly: bool)
    ensures Reached(orderly, false, Two(RACING_0, RACING_1.(handler := WantAtPending(W0)), {W0, W1}))
  {
    DuelStarts(orderly);
    var n1, n1' := RACING_1.(handler := WantAtInFlight(W0)), RACING_1.(handler := WantAtPending(W0));
    DuelStep(orderly, false, RACING_0, RACING_1, {W0, W1}, Receive(1, W0), RACING_0, n1, {W0, W1});
    DuelStep(orderly, false, RACING_0, n1, {W0, W1}, Handle(1), RACING_0, n1', {W0, W1});
  }

  lemma RivalAnswers(orderly: bool)
    ensures Reached(orderly, false, Two(RACING_0, ASKED, {W0, W1, D1}))
  {
    RivalConsiders(orderly);
    var n1' := RACING_1.(handler := WantAtPending(W0));
    assert n1'.inbox + {W0} == {W0};
    DuelStep(orderly, false, RACING_0, n1', {W0, W1}, Handle(1), RACING_0, ASKED, {W0, W1, D1});
  }

  // ----- overlap alone is not enough ----------------------------------------

  const STRADDLING := RACING_0.(inbox := {D1}, handler := WantAtPending(W1))
  const VICTOR := RACING_0.(inbox := {D1}, seen := {D1}, awaiting := {}, phase := Wan, claim := Some(Claim(0, 10)))

  lemma WinnerStraddles()
    ensures Reached(false, false, Two(STRADDLING, ASKED, {W0, W1, D1}))
  {
    RivalAnswers(false);
    var soup := {W0, W1, D1};
    var n0 := RACING_0.(inbox := {D1});
    var n0' := n0.(handler := WantAtInFlight(W1));
    assert RACING_0.inbox + {D1} == {D1};
    DuelStep(false, false, RACING_0, ASKED, soup, Receive(0, D1), n0, ASKED, soup);
    DuelStep(false, false, n0, ASKED, soup, Receive(0, W1), n0', ASKED, soup);
    DuelStep(false, false, n0', ASKED, soup, Handle(0), STRADDLING, ASKED, soup);
  }

  lemma WinnerDeniesRacing()
    ensures Reached(false, false, Two(VICTOR, ASKED, {W0, W1, D1, D0}))
  {
    WinnerStraddles();
    var soup := {W0, W1, D1};
    var v := VICTOR.(handler := WantAtPending(W1));
    assert STRADDLING.seen + {D1} == {D1} && STRADDLING.awaiting - {1} == {};
    DuelStep(false, false, STRADDLING, ASKED, soup, Consume(0, D1), v, ASKED, soup);
    DuelStep(false, false, v, ASKED, soup, Handle(0), VICTOR, ASKED, {W0, W1, D1, D0});
  }

  const DENIED := ASKED.(inbox := {W0, D0})

  lemma RivalHearsDenial()
    ensures Reached(false, false, Two(VICTOR, DENIED, {W0, W1, D1, D0}))
  {
    WinnerDeniesRacing();
    var soup := {W0, W1, D1, D0};
    assert ASKED.inbox + {D0} == DENIED.inbox;
    DuelStep(false, false, VICTOR, ASKED, soup, Receive(1, D0), VICTOR, DENIED, soup);
  }

  /**
   A two-node run with full overlap that elects two WAN fetchers: the winner
   passes the in-flight check of a rival's want, decides, and only then finds no
   pending want, so it answers "not racing"; the rival takes that answer before
   the winner's own want, which is already in its queue.
   */
  lemma StraddledWantElectsTwo() returns (s: Fleet)
    ensures ValidConfig(DUEL) && IsMin(DUEL, 0) && 1 in DUEL.wanters
    ensures Reached(false, false, s) && 0 in s.nodes && 1 in s.nodes
    ensures FetchesWan(s.nodes[0].phase) && FetchesWan(s.nodes[1].phase)
  {
    RivalHearsDenial();
    var soup := {W0, W1, D1, D0};
    assert DENIED.seen + {D0} == {D0} && DENIED.awaiting - {0} == {};
    var misled := DENIED.(seen := {D0}, awaiting := {}, phase := Wan, claim := Some(Claim(1, 20)));
    s := Two(VICTOR, misled, soup);
    DuelStep(false, false, VICTOR, DENIED, soup, Consume(1, D0), VICTOR, misled, soup);
  }

  // ----- a claim that vanishes ----------------------------------------------

  /** `s` is the state after some run. */
  ghost predicate Possible(c: Config, s: Fleet) {
    exists run :: Executes(c, Init(c), run, Any) && After(c, Init(c), run, Any) == s
  }

  lemma PossibleThen(c: Config, s: Fleet, a: Action)
    requires Possible(c, s) && Enabled(c, s, a)
    ensures Possible(c, Fleet(s.nodes[a.i := Next(c, s, a)], s.soup + Sends(c, s, a)))
  {
    var run :| Executes(c, Init(c), run, Any) && After(c, Init(c), run, Any) == s;
    ExecutesThen(c, Init(c), run, a, Any);
  }

  lemma FreeStep(n0: Node, n1: Node, soup: set<Packet>, a: Action, n0': Node, n1': Node, soup': set<Packet>)
    requires var s := Two(n0, n1, soup);
             && Possible(DUEL, s) && Enabled(DUEL, s, a)
             && (if a.i == 0 then n0' == Next(DUEL, s, a) && n1' == n1 else n1' == Next(DUEL, s, a) && n0' == n0)
             && soup' == soup + Sends(DUEL, s, a)
    ensures Possible(DUEL, Two(n0', n1', soup'))
  {
    PossibleThen(DUEL, Two(n0, n1, soup), a);
    assert map[0 := n0, 1 := n1][a.i := if a.i == 0 then n0' else n1'] == map[0 := n0', 1 := n1'];
  }

  const E1 := Packet(1, 0, DontHave(0, false))

  lemma SoleWanterAsks()
    ensures Possible(DUEL, Two(RACING_0, FRESH, {W0}))
  {
    assert Executes(DUEL, Init(DUEL), [], Any) && After(DUEL, Init(DUEL), [], Any) == Init(DUEL);
    assert Init(DUEL) == Two(FRESH, FRESH, {});
    FreeStep(FRESH, FRESH, {}, Register(0), ENROLLED, FRESH, {});
    FreeStep(ENROLLED, FRESH, {}, Broadcast(0, {1}), RACING_0, FRESH, {W0});
  }

  lemma BystanderDeclines()
    ensures Possible(DUEL, Two(RACING_0, FRESH, {W0, E1}))
  {
    SoleWanterAsks();
    var n1, n1' := FRESH.(handler := WantAtInFlight(W0)), FRESH.(handler := WantAtPending(W0));
    FreeStep(RACING_0, FRESH, {W0}, Receive(1, W0), RACING_0, n1, {W0});
    FreeStep(RACING_0, n1, {W0}, Handle(1), RACING_0, n1', {W0});
    FreeStep(RACING_0, n1', {W0}, Handle(1), RACING_0, FRESH, {W0, E1});
  }

  const SOLE := RACING_0.(inbox := {E1}, seen := {E1}, awaiting := {}, phase := Announced, claim := Some(Claim(0, 5)))

  lemma SoleWanterAnnounces()
    ensures Possible(DUEL, Two(SOLE, FRESH, {W0, E1, F0}))
  {
    BystanderDeclines();
    var n0 := RACING_0.(inbox := {E1});
    assert RACING_0.inbox + {E1} == {E1} && n0.seen + {E1} == {E1} && n0.awaiting - {1} == {};
    FreeStep(RACING_0, FRESH, {W0, E1}, Receive(0, E1), n0, FRESH, {W0, E1});
    var n0' := n0.(seen := {E1}, awaiting := {}, phase := Wan, claim := Some(Claim(0, 10)));
    FreeStep(n0, FRESH, {W0, E1}, Consume(0, E1), n0', FRESH, {W0, E1});
    assert ToAll(0, DUEL.nodes - {0}, Fetching(5)) == {F0};
    FreeStep(n0', FRESH, {W0, E1}, Announce(0, 5), SOLE, FRESH, {W0, E1, F0});
  }

  const JOINER := FRESH.(phase := Joining(0), claim := Some(Claim(0, 5)))

  lemma LatecomerFindsClaim()
    ensures Possible(DUEL, Two(SOLE, JOINER, {W0, E1, F0}))
  {
    SoleWanterAnnounces();
    var soup := {W0, E1, F0};
    var told := FRESH.(claim := Some(Claim(0, 5)));
    FreeStep(SOLE, FRESH, soup, Receive(1, F0), SOLE, told.(handler := FetchingAtPending(F0)), soup);
    FreeStep(SOLE, told.(handler := FetchingAtPending(F0)), soup, Handle(1), SOLE, told, soup);
    FreeStep(SOLE, told, soup, Register(1), SOLE, JOINER, soup);
  }

  const DONE := SOLE.(phase := Done, cached := true, claim := None)
  const ORPHAN := JOINER.(claim := None)

  lemma ClaimEnds()
    ensures Possible(DUEL, Two(DONE, JOINER, {W0, E1, F0, G0}))
  {
    LatecomerFindsClaim();
    var soup := {W0, E1, F0};
    var stored := SOLE.(phase := Stored, cached := true);
    FreeStep(SOLE, JOINER, soup, Store(0), stored, JOINER, soup);
    assert ToAll(0, DUEL.nodes - {0}, Fetched) == {G0};
    FreeStep(stored, JOINER, soup, Finish(0), DONE, JOINER, soup + {G0});
    assert soup + {G0} == {W0, E1, F0, G0};
  }

  /**
   A run without failures, cancellations or elections lost in which two nodes fetch
   from the WAN: the second finds the claim of the first, which is gone by the time it
   comes to queue on it.
   */
  lemma VanishedClaimElectsTwo() returns (s: Fleet)
    ensures Possible(DUEL, s) && 0 in s.nodes && 1 in s.nodes
    ensures FetchesWan(s.nodes[0].phase) && FetchesWan(s.nodes[1].phase) && !s.nodes[1].campaigned
  {
    ClaimEnds();
    var soup := {W0, E1, F0, G0};
    FreeStep(DONE, JOINER, soup, Receive(1, G0), DONE, ORPHAN, soup);
    var astray := ORPHAN.(phase := Wan, strayed := true);
    FreeStep(DONE, ORPHAN, soup, Join(1), DONE, astray, soup);
    s := Two(DONE, astray, soup);
  }

  // ----- a report that comes too early --------------------------------------

  lemma WinnerDecidesInOrder()
    ensures Reached(true, false, Two(VICTOR, ASKED, {W0, W1, D1}))
  {
    RivalAnswers(true);
    var soup := {W0, W1, D1};
    var n0 := RACING_0.(inbox := {D1});
    assert RACING_0.inbox + {D1} == {D1} && n0.seen + {D1} == {D1} && n0.awaiting - {1} == {};
    DuelStep(true, false, RACING_0, ASKED, soup, Receive(0, D1), n0, ASKED, soup);
    DuelStep(true, false, n0, ASKED, soup, Consume(0, D1), VICTOR, ASKED, soup);
  }

  const FINISHED := VICTOR.(phase := Done, cached := true, claim := None)

  lemma WinnerFinishesInOrder()
    ensures Reached(true, false, Two(FINISHED, ASKED, {W0, W1, D1, F0, G0}))
  {
    WinnerDecidesInOrder();
    var soup, soup' := {W0, W1, D1}, {W0, W1, D1, F0};
    var announced := VICTOR.(phase := Announced, claim := Some(Claim(0, 5)));
    var stored := announced.(phase := Stored, cached := true);
    assert ToAll(0, DUEL.nodes - {0}, Fetching(5)) == {F0} && ToAll(0, DUEL.nodes - {0}, Fetched) == {G0};
    DuelStep(true, false, VICTOR, ASKED, soup, Announce(0, 5), announced, ASKED, soup');
    DuelStep(true, false, announced, ASKED, soup', Store(0), stored, ASKED, soup');
    DuelStep(true, false, stored, ASKED, soup', Finish(0), FINISHED, ASKED, soup' + {G0});
    assert soup' + {G0} == {W0, W1, D1, F0, G0};
  }

  /**
   An orderly run in which a node waits on the winner although the winner is done and has
   told it so: the report came while it was still collecting, and is not remembered.
   Unless it is told again, it waits until its wait runs out.
   */
  lemma EarlyReportIsMissed() returns (s: Fleet)
    ensures Reached(true, true, s) && 0 in s.nodes && 1 in s.nodes
    ensures s.nodes[0].phase.Done? && s.nodes[1].phase == Waiting(0)
  {
    WinnerFinishesInOrder();
    var soup := {W0, W1, D1, F0, G0};
    DuelStep(true, false, FINISHED, ASKED, soup, Receive(1, G0), FINISHED, ASKED, soup);
    var heard := ASKED.(seen := {W0}, elected := Some(Bid(0, 10)));
    assert ASKED.seen + {W0} == {W0};
    DuelStep(true, true, FINISHED, ASKED, soup, Consume(1, W0), FINISHED, heard, soup);
    var waiting := heard.(phase := Waiting(0), claim := Some(Claim(0, 10)));
    DuelStep(true, true, FINISHED, heard, soup, Timer(1), FINISHED, waiting, soup);
    s := Two(FINISHED, waiting, soup);
  }
}
