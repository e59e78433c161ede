/**
 The claim window of `WantPackage`: the select loop that folds the answers of the
 fleet, in whatever order and multiplicity they arrive, into one verdict.
 */
module ClaimWindow {
  type PeerId = string

  datatype Event =
    | Have(peer: PeerId)
    | Want(peer: PeerId, nonce: nat)
    | Fetching(peer: PeerId, nonce: nat)
    | DontHave(peer: PeerId, nonce: nat, alsoWanting: bool)
    | Timer
    | Cancelled

  datatype Verdict =
    | FetchLan(peer: PeerId)
    | Follow(peer: PeerId, nonce: nat)   // an announced fetch below our nonce
    | WaitOn(peer: PeerId, nonce: nat)   // lost the election
    | FetchWan
    | Abandoned

  datatype Bid = NoBid | Lowest(peer: PeerId, nonce: nat)

  predicate IsBid(e: Event) { e.Want? || (e.DontHave? && e.alsoWanting) }

  /** An event that ends the window by itself. */
  predicate Ends(own: nat, e: Event) {
    e.Have? || e.Timer? || e.Cancelled? || (e.Fetching? && e.nonce < own)
  }

  ghost predicate Answered(p: PeerId, es: seq<Event>) {
    exists k :: 0 <= k < |es| && es[k].DontHave? && es[k].peer == p
  }

  /** The window is still open after `es`: nothing ended it and some reached peer owes an answer. */
  ghost predicate StillOpen(own: nat, reached: set<PeerId>, es: seq<Event>) {
    && (forall k :: 0 <= k < |es| ==> !Ends(own, es[k]))
    && (exists p :: p in reached && !Answered(p, es))
  }

  /** The first among the lowest bids below our own nonce, or none if there is no such bid. */
  ghost predicate IsLowest(own: nat, es: seq<Event>, b: Bid) {
    match b
    case NoBid => forall k :: 0 <= k < |es| && IsBid(es[k]) ==> own <= es[k].nonce
    case Lowest(p, n) =>
      && n < own
      && exists j :: 0 <= j < |es| && IsBid(es[j]) && es[j].peer == p && es[j].nonce == n && FirstLowest(es, j)
  }

  ghost predicate FirstLowest(es: seq<Event>, j: int)
    requires 0 <= j < |es| && IsBid(es[j])
  {
    && (forall i :: 0 <= i < j && IsBid(es[i]) ==> es[j].nonce < es[i].nonce)
    && (forall i :: j <= i < |es| && IsBid(es[i]) ==> es[j].nonce <= es[i].nonce)
  }

  ghost predicate Elects(own: nat, es: seq<Event>, v: Verdict) {
    match v
    case FetchWan => IsLowest(own, es, NoBid)
    case WaitOn(p, n) => IsLowest(own, es, Lowest(p, n))
    case _ => false
  }

  function Better(own: nat, b: Bid, e: Event): Bid {
    if IsBid(e) && e.nonce < own && (b.NoBid? || e.nonce < b.nonce) then Lowest(e.peer, e.nonce) else b
  }

  lemma LowestExtends(own: nat, es: seq<Event>, b: Bid, e: Event)
    requires IsLowest(own, es, b)
    ensures IsLowest(own, es + [e], Better(own, b, e))
  {
    var all := es + [e];
    if Better(own, b, e) != b {
      assert IsBid(all[|es|]) && FirstLowest(all, |es|);
    } else if b.Lowest? {
      var j :| 0 <= j < |es| && IsBid(es[j]) && es[j].peer == b.peer && es[j].nonce == b.nonce && FirstLowest(es, j);
      assert all[j] == es[j];
      assert FirstLowest(all, j);
    }
  }

  /** What the loop knows after the events `es`. */
  ghost predicate Tally(own: nat, reached: set<PeerId>, es: seq<Event>, awaiting: set<PeerId>, lowest: Bid) {
    && awaiting <= reached
    && (forall p :: p in reached ==> (p in awaiting <==> !Answered(p, es)))
    && (forall k :: 0 <= k < |es| ==> !Ends(own, es[k]))
    && IsLowest(own, es, lowest)
  }

  lemma TallyExtends(own: nat, reached: set<PeerId>, es: seq<Event>, awaiting: set<PeerId>, lowest: Bid, e: Event)
    requires Tally(own, reached, es, awaiting, lowest)
    ensures awaiting != {} ==> StillOpen(own, reached, es)
    ensures !Ends(own, e) ==>
              Tally(own, reached, es + [e], if e.DontHave? then awaiting - {e.peer} else awaiting, Better(own, lowest, e))
  {
    if awaiting != {} {
      var p :| p in awaiting;
    }
    LowestExtends(own, es, lowest, e);
    AnsweredExtends(es, e);
  }

  ghost predicate AllAnswered(reached: set<PeerId>, es: seq<Event>) {
    forall p :: p in reached ==> Answered(p, es)
  }

  /** `v` is right for a window that closed after `used` of the events. */
  ghost predicate Closes(own: nat, reached: set<PeerId>, events: seq<Event>, used: nat, v: Verdict) {
    used <= |events| &&
    if used > 0 && Ends(own, events[used - 1]) then
      && StillOpen(own, reached, events[..used - 1])
      && match events[used - 1]
         case Have(p) => v == FetchLan(p)
         case Fetching(p, n) => v == Follow(p, n)
         case Cancelled => v == Abandoned
         case _ => Elects(own, events[..used - 1], v)
    else
      && Elects(own, events[..used], v)
      && (|| (used > 0 && StillOpen(own, reached, events[..used - 1]) && AllAnswered(reached, events[..used]))
          || (used == |events| && StillOpen(own, reached, events)))
  }

  /**
   What a verdict says about the events it was reached on: nothing decisive came before
   the last one; a copy or a fetch to follow was offered by the last one; the node
   fetches itself only if nobody bid below it, and else waits on a lowest bidder.
   Wants and refusals of peers that want the package themselves are bids.
   */
  lemma VerdictExactly(own: nat, reached: set<PeerId>, events: seq<Event>, used: nat, v: Verdict)
    requires Closes(own, reached, events, used, v)
    ensures used <= |events|
    ensures forall k :: 0 <= k < used - 1 ==>
              && !events[k].Have? && !events[k].Timer? && !events[k].Cancelled?
              && (events[k].Fetching? ==> own <= events[k].nonce)
    ensures v.FetchLan? ==> used > 0 && events[used - 1] == Have(v.peer)
    ensures v.Follow? ==> used > 0 && events[used - 1] == Fetching(v.peer, v.nonce) && v.nonce < own
    ensures v.FetchWan? ==>
              forall k :: 0 <= k < used && (events[k].Want? || (events[k].DontHave? && events[k].alsoWanting)) ==>
                own <= events[k].nonce
    ensures v.WaitOn? ==>
              && v.nonce < own
              && (exists k :: 0 <= k < used &&
                    (events[k] == Want(v.peer, v.nonce) || events[k] == DontHave(v.peer, v.nonce, true)))
              && forall k :: 0 <= k < used && (events[k].Want? || (events[k].DontHave? && events[k].alsoWanting)) ==>
                   v.nonce <= events[k].nonce
  {
    var es := if used > 0 && Ends(own, events[used - 1]) then events[..used - 1] else events[..used];
    assert forall k :: 0 <= k < |es| ==> es[k] == events[k];
    if v.WaitOn? {
      var j :| 0 <= j < |es| && IsBid(es[j]) && es[j].peer == v.peer && es[j].nonce == v.nonce && FirstLowest(es, j);
      assert events[j] == Want(v.peer, v.nonce) || events[j] == DontHave(v.peer, v.nonce, true);
      assert forall k :: 0 <= k < |es| && IsBid(es[k]) ==> v.nonce <= es[k].nonce;
    }
  }

  /**
   Consumes events until the window closes: at the first event that ends it, at
   the answer of the last reached peer, or — running out of events — at the timer.
   */
  method Collect(own: nat, reached: set<PeerId>, events: seq<Event>) returns (v: Verdict, used: nat)
    requires reached != {}
    ensures Closes(own, reached, events, used, v)
  {
    var awaiting := reached;
    var lowest := NoBid;
    var i := 0;
    while i < |events|
      invariant 0 <= i <= |events| && awaiting != {}
      invariant Tally(own, reached, events[..i], awaiting, lowest)
    {
      var e := events[i];
      assert events[..i + 1] == events[..i] + [e];
      TallyExtends(own, reached, events[..i], awaiting, lowest, e);
      match e {
        case Have(p) => return FetchLan(p), i + 1;
        case Cancelled => return Abandoned, i + 1;
        case Timer =>
          return (if lowest.Lowest? then WaitOn(lowest.peer, lowest.nonce) else FetchWan), i + 1;
        case Fetching(p, n) =>
          if n < own { return Follow(p, n), i + 1; }
        case Want(p, n) =>
          if n < own && (lowest.NoBid? || n < lowest.nonce) { lowest := Lowest(p, n); }
        case DontHave(p, n, also) =>
          if also && n < own && (lowest.NoBid? || n < lowest.nonce) { lowest := Lowest(p, n); }
          awaiting := awaiting - {p};
          if awaiting == {} {
            return (if lowest.Lowest? then WaitOn(lowest.peer, lowest.nonce) else FetchWan), i + 1;
          }
      }
      i := i + 1;
    }
    assert events[..|events|] == events;
    TallyExtends(own, reached, events, awaiting, lowest, Timer);
    return (if lowest.Lowest? then WaitOn(lowest.peer, lowest.nonce) else FetchWan), |events|;
  }

  lemma AnsweredExtends(es: seq<Event>, e: Event)
    ensures forall p :: Answered(p, es + [e]) <==> Answered(p, es) || (e.DontHave? && e.peer == p)
  {
    forall p
      ensures Answered(p, es + [e]) <==> Answered(p, es) || (e.DontHave? && e.peer == p)
    {
      if Answered(p, es) {
        var k :| 0 <= k < |es| && es[k].DontHave? && es[k].peer == p;
        assert (es + [e])[k] == es[k];
      }
      if e.DontHave? && e.peer == p { assert (es + [e])[|es|] == e; }
    }
  }

  /** Each peer bids one nonce and no two peers bid the same. */
  ghost predicate DistinctBids(es: seq<Event>) {
    forall i, j :: 0 <= i < |es| && 0 <= j < |es| && IsBid(es[i]) && IsBid(es[j]) ==>
      (es[i].peer == es[j].peer <==> es[i].nonce == es[j].nonce)
  }

  ghost predicate SameBids(es: seq<Event>, fs: seq<Event>) {
    && (forall i :: 0 <= i < |es| && IsBid(es[i]) ==> BidIn(fs, es[i].peer, es[i].nonce))
    && (forall i :: 0 <= i < |fs| && IsBid(fs[i]) ==> BidIn(es, fs[i].peer, fs[i].nonce))
  }

  ghost predicate BidIn(es: seq<Event>, p: PeerId, n: nat) {
    exists i :: 0 <= i < |es| && IsBid(es[i]) && es[i].peer == p && es[i].nonce == n
  }

  /** Order and duplication of the bids do not change who is elected. */
  lemma ElectionOrderIrrelevant(own: nat, es: seq<Event>, fs: seq<Event>, v: Verdict, w: Verdict)
    requires SameBids(es, fs) && DistinctBids(es)
    requires Elects(own, es, v) && Elects(own, fs, w)
    ensures v == w
  {
    if v.WaitOn? {
      assert BidIn(fs, v.peer, v.nonce);
    }
    if w.WaitOn? {
      assert BidIn(es, w.peer, w.nonce);
    }
  }
}
