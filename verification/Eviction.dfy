/**
 Making room, in the abstract: walk the candidates in order and remove each one that
 can be removed, until `needed` more bytes fit under `max`. `free` maps the removable
 ones to their sizes. Who falls is known before the walk.
 */
module Eviction {
  import opened Prelude

  function Weight<K>(free: map<K, nat>, k: K): nat { if k in free then free[k] else 0 }

  ghost function Elements<K>(order: seq<K>): set<K> { set k | k in order }

  /** What removing every removable candidate frees. */
  function Freed<K>(free: map<K, nat>, order: seq<K>): nat {
    if order == [] then 0 else Weight(free, order[0]) + Freed(free, order[1..])
  }

  function Victims<K>(total: int, free: map<K, nat>, order: seq<K>, needed: int, max: int): seq<K>
    decreases |order|
  {
    if order == [] || total + needed <= max then []
    else
      (if order[0] in free then [order[0]] else []) +
      Victims(total - Weight(free, order[0]), free, order[1..], needed, max)
  }

  /** The walk comes to `k`: after removing every better victim the item still does not fit. */
  ghost predicate Comes<K>(total: int, free: map<K, nat>, order: seq<K>, needed: int, max: int, k: K) {
    exists p :: ComesAt(total, free, order, needed, max, k, p)
  }

  ghost predicate ComesAt<K>(total: int, free: map<K, nat>, order: seq<K>, needed: int, max: int, k: K, p: int) {
    0 <= p < |order| && order[p] == k && total - Freed(free, order[..p]) + needed > max
  }

  /** It comes to `k`, and `k` can be removed. */
  ghost predicate Falls<K>(total: int, free: map<K, nat>, order: seq<K>, needed: int, max: int, k: K) {
    k in free && Comes(total, free, order, needed, max, k)
  }

  lemma ComesShift<K>(total: int, free: map<K, nat>, order: seq<K>, needed: int, max: int, k: K, p: int)
    requires order != [] && 0 < p
    ensures ComesAt(total, free, order, needed, max, k, p) <==>
            ComesAt(total - Weight(free, order[0]), free, order[1..], needed, max, k, p - 1)
  {
    if p < |order| { assert order[..p][0] == order[0] && order[..p][1..] == order[1..][..p - 1]; }
  }

  /** One step of the walk, as far as `k` is concerned. */
  lemma ComesStep<K>(total: int, free: map<K, nat>, order: seq<K>, needed: int, max: int, k: K)
    ensures Comes(total, free, order, needed, max, k) <==>
            && order != [] && total + needed > max
            && (order[0] == k || Comes(total - Weight(free, order[0]), free, order[1..], needed, max, k))
  {
    if order != [] {
      var left, rest := total - Weight(free, order[0]), order[1..];
      if p :| ComesAt(left, free, rest, needed, max, k, p) { ComesShift(total, free, order, needed, max, k, p + 1); }
      if p :| ComesAt(total, free, order, needed, max, k, p) && p > 0 {
        ComesShift(total, free, order, needed, max, k, p);
      }
      if order[0] == k && total + needed > max { assert ComesAt(total, free, order, needed, max, k, 0); }
    }
  }

  /** The walk removes exactly those that fall. */
  lemma {:induction false} VictimsExactly<K>(total: int, free: map<K, nat>, order: seq<K>, needed: int, max: int, k: K)
    ensures k in Victims(total, free, order, needed, max) <==> Falls(total, free, order, needed, max, k)
    decreases |order|
  {
    ComesStep(total, free, order, needed, max, k);
    if order != [] && total + needed > max {
      VictimsExactly(total - Weight(free, order[0]), free, order[1..], needed, max, k);
    }
  }

  lemma {:induction false} FreedGrows<K>(free: map<K, nat>, order: seq<K>, p: nat, q: nat)
    requires p <= q <= |order|
    ensures Freed(free, order[..p]) <= Freed(free, order[..q])
    decreases p
  {
    if p > 0 {
      assert order[..p][1..] == order[1..][..p - 1] && order[..q][1..] == order[1..][..q - 1];
      FreedGrows(free, order[1..], p - 1, q - 1);
    }
  }

  /** Nobody falls before somebody who stands earlier and could be removed as well. */
  lemma EarlierFalls<K>(total: int, free: map<K, nat>, order: seq<K>, needed: int, max: int, v: K, p: int)
    requires Distinct(order) && 0 <= p < |order| && order[p] in free
    requires v in Victims(total, free, order, needed, max) && order[p] !in Victims(total, free, order, needed, max)
    ensures exists q :: 0 <= q < p && order[q] == v
  {
    VictimsExactly(total, free, order, needed, max, v);
    VictimsExactly(total, free, order, needed, max, order[p]);
    var q :| ComesAt(total, free, order, needed, max, v, q);
    if p <= q {
      FreedGrows(free, order, p, q);
      assert ComesAt(total, free, order, needed, max, order[p], p);
    }
  }

  lemma FreedMore<K>(free: map<K, nat>, k: K, vs: seq<K>)
    ensures Freed(free, (if k in free then [k] else []) + vs) == Weight(free, k) + Freed(free, vs)
  {
    assert ([k] + vs)[1..] == vs && [] + vs == vs;
  }

  /** The walk makes enough room exactly when removing every removable candidate would. */
  lemma {:induction false} RoomExactly<K>(total: int, free: map<K, nat>, order: seq<K>, needed: int, max: int)
    ensures total - Freed(free, Victims(total, free, order, needed, max)) + needed <= max <==>
            total - Freed(free, order) + needed <= max
    decreases |order|
  {
    if order != [] && total + needed > max {
      var left := total - Weight(free, order[0]);
      RoomExactly(left, free, order[1..], needed, max);
      FreedMore(free, order[0], Victims(left, free, order[1..], needed, max));
    }
  }

  ghost predicate Alike<K>(free: map<K, nat>, free': map<K, nat>, k: K) {
    (k in free <==> k in free') && Weight(free, k) == Weight(free', k)
  }

  /** Only what is known of the candidates matters. */
  lemma {:induction false} VictimsAgree<K>(total: int, free: map<K, nat>, free': map<K, nat>, order: seq<K>, needed: int, max: int)
    requires forall p :: 0 <= p < |order| ==> Alike(free, free', order[p])
    ensures Victims(total, free, order, needed, max) == Victims(total, free', order, needed, max)
    ensures Freed(free, Victims(total, free, order, needed, max)) == Freed(free', Victims(total, free, order, needed, max))
    decreases |order|
  {
    if order != [] && total + needed > max {
      var h, left := order[0], total - Weight(free, order[0]);
      assert Alike(free, free', h);
      VictimsAgree(left, free, free', order[1..], needed, max);
      var vs := Victims(left, free, order[1..], needed, max);
      FreedMore(free, h, vs);
      FreedMore(free', h, vs);
    }
  }
}
