/**
 The repository-metadata cache: entries addressed by URL with a byte budget of
 their own. The counter `size` is what the budget is checked against; the rows are
 what is really stored.
 */
module MetadataCache {
  import opened Eviction
  import opened Prelude
  import opened TableSum

  type Url = string

  datatype Row = Row(size: nat, lastAccessed: int, accessCount: int)

  datatype State = State(rows: map<Url, Row>, files: set<Url>, size: int)

  /** What the disk and the database do during one operation. */
  datatype Env = Env(
    now: int,
    undeletable: set<Url>,
    unforgettable: set<Url>,
    lookupFails: bool,
    blocked: bool,           // no directory, or the old file cannot be removed
    renameFails: bool,       // after the old file was removed
    insertFails: bool,
    queryFails: bool)        // the eviction candidates cannot be listed

  datatype Status = Stored | Disabled | Full | Failure

  function RowSize(r: Row): nat { r.size }

  ghost function Total(rows: map<Url, Row>): nat { Sum(Sizes(rows, RowSize)) }

  function Clamp(n: int): int { if n < 0 then 0 else n }

  predicate Removable(s: State, u: Url, env: Env) {
    !(u in s.files && u in env.undeletable) && u !in env.unforgettable
  }

  function SizeOf(s: State, u: Url): nat { if u in s.rows then s.rows[u].size else 0 }

  function Delete(s: State, u: Url, env: Env): State {
    if u in s.files && u in env.undeletable then s
    else if u in env.unforgettable then s.(files := s.files - {u})
    else State(s.rows - {u}, s.files - {u}, Clamp(s.size - SizeOf(s, u)))
  }

  /** Evicts along `order` until `needed` more bytes fit; `needed` is negative when an entry shrinks. */
  function Evict(s: State, order: seq<Url>, needed: int, max: int, env: Env): State
    decreases |order|
  {
    if order == [] || s.size + needed <= max then s else Evict(Delete(s, order[0], env), order[1..], needed, max, env)
  }

  predicate Older(a: Row, b: Row) {
    a.lastAccessed < b.lastAccessed || (a.lastAccessed == b.lastAccessed && a.accessCount <= b.accessCount)
  }

  /** Every entry, least recently used first. */
  ghost predicate Ranking(rows: map<Url, Row>, order: seq<Url>) {
    && (forall u :: u in order <==> u in rows)
    && Distinct(order)
    && (forall j, k :: 0 <= j < k < |order| ==> order[j] in rows && order[k] in rows && Older(rows[order[j]], rows[order[k]]))
  }

  /** The bytes credited for replacing `u`: read before room is made. */
  function OldSize(s: State, u: Url, env: Env): nat { if env.lookupFails then 0 else SizeOf(s, u) }

  function Candidates(order: seq<Url>, env: Env): seq<Url> { if env.queryFails then [] else order }

  function MakeRoom(s: State, u: Url, size: nat, max: int, order: seq<Url>, env: Env): State {
    Evict(s, Candidates(order, env), size - OldSize(s, u, env), max, env)
  }

  function Commit(s: State, u: Url, size: nat, max: int, order: seq<Url>, env: Env): (State, Status) {
    if max <= 0 then (s, Disabled)
    else if size > max then (s, Full)
    else Install(MakeRoom(s, u, size, max, order, env), u, size, OldSize(s, u, env), max, env)
  }

  /** The rest of a store, once room was made as far as possible. */
  function Install(t: State, u: Url, size: nat, oldSize: nat, max: int, env: Env): (State, Status) {
    if t.size + size - oldSize > max then (t, if env.queryFails then Failure else Full)
    else if env.blocked then (t, Failure)
    else if env.renameFails || env.insertFails then (t.(files := t.files - {u}), Failure)
    else
      var count := if u in t.rows then t.rows[u].accessCount + 1 else 1;
      (State(t.rows[u := Row(size, env.now, count)], t.files + {u}, Clamp(t.size - oldSize + size)), Stored)
  }

  /** The self-healing miss: the row goes, the file is already gone. */
  function DropRow(s: State, u: Url, env: Env): State {
    if u !in s.rows || env.lookupFails || u in env.unforgettable then s
    else s.(rows := s.rows - {u}, size := Clamp(s.size - s.rows[u].size))
  }

  // ----- accounting ---------------------------------------------------------

  ghost predicate Balanced(s: State) { s.size == Total(s.rows) }

  lemma DeleteBalanced(s: State, u: Url, env: Env)
    requires Balanced(s)
    ensures Balanced(Delete(s, u, env)) && Delete(s, u, env).size <= s.size
  {
    SizesRemove(s.rows, RowSize, u);
  }

  lemma {:induction false} EvictBalanced(s: State, order: seq<Url>, needed: int, max: int, env: Env)
    requires Balanced(s)
    ensures Balanced(Evict(s, order, needed, max, env)) && Evict(s, order, needed, max, env).size <= s.size
    decreases |order|
  {
    if order != [] && s.size + needed > max {
      DeleteBalanced(s, order[0], env);
      EvictBalanced(Delete(s, order[0], env), order[1..], needed, max, env);
    }
  }

  // ----- what making room does, known beforehand ----------------------------

  function Loose(s: State, env: Env): map<Url, nat> { map u | u in s.rows && Removable(s, u, env) :: s.rows[u].size }

  lemma DeleteLeaves(s: State, u: Url, env: Env, g: Url)
    requires g != u
    ensures Alike(Loose(Delete(s, u, env), env), Loose(s, env), g)
  {
  }

  lemma DeleteWeighs(s: State, u: Url, env: Env)
    requires Balanced(s) && u in s.rows
    ensures Delete(s, u, env).size == s.size - Weight(Loose(s, env), u)
  {
    SizesRemove(s.rows, RowSize, u);
  }

  /** Making room removes the victims of the walk, and the counter follows. */
  lemma {:induction false} EvictVictims(s: State, order: seq<Url>, needed: int, max: int, env: Env)
    requires Balanced(s) && Distinct(order) && forall u :: u in order ==> u in s.rows
    ensures var t, vs := Evict(s, order, needed, max, env), Victims(s.size, Loose(s, env), order, needed, max);
            t.rows == s.rows - Elements(vs) && t.size == s.size - Freed(Loose(s, env), vs)
    decreases |order|
  {
    if order != [] && s.size + needed > max {
      var h, rest, t := order[0], order[1..], Delete(s, order[0], env);
      assert forall k :: 0 <= k < |rest| ==> rest[k] == order[k + 1];
      DeleteBalanced(s, h, env);
      EvictVictims(t, rest, needed, max, env);
      forall k | 0 <= k < |rest| ensures Alike(Loose(t, env), Loose(s, env), rest[k]) { DeleteLeaves(s, h, env, rest[k]); }
      DeleteWeighs(s, h, env);
      VictimsAgree(t.size, Loose(t, env), Loose(s, env), rest, needed, max);
      var vs := Victims(t.size, Loose(s, env), rest, needed, max);
      FreedMore(Loose(s, env), h, vs);
      VictimRows(s, h, env, vs);
    } else {
      assert s.rows - Elements([]) == s.rows;
    }
  }

  lemma VictimRows(s: State, h: Url, env: Env, vs: seq<Url>)
    requires h in s.rows
    ensures Delete(s, h, env).rows - Elements(vs) == s.rows - Elements((if h in Loose(s, env) then [h] else []) + vs)
  {
    assert Elements([h] + vs) == {h} + Elements(vs) && [] + vs == vs;
  }

  function Needed(s: State, u: Url, size: nat, env: Env): int { size - OldSize(s, u, env) }

  /** Whether a store will succeed. */
  predicate Stores(s: State, u: Url, size: nat, max: int, order: seq<Url>, env: Env) {
    && 0 < max && size <= max
    && s.size - Freed(Loose(s, env), Candidates(order, env)) + Needed(s, u, size, env) <= max
    && !env.blocked && !env.renameFails && !env.insertFails
  }

  /** Making room for the store will take entry `v` away. */
  ghost predicate Evicts(s: State, u: Url, size: nat, max: int, order: seq<Url>, env: Env, v: Url) {
    Falls(s.size, Loose(s, env), Candidates(order, env), Needed(s, u, size, env), max, v)
  }

  /** Nothing that weighs anything will be left, nor be stored. */
  ghost predicate Empties(s: State, u: Url, size: nat, max: int, order: seq<Url>, env: Env) {
    size == 0 && forall v :: v in s.rows && s.rows[v].size > 0 ==> Evicts(s, u, size, max, order, env, v)
  }

  /**
   The stores that get the counter wrong. With a working look-up: those that evict
   the very entry they replace, after its size was read, unless nothing is left to
   count. With a failing one: those that do not.
   */
  ghost predicate Miscounts(s: State, u: Url, size: nat, max: int, order: seq<Url>, env: Env) {
    && Stores(s, u, size, max, order, env) && SizeOf(s, u) > 0
    && if env.lookupFails then !Evicts(s, u, size, max, order, env, u)
       else Evicts(s, u, size, max, order, env, u) && !Empties(s, u, size, max, order, env)
  }

  lemma RoomMade(s: State, u: Url, size: nat, max: int, order: seq<Url>, env: Env)
    requires Balanced(s) && Ranking(s.rows, order)
    ensures var room := MakeRoom(s, u, size, max, order, env);
            && Balanced(room) && room.size <= s.size
            && (room.size + Needed(s, u, size, env) <= max <==>
                  s.size - Freed(Loose(s, env), Candidates(order, env)) + Needed(s, u, size, env) <= max)
  {
    WalkMade(s, Candidates(order, env), Needed(s, u, size, env), max, env);
  }

  lemma WalkMade(s: State, order: seq<Url>, needed: int, max: int, env: Env)
    requires Balanced(s) && Distinct(order) && forall u :: u in order ==> u in s.rows
    ensures var room := Evict(s, order, needed, max, env);
            && Balanced(room) && room.size <= s.size
            && (room.size + needed <= max <==> s.size - Freed(Loose(s, env), order) + needed <= max)
  {
    EvictBalanced(s, order, needed, max, env);
    EvictVictims(s, order, needed, max, env);
    RoomExactly(s.size, Loose(s, env), order, needed, max);
  }

  lemma RoomKeeps(s: State, u: Url, size: nat, max: int, order: seq<Url>, env: Env, v: Url)
    requires Balanced(s) && Ranking(s.rows, order)
    ensures var room := MakeRoom(s, u, size, max, order, env);
            && (v in room.rows <==> v in s.rows && !Evicts(s, u, size, max, order, env, v))
            && (v in room.rows ==> room.rows[v] == s.rows[v])
  {
    var candidates := Candidates(order, env);
    EvictVictims(s, candidates, Needed(s, u, size, env), max, env);
    VictimsExactly(s.size, Loose(s, env), candidates, Needed(s, u, size, env), max, v);
  }

  /** The least recently used go first; of those last used at the same time, the least often used. */
  lemma OldestGoFirst(s: State, u: Url, size: nat, max: int, order: seq<Url>, env: Env, v: Url, g: Url)
    requires Balanced(s) && Ranking(s.rows, order)
    requires var room := MakeRoom(s, u, size, max, order, env);
             v in s.rows && v !in room.rows && g in s.rows && g in room.rows
    requires !(g in s.files && g in env.undeletable) && g !in env.unforgettable
    ensures s.rows[v].lastAccessed <= s.rows[g].lastAccessed
    ensures s.rows[v].lastAccessed == s.rows[g].lastAccessed ==> s.rows[v].accessCount <= s.rows[g].accessCount
  {
    var candidates := Candidates(order, env);
    EvictVictims(s, candidates, Needed(s, u, size, env), max, env);
    assert Removable(s, g, env) && g in order;
    var p :| 0 <= p < |order| && order[p] == g;
    EarlierFalls(s.size, Loose(s, env), candidates, Needed(s, u, size, env), max, v, p);
  }

  lemma NothingWeighs(rows: map<Url, Row>)
    ensures Total(rows) == 0 <==> forall v :: v in rows ==> rows[v].size == 0
  {
    SumZero(Sizes(rows, RowSize));
    if forall v :: v in Sizes(rows, RowSize) ==> Sizes(rows, RowSize)[v] == 0 {
      forall v | v in rows ensures rows[v].size == 0 { assert Sizes(rows, RowSize)[v] == 0; }
    }
  }

  lemma EmptiesRoom(s: State, u: Url, size: nat, max: int, order: seq<Url>, env: Env)
    requires Balanced(s) && Ranking(s.rows, order)
    ensures Empties(s, u, size, max, order, env) <==> MakeRoom(s, u, size, max, order, env).size + size == 0
  {
    RoomMade(s, u, size, max, order, env);
    var room := MakeRoom(s, u, size, max, order, env);
    NothingWeighs(room.rows);
    forall v
      ensures v in room.rows <==> v in s.rows && !Evicts(s, u, size, max, order, env, v)
      ensures v in room.rows ==> room.rows[v] == s.rows[v]
    {
      RoomKeeps(s, u, size, max, order, env, v);
    }
  }

  /** A stored entry replaces what is left of the old one, and the counter is credited with its old size. */
  lemma InstallBooks(room: State, u: Url, size: nat, oldSize: nat, max: int, env: Env)
    requires Balanced(room)
    ensures var (t, st) := Install(room, u, size, oldSize, max, env);
            && (!st.Stored? ==> Balanced(t) && t.size == room.size)
            && (st.Stored? ==>
                  && t.size == Clamp(room.size - oldSize + size)
                  && Total(t.rows) == room.size - SizeOf(room, u) + size)
  {
    SizesRemove(room.rows, RowSize, u);
    SizesInsert(room.rows, RowSize, u, Row(size, env.now, if u in room.rows then room.rows[u].accessCount + 1 else 1));
  }

  /**
   Known before the call: the counter after a store equals the sum of the rows
   exactly when the store is none of those that miscount, and else it is off by the
   size of the replaced entry. A successful store is within the budget, and no store
   exceeds the larger of the old size and the budget.
   */
  lemma CommitBooks(s: State, u: Url, size: nat, max: int, order: seq<Url>, env: Env)
    requires Balanced(s) && Ranking(s.rows, order)
    ensures var (t, st) := Commit(s, u, size, max, order, env);
            && (st.Stored? <==> Stores(s, u, size, max, order, env))
            && (Balanced(t) <==> !Miscounts(s, u, size, max, order, env))
            && (Miscounts(s, u, size, max, order, env) ==>
                  t.size == if env.lookupFails then Total(t.rows) + SizeOf(s, u) else Clamp(Total(t.rows) - SizeOf(s, u)))
            && (st.Stored? ==> t.size <= max)
            && t.size <= if s.size < max then max else s.size
  {
    RoomMade(s, u, size, max, order, env);
    RoomKeeps(s, u, size, max, order, env, u);
    var room := MakeRoom(s, u, size, max, order, env);
    InstallBooks(room, u, size, OldSize(s, u, env), max, env);
    EmptiesRoom(s, u, size, max, order, env);
  }

  /** Why a store fails, known beforehand. */
  lemma FailureReasons(s: State, u: Url, size: nat, max: int, order: seq<Url>, env: Env)
    requires Balanced(s) && Ranking(s.rows, order)
    ensures var st := Commit(s, u, size, max, order, env).1;
            var fits := s.size - Freed(Loose(s, env), Candidates(order, env)) + Needed(s, u, size, env) <= max;
            && (st.Disabled? <==> max <= 0)
            && (st.Full? <==> 0 < max && (size > max || (!fits && !env.queryFails)))
            && (st.Failure? <==>
                  0 < max && size <= max && if fits then env.blocked || env.renameFails || env.insertFails else env.queryFails)
  {
    RoomMade(s, u, size, max, order, env);
  }

  /** What a store that succeeds leaves behind, known beforehand. */
  lemma StoredExactly(s: State, u: Url, size: nat, max: int, order: seq<Url>, env: Env, v: Url)
    requires Balanced(s) && Ranking(s.rows, order) && Stores(s, u, size, max, order, env)
    ensures var t := Commit(s, u, size, max, order, env).0;
            var left := u in s.rows && !Evicts(s, u, size, max, order, env, u);
            && u in t.rows && t.rows[u] == Row(size, env.now, if left then s.rows[u].accessCount + 1 else 1)
            && u in t.files
            && (v != u ==> (v in t.rows <==> v in s.rows && !Evicts(s, u, size, max, order, env, v)))
            && (v != u && v in t.rows ==> t.rows[v] == s.rows[v])
  {
    RoomMade(s, u, size, max, order, env);
    RoomKeeps(s, u, size, max, order, env, u);
    RoomKeeps(s, u, size, max, order, env, v);
  }

  /** From within the budget the exception does not arise: evicting the replaced entry always miscounts. */
  lemma WithinBudgetMiscounts(s: State, u: Url, size: nat, max: int, order: seq<Url>, env: Env)
    requires Balanced(s) && Ranking(s.rows, order) && s.size <= max && !env.lookupFails
    ensures Miscounts(s, u, size, max, order, env) <==>
            Stores(s, u, size, max, order, env) && SizeOf(s, u) > 0 && Evicts(s, u, size, max, order, env, u)
  {
    assert size == 0 && SizeOf(s, u) > 0 ==> s.size + Needed(s, u, size, env) <= max;
  }

  lemma TwoRows(a: Url, ra: Row, b: Url, rb: Row)
    requires a != b
    ensures Total(map[b := rb]) == rb.size && Total(map[b := rb][a := ra]) == ra.size + rb.size
  {
    var none: map<Url, Row> := map[];
    SizesInsert(none, RowSize, b, rb);
    assert none[b := rb] == map[b := rb] && none - {b} == none && Sizes(none, RowSize) == map[];
    SizesInsert(map[b := rb], RowSize, a, ra);
    assert map[b := rb] - {a} == map[b := rb];
  }

  /** Evicting the older of two entries makes enough room. */
  lemma OldestGoes(s: State, a: Url, ra: Row, b: Url, rb: Row, env: Env)
    requires a != b && s.rows == map[b := rb][a := ra] && s.size == 10 && ra.size == 4 && Removable(s, a, env)
    ensures Evict(s, [a, b], 1, 10, env) == Delete(s, a, env) && Delete(s, a, env).rows == map[b := rb]
  {
    assert [a, b][1..] == [b];
    assert s.rows - {a} == map[b := rb];
  }

  /** Replacing the oldest entry can leave more bytes stored than the budget allows, with a counter that looks fine. */
  lemma ReplacedVictimOverrunsBudget(a: Url, b: Url) returns (s: State, order: seq<Url>, env: Env)
    requires a != b
    ensures Balanced(s) && s.size <= 10 && Ranking(s.rows, order) && !env.lookupFails
    ensures var (t, st) := Commit(s, a, 5, 10, order, env); st.Stored? && t.size == 7 && Total(t.rows) == 11
  {
    var ra, rb := Row(4, 0, 1), Row(6, 1, 1);
    s := State(map[b := rb][a := ra], {a, b}, 10);
    order := [a, b];
    env := Env(2, {}, {}, false, false, false, false, false);
    TwoRows(a, ra, b, rb);
    OldestGoes(s, a, ra, b, rb, env);
    TwoRows(a, Row(5, 2, 1), b, rb);
  }

  // ----- what a failed store leaves behind ----------------------------------

  lemma {:induction false} ComesAgrees(total: int, free: map<Url, nat>, free': map<Url, nat>, order: seq<Url>, needed: int, max: int, u: Url)
    requires forall p :: 0 <= p < |order| ==> Alike(free, free', order[p])
    ensures Comes(total, free, order, needed, max, u) <==> Comes(total, free', order, needed, max, u)
    decreases |order|
  {
    ComesStep(total, free, order, needed, max, u);
    ComesStep(total, free', order, needed, max, u);
    if order != [] && total + needed > max {
      assert Alike(free, free', order[0]);
      ComesAgrees(total - Weight(free, order[0]), free, free', order[1..], needed, max, u);
    }
  }

  /** Making room takes the file of `u` exactly when the walk comes to it and it can be deleted; else the row stays too. */
  lemma {:induction false} EvictTakesFile(s: State, order: seq<Url>, needed: int, max: int, env: Env, u: Url)
    requires Balanced(s) && Distinct(order) && (forall h :: h in order ==> h in s.rows) && u in s.rows && u in s.files
    ensures var t := Evict(s, order, needed, max, env);
            && (u !in t.files <==> u !in env.undeletable && Comes(s.size, Loose(s, env), order, needed, max, u))
            && (u in t.files ==> u in t.rows && t.rows[u] == s.rows[u])
    decreases |order|
  {
    ComesStep(s.size, Loose(s, env), order, needed, max, u);
    if order != [] && s.size + needed > max {
      var h, rest, t := order[0], order[1..], Delete(s, order[0], env);
      assert forall k :: 0 <= k < |rest| ==> rest[k] == order[k + 1];
      DeleteBalanced(s, h, env);
      DeleteWeighs(s, h, env);
      if h == u && u !in env.undeletable {
        FilesOnlyGo(t, rest, needed, max, env, u);
      } else {
        forall k | 0 <= k < |rest| ensures Alike(Loose(t, env), Loose(s, env), rest[k]) { DeleteLeaves(s, h, env, rest[k]); }
        ComesAgrees(t.size, Loose(t, env), Loose(s, env), rest, needed, max, u);
        EvictTakesFile(t, rest, needed, max, env, u);
      }
    }
  }

  lemma {:induction false} FilesOnlyGo(s: State, order: seq<Url>, needed: int, max: int, env: Env, u: Url)
    requires u !in s.files
    ensures u !in Evict(s, order, needed, max, env).files
    decreases |order|
  {
    if order != [] && s.size + needed > max { FilesOnlyGo(Delete(s, order[0], env), order[1..], needed, max, env, u); }
  }

  /** Known before the call: a failing store loses the cached copy of the entry it was to replace. */
  ghost predicate LosesCopy(s: State, u: Url, size: nat, max: int, order: seq<Url>, env: Env) {
    && 0 < max && size <= max
    && (|| (u !in env.undeletable && Comes(s.size, Loose(s, env), Candidates(order, env), Needed(s, u, size, env), max, u))
        || (s.size - Freed(Loose(s, env), Candidates(order, env)) + Needed(s, u, size, env) <= max && !env.blocked))
  }

  /**
   A store that fails leaves the previously cached copy untouched, row and file,
   exactly when it does not lose it: to making room, or to a rename or insert that
   fails after the old file was removed.
   */
  lemma FailedCommitExactly(s: State, u: Url, size: nat, max: int, order: seq<Url>, env: Env)
    requires Balanced(s) && Ranking(s.rows, order) && u in s.rows && u in s.files
    requires !Stores(s, u, size, max, order, env)
    ensures var (t, st) := Commit(s, u, size, max, order, env);
            && !st.Stored?
            && (u in t.files <==> !LosesCopy(s, u, size, max, order, env))
            && (u in t.files ==> u in t.rows && t.rows[u] == s.rows[u])
  {
    RoomMade(s, u, size, max, order, env);
    EvictTakesFile(s, Candidates(order, env), Needed(s, u, size, env), max, env, u);
  }

  /** A rename that fails: the entry keeps its row and has lost its file. */
  lemma FailedRenameLosesCopy(s: State, u: Url, size: nat, max: int, env: Env)
    requires u in s.rows && u in s.files && 0 < max && size <= max && s.size + size <= max
    requires env.renameFails && !env.blocked
    ensures var (t, st) := Commit(s, u, size, max, [], env); st.Failure? && u in t.rows && u !in t.files
  {
  }

  // ----- whole runs ---------------------------------------------------------

  datatype Action =
    | Store(url: Url, size: nat, order: seq<Url>, env: Env)
    | Drop(url: Url, env: Env)
    | Touch(url: Url, now: int)

  ghost predicate Enabled(s: State, a: Action) { a.Store? ==> Ranking(s.rows, a.order) }

  function Apply(s: State, a: Action, max: int): State {
    match a
    case Store(u, size, order, env) => Commit(s, u, size, max, order, env).0
    case Drop(u, env) => DropRow(s, u, env)
    case Touch(u, now) =>
      if u in s.rows then s.(rows := s.rows[u := s.rows[u].(lastAccessed := now, accessCount := s.rows[u].accessCount + 1)])
      else s
  }

  ghost predicate Wrong(s: State, a: Action, max: int) {
    a.Store? && Miscounts(s, a.url, a.size, max, a.order, a.env)
  }

  ghost predicate Executes(s: State, run: seq<Action>, max: int)
    decreases |run|
  {
    run != [] ==> Enabled(s, run[0]) && !Wrong(s, run[0], max) && Executes(Apply(s, run[0], max), run[1..], max)
  }

  function After(s: State, run: seq<Action>, max: int): State
    decreases |run|
  {
    if run == [] then s else After(Apply(s, run[0], max), run[1..], max)
  }

  /** A hit makes the entry the most recent one and counts it; nothing else changes. */
  lemma TouchExactly(s: State, u: Url, now: int, max: int)
    ensures var t := Apply(s, Touch(u, now), max);
            && t.files == s.files && t.size == s.size && t.rows.Keys == s.rows.Keys && t.rows - {u} == s.rows - {u}
            && (u in s.rows ==> t.rows[u].lastAccessed == now && t.rows[u].accessCount == s.rows[u].accessCount + 1
                                && t.rows[u].size == s.rows[u].size)
  {
  }

  /** A step keeps the books exactly when it is not a miscounting store; no step breaks the budget. */
  lemma StepBooks(s: State, a: Action, max: int)
    requires Balanced(s) && Enabled(s, a)
    ensures Balanced(Apply(s, a, max)) <==> !Wrong(s, a, max)
    ensures Apply(s, a, max).size <= if s.size < max then max else s.size
  {
    match a {
      case Store(u, size, order, env) => CommitBooks(s, u, size, max, order, env);
      case Drop(u, env) => SizesRemove(s.rows, RowSize, u);
      case Touch(u, now) => assert Sizes(Apply(s, a, max).rows, RowSize) == Sizes(s.rows, RowSize);
    }
  }

  /** Over every run without a miscounting store, the counter is the sum of the rows and stays within the budget. */
  lemma {:induction false} MetadataRun(s: State, run: seq<Action>, max: int)
    requires Balanced(s) && Executes(s, run, max)
    ensures Balanced(After(s, run, max))
    ensures After(s, run, max).size <= if s.size < max then max else s.size
    decreases |run|
  {
    if run != [] {
      StepBooks(s, run[0], max);
      MetadataRun(Apply(s, run[0], max), run[1..], max);
    }
  }

  // ----- the cache object ---------------------------------------------------

  class Metadata {
    const maxSize: int
    var rows: map<Url, Row>
    var files: set<Url>
    var size: int

    ghost function View(): State
      reads this
    {
      State(rows, files, size)
    }

    constructor (maxSize: int)
      ensures this.maxSize == maxSize && View() == State(map[], {}, 0)
    {
      this.maxSize := maxSize;
      rows, files, size := map[], {}, 0;
    }

    method DeleteUnlocked(u: Url, env: Env)
      modifies this
      ensures View() == Delete(old(View()), u, env)
    {
      var n := if u in rows then rows[u].size else 0;
      if u in files && u in env.undeletable { return; }
      files := files - {u};
      if u in env.unforgettable { return; }
      rows := rows - {u};
      size := size - n;
      if size < 0 { size := 0; }
    }

    method EnsureSpace(needed: int, order: seq<Url>, env: Env) returns (ok: bool)
      modifies this
      ensures View() == Evict(old(View()), Candidates(order, env), needed, maxSize, env)
      ensures ok <==> size + needed <= maxSize
    {
      if size + needed <= maxSize { return true; }
      if env.queryFails { return false; }
      var k := 0;
      while k < |order| && size + needed > maxSize
        invariant 0 <= k <= |order|
        invariant Evict(View(), order[k..], needed, maxSize, env) == Evict(old(View()), order, needed, maxSize, env)
      {
        assert order[k..][0] == order[k] && order[k..][1..] == order[k + 1..];
        DeleteUnlocked(order[k], env);
        k := k + 1;
      }
      return size + needed <= maxSize;
    }

    /** A URL that names its content's digest only stores content that has it. */
    method CommitEntry(u: Url, bytes: nat, named: Option<string>, digest: string, order: seq<Url>, env: Env)
      returns (st: Status)
      modifies this
      ensures named.Some? && named.value != digest ==> st.Failure? && View() == old(View())
      ensures named.None? || named.value == digest ==>
                (View(), st) == Commit(old(View()), u, bytes, maxSize, order, env)
    {
      if named.Some? && named.value != digest { return Failure; }
      if maxSize <= 0 { return Disabled; }
      if bytes > maxSize { return Full; }
      var oldSize := if u in rows && !env.lookupFails then rows[u].size else 0;
      var ok := EnsureSpace(bytes - oldSize, order, env);
      if !ok { return if env.queryFails then Failure else Full; }
      if env.blocked { return Failure; }
      files := files - {u};
      if env.renameFails || env.insertFails { return Failure; }
      files := files + {u};
      rows := rows[u := Row(bytes, env.now, if u in rows then rows[u].accessCount + 1 else 1)];
      size := size - oldSize;
      size := size + bytes;
      if size < 0 { size := 0; }
      assert files == Commit(old(View()), u, bytes, maxSize, order, env).0.files;
      return Stored;
    }

    method DropMissing(u: Url, env: Env)
      modifies this
      ensures View() == DropRow(old(View()), u, env)
      ensures u in old(rows) && !env.lookupFails && u !in env.unforgettable ==>
                && rows == old(rows) - {u} && files == old(files)
                && size == if old(size) < old(rows)[u].size then 0 else old(size) - old(rows)[u].size
      ensures u !in old(rows) || env.lookupFails || u in env.unforgettable ==> View() == old(View())
    {
      if u in rows && !env.lookupFails && u !in env.unforgettable {
        size := size - rows[u].size;
        if size < 0 { size := 0; }
        rows := rows - {u};
      }
    }
  }
}
