/**
 The content-addressed package cache: rows in a database, files on disk, a size
 counter, reader counts and a batch of access records waiting to be flushed.

 Failures of the disk and the database come in as an `Env`; a locked operation is
 one step.
 */
module PackageCache {
  import opened Eviction
  import opened Prelude
  import opened TableSum

  type Hash = string
  type Bytes = seq<int>

  const DAY := 86400
  const IDLE := 7 * DAY

  datatype Row = Row(size: nat, filename: string, lastAccessed: int, accessCount: int, pinned: bool)

  /** Accesses since the last flush. */
  datatype Access = Access(last: int, count: nat)

  datatype State = State(
    rows: map<Hash, Row>,
    files: map<Hash, Bytes>,
    currentSize: int,
    pending: map<Hash, Access>,
    readers: map<Hash, nat>)

  /** What the disk and the database do during one operation. */
  datatype Env = Env(
    now: int,
    lowOnSpace: bool,            // the free-space floor would be violated
    undeletable: set<Hash>,      // the file cannot be removed
    unforgettable: set<Hash>,    // the row cannot be deleted
    moveFails: bool,             // directory or rename fails
    lookupFails: bool,           // the existing row cannot be read
    insertFails: bool,
    queryFails: bool)            // the eviction candidates cannot be listed

  datatype Status = Ok | NotFound | InUse | Full | NoSpace | Failure

  function RowSize(r: Row): nat { r.size }

  ghost function Total(rows: map<Hash, Row>): nat { Sum(Sizes(rows, RowSize)) }

  // ----- batched accesses ---------------------------------------------------

  function Max(a: int, b: int): int { if a < b then b else a }

  function Touched(r: Row, a: Access): Row {
    r.(lastAccessed := Max(r.lastAccessed, a.last), accessCount := r.accessCount + a.count)
  }

  /** The rows with the waiting access records folded in. */
  function Overlay(rows: map<Hash, Row>, pending: map<Hash, Access>): map<Hash, Row> {
    map h | h in rows :: if h in pending then Touched(rows[h], pending[h]) else rows[h]
  }

  function Flush(s: State): State { s.(rows := Overlay(s.rows, s.pending), pending := map[]) }

  function RecordAccess(s: State, h: Hash, now: int): State {
    var count := if h in s.pending then s.pending[h].count else 0;
    s.(pending := s.pending[h := Access(now, count + 1)])
  }

  /** A flush brings every row to its latest access and adds up the accesses; it loses nothing. */
  lemma FlushExactly(s: State, h: Hash)
    ensures Flush(s).pending == map[] && Flush(s).rows.Keys == s.rows.Keys
    ensures h in s.rows ==>
              var was, row := s.rows[h], Flush(s).rows[h];
              && row.size == was.size && row.filename == was.filename && row.pinned == was.pinned
              && row.accessCount == was.accessCount + (if h in s.pending then s.pending[h].count else 0)
              && was.lastAccessed <= row.lastAccessed
              && (h in s.pending ==> s.pending[h].last <= row.lastAccessed)
              && (row.lastAccessed == was.lastAccessed || (h in s.pending && row.lastAccessed == s.pending[h].last))
  {
  }

  // ----- readers ------------------------------------------------------------

  function Readers(s: State, h: Hash): nat { if h in s.readers then s.readers[h] else 0 }

  function AddReader(s: State, h: Hash): State { s.(readers := s.readers[h := Readers(s, h) + 1]) }

  function DropReader(s: State, h: Hash): State {
    s.(readers := if Readers(s, h) <= 1 then s.readers - {h} else s.readers[h := Readers(s, h) - 1])
  }

  /** Opening a package for reading; the access is recorded even when the row turns out to be missing. */
  function Get(s: State, h: Hash, now: int): (State, Status) {
    if h !in s.files then (s, NotFound)
    else
      var t := RecordAccess(AddReader(s, h), h, now);
      if h in t.rows then (t, Ok) else (DropReader(t, h), Failure)
  }

  // ----- removal ------------------------------------------------------------

  function Delete(s: State, h: Hash, env: Env): (State, Status) {
    if Readers(s, h) > 0 then (s, InUse)
    else if h in s.files && h in env.undeletable then (s, Failure)
    else
      var t := s.(files := s.files - {h});
      if h in env.unforgettable then (t, Failure)
      else (t.(rows := t.rows - {h}, currentSize := t.currentSize - if h in t.rows then t.rows[h].size else 0), Ok)
  }

  /** A removal on request looks the size up first. */
  function Remove(s: State, h: Hash, env: Env): (State, Status) {
    if Readers(s, h) == 0 && env.lookupFails then (s, Failure) else Delete(s, h, env)
  }

  predicate Removable(s: State, h: Hash, env: Env) {
    Readers(s, h) == 0 && !(h in s.files && h in env.undeletable) && h !in env.unforgettable
  }

  /** Walks the candidates, removing what can be removed, until `needed` more bytes fit. */
  function Evict(s: State, order: seq<Hash>, needed: nat, max: int, env: Env): (r: (State, seq<Hash>))
    decreases |order|
  {
    if order == [] || s.currentSize + needed <= max then (s, [])
    else
      var (t, st) := Delete(s, order[0], env);
      var (u, victims) := Evict(t, order[1..], needed, max, env);
      (u, (if st.Ok? then [order[0]] else []) + victims)
  }

  function Score(r: Row): int { r.lastAccessed + r.accessCount * DAY }

  predicate Eligible(r: Row, now: int) { r.lastAccessed < now - IDLE && !r.pinned }

  /** `order` lists the eligible packages, lowest score first. */
  ghost predicate Ranking(rows: map<Hash, Row>, now: int, order: seq<Hash>) {
    && (forall h :: h in order <==> h in rows && Eligible(rows[h], now))
    && Distinct(order)
    && (forall j, k :: 0 <= j < k < |order| ==> InScoreOrder(rows, order[j], order[k]))
  }

  ghost predicate InScoreOrder(rows: map<Hash, Row>, a: Hash, b: Hash) {
    a in rows && b in rows && Score(rows[a]) <= Score(rows[b])
  }

  function Candidates(order: seq<Hash>, env: Env): seq<Hash> { if env.queryFails then [] else order }

  function EnsureSpace(s: State, needed: nat, max: int, order: seq<Hash>, env: Env): (State, Status) {
    var t := Flush(s);
    if env.lowOnSpace then (t, NoSpace)
    else
      var (u, _) := Evict(t, Candidates(order, env), needed, max, env);
      (u, if u.currentSize + needed <= max then Ok else if env.queryFails then Failure else Full)
  }

  // ----- storing ------------------------------------------------------------

  function Upsert(rows: map<Hash, Row>, h: Hash, size: nat, filename: string, now: int): map<Hash, Row> {
    if h in rows
    then rows[h := rows[h].(size := size, filename := filename, lastAccessed := now, accessCount := rows[h].accessCount + 1)]
    else rows[h := Row(size, filename, now, 1, false)]
  }

  /** Moves a verified file into the cache and records it. */
  function Commit(s: State, h: Hash, data: Bytes, size: nat, filename: string, max: int, order: seq<Hash>, env: Env): (State, Status) {
    var (t, st) := EnsureSpace(s, size, max, order, env);
    if !st.Ok? then (t, st)
    else if env.moveFails then (t, Failure)
    else
      var u := t.(files := if h in t.files then t.files else t.files[h := data]);
      if env.insertFails then (u, Failure)
      else
        var known := h in u.rows && !env.lookupFails;
        (u.(rows := Upsert(u.rows, h, size, filename, env.now),
            currentSize := u.currentSize + size - if known then u.rows[h].size else 0), Ok)
  }

  // ----- accounting ---------------------------------------------------------

  ghost predicate Balanced(s: State) { s.currentSize == Total(s.rows) }

  lemma FlushBalanced(s: State)
    requires Balanced(s)
    ensures Balanced(Flush(s))
  {
    assert Sizes(Flush(s).rows, RowSize) == Sizes(s.rows, RowSize);
  }

  lemma DeleteBalanced(s: State, h: Hash, env: Env)
    requires Balanced(s)
    ensures Balanced(Delete(s, h, env).0) && Delete(s, h, env).0.currentSize <= s.currentSize
  {
    SizesRemove(s.rows, RowSize, h);
  }

  lemma {:induction false} EvictBalanced(s: State, order: seq<Hash>, needed: nat, max: int, env: Env)
    requires Balanced(s)
    ensures var t := Evict(s, order, needed, max, env).0; Balanced(t) && t.currentSize <= s.currentSize
    decreases |order|
  {
    if order != [] && s.currentSize + needed > max {
      DeleteBalanced(s, order[0], env);
      EvictBalanced(Delete(s, order[0], env).0, order[1..], needed, max, env);
    }
  }

  lemma {:induction false} EvictLowers(s: State, order: seq<Hash>, needed: nat, max: int, env: Env)
    ensures Evict(s, order, needed, max, env).0.currentSize <= s.currentSize
    decreases |order|
  {
    if order != [] && s.currentSize + needed > max {
      EvictLowers(Delete(s, order[0], env).0, order[1..], needed, max, env);
    }
  }

  /** A successful store ends within the budget, and no store exceeds the larger of the old size and the budget. */
  lemma CommitBudget(s: State, h: Hash, data: Bytes, size: nat, filename: string, max: int, order: seq<Hash>, env: Env)
    ensures var (t, st) := Commit(s, h, data, size, filename, max, order, env);
            (st.Ok? ==> t.currentSize <= max) && t.currentSize <= Max(s.currentSize, max)
  {
    EvictLowers(Flush(s), Candidates(order, env), size, max, env);
  }

  // ----- eviction -----------------------------------------------------------

  ghost predicate FollowsOrder(rows: map<Hash, Row>, victims: seq<Hash>) {
    forall j, k :: 0 <= j < k < |victims| ==> InScoreOrder(rows, victims[j], victims[k])
  }

  lemma DeleteTouchesOne(s: State, h: Hash, env: Env)
    ensures var (t, st) := Delete(s, h, env);
            && t.readers == s.readers && t.pending == s.pending
            && t.files - {h} == s.files - {h} && t.rows - {h} == s.rows - {h}
            && (st.Ok? <==> Removable(s, h, env))
            && (st.Ok? ==> h !in t.rows && h !in t.files)
            && (!st.Ok? ==> t.rows == s.rows)
            && (Readers(s, h) > 0 ==> t == s)
  {
  }

  /** Removing the first candidate leaves the other candidates as they were. */
  lemma OtherCandidates(s: State, order: seq<Hash>, env: Env)
    requires order != [] && Distinct(order) && forall h :: h in order ==> h in s.rows
    ensures var t := Delete(s, order[0], env).0;
            && Distinct(order[1..])
            && forall g :: g in order[1..] ==>
                 && g != order[0] && g in t.rows && t.rows[g] == s.rows[g]
                 && (Removable(t, g, env) <==> Removable(s, g, env))
  {
    DeleteTouchesOne(s, order[0], env);
    var t := Delete(s, order[0], env).0;
    assert forall k :: 0 <= k < |order[1..]| ==> order[1..][k] == order[k + 1];
    forall g | g in order[1..]
      ensures g != order[0] && g in t.rows && t.rows[g] == s.rows[g] && (Removable(t, g, env) <==> Removable(s, g, env))
    {
      assert g in s.rows - {order[0]};
      assert g in s.files <==> g in s.files - {order[0]};
      assert g in t.files <==> g in t.files - {order[0]};
    }
  }

  lemma {:induction false} EvictMembers(s: State, order: seq<Hash>, needed: nat, max: int, env: Env)
    ensures var (t, victims) := Evict(s, order, needed, max, env);
            && (forall v :: v in victims ==> v in order)
            && (victims == [] ==> t.currentSize == s.currentSize)
            && t.readers == s.readers && t.pending == s.pending
    decreases |order|
  {
    if order != [] && s.currentSize + needed > max {
      EvictMembers(Delete(s, order[0], env).0, order[1..], needed, max, env);
    }
  }

  /** Exactly the victims lose their rows, and every victim was removable. */
  lemma {:induction false} EvictRows(s: State, order: seq<Hash>, needed: nat, max: int, env: Env)
    requires Distinct(order) && forall h :: h in order ==> h in s.rows
    ensures var (t, victims) := Evict(s, order, needed, max, env);
            && t.rows == s.rows - Elements(victims)
            && forall v :: v in victims ==> v in order && Removable(s, v, env)
    decreases |order|
  {
    if order != [] && s.currentSize + needed > max {
      var h, rest := order[0], order[1..];
      var (t, st) := Delete(s, h, env);
      DeleteTouchesOne(s, h, env);
      OtherCandidates(s, order, env);
      EvictRows(t, rest, needed, max, env);
      var (u, victims) := Evict(t, rest, needed, max, env);
      assert Elements([h] + victims) == {h} + Elements(victims);
      assert [] + victims == victims;
    } else {
      assert s.rows - Elements([]) == s.rows;
    }
  }

  /** Only candidates without an open reader lose their files. */
  lemma {:induction false} EvictFiles(s: State, order: seq<Hash>, needed: nat, max: int, env: Env)
    ensures var t := Evict(s, order, needed, max, env).0;
            && (forall h :: h in s.files && (h !in order || Readers(s, h) > 0) ==> h in t.files)
            && (forall h :: h in t.files ==> h in s.files && t.files[h] == s.files[h])
    decreases |order|
  {
    if order != [] && s.currentSize + needed > max {
      EvictFiles(Delete(s, order[0], env).0, order[1..], needed, max, env);
      DeleteTouchesOne(s, order[0], env);
    }
  }

  lemma {:induction false} EvictInOrder(s: State, order: seq<Hash>, needed: nat, max: int, env: Env, rows: map<Hash, Row>)
    requires forall j, k :: 0 <= j < k < |order| ==> InScoreOrder(rows, order[j], order[k])
    ensures FollowsOrder(rows, Evict(s, order, needed, max, env).1)
    decreases |order|
  {
    if order != [] && s.currentSize + needed > max {
      var rest, t := order[1..], Delete(s, order[0], env).0;
      assert forall k :: 0 <= k < |rest| ==> rest[k] == order[k + 1];
      EvictInOrder(t, rest, needed, max, env, rows);
      EvictMembers(t, rest, needed, max, env);
      var victims := Evict(t, rest, needed, max, env).1;
      forall k | 0 <= k < |victims| ensures InScoreOrder(rows, order[0], victims[k]) {
        assert victims[k] in rest;
        var j :| 0 <= j < |rest| && rest[j] == victims[k];
        assert InScoreOrder(rows, order[0], order[j + 1]);
      }
    }
  }

  /** Before the last victim went, the item did not fit. */
  ghost predicate NoneTooMany(s: State, t: State, victims: seq<Hash>, needed: nat, max: int) {
    victims != [] ==>
      var last := victims[|victims| - 1];
      last in s.rows && t.currentSize + s.rows[last].size + needed > max
  }

  /** Eviction stops as soon as the item fits, and gives up only after taking every candidate it could. */
  lemma {:induction false} EvictStops(s: State, order: seq<Hash>, needed: nat, max: int, env: Env)
    requires Distinct(order) && forall h :: h in order ==> h in s.rows
    ensures var (t, victims) := Evict(s, order, needed, max, env);
            && NoneTooMany(s, t, victims, needed, max)
            && (t.currentSize + needed > max ==> forall h :: h in order && Removable(s, h, env) ==> h in victims)
    decreases |order|
  {
    if order != [] && s.currentSize + needed > max {
      var h, rest := order[0], order[1..];
      var (t, st) := Delete(s, h, env);
      DeleteTouchesOne(s, h, env);
      OtherCandidates(s, order, env);
      EvictStops(t, rest, needed, max, env);
      EvictMembers(t, rest, needed, max, env);
      var (u, victims) := Evict(t, rest, needed, max, env);
      assert victims != [] ==> victims[|victims| - 1] in rest;
    }
  }

  /**
   Every automatic victim was unpinned, last read more than 604800 seconds ago counting
   the accesses still waiting to be flushed, and without an open reader; victims go in
   nondecreasing score and only while the item does not fit; and "cache full" is
   reported only when removing every removable package that is unpinned and as long
   unread would not help.
   */
  lemma EvictionGuarantee(s: State, needed: nat, max: int, order: seq<Hash>, env: Env)
    requires Balanced(s) && Ranking(Overlay(s.rows, s.pending), env.now, order) && !env.lowOnSpace
    ensures var rows := Overlay(s.rows, s.pending);
            var (t, victims) := Evict(Flush(s), Candidates(order, env), needed, max, env);
            && EnsureSpace(s, needed, max, order, env).0 == t
            && (forall v :: v in victims ==>
                  v in rows && !rows[v].pinned && rows[v].lastAccessed + 604800 < env.now && Readers(s, v) == 0)
            && FollowsOrder(rows, victims)
            && NoneTooMany(Flush(s), t, victims, needed, max)
            && t.rows == rows - Elements(victims)
            && (EnsureSpace(s, needed, max, order, env).1.Full? ==>
                  Total(rows - (set h | h in rows && !rows[h].pinned && rows[h].lastAccessed + 604800 < env.now
                                        && Removable(Flush(s), h, env))) + needed > max)
  {
    var f, candidates := Flush(s), Candidates(order, env);
    EvictRows(f, candidates, needed, max, env);
    EvictInOrder(f, candidates, needed, max, env, f.rows);
    EvictStops(f, candidates, needed, max, env);
    FlushBalanced(s);
    EvictBalanced(f, candidates, needed, max, env);
    var (t, victims) := Evict(f, candidates, needed, max, env);
    if t.currentSize + needed > max && !env.queryFails {
      assert Elements(victims) == set h | h in f.rows && !f.rows[h].pinned && f.rows[h].lastAccessed + 604800 < env.now
                                          && Removable(f, h, env);
    }
  }

  // ----- what a store does to the books, known beforehand -------------------

  function Loose(s: State, env: Env): map<Hash, nat> { map h | h in s.rows && Removable(s, h, env) :: s.rows[h].size }

  lemma {:induction false} EvictVictims(s: State, order: seq<Hash>, needed: nat, max: int, env: Env)
    requires Distinct(order) && forall h :: h in order ==> h in s.rows
    ensures var (t, victims) := Evict(s, order, needed, max, env);
            && victims == Victims(s.currentSize, Loose(s, env), order, needed, max)
            && t.currentSize == s.currentSize - Freed(Loose(s, env), victims)
    decreases |order|
  {
    if order != [] && s.currentSize + needed > max {
      var h, rest := order[0], order[1..];
      var (t, st) := Delete(s, h, env);
      DeleteTouchesOne(s, h, env);
      OtherCandidates(s, order, env);
      EvictVictims(t, rest, needed, max, env);
      forall k | 0 <= k < |rest| ensures Alike(Loose(t, env), Loose(s, env), rest[k]) { assert rest[k] in rest; }
      VictimsAgree(t.currentSize, Loose(t, env), Loose(s, env), rest, needed, max);
      FreedMore(Loose(s, env), h, Victims(t.currentSize, Loose(s, env), rest, needed, max));
    }
  }

  /** A ranking is by coldness: each access more than another candidate has weighs exactly 86400 seconds of recency. */
  lemma RankedByColdness(rows: map<Hash, Row>, now: int, order: seq<Hash>, a: nat, b: nat)
    requires Ranking(rows, now, order) && a < b < |order|
    ensures order[a] in rows && order[b] in rows
    ensures var ra, rb := rows[order[a]], rows[order[b]];
            ra.lastAccessed + (ra.accessCount - rb.accessCount) * 86400 <= rb.lastAccessed
  {
    assert InScoreOrder(rows, order[a], order[b]);
  }

  /** Making room takes `v` and spares `g`, which is unpinned, unread for seven days and could have been removed. */
  ghost predicate TakesBefore(s: State, needed: nat, max: int, order: seq<Hash>, env: Env, v: Hash, g: Hash) {
    var rows, t := Overlay(s.rows, s.pending), EnsureSpace(s, needed, max, order, env).0;
    && v in rows && v !in t.rows
    && g in rows && g in t.rows
    && !rows[g].pinned && rows[g].lastAccessed + 604800 < env.now
    && Readers(s, g) == 0 && !(g in s.files && g in env.undeletable) && g !in env.unforgettable
  }

  /**
   The coldest go first. Of two packages that could both go, the one taken was read no
   later when both were read equally often, no more often when both were last read at
   the same time, and in general each further access weighs exactly 86400 seconds.
   */
  lemma ColdestGoFirst(s: State, needed: nat, max: int, order: seq<Hash>, env: Env, v: Hash, g: Hash)
    requires Ranking(Overlay(s.rows, s.pending), env.now, order) && TakesBefore(s, needed, max, order, env, v, g)
    ensures var rows := Overlay(s.rows, s.pending);
            && !rows[v].pinned && rows[v].lastAccessed + 604800 < env.now && Readers(s, v) == 0
            && (rows[v].accessCount == rows[g].accessCount ==> rows[v].lastAccessed <= rows[g].lastAccessed)
            && (rows[v].lastAccessed == rows[g].lastAccessed ==> rows[v].accessCount <= rows[g].accessCount)
            && rows[v].lastAccessed + (rows[v].accessCount - rows[g].accessCount) * 86400 <= rows[g].lastAccessed
  {
    var f, candidates := Flush(s), Candidates(order, env);
    EvictRows(f, candidates, needed, max, env);
    EvictVictims(f, candidates, needed, max, env);
    assert Removable(f, g, env) && g in order;
    var p :| 0 <= p < |order| && order[p] == g;
    EarlierFalls(f.currentSize, Loose(f, env), candidates, needed, max, v, p);
    var q :| 0 <= q < p && order[q] == v;
    RankedByColdness(f.rows, env.now, order, q, p);
  }

  /** Whether a store will succeed. */
  predicate Stores(s: State, size: nat, max: int, order: seq<Hash>, env: Env) {
    && !env.lowOnSpace && !env.moveFails && !env.insertFails
    && s.currentSize - Freed(Loose(Flush(s), env), Candidates(order, env)) + size <= max
  }

  /** Making room for the store will take package `h` away. */
  ghost predicate Evicts(s: State, size: nat, max: int, order: seq<Hash>, env: Env, h: Hash) {
    Falls(s.currentSize, Loose(Flush(s), env), Candidates(order, env), size, max, h)
  }

  /** The stores that count a package twice: its row is there, stays there, and cannot be read. */
  ghost predicate Miscounts(s: State, h: Hash, size: nat, max: int, order: seq<Hash>, env: Env) {
    && Stores(s, size, max, order, env) && env.lookupFails
    && h in s.rows && s.rows[h].size > 0 && !Evicts(s, size, max, order, env, h)
  }

  lemma RoomMade(s: State, size: nat, max: int, order: seq<Hash>, env: Env, h: Hash)
    requires Ranking(Overlay(s.rows, s.pending), env.now, order) && !env.lowOnSpace
    ensures var (t, st) := EnsureSpace(s, size, max, order, env);
            && (st.Ok? <==> s.currentSize - Freed(Loose(Flush(s), env), Candidates(order, env)) + size <= max)
            && (h in t.rows <==> h in s.rows && !Evicts(s, size, max, order, env, h))
            && (h in t.rows ==> t.rows[h].size == s.rows[h].size)
  {
    var f, candidates := Flush(s), Candidates(order, env);
    EvictVictims(f, candidates, size, max, env);
    EvictRows(f, candidates, size, max, env);
    RoomExactly(s.currentSize, Loose(f, env), candidates, size, max);
    VictimsExactly(s.currentSize, Loose(f, env), candidates, size, max, h);
  }

  lemma StoredTotal(room: State, h: Hash, size: nat, filename: string, now: int)
    requires Balanced(room)
    ensures Total(Upsert(room.rows, h, size, filename, now)) ==
            room.currentSize - (if h in room.rows then room.rows[h].size else 0) + size
  {
    SizesRemove(room.rows, RowSize, h);
    SizesInsert(room.rows, RowSize, h, Upsert(room.rows, h, size, filename, now)[h]);
  }

  /**
   Known before the call: through every failure path the counter equals the sum of
   the rows exactly when the store is none of those that miscount, and else it is too
   high by the size of the replaced row.
   */
  lemma CommitBooks(s: State, h: Hash, data: Bytes, size: nat, filename: string, max: int, order: seq<Hash>, env: Env)
    requires Balanced(s) && Ranking(Overlay(s.rows, s.pending), env.now, order)
    ensures var (t, st) := Commit(s, h, data, size, filename, max, order, env);
            && (st.Ok? <==> Stores(s, size, max, order, env))
            && (Balanced(t) <==> !Miscounts(s, h, size, max, order, env))
            && (Miscounts(s, h, size, max, order, env) ==> t.currentSize == Total(t.rows) + s.rows[h].size)
  {
    FlushBalanced(s);
    EvictBalanced(Flush(s), Candidates(order, env), size, max, env);
    if !env.lowOnSpace { RoomMade(s, size, max, order, env, h); }
    StoredTotal(EnsureSpace(s, size, max, order, env).0, h, size, filename, env.now);
  }

  /** Storing a package again while its row cannot be read: four bytes stored, eight on the books. */
  lemma UnreadableRowMiscounts() returns (s: State, env: Env)
    ensures Balanced(s) && Ranking(Overlay(s.rows, s.pending), env.now, [])
    ensures var (t, st) := Commit(s, "h", [1, 2, 3, 4], 4, "f", 10, [], env);
            st.Ok? && t.currentSize == 8 && Total(t.rows) == 4
  {
    var r := Row(4, "f", 0, 1, false);
    var none: map<Hash, Row> := map[];
    s := State(map["h" := r], map["h" := [1, 2, 3, 4]], 4, map[], map[]);
    env := Env(0, false, {}, {}, false, true, false, false);
    SizesInsert(none, RowSize, "h", r);
    assert none["h" := r] == s.rows && none - {"h"} == none && Sizes(none, RowSize) == map[];
    assert Overlay(s.rows, s.pending) == s.rows;
    CommitBooks(s, "h", [1, 2, 3, 4], 4, "f", 10, [], env);
    assert !Evicts(s, 4, 10, [], env, "h");
  }

  // ----- batching refines synchronous updates -------------------------------

  /** A cache that updates recency and count in the row at every hit. */
  function SyncGet(s: State, h: Hash, now: int): (State, Status) {
    if h !in s.files then (s, NotFound)
    else
      var t := AddReader(s, h);
      if h in t.rows then
        var r := t.rows[h];
        (t.(rows := t.rows[h := r.(lastAccessed := now, accessCount := r.accessCount + 1)]), Ok)
      else (DropReader(t, h), Failure)
  }

  ghost predicate Past(s: State, now: int) {
    && (forall h :: h in s.rows ==> s.rows[h].lastAccessed <= now)
    && (forall h :: h in s.pending ==> s.pending[h].last <= now)
  }

  lemma FlushIdempotent(s: State)
    ensures Flush(Flush(s)) == Flush(s)
  {
    assert Overlay(Flush(s).rows, map[]) == Flush(s).rows;
  }

  lemma GetRefines(s: State, h: Hash, now: int)
    requires Past(s, now)
    ensures Flush(Get(s, h, now).0) == SyncGet(Flush(s), h, now).0
    ensures Get(s, h, now).1 == SyncGet(Flush(s), h, now).1
  {
    if h in s.files {
      var t, u := Flush(Get(s, h, now).0), SyncGet(Flush(s), h, now).0;
      HitRows(s, h, now);
      assert t.rows == u.rows;
    }
  }

  /** One more waiting access record, folded in, is one more access in the row. */
  lemma HitRows(s: State, h: Hash, now: int)
    requires Past(s, now)
    ensures var was, rows := Overlay(s.rows, s.pending), Overlay(s.rows, RecordAccess(s, h, now).pending);
            rows == if h in was then was[h := was[h].(lastAccessed := now, accessCount := was[h].accessCount + 1)] else was
  {
  }

  lemma DeleteRefines(s: State, h: Hash, env: Env)
    ensures Flush(Delete(s, h, env).0) == Delete(Flush(s), h, env).0
    ensures Delete(s, h, env).1 == Delete(Flush(s), h, env).1
  {
    assert Overlay(s.rows - {h}, s.pending) == Overlay(s.rows, s.pending) - {h};
  }

  lemma CommitRefines(s: State, h: Hash, data: Bytes, size: nat, filename: string, max: int, order: seq<Hash>, env: Env)
    ensures Commit(s, h, data, size, filename, max, order, env) == Commit(Flush(s), h, data, size, filename, max, order, env)
    ensures var t := Commit(s, h, data, size, filename, max, order, env).0; Flush(t) == t
  {
    FlushIdempotent(s);
    EvictMembers(Flush(s), order, size, max, env);
    var t := Commit(s, h, data, size, filename, max, order, env).0;
    assert t.pending == map[];
    assert Overlay(t.rows, map[]) == t.rows;
  }

  lemma PinRefines(s: State, h: Hash, pinned: bool)
    ensures Flush(Pin(s, h, pinned)) == Pin(Flush(s), h, pinned)
  {
    assert Overlay(Pin(s, h, pinned).rows, s.pending) == Pin(Flush(s), h, pinned).rows;
  }

  // ----- whole runs ---------------------------------------------------------

  /** `open` maps each reader that has not been closed to its package. */
  datatype World = World(state: State, open: map<nat, Hash>, clock: int)

  datatype Action =
    | Open(id: nat, hash: Hash, now: int)
    | Close(id: nat)
    | Tick
    | Put(hash: Hash, data: Bytes, size: nat, filename: string, order: seq<Hash>, env: Env)
    | Discard(hash: Hash, env: Env)
    | SetPin(hash: Hash, pinned: bool)

  /** A store carries verified data; the clock does not run backwards. */
  ghost predicate Enabled(w: World, a: Action, digest: Bytes -> Hash) {
    match a
    case Open(id, _, now) => id !in w.open && w.clock <= now
    case Put(h, data, _, _, order, env) =>
      && digest(data) == h && w.clock <= env.now
      && Ranking(Overlay(w.state.rows, w.state.pending), env.now, order)
    case Discard(_, env) => w.clock <= env.now
    case _ => true
  }

  function Pin(s: State, h: Hash, pinned: bool): State {
    if h in s.rows then s.(rows := s.rows[h := s.rows[h].(pinned := pinned)]) else s
  }

  /** One step; `sync` selects the cache that updates rows at every hit. */
  function Apply(w: World, a: Action, max: int, sync: bool): World {
    match a
    case Open(id, h, now) =>
      var (s, st) := if sync then SyncGet(w.state, h, now) else Get(w.state, h, now);
      World(s, if st.Ok? then w.open[id := h] else w.open, now)
    case Close(id) =>
      if id in w.open then World(DropReader(w.state, w.open[id]), w.open - {id}, w.clock) else w
    case Tick => w.(state := Flush(w.state))
    case Put(h, data, size, filename, order, env) =>
      w.(state := Commit(w.state, h, data, size, filename, max, order, env).0, clock := env.now)
    case Discard(h, env) => w.(state := Remove(w.state, h, env).0, clock := env.now)
    case SetPin(h, pinned) => w.(state := Pin(w.state, h, pinned))
  }

  ghost predicate Executes(w: World, run: seq<Action>, max: int, digest: Bytes -> Hash)
    decreases |run|
  {
    run != [] ==> Enabled(w, run[0], digest) && Executes(Apply(w, run[0], max, false), run[1..], max, digest)
  }

  function After(w: World, run: seq<Action>, max: int, sync: bool): World
    decreases |run|
  {
    if run == [] then w else After(Apply(w, run[0], max, sync), run[1..], max, sync)
  }

  function OpenOn(open: map<nat, Hash>, h: Hash): set<nat> { set id | id in open && open[id] == h }

  ghost predicate Counted(w: World) {
    && (forall h :: Readers(w.state, h) == |OpenOn(w.open, h)|)
    && (forall h :: h in w.state.readers ==> w.state.readers[h] > 0)
  }

  ghost predicate Inv(w: World, digest: Bytes -> Hash) {
    && Counted(w)
    && (forall id :: id in w.open ==> w.open[id] in w.state.files)
    && (forall h :: h in w.state.files ==> digest(w.state.files[h]) == h)
    && Past(w.state, w.clock)
  }

  lemma OpenOnAdd(open: map<nat, Hash>, id: nat, h: Hash, g: Hash)
    requires id !in open
    ensures |OpenOn(open[id := h], g)| == |OpenOn(open, g)| + if g == h then 1 else 0
  {
    assert OpenOn(open[id := h], g) == OpenOn(open, g) + if g == h then {id} else {};
  }

  lemma OpenOnRemove(open: map<nat, Hash>, id: nat, g: Hash)
    requires id in open
    ensures |OpenOn(open - {id}, g)| == |OpenOn(open, g)| - if g == open[id] then 1 else 0
  {
    assert OpenOn(open - {id}, g) == OpenOn(open, g) - if g == open[id] then {id} else {};
    assert g == open[id] ==> id in OpenOn(open, g);
  }

  lemma ReadersAfter(s: State, h: Hash, g: Hash)
    ensures Readers(AddReader(s, h), g) == Readers(s, g) + if g == h then 1 else 0
    ensures Readers(s, h) > 0 ==> Readers(DropReader(s, h), g) == Readers(s, g) - if g == h then 1 else 0
  {
  }

  lemma GetReaders(s: State, h: Hash, now: int, g: Hash)
    ensures var (t, st) := Get(s, h, now);
            Readers(t, g) == Readers(s, g) + if st.Ok? && g == h then 1 else 0
  {
    ReadersAfter(s, h, g);
  }

  /** What making room does to files, readers and rows. */
  lemma EnsureShape(s: State, needed: nat, max: int, order: seq<Hash>, env: Env)
    requires Ranking(Overlay(s.rows, s.pending), env.now, order)
    ensures var t := EnsureSpace(s, needed, max, order, env).0;
            && t.readers == s.readers && t.pending == map[]
            && (forall g :: g in t.files ==> g in s.files && t.files[g] == s.files[g])
            && (forall g :: g in s.files && Readers(s, g) > 0 ==> g in t.files)
            && (forall g :: g in t.rows ==> g in s.rows && t.rows[g] == Overlay(s.rows, s.pending)[g])
  {
    var f, candidates := Flush(s), Candidates(order, env);
    EvictFiles(f, candidates, needed, max, env);
    EvictMembers(f, candidates, needed, max, env);
    EvictRows(f, candidates, needed, max, env);
    assert forall g :: Readers(f, g) == Readers(s, g);
  }

  lemma CommitPast(s: State, h: Hash, data: Bytes, size: nat, filename: string, max: int, order: seq<Hash>, env: Env, clock: int)
    requires Past(s, clock) && clock <= env.now && Ranking(Overlay(s.rows, s.pending), env.now, order)
    ensures Past(Commit(s, h, data, size, filename, max, order, env).0, env.now)
  {
    EnsureShape(s, size, max, order, env);
    assert forall g :: g in s.rows ==> Overlay(s.rows, s.pending)[g].lastAccessed <= env.now;
    assert Past(EnsureSpace(s, size, max, order, env).0, env.now);
  }

  /** What a store does to files and readers. */
  lemma CommitShape(s: State, h: Hash, data: Bytes, size: nat, filename: string, max: int, order: seq<Hash>, env: Env)
    requires Ranking(Overlay(s.rows, s.pending), env.now, order)
    ensures var t := Commit(s, h, data, size, filename, max, order, env).0;
            && t.readers == s.readers
            && (forall g :: g in t.files ==> (g in s.files && t.files[g] == s.files[g]) || (g == h && t.files[g] == data))
            && (forall g :: g in s.files && Readers(s, g) > 0 ==> g in t.files && t.files[g] == s.files[g])
  {
    EnsureShape(s, size, max, order, env);
  }

  lemma OpenKeeps(w: World, a: Action, max: int, digest: Bytes -> Hash)
    requires Inv(w, digest) && Enabled(w, a, digest) && a.Open?
    ensures Inv(Apply(w, a, max, false), digest)
  {
    var t := Apply(w, a, max, false);
    forall g ensures Readers(t.state, g) == |OpenOn(t.open, g)| {
      OpenOnAdd(w.open, a.id, a.hash, g);
      GetReaders(w.state, a.hash, a.now, g);
    }
    assert Past(t.state, t.clock);
  }

  lemma CloseKeeps(w: World, a: Action, max: int, digest: Bytes -> Hash)
    requires Inv(w, digest) && a.Close?
    ensures Inv(Apply(w, a, max, false), digest)
  {
    if a.id in w.open {
      var t := Apply(w, a, max, false);
      assert a.id in OpenOn(w.open, w.open[a.id]);
      forall g ensures Readers(t.state, g) == |OpenOn(t.open, g)| {
        OpenOnRemove(w.open, a.id, g);
        ReadersAfter(w.state, w.open[a.id], g);
      }
    }
  }

  /** No file with an open reader disappears, whatever is stored or removed. */
  lemma ReadersProtected(w: World, a: Action, max: int, id: nat, digest: Bytes -> Hash)
    requires Inv(w, digest) && Enabled(w, a, digest) && (a.Put? || a.Discard?) && id in w.open
    ensures var t := Apply(w, a, max, false).state;
            w.open[id] in t.files && t.files[w.open[id]] == w.state.files[w.open[id]]
  {
    assert id in OpenOn(w.open, w.open[id]);
    assert Readers(w.state, w.open[id]) > 0;
    if a.Put? {
      CommitShape(w.state, a.hash, a.data, a.size, a.filename, max, a.order, a.env);
    } else {
      DeleteTouchesOne(w.state, a.hash, a.env);
    }
  }

  lemma PutKeeps(w: World, a: Action, max: int, digest: Bytes -> Hash)
    requires Inv(w, digest) && Enabled(w, a, digest) && a.Put?
    ensures Inv(Apply(w, a, max, false), digest)
  {
    var t := Apply(w, a, max, false);
    CommitShape(w.state, a.hash, a.data, a.size, a.filename, max, a.order, a.env);
    CommitPast(w.state, a.hash, a.data, a.size, a.filename, max, a.order, a.env, w.clock);
    forall id | id in w.open ensures w.open[id] in t.state.files { ReadersProtected(w, a, max, id, digest); }
    assert forall h :: Readers(t.state, h) == Readers(w.state, h);
  }

  lemma DiscardKeeps(w: World, a: Action, max: int, digest: Bytes -> Hash)
    requires Inv(w, digest) && Enabled(w, a, digest) && a.Discard?
    ensures Inv(Apply(w, a, max, false), digest)
  {
    var t := Apply(w, a, max, false);
    DeleteTouchesOne(w.state, a.hash, a.env);
    forall id | id in w.open ensures w.open[id] in t.state.files { ReadersProtected(w, a, max, id, digest); }
    assert forall h :: Readers(t.state, h) == Readers(w.state, h);
  }

  lemma StepKeeps(w: World, a: Action, max: int, digest: Bytes -> Hash)
    requires Inv(w, digest) && Enabled(w, a, digest)
    ensures Inv(Apply(w, a, max, false), digest)
    ensures Apply(w, a, max, false).state.currentSize <= Max(w.state.currentSize, max)
  {
    var t := Apply(w, a, max, false);
    match a {
      case Open(_, _, _) => OpenKeeps(w, a, max, digest);
      case Close(_) => CloseKeeps(w, a, max, digest);
      case Tick => assert forall h :: Readers(t.state, h) == Readers(w.state, h);
      case Put(h, data, size, filename, order, env) =>
        PutKeeps(w, a, max, digest);
        CommitBudget(w.state, h, data, size, filename, max, order, env);
      case Discard(h, env) => DiscardKeeps(w, a, max, digest);
      case SetPin(h, pinned) => assert forall g :: Readers(t.state, g) == Readers(w.state, g);
    }
  }

  ghost predicate Wrong(w: World, a: Action, max: int) {
    a.Put? && Miscounts(w.state, a.hash, a.size, max, a.order, a.env)
  }

  /** A step keeps the books exactly when it is not a miscounting store. */
  lemma StepBooks(w: World, a: Action, max: int, digest: Bytes -> Hash)
    requires Balanced(w.state) && Enabled(w, a, digest)
    ensures Balanced(Apply(w, a, max, false).state) <==> !Wrong(w, a, max)
  {
    match a {
      case Tick => FlushBalanced(w.state);
      case Put(h, data, size, filename, order, env) => CommitBooks(w.state, h, data, size, filename, max, order, env);
      case Discard(h, env) => DeleteBalanced(w.state, h, env);
      case SetPin(h, pinned) => assert Sizes(Apply(w, a, max, false).state.rows, RowSize) == Sizes(w.state.rows, RowSize);
      case _ =>
    }
  }

  const EMPTY := World(State(map[], map[], 0, map[], map[]), map[], 0)

  /**
   Over every run: the size never exceeds the larger of its start and the budget;
   reader counts equal the open readers, whose files are there; every file hashes to
   its key.
   */
  lemma {:induction false} CacheRun(w: World, run: seq<Action>, max: int, digest: Bytes -> Hash)
    requires Inv(w, digest) && Executes(w, run, max, digest)
    ensures Inv(After(w, run, max, false), digest)
    ensures After(w, run, max, false).state.currentSize <= Max(w.state.currentSize, max)
    decreases |run|
  {
    if run != [] {
      StepKeeps(w, run[0], max, digest);
      CacheRun(Apply(w, run[0], max, false), run[1..], max, digest);
    }
  }

  ghost predicate Careful(w: World, run: seq<Action>, max: int)
    decreases |run|
  {
    run != [] ==> !Wrong(w, run[0], max) && Careful(Apply(w, run[0], max, false), run[1..], max)
  }

  /** Over every run without a miscounting store the size counter equals the sum of the rows. */
  lemma {:induction false} BooksRun(w: World, run: seq<Action>, max: int, digest: Bytes -> Hash)
    requires Balanced(w.state) && Executes(w, run, max, digest) && Careful(w, run, max)
    ensures Balanced(After(w, run, max, false).state)
    decreases |run|
  {
    if run != [] {
      StepBooks(w, run[0], max, digest);
      BooksRun(Apply(w, run[0], max, false), run[1..], max, digest);
    }
  }

  ghost function Synced(w: World): World { w.(state := Flush(w.state)) }

  lemma StepRefines(w: World, a: Action, max: int, digest: Bytes -> Hash)
    requires Inv(w, digest) && Enabled(w, a, digest)
    ensures Synced(Apply(w, a, max, false)) == Apply(Synced(w), a, max, true)
  {
    match a {
      case Open(id, h, now) => GetRefines(w.state, h, now);
      case Put(h, data, size, filename, order, env) =>
        CommitRefines(w.state, h, data, size, filename, max, order, env);
      case Discard(h, env) => DeleteRefines(w.state, h, env);
      case SetPin(h, pinned) => PinRefines(w.state, h, pinned);
      case Tick => FlushIdempotent(w.state);
      case Close(_) =>
    }
  }

  /**
   Batching is invisible: through any mix of hits, flushes, stores, removals,
   evictions and pins, the rows with the waiting records folded in are the rows of
   a cache that updates recency and count synchronously.
   */
  lemma {:induction false} BatchingRefines(w: World, run: seq<Action>, max: int, digest: Bytes -> Hash)
    requires Inv(w, digest) && Executes(w, run, max, digest)
    ensures Synced(After(w, run, max, false)) == After(Synced(w), run, max, true)
    decreases |run|
  {
    if run != [] {
      StepKeeps(w, run[0], max, digest);
      StepRefines(w, run[0], max, digest);
      BatchingRefines(Apply(w, run[0], max, false), run[1..], max, digest);
    }
  }

  /** A successful store leaves row and file, so the next read of that package succeeds. */
  lemma PutThenGet(s: State, h: Hash, data: Bytes, size: nat, filename: string, max: int, order: seq<Hash>, env: Env, now: int)
    requires Commit(s, h, data, size, filename, max, order, env).1.Ok?
    ensures var t := Commit(s, h, data, size, filename, max, order, env).0;
            && h in t.files && h in t.rows && t.rows[h].size == size
            && Get(t, h, now).1.Ok? && Readers(Get(t, h, now).0, h) == Readers(t, h) + 1
  {
  }

  /**
   What a store that succeeds leaves behind, known beforehand: its own row with the new
   size, name and time, one access more than before unless making room took the old
   row away, and as pinned as it was; every other row that does not fall, as it was.
   */
  lemma StoredExactly(s: State, h: Hash, data: Bytes, size: nat, filename: string, max: int, order: seq<Hash>, env: Env, g: Hash)
    requires Ranking(Overlay(s.rows, s.pending), env.now, order) && Stores(s, size, max, order, env)
    ensures var t, rows := Commit(s, h, data, size, filename, max, order, env).0, Overlay(s.rows, s.pending);
            var left := h in rows && !Evicts(s, size, max, order, env, h);
            && h in t.rows
            && t.rows[h] == Row(size, filename, env.now, if left then rows[h].accessCount + 1 else 1, left && rows[h].pinned)
            && h in t.files && (t.files[h] == data || (h in s.files && t.files[h] == s.files[h]))
            && (g != h ==> (g in t.rows <==> g in rows && !Evicts(s, size, max, order, env, g)))
            && (g != h && g in t.rows ==> t.rows[g] == rows[g])
  {
    RoomMade(s, size, max, order, env, h);
    RoomMade(s, size, max, order, env, g);
    EnsureShape(s, size, max, order, env);
  }

  // ----- pinned packages ----------------------------------------------------

  /** The steps that may take a pinned package away: a removal on request, or one that unpins it. */
  predicate Unpins(a: Action, h: Hash) { (a.Discard? && a.hash == h) || (a.SetPin? && a.hash == h && !a.pinned) }

  ghost predicate PinnedHere(s: State, h: Hash) { h in s.rows && s.rows[h].pinned }

  /** Making room leaves a pinned package alone. */
  lemma PinnedRoom(s: State, size: nat, max: int, order: seq<Hash>, env: Env, h: Hash)
    requires Ranking(Overlay(s.rows, s.pending), env.now, order) && PinnedHere(s, h)
    ensures var t := EnsureSpace(s, size, max, order, env).0; PinnedHere(t, h) && (h in s.files ==> h in t.files)
  {
    var f, candidates := Flush(s), Candidates(order, env);
    assert f.rows[h].pinned && h !in order;
    EvictRows(f, candidates, size, max, env);
    EvictFiles(f, candidates, size, max, env);
  }

  lemma PinnedPut(s: State, a: Action, max: int, h: Hash)
    requires a.Put? && Ranking(Overlay(s.rows, s.pending), a.env.now, a.order) && PinnedHere(s, h)
    ensures var t := Commit(s, a.hash, a.data, a.size, a.filename, max, a.order, a.env).0;
            PinnedHere(t, h) && (h in s.files ==> h in t.files)
  {
    PinnedRoom(s, a.size, max, a.order, a.env, h);
  }

  lemma PinnedStep(w: World, a: Action, max: int, digest: Bytes -> Hash, h: Hash)
    requires Enabled(w, a, digest) && !Unpins(a, h) && PinnedHere(w.state, h)
    ensures var t := Apply(w, a, max, false).state; PinnedHere(t, h) && (h in w.state.files ==> h in t.files)
  {
    if a.Put? { PinnedPut(w.state, a, max, h); }
    if a.Discard? { DeleteTouchesOne(w.state, a.hash, a.env); assert h in w.state.rows - {a.hash}; }
  }

  lemma {:induction false} PinnedRun(w: World, run: seq<Action>, max: int, digest: Bytes -> Hash, h: Hash)
    requires Executes(w, run, max, digest) && PinnedHere(w.state, h) && forall k :: 0 <= k < |run| ==> !Unpins(run[k], h)
    ensures var t := After(w, run, max, false).state; PinnedHere(t, h) && (h in w.state.files ==> h in t.files)
    decreases |run|
  {
    if run != [] {
      PinnedStep(w, run[0], max, digest, h);
      assert forall k :: 0 <= k < |run[1..]| ==> run[1..][k] == run[k + 1];
      PinnedRun(Apply(w, run[0], max, false), run[1..], max, digest, h);
    }
  }

  /** Once pinned, a package stays, row and file, through every run that neither unpins nor removes it. */
  lemma PinnedStays(w: World, run: seq<Action>, max: int, digest: Bytes -> Hash, h: Hash)
    requires h in w.state.rows && Executes(Apply(w, SetPin(h, true), max, false), run, max, digest)
    requires forall k :: 0 <= k < |run| ==> !Unpins(run[k], h)
    ensures var t := After(Apply(w, SetPin(h, true), max, false), run, max, false).state;
            h in t.rows && t.rows[h].pinned && (h in w.state.files ==> h in t.files)
  {
    PinnedRun(Apply(w, SetPin(h, true), max, false), run, max, digest, h);
  }

  // ----- the cache object ---------------------------------------------------

  class Cache {
    const maxSize: int
    var rows: map<Hash, Row>
    var files: map<Hash, Bytes>
    var currentSize: int
    var pendingAccess: map<Hash, Access>
    var activeReaders: map<Hash, nat>

    ghost function View(): State
      reads this
    {
      State(rows, files, currentSize, pendingAccess, activeReaders)
    }

    constructor (maxSize: int)
      ensures this.maxSize == maxSize && View() == EMPTY.state
    {
      this.maxSize := maxSize;
      rows, files, currentSize, pendingAccess, activeReaders := map[], map[], 0, map[], map[];
    }

    method GetPackage(h: Hash, now: int) returns (st: Status)
      modifies `pendingAccess, `activeReaders
      ensures (View(), st) == Get(old(View()), h, now)
    {
      if h !in files { return NotFound; }
      var n := if h in activeReaders then activeReaders[h] else 0;
      activeReaders := activeReaders[h := n + 1];
      var rec := if h in pendingAccess then pendingAccess[h] else Access(0, 0);
      pendingAccess := pendingAccess[h := Access(now, rec.count + 1)];
      if h !in rows {
        CloseReader(h);
        return Failure;
      }
      return Ok;
    }

    method CloseReader(h: Hash)
      modifies `activeReaders
      ensures View() == DropReader(old(View()), h)
    {
      var n := if h in activeReaders then activeReaders[h] else 0;
      if n <= 1 { activeReaders := activeReaders - {h}; } else { activeReaders := activeReaders[h := n - 1]; }
    }

    /** Persists the waiting access records, one row update each. */
    method FlushAccess()
      modifies `rows, `pendingAccess
      ensures View() == Flush(old(View()))
    {
      var batch := pendingAccess;
      pendingAccess := map[];
      var todo := batch.Keys;
      ghost var was := rows;
      while todo != {}
        invariant todo <= batch.Keys && rows.Keys == was.Keys && pendingAccess == map[]
        invariant forall h :: h in rows ==>
                    rows[h] == if h in batch && h !in todo then Touched(was[h], batch[h]) else was[h]
        decreases todo
      {
        var h :| h in todo;
        todo := todo - {h};
        if h in rows {
          var r, a := rows[h], batch[h];
          rows := rows[h := r.(lastAccessed := if r.lastAccessed < a.last then a.last else r.lastAccessed,
                               accessCount := r.accessCount + a.count)];
        }
      }
      assert rows == Overlay(was, batch);
    }

    /** The file goes first, so a file that cannot be removed keeps its row and its bytes on the books. */
    method DeleteUnlocked(h: Hash, env: Env) returns (st: Status)
      modifies `rows, `files, `currentSize
      ensures (View(), st) == Delete(old(View()), h, env)
    {
      var readers := if h in activeReaders then activeReaders[h] else 0;
      if readers > 0 { return InUse; }
      var size := if h in rows then rows[h].size else 0;
      if h in files && h in env.undeletable { return Failure; }
      files := files - {h};
      if h in env.unforgettable { return Failure; }
      rows := rows - {h};
      currentSize := currentSize - size;
      return Ok;
    }

    method DeletePackage(h: Hash, env: Env) returns (st: Status)
      modifies `rows, `files, `currentSize
      ensures (View(), st) == Remove(old(View()), h, env)
      ensures h in activeReaders && activeReaders[h] > 0 ==> st.InUse? && View() == old(View())
      ensures !(h in activeReaders && activeReaders[h] > 0) && env.lookupFails ==> st.Failure? && View() == old(View())
      ensures st.Ok? ==> rows == old(rows) - {h} && files == old(files) - {h}
    {
      var readers := if h in activeReaders then activeReaders[h] else 0;
      if readers > 0 { return InUse; }
      if env.lookupFails { return Failure; }
      st := DeleteUnlocked(h, env);
    }

    method MakeRoom(needed: nat, order: seq<Hash>, env: Env) returns (st: Status)
      modifies `rows, `files, `currentSize, `pendingAccess
      ensures (View(), st) == EnsureSpace(old(View()), needed, maxSize, order, env)
      ensures env.lowOnSpace ==> st.NoSpace?
      ensures !env.lowOnSpace ==>
                st == if currentSize + needed <= maxSize then Ok else if env.queryFails then Failure else Full
    {
      FlushAccess();
      if env.lowOnSpace { return NoSpace; }
      if currentSize + needed <= maxSize { return Ok; }
      if env.queryFails { return Failure; }
      ghost var start := View();
      var k := 0;
      while k < |order| && currentSize + needed > maxSize
        invariant 0 <= k <= |order|
        invariant Evict(View(), order[k..], needed, maxSize, env).0 == Evict(start, order, needed, maxSize, env).0
      {
        assert order[k..][0] == order[k] && order[k..][1..] == order[k + 1..];
        var _ := DeleteUnlocked(order[k], env);
        k := k + 1;
      }
      return if currentSize + needed > maxSize then Full else Ok;
    }

    method CommitVerifiedFile(h: Hash, data: Bytes, size: nat, filename: string, order: seq<Hash>, env: Env) returns (st: Status)
      modifies this
      ensures (View(), st) == Commit(old(View()), h, data, size, filename, maxSize, order, env)
    {
      st := MakeRoom(size, order, env);
      if !st.Ok? { return; }
      if env.moveFails { return Failure; }
      if h !in files { files := files[h := data]; }
      if env.insertFails { return Failure; }
      var existing := if h in rows && !env.lookupFails then rows[h].size else 0;
      if h in rows {
        var r := rows[h];
        rows := rows[h := r.(size := size, filename := filename, lastAccessed := env.now, accessCount := r.accessCount + 1)];
      } else {
        rows := rows[h := Row(size, filename, env.now, 1, false)];
      }
      currentSize := currentSize + (size - existing);
      return Ok;
    }

    /** Stores data only under its own digest. */
    method PutPackage(data: Bytes, expected: Hash, filename: string, digest: Bytes -> Hash, order: seq<Hash>, env: Env)
      returns (st: Status)
      modifies this
      ensures digest(data) != expected ==> st.Failure? && View() == old(View())
      ensures digest(data) == expected ==>
                (View(), st) == Commit(old(View()), expected, data, |data|, filename, maxSize, order, env)
    {
      if digest(data) != expected { return Failure; }
      st := CommitVerifiedFile(expected, data, |data|, filename, order, env);
    }
  }

  /** A reader of one package; closing it again does nothing. */
  class TrackedReader {
    const cache: Cache
    const hash: Hash
    var closed: bool

    constructor (cache: Cache, hash: Hash)
      ensures this.cache == cache && this.hash == hash && !closed
    {
      this.cache, this.hash, closed := cache, hash, false;
    }

    method Close()
      modifies `closed, cache`activeReaders
      ensures closed
      ensures cache.View() == if old(closed) then old(cache.View()) else DropReader(old(cache.View()), hash)
    {
      if !closed {
        closed := true;
        cache.CloseReader(hash);
      }
    }
  }
}
