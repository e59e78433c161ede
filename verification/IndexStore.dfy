/**
 The index object: parsing and clearing as the code does them, entry by entry and
 line by line, proved equal to the specification of module `PackageIndex`.
 */
module IndexStore {
  import opened PackageIndex
  import opened Prelude
  import opened Stanzas

  /** The in-place filter that drops the old generation from one basename list. */
  method FilterOut(es: seq<Entry>, gone: seq<Entry>) returns (r: seq<Entry>)
    ensures r == Without(es, gone)
  {
    r := [];
    var i := 0;
    while i < |es|
      invariant 0 <= i <= |es| && r + Without(es[i..], gone) == Without(es, gone)
    {
      assert es[i..] == [es[i]] + es[i + 1..];
      if es[i] !in gone { r := r + [es[i]]; }
      i := i + 1;
    }
  }

  ghost predicate TouchesShelf(done: seq<Entry>, b: string) {
    exists k :: 0 <= k < |done| && OnShelf(done[k], b)
  }

  ghost function ReposAfter(m: map<string, map<string, Entry>>, done: seq<Entry>): map<string, map<string, Entry>> {
    map r | r in m && !(TouchesRepo(done, r) && Keep(m[r], done) == map[]) :: Keep(m[r], done)
  }

  ghost function ShelvesAfter(m: map<string, seq<Entry>>, done: seq<Entry>, gone: seq<Entry>): map<string, seq<Entry>> {
    map b | b in m && !(TouchesShelf(done, b) && Without(m[b], gone) == []) ::
      if TouchesShelf(done, b) then Without(m[b], gone) else m[b]
  }

  lemma TouchesRepoAppend(done: seq<Entry>, e: Entry, r: string)
    ensures TouchesRepo(done + [e], r) <==> TouchesRepo(done, r) || e.repo == r
  {
    var all := done + [e];
    if k :| 0 <= k < |done| && done[k].repo == r { assert all[k].repo == r; }
    if e.repo == r { assert all[|done|].repo == r; }
  }

  lemma KeepAppend(idx: Index, r: string, done: seq<Entry>, e: Entry)
    requires Reachable(idx, []) && r in idx.byRepo
    ensures var was, f := Keep(idx.byRepo[r], done), e.fields.filename;
            Keep(idx.byRepo[r], done + [e]) == if r == e.repo && f in was && was[f] == e then was - {f} else was
  {
  }

  /** What handling one removed entry does to the repository map. */
  function DropFromRepo(m: map<string, map<string, Entry>>, e: Entry): map<string, map<string, Entry>> {
    if e.repo !in m then m
    else
      var f, own := e.fields.filename, m[e.repo];
      var kept := if f in own && own[f] == e then own - {f} else own;
      if kept == map[] then m - {e.repo} else m[e.repo := kept]
  }

  lemma ReposStep(idx: Index, done: seq<Entry>, e: Entry)
    requires Reachable(idx, [])
    ensures ReposAfter(idx.byRepo, done + [e]) == DropFromRepo(ReposAfter(idx.byRepo, done), e)
  {
    var m, all := ReposAfter(idx.byRepo, done), done + [e];
    var n, d := ReposAfter(idx.byRepo, all), DropFromRepo(m, e);
    forall r ensures r in n <==> r in d
      ensures r in n ==> n[r] == d[r]
    {
      TouchesRepoAppend(done, e, r);
      if r in idx.byRepo { KeepAppend(idx, r, done, e); }
    }
  }

  lemma TouchesShelfAppend(done: seq<Entry>, e: Entry, b: string)
    ensures TouchesShelf(done + [e], b) <==> TouchesShelf(done, b) || OnShelf(e, b)
  {
    var all := done + [e];
    if k :| 0 <= k < |done| && OnShelf(done[k], b) { assert OnShelf(all[k], b); }
    if OnShelf(e, b) { assert OnShelf(all[|done|], b); }
  }

  lemma {:induction false} WithoutTwice(es: seq<Entry>, gone: seq<Entry>)
    ensures Without(Without(es, gone), gone) == Without(es, gone)
  {
    if es != [] {
      WithoutTwice(es[1..], gone);
      var rest := Without(es[1..], gone);
      if es[0] !in gone { assert ([es[0]] + rest)[1..] == rest; } else { assert [] + rest == rest; }
    }
  }

  lemma {:induction false} WithoutNone(es: seq<Entry>, gone: seq<Entry>)
    requires forall e :: e in es ==> e !in gone
    ensures Without(es, gone) == es
  {
    if es != [] { WithoutNone(es[1..], gone); }
  }

  function DropFromShelf(m: map<string, seq<Entry>>, e: Entry, gone: seq<Entry>): map<string, seq<Entry>> {
    var b := Base(e.fields.filename);
    if e.fields.filename == "" || b !in m then m
    else if Without(m[b], gone) == [] then m - {b} else m[b := Without(m[b], gone)]
  }

  lemma ShelvesStep(m0: map<string, seq<Entry>>, done: seq<Entry>, e: Entry, gone: seq<Entry>)
    ensures ShelvesAfter(m0, done + [e], gone) == DropFromShelf(ShelvesAfter(m0, done, gone), e, gone)
  {
    var n, d := ShelvesAfter(m0, done + [e], gone), DropFromShelf(ShelvesAfter(m0, done, gone), e, gone);
    forall b ensures b in n <==> b in d
      ensures b in n ==> n[b] == d[b]
    {
      TouchesShelfAppend(done, e, b);
      if b in m0 { WithoutTwice(m0[b], gone); }
    }
  }

  lemma NothingHandled(idx: Index, gone: seq<Entry>)
    ensures ReposAfter(idx.byRepo, []) == idx.byRepo && ShelvesAfter(idx.byBasename, [], gone) == idx.byBasename
    ensures Keep(idx.packages, []) == idx.packages
  {
    forall r | r in idx.byRepo ensures Keep(idx.byRepo[r], []) == idx.byRepo[r] {
    }
  }

  lemma PackagesStep(idx: Index, done: seq<Entry>, e: Entry)
    requires Reachable(idx, [])
    ensures Keep(idx.packages, done + [e]) == DropPackage(Keep(idx.packages, done), e)
  {
  }

  function DropPackage(m: map<string, Entry>, e: Entry): map<string, Entry> {
    if e.fields.sha in m && m[e.fields.sha] == e then m - {e.fields.sha} else m
  }

  /** Once the whole generation was handled, the maps are those of the cleared index. */
  lemma ClearedAtLast(idx: Index, key: string)
    requires Coherent(idx, [])
    ensures var gone := Generation(idx, key);
            && ReposAfter(idx.byRepo, gone) == Cleared(idx, key).byRepo
            && ShelvesAfter(idx.byBasename, gone, gone) == Cleared(idx, key).byBasename
  {
    var gone := Generation(idx, key);
    var n, d := ShelvesAfter(idx.byBasename, gone, gone), Cleared(idx, key).byBasename;
    forall b | b in idx.byBasename ensures b in n <==> b in d
      ensures b in n ==> n[b] == d[b]
    {
      assert ShelfOk(idx, [], b);
      if !TouchesShelf(gone, b) {
        forall e | e in Shelf(idx, b) ensures e !in gone {
          assert OnShelf(e, b);
        }
        WithoutNone(idx.byBasename[b], gone);
      }
    }
  }

  class IndexManager {
    var packages: map<string, Entry>
    var byRepo: map<string, map<string, Entry>>
    var byBasename: map<string, seq<Entry>>
    var byIndexFile: map<string, seq<Entry>>
    var nextId: nat

    ghost function View(): Index
      reads this
    {
      Index(packages, byRepo, byBasename, byIndexFile, nextId)
    }

    constructor ()
      ensures View() == EMPTY
    {
      packages, byRepo, byBasename, byIndexFile, nextId := map[], map[], map[], map[], 0;
    }

    /** Removal is by identity: an entry that a later parse replaced is left alone. */
    method RemoveEntry(e: Entry, gen: seq<Entry>)
      modifies `packages, `byRepo, `byBasename
      ensures packages == DropPackage(old(packages), e)
      ensures byRepo == DropFromRepo(old(byRepo), e)
      ensures byBasename == DropFromShelf(old(byBasename), e, gen)
    {
      if e.fields.sha in packages && packages[e.fields.sha] == e {
        packages := packages - {e.fields.sha};
      }
      RemoveFromRepo(e);
      RemoveFromShelf(e, gen);
    }

    method RemoveFromRepo(e: Entry)
      modifies `byRepo
      ensures byRepo == DropFromRepo(old(byRepo), e)
    {
      if e.repo in byRepo {
        var own := byRepo[e.repo];
        if e.fields.filename in own && own[e.fields.filename] == e { own := own - {e.fields.filename}; }
        if own == map[] { byRepo := byRepo - {e.repo}; } else { byRepo := byRepo[e.repo := own]; }
      }
    }

    method RemoveFromShelf(e: Entry, gen: seq<Entry>)
      modifies `byBasename
      ensures byBasename == DropFromShelf(old(byBasename), e, gen)
    {
      if e.fields.filename != "" {
        var b := Base(e.fields.filename);
        if b in byBasename {
          var filtered := FilterOut(byBasename[b], gen);
          if filtered == [] { byBasename := byBasename - {b}; } else { byBasename := byBasename[b := filtered]; }
        }
      }
    }

    method ClearIndexFile(key: string)
      requires Coherent(View(), [])
      modifies `packages, `byRepo, `byBasename, `byIndexFile
      ensures View() == Cleared(old(View()), key)
    {
      ghost var idx := View();
      var gen := if key in byIndexFile then byIndexFile[key] else [];
      NothingHandled(idx, gen);
      var i := 0;
      while i < |gen|
        invariant 0 <= i <= |gen|
        invariant packages == Keep(idx.packages, gen[..i])
        invariant byRepo == ReposAfter(idx.byRepo, gen[..i])
        invariant byBasename == ShelvesAfter(idx.byBasename, gen[..i], gen)
        invariant byIndexFile == idx.byIndexFile
      {
        var e := gen[i];
        assert gen[..i + 1] == gen[..i] + [e];
        PackagesStep(idx, gen[..i], e);
        ReposStep(idx, gen[..i], e);
        ShelvesStep(idx.byBasename, gen[..i], e, gen);
        RemoveEntry(e, gen);
        i := i + 1;
      }
      assert gen[..i] == gen;
      ClearedAtLast(idx, key);
      byIndexFile := byIndexFile - {key};
    }

    /** Puts an entry under its digest, its path and its basename. */
    method IndexEntry(e: Entry)
      requires e.repo in byRepo
      modifies `packages, `byRepo, `byBasename
      ensures e.repo in byRepo && View() == Indexed(old(View()), e)
    {
      packages := packages[e.fields.sha := e];
      if e.fields.filename != "" {
        byRepo := byRepo[e.repo := byRepo[e.repo][e.fields.filename := e]];
        var b := Base(e.fields.filename);
        byBasename := byBasename[b := (if b in byBasename then byBasename[b] else []) + [e]];
      }
    }

    /** Indexes one more item of the generation `gen`. */
    method Append(repo: string, f: Fields, gen: seq<Entry>, ghost start: Index, ghost done: seq<Fields>)
      returns (gen': seq<Entry>)
      requires repo in byRepo && InsertAll(start, repo, done) == (View(), gen)
      modifies `packages, `byRepo, `byBasename, `nextId
      ensures repo in byRepo && InsertAll(start, repo, done + [f]) == (View(), gen') && |gen'| == |gen| + 1
    {
      InsertAllThen(start, repo, done, f);
      var e := Entry(nextId, repo, f);
      nextId := nextId + 1;
      IndexEntry(e);
      gen' := gen + [e];
    }

    /**
     Reads stanzas until the lines or the limit run out. `cur` is the stanza at
     hand when it stops: after the limit, the one that was just indexed.
     */
    method ReadStanzas(lines: seq<string>, repo: string)
      returns (gen: seq<Entry>, cur: Option<Fields>, full: bool, ghost done: seq<Fields>)
      requires repo in byRepo
      modifies `packages, `byRepo, `byBasename, `nextId
      ensures repo in byRepo && InsertAll(old(View()), repo, done) == (View(), gen)
      ensures StoppedAt(lines, done, cur, full)
    {
      ghost var start := View();
      gen, cur, full, done := [], None, false, [];
      NothingRead(lines);
      var i, count := 0, 0;
      while i < |lines|
        invariant 0 <= i <= |lines| && repo in byRepo && count == |done| < MAX_PACKAGES
        invariant InsertAll(start, repo, done) == (View(), gen)
        invariant ReadSoFar(lines, i, cur, done)
      {
        PackagesLine(lines, i, cur, done);
        if lines[i] == "" {
          if cur.Some? && cur.value.sha != "" {
            gen := Append(repo, cur.value, gen, start, done);
            done := done + [cur.value];
            count := count + 1;
            if count >= MAX_PACKAGES {
              StopsFull(lines, i + 1, cur, done);
              return gen, cur, true, done;
            }
          }
          cur := None;
        } else {
          cur := Some(Continued(cur, lines[i]));
        }
        i := i + 1;
      }
      StopsAtEnd(lines, cur, done);
    }

    /** Handles the stanza still at hand, which after the limit is the entry indexed last. */
    method LastStanza(cur: Option<Fields>, full: bool, repo: string, gen: seq<Entry>,
                      ghost start: Index, ghost done: seq<Fields>)
      returns (gen': seq<Entry>)
      requires repo in byRepo && InsertAll(start, repo, done) == (View(), gen)
      requires full ==> done != []
      modifies `packages, `byRepo, `byBasename, `nextId
      ensures (View(), gen') == Repeated(InsertAll(start, repo, if full then done else done + Finished(cur)), full)
    {
      gen' := gen;
      if full {
        InsertAllMade(start, repo, done);
        var e := gen[|gen| - 1];
        IndexEntry(e);
        gen' := gen + [e];
      } else if cur.Some? && cur.value.sha != "" {
        gen' := Append(repo, cur.value, gen, start, done);
      } else {
        assert done + Finished(cur) == done;
      }
    }

    /** Indexes the artifacts of one source stanza, as far as the limit allows. */
    method EndSource(s: Source, repo: string, gen: seq<Entry>, ghost start: Index, ghost done: seq<Fields>)
      returns (gen': seq<Entry>, full: bool, ghost now: seq<Fields>)
      requires repo in byRepo && InsertAll(start, repo, done) == (View(), gen) && |done| == |gen| < MAX_PACKAGES
      modifies `packages, `byRepo, `byBasename, `nextId
      ensures repo in byRepo && InsertAll(start, repo, now) == (View(), gen') && |now| == |gen'|
      ensures now == Take(done + Emitted(s), MAX_PACKAGES) && (full <==> |gen'| >= MAX_PACKAGES)
    {
      gen', full, now := gen, false, done;
      if s.directory == "" {
        assert done + Emitted(s) == done;
        return;
      }
      var k := 0;
      while k < |s.files|
        invariant 0 <= k <= |s.files| && repo in byRepo && |now| == |gen'| < MAX_PACKAGES
        invariant InsertAll(start, repo, now) == (View(), gen')
        invariant now + ArtifactsFrom(s, s.files[k..]) == done + Emitted(s)
      {
        var f := ArtifactFields(s, s.files[k]);
        ArtifactsStep(s, k, now);
        gen' := Append(repo, f, gen', start, now);
        now := now + [f];
        if |gen'| >= MAX_PACKAGES {
          TakeEnough(now, ArtifactsFrom(s, s.files[k + 1..]), MAX_PACKAGES);
          full := true;
          return;
        }
        k := k + 1;
      }
      assert now == done + Emitted(s);
    }

    method ReadSources(lines: seq<string>, repo: string) returns (gen: seq<Entry>)
      requires repo in byRepo
      modifies `packages, `byRepo, `byBasename, `nextId
      ensures InsertAll(old(View()), repo, Take(SourcesOf(lines), MAX_PACKAGES)) == (View(), gen)
    {
      ghost var start := View();
      gen := [];
      ghost var done: seq<Fields> := [];
      var s, full := NO_SOURCE, false;
      var i := 0;
      while i < |lines|
        invariant 0 <= i <= |lines| && repo in byRepo && |done| == |gen| < MAX_PACKAGES
        invariant InsertAll(start, repo, done) == (View(), gen)
        invariant done + SourcesFrom(lines[i..], s) == SourcesOf(lines)
      {
        SourcesLine(lines, i, s, done);
        if lines[i] == "" {
          ghost var all := done + Emitted(s);
          gen, full, done := EndSource(s, repo, gen, start, done);
          if full {
            TakeEnough(all, SourcesFrom(lines[i + 1..], NO_SOURCE), MAX_PACKAGES);
            return;
          }
          s := NO_SOURCE;
        } else {
          s := WithLine(s, lines[i]);
        }
        i := i + 1;
      }
      gen, full, done := EndSource(s, repo, gen, start, done);
    }

    /** Files the new generation, unless the file had nothing to index. */
    method FileGeneration(key: string, gen: seq<Entry>)
      modifies `byIndexFile
      ensures View() == Filed((old(View()), gen), key)
    {
      if gen != [] { byIndexFile := byIndexFile[key := gen]; }
    }

    /** Drops what an earlier parse of the file contributed and makes sure its repository exists. */
    method Prepare(repo: string, key: string)
      requires Coherent(View(), [])
      modifies this
      ensures View() == WithRepo(Cleared(old(View()), key), repo) && repo in byRepo
    {
      ClearIndexFile(key);
      if repo !in byRepo { byRepo := byRepo[repo := map[]]; }
      assert byRepo == byRepo[repo := byRepo[repo]];
    }

    /** Parses a `Packages` file line by line; a stanza is indexed when it ends. */
    method ParsePackages(lines: seq<string>, repo: string, key: string)
      requires Coherent(View(), [])
      modifies this
      ensures View() == LoadParse(old(View()), PackagesParse(key, repo, lines))
    {
      Prepare(repo, key);
      ghost var start := View();
      var gen, cur, full, done := ReadStanzas(lines, repo);
      gen := LastStanza(cur, full, repo, gen, start, done);
      FileGeneration(key, gen);
    }

    /** Parses a `Sources` file line by line. */
    method ParseSources(lines: seq<string>, repo: string, key: string)
      requires Coherent(View(), [])
      modifies this
      ensures View() == LoadParse(old(View()), SourcesParse(key, repo, lines))
    {
      Prepare(repo, key);
      var gen := ReadSources(lines, repo);
      FileGeneration(key, gen);
    }

    /** Looks for the exact path in every repository, then by basename. */
    method GetByPath(path: string) returns (r: Option<Entry>)
      ensures ByPath(View(), path, r)
    {
      var todo := byRepo.Keys;
      while todo != {}
        invariant todo <= byRepo.Keys
        invariant forall repo :: repo in byRepo && repo !in todo ==> ByRepoAndPath(View(), repo, path).None?
        decreases todo
      {
        var repo :| repo in todo;
        todo := todo - {repo};
        if path in byRepo[repo] {
          r := Some(byRepo[repo][path]);
          assert r == ByRepoAndPath(View(), repo, path);
          return;
        }
      }
      var base := Base(path);
      r := if base in byBasename && byBasename[base] != [] then Some(byBasename[base][0]) else None;
    }

    /** The first entry of the basename from the preferred repository, else the first of all. */
    method GetByBasename(base: string, prefer: string) returns (r: Option<Entry>)
      ensures Shelf(View(), base) == [] ==> r.None?
      ensures Shelf(View(), base) != [] ==> r.Some? && r.value in Shelf(View(), base)
      ensures prefer != "" && (exists e :: e in Shelf(View(), base) && e.repo == prefer) ==> r.Some? && r.value.repo == prefer
      ensures (prefer == "" || forall e :: e in Shelf(View(), base) ==> e.repo != prefer) && r.Some? ==>
                r.value == Shelf(View(), base)[0]
    {
      var es := if base in byBasename then byBasename[base] else [];
      if es == [] { return None; }
      if prefer != "" {
        var k := 0;
        while k < |es|
          invariant 0 <= k <= |es|
          invariant forall j :: 0 <= j < k ==> es[j].repo != prefer
        {
          if es[k].repo == prefer { return Some(es[k]); }
          k := k + 1;
        }
      }
      return Some(es[0]);
    }
  }

  lemma {:induction false} InsertAllThen(idx: Index, repo: string, items: seq<Fields>, f: Fields)
    ensures InsertAll(idx, repo, items + [f]) == InsertedAfter(InsertAll(idx, repo, items), repo, f)
    decreases |items|
  {
    if items == [] {
      assert items + [f] == [f];
      var (j, e) := Insert(idx, repo, f);
      assert InsertAll(j, repo, [f][1..]) == (j, []);
      assert [e] + [] == [] + [e];
    } else {
      var all := items + [f];
      assert all[0] == items[0] && all[1..] == items[1..] + [f];
      var (i, e) := Insert(idx, repo, items[0]);
      InsertAllThen(i, repo, items[1..], f);
      InsertAllHead(idx, repo, items);
      InsertAllHead(idx, repo, all);
      var (j, es) := InsertAll(i, repo, items[1..]);
      assert ([e] + es) + [Insert(j, repo, f).1] == [e] + (es + [Insert(j, repo, f).1]);
    }
  }

  function InsertedAfter(so: (Index, seq<Entry>), repo: string, f: Fields): (Index, seq<Entry>) {
    var (j, e) := Insert(so.0, repo, f);
    (j, so.1 + [e])
  }

  lemma InsertAllHead(idx: Index, repo: string, items: seq<Fields>)
    requires items != []
    ensures var (i, e) := Insert(idx, repo, items[0]);
            var (j, es) := InsertAll(i, repo, items[1..]);
            InsertAll(idx, repo, items) == (j, [e] + es)
  {
  }

  /** Where reading stops: at the limit, or at the end with every ended stanza indexed. */
  ghost predicate StoppedAt(lines: seq<string>, done: seq<Fields>, cur: Option<Fields>, full: bool) {
    if full then
      && |done| == MAX_PACKAGES <= |EndedFrom(lines, None)|
      && done == Take(PackagesOf(lines), MAX_PACKAGES)
    else
      && |EndedFrom(lines, None)| < MAX_PACKAGES
      && done + Finished(cur) == Take(PackagesOf(lines), MAX_PACKAGES)
  }

  lemma TakeEnough(a: seq<Fields>, b: seq<Fields>, n: nat)
    requires |a| >= n
    ensures Take(a + b, n) == Take(a, n)
  {
  }

  /** `done` are the stanzas ended before line `i`; `cur` is the one being read there. */
  ghost predicate ReadSoFar(lines: seq<string>, i: nat, cur: Option<Fields>, done: seq<Fields>)
    requires i <= |lines|
  {
    && done + PackagesFrom(lines[i..], cur) == PackagesOf(lines)
    && done + EndedFrom(lines[i..], cur) == EndedFrom(lines, None)
  }

  lemma NothingRead(lines: seq<string>)
    ensures ReadSoFar(lines, 0, None, [])
  {
    assert lines[0..] == lines;
  }

  lemma PackagesLine(lines: seq<string>, i: nat, cur: Option<Fields>, done: seq<Fields>)
    requires i < |lines| && ReadSoFar(lines, i, cur, done)
    ensures if lines[i] == "" then ReadSoFar(lines, i + 1, None, done + Finished(cur))
            else ReadSoFar(lines, i + 1, Some(Continued(cur, lines[i])), done)
    ensures done + [] == done
  {
    assert lines[i..][0] == lines[i] && lines[i..][1..] == lines[i + 1..];
  }

  lemma StopsFull(lines: seq<string>, i: nat, cur: Option<Fields>, done: seq<Fields>)
    requires i <= |lines| && ReadSoFar(lines, i, None, done) && |done| == MAX_PACKAGES
    ensures StoppedAt(lines, done, cur, true)
  {
  }

  lemma StopsAtEnd(lines: seq<string>, cur: Option<Fields>, done: seq<Fields>)
    requires ReadSoFar(lines, |lines|, cur, done) && |done| < MAX_PACKAGES
    ensures StoppedAt(lines, done, cur, false)
  {
  }

  lemma SourcesLine(lines: seq<string>, i: nat, s: Source, done: seq<Fields>)
    requires i < |lines|
    ensures done + SourcesFrom(lines[i..], s) ==
            if lines[i] == "" then done + Emitted(s) + SourcesFrom(lines[i + 1..], NO_SOURCE)
            else done + SourcesFrom(lines[i + 1..], WithLine(s, lines[i]))
  {
    assert lines[i..][0] == lines[i] && lines[i..][1..] == lines[i + 1..];
  }

  lemma ArtifactsStep(s: Source, k: nat, now: seq<Fields>)
    requires k < |s.files| && s.directory != ""
    ensures now + ArtifactsFrom(s, s.files[k..]) ==
            now + [ArtifactFields(s, s.files[k])] + ArtifactsFrom(s, s.files[k + 1..])
  {
    assert s.files[k..][0] == s.files[k] && s.files[k..][1..] == s.files[k + 1..];
  }
}
