/**
 The in-memory package index: four maps over shared entries. Entries carry a
 serial number because removal is by identity — two parses of the same stanza make
 two different entries.
 */
module PackageIndex {
  import opened Prelude

  /** What one stanza (or one source artifact) contributes. */
  datatype Fields = Fields(name: string, version: string, arch: string, filename: string, size: int, sha: string)

  datatype Entry = Entry(id: nat, repo: string, fields: Fields)

  datatype Index = Index(
    packages: map<string, Entry>,
    byRepo: map<string, map<string, Entry>>,
    byBasename: map<string, seq<Entry>>,
    byIndexFile: map<string, seq<Entry>>,
    nextId: nat)

  const EMPTY := Index(map[], map[], map[], map[], 0)

  // ----- paths --------------------------------------------------------------

  function TrimSlashes(p: string): string {
    if p != "" && p[|p| - 1] == '/' then TrimSlashes(p[..|p| - 1]) else p
  }

  function AfterLastSlash(p: string): string {
    if p == "" || p[|p| - 1] == '/' then "" else AfterLastSlash(p[..|p| - 1]) + [p[|p| - 1]]
  }

  /** `filepath.Base` on a slash-separated path. */
  function Base(p: string): string {
    if p == "" then "."
    else
      var q := TrimSlashes(p);
      if q == "" then "/" else AfterLastSlash(q)
  }

  lemma {:induction false} AfterSlash(a: string, name: string)
    requires '/' !in name
    ensures AfterLastSlash(a + ['/'] + name) == name && AfterLastSlash(name) == name
    decreases |name|
  {
    if name != "" {
      var k := |name| - 1;
      assert (a + ['/'] + name)[..|a| + 1 + k] == a + ['/'] + name[..k];
      AfterSlash(a, name[..k]);
      assert name == name[..k] + [name[k]];
    }
  }

  /** The basename of a path is what follows its last slash, a slash at the very end not counting. */
  lemma BaseExactly(directory: string, name: string)
    requires name != "" && '/' !in name
    ensures Base(name) == name && Base(directory + ['/'] + name) == name && Base(directory + ['/'] + name + ['/']) == name
  {
    AfterSlash(directory, name);
    var p := directory + ['/'] + name;
    assert p[|p| - 1] == name[|name| - 1] && (p + ['/'])[..|p|] == p;
  }

  // ----- the maps -----------------------------------------------------------

  function Without(es: seq<Entry>, gone: seq<Entry>): seq<Entry> {
    if es == [] then [] else (if es[0] in gone then [] else [es[0]]) + Without(es[1..], gone)
  }

  function Keep(m: map<string, Entry>, gone: seq<Entry>): map<string, Entry> {
    map p | p in m && m[p] !in gone :: m[p]
  }

  predicate TouchesRepo(gone: seq<Entry>, repo: string) {
    exists k :: 0 <= k < |gone| && gone[k].repo == repo
  }

  function Generation(idx: Index, key: string): seq<Entry> {
    if key in idx.byIndexFile then idx.byIndexFile[key] else []
  }

  /** The index without the entries the previous parse of file `key` contributed. */
  function Cleared(idx: Index, key: string): Index {
    var gone := Generation(idx, key);
    idx.(packages := Keep(idx.packages, gone),
         byRepo := map r | r in idx.byRepo && !(TouchesRepo(gone, r) && Keep(idx.byRepo[r], gone) == map[]) ::
                     Keep(idx.byRepo[r], gone),
         byBasename := map b | b in idx.byBasename && Without(idx.byBasename[b], gone) != [] ::
                         Without(idx.byBasename[b], gone),
         byIndexFile := idx.byIndexFile - {key})
  }

  function RepoMap(idx: Index, repo: string): map<string, Entry> {
    if repo in idx.byRepo then idx.byRepo[repo] else map[]
  }

  function Shelf(idx: Index, base: string): seq<Entry> {
    if base in idx.byBasename then idx.byBasename[base] else []
  }

  /** Puts one entry under its digest, its path and its basename. */
  function Indexed(idx: Index, e: Entry): Index {
    var i := idx.(packages := idx.packages[e.fields.sha := e]);
    if e.fields.filename == "" then i
    else i.(byRepo := i.byRepo[e.repo := RepoMap(i, e.repo)[e.fields.filename := e]],
            byBasename := i.byBasename[Base(e.fields.filename) := Shelf(i, Base(e.fields.filename)) + [e]])
  }

  function Insert(idx: Index, repo: string, f: Fields): (Index, Entry) {
    var e := Entry(idx.nextId, repo, f);
    (Indexed(idx.(nextId := idx.nextId + 1), e), e)
  }

  function InsertAll(idx: Index, repo: string, items: seq<Fields>): (Index, seq<Entry>)
    decreases |items|
  {
    if items == [] then (idx, [])
    else
      var (i, e) := Insert(idx, repo, items[0]);
      var (j, es) := InsertAll(i, repo, items[1..]);
      (j, [e] + es)
  }

  /** The last entry is indexed once more when the per-file limit ended the parse. */
  function Repeated(so: (Index, seq<Entry>), again: bool): (Index, seq<Entry>) {
    if again && so.1 != [] then
      var e := so.1[|so.1| - 1];
      (Indexed(so.0, e), so.1 + [e])
    else so
  }

  /** One parse of index file `key`: its old generation goes, the new one comes. */
  function Load(idx: Index, key: string, repo: string, items: seq<Fields>, again: bool): Index {
    Filed(Repeated(InsertAll(WithRepo(Cleared(idx, key), repo), repo, items), again), key)
  }

  function Filed(so: (Index, seq<Entry>), key: string): Index {
    if so.1 == [] then so.0 else so.0.(byIndexFile := so.0.byIndexFile[key := so.1])
  }

  // ----- coherence ----------------------------------------------------------

  /** In the current generation of some file, or in `more`. */
  ghost predicate Live(idx: Index, more: seq<Entry>, e: Entry) {
    e in more || exists k :: InFile(idx, k, e)
  }

  ghost predicate InFile(idx: Index, key: string, e: Entry) {
    key in idx.byIndexFile && e in idx.byIndexFile[key]
  }

  ghost predicate OnShelf(e: Entry, b: string) { e.fields.filename != "" && Base(e.fields.filename) == b }

  ghost predicate GenerationsApart(idx: Index, more: seq<Entry>) {
    && (forall k :: k in idx.byIndexFile ==> idx.byIndexFile[k] != [])
    && (forall k, e, f :: InFile(idx, k, e) && f in more ==> e.id != f.id)
    && (forall k, l, e, f :: InFile(idx, k, e) && InFile(idx, l, f) && k != l ==> e.id != f.id)
    && (forall e :: Live(idx, more, e) ==> e.id < idx.nextId)
  }

  ghost predicate Reachable(idx: Index, more: seq<Entry>) {
    && (forall s :: s in idx.packages ==> idx.packages[s].fields.sha == s && Live(idx, more, idx.packages[s]))
    && (forall r, p :: r in idx.byRepo && p in idx.byRepo[r] ==>
          var e := idx.byRepo[r][p];
          e.repo == r && e.fields.filename == p && p != "" && Live(idx, more, e))
  }

  ghost predicate ShelfMembers(idx: Index, more: seq<Entry>, b: string) {
    && (b in idx.byBasename ==> idx.byBasename[b] != [])
    && (forall e :: e in Shelf(idx, b) <==> Live(idx, more, e) && OnShelf(e, b))
  }

  ghost predicate ShelfCounts(idx: Index, more: seq<Entry>, b: string) {
    && (forall e :: e in more && OnShelf(e, b) ==> Count(Shelf(idx, b), e) == Count(more, e))
    && (forall k, e :: InFile(idx, k, e) && OnShelf(e, b) ==> Count(Shelf(idx, b), e) == Count(idx.byIndexFile[k], e))
  }

  ghost predicate ShelfOk(idx: Index, more: seq<Entry>, b: string) {
    ShelfMembers(idx, more, b) && ShelfCounts(idx, more, b)
  }

  function Count(es: seq<Entry>, e: Entry): nat { multiset(es)[e] }

  ghost predicate Shelved(idx: Index, more: seq<Entry>) { forall b :: ShelfOk(idx, more, b) }

  /**
   Everything reachable from the look-up maps is in a current generation, and the
   basename map lists exactly the live entries of each basename, each as often as
   its file's generation does.
   `more` is the generation under construction.
   */
  ghost predicate Coherent(idx: Index, more: seq<Entry>) {
    GenerationsApart(idx, more) && Reachable(idx, more) && Shelved(idx, more)
  }

  lemma {:induction false} WithoutMembers(es: seq<Entry>, gone: seq<Entry>)
    ensures forall e :: e in Without(es, gone) <==> e in es && e !in gone
    ensures forall e :: e !in gone ==> Count(Without(es, gone), e) == Count(es, e)
  {
    if es != [] {
      WithoutMembers(es[1..], gone);
      assert es == [es[0]] + es[1..];
    }
  }

  /** Clearing a file removes its generation and nothing else. */
  lemma ClearedLive(idx: Index, key: string, e: Entry)
    requires GenerationsApart(idx, [])
    ensures Live(Cleared(idx, key), [], e) <==> Live(idx, [], e) && e !in Generation(idx, key)
  {
    var c := Cleared(idx, key);
    if k :| InFile(c, k, e) { assert InFile(idx, k, e); }
    if k :| InFile(idx, k, e) && k != key { assert InFile(c, k, e); }
    if e in Generation(idx, key) { assert InFile(idx, key, e); }
  }

  lemma ClearedCounts(idx: Index, key: string, b: string)
    requires GenerationsApart(idx, []) && ShelfCounts(idx, [], b)
    ensures ShelfCounts(Cleared(idx, key), [], b)
  {
    var c, gone := Cleared(idx, key), Generation(idx, key);
    WithoutMembers(Shelf(idx, b), gone);
    assert Shelf(c, b) == Without(Shelf(idx, b), gone);
    forall k, e | InFile(c, k, e) && OnShelf(e, b) ensures Count(Shelf(c, b), e) == Count(c.byIndexFile[k], e) {
      assert InFile(idx, k, e);
      assert e in gone ==> InFile(idx, key, e);
    }
  }

  lemma ClearedShelf(idx: Index, key: string, b: string)
    requires GenerationsApart(idx, []) && ShelfOk(idx, [], b)
    ensures ShelfOk(Cleared(idx, key), [], b)
  {
    ClearedCounts(idx, key, b);
    var c, gone := Cleared(idx, key), Generation(idx, key);
    WithoutMembers(Shelf(idx, b), gone);
    assert Shelf(c, b) == Without(Shelf(idx, b), gone);
    forall e ensures Live(c, [], e) <==> Live(idx, [], e) && e !in gone { ClearedLive(idx, key, e); }
  }

  lemma ClearedCoherent(idx: Index, key: string)
    requires Coherent(idx, [])
    ensures Coherent(Cleared(idx, key), [])
  {
    var c := Cleared(idx, key);
    assert forall k, e :: InFile(c, k, e) ==> InFile(idx, k, e);
    forall e ensures Live(c, [], e) <==> Live(idx, [], e) && e !in Generation(idx, key) { ClearedLive(idx, key, e); }
    assert Reachable(c, []);
    forall b ensures ShelfOk(c, [], b) {
      assert ShelfOk(idx, [], b);
      ClearedShelf(idx, key, b);
    }
  }

  lemma InsertLive(idx: Index, more: seq<Entry>, repo: string, f: Fields, x: Entry)
    ensures var (i, e) := Insert(idx, repo, f);
            Live(i, more + [e], x) <==> Live(idx, more, x) || x == e
  {
    var (i, e) := Insert(idx, repo, f);
    assert forall k :: InFile(i, k, x) <==> InFile(idx, k, x);
  }

  ghost predicate ShelfExtends(idx: Index, j: Index, e: Entry, b: string) {
    && j.byIndexFile == idx.byIndexFile
    && Shelf(j, b) == Shelf(idx, b) + (if OnShelf(e, b) then [e] else [])
    && (b in j.byBasename ==> j.byBasename[b] != [])
  }

  lemma MembersGrow(idx: Index, j: Index, more: seq<Entry>, e: Entry, b: string)
    requires ShelfMembers(idx, more, b) && ShelfExtends(idx, j, e, b)
    ensures ShelfMembers(j, more + [e], b)
  {
    assert forall k, x :: InFile(j, k, x) <==> InFile(idx, k, x);
    assert forall x :: Live(j, more + [e], x) <==> Live(idx, more, x) || x == e;
  }

  /** One more occurrence on a shelf and in the generation under construction keeps them in step. */
  lemma ShelfGrows(idx: Index, j: Index, more: seq<Entry>, e: Entry, b: string)
    requires ShelfOk(idx, more, b) && ShelfExtends(idx, j, e, b)
    requires forall k, x :: InFile(idx, k, x) ==> x != e
    requires e in more || e !in Shelf(idx, b)
    ensures ShelfOk(j, more + [e], b)
  {
    MembersGrow(idx, j, more, e, b);
    assert ShelfCounts(j, more + [e], b) by {
      assert forall k, x :: InFile(j, k, x) <==> InFile(idx, k, x);
      assert forall x :: Count(more + [e], x) == Count(more, x) + if x == e then 1 else 0;
      assert forall x :: Count(Shelf(idx, b) + [e], x) == Count(Shelf(idx, b), x) + if x == e then 1 else 0;
      assert Shelf(idx, b) + [] == Shelf(idx, b);
    }
  }

  lemma InsertShelf(idx: Index, more: seq<Entry>, repo: string, f: Fields, b: string)
    requires Coherent(idx, more)
    ensures var (i, e) := Insert(idx, repo, f); ShelfOk(i, more + [e], b)
  {
    var (i, e) := Insert(idx, repo, f);
    assert ShelfOk(idx, more, b);
    assert forall k, x :: InFile(idx, k, x) ==> Live(idx, more, x);
    ShelfGrows(idx, i, more, e, b);
  }

  lemma IndexedReachable(idx: Index, j: Index, more: seq<Entry>, e: Entry)
    requires Reachable(idx, more) && j == Indexed(idx, e).(nextId := j.nextId)
    ensures Reachable(j, more + [e])
  {
    assert forall k, x :: InFile(j, k, x) <==> InFile(idx, k, x);
    assert forall x :: Live(j, more + [e], x) <==> Live(idx, more, x) || x == e;
  }

  lemma InsertGenerations(idx: Index, more: seq<Entry>, repo: string, f: Fields)
    requires GenerationsApart(idx, more)
    ensures var (i, e) := Insert(idx, repo, f); GenerationsApart(i, more + [e])
  {
    var (i, e) := Insert(idx, repo, f);
    forall x ensures Live(i, more + [e], x) <==> Live(idx, more, x) || x == e { InsertLive(idx, more, repo, f, x); }
    assert forall k, x :: InFile(i, k, x) <==> InFile(idx, k, x);
    assert forall k, x :: InFile(idx, k, x) ==> Live(idx, more, x);
    assert forall k :: 0 <= k < |more| ==> Live(idx, more, more[k]);
  }

  lemma InsertCoherent(idx: Index, more: seq<Entry>, repo: string, f: Fields)
    requires Coherent(idx, more)
    ensures var (i, e) := Insert(idx, repo, f); Coherent(i, more + [e])
  {
    InsertGenerations(idx, more, repo, f);
    var (i, e) := Insert(idx, repo, f);
    IndexedReachable(idx, i, more, e);
    forall b ensures ShelfOk(i, more + [e], b) { InsertShelf(idx, more, repo, f, b); }
  }

  /** One entry per item, in order, all different and of `repo`; the last one twice when `again`. */
  ghost predicate MadeFrom(gen: seq<Entry>, repo: string, items: seq<Fields>, again: bool) {
    && |gen| == |items| + (if again && items != [] then 1 else 0)
    && (forall k :: 0 <= k < |items| ==> gen[k].repo == repo && gen[k].fields == items[k])
    && (forall k, l :: 0 <= k < l < |items| ==> gen[k] != gen[l])
    && (again && items != [] ==> gen[|items|] == gen[|items| - 1])
  }

  lemma {:induction false} InsertAllMade(idx: Index, repo: string, items: seq<Fields>)
    ensures var (i, gen) := InsertAll(idx, repo, items);
            && |gen| == |items| && i.byIndexFile == idx.byIndexFile
            && forall k :: 0 <= k < |gen| ==> gen[k] == Entry(idx.nextId + k, repo, items[k])
    decreases |items|
  {
    if items != [] {
      var i := Insert(idx, repo, items[0]).0;
      InsertAllMade(i, repo, items[1..]);
      var gen := InsertAll(idx, repo, items).1;
      assert gen == [Entry(idx.nextId, repo, items[0])] + InsertAll(i, repo, items[1..]).1;
      forall k | 0 < k < |gen| ensures gen[k] == Entry(idx.nextId + k, repo, items[k]) {
        assert gen[k] == InsertAll(i, repo, items[1..]).1[k - 1];
      }
    }
  }

  lemma RepeatMade(idx: Index, repo: string, items: seq<Fields>, again: bool)
    ensures var (i, gen) := Repeated(InsertAll(idx, repo, items), again);
            MadeFrom(gen, repo, items, again) && i.byIndexFile == idx.byIndexFile
  {
    InsertAllMade(idx, repo, items);
  }

  lemma AgainShelf(idx: Index, more: seq<Entry>, e: Entry, b: string)
    requires Coherent(idx, more) && e in more
    ensures ShelfOk(Indexed(idx, e), more + [e], b)
  {
    assert ShelfOk(idx, more, b);
    ShelfGrows(idx, Indexed(idx, e), more, e, b);
  }

  lemma AgainCoherent(idx: Index, more: seq<Entry>, e: Entry)
    requires Coherent(idx, more) && e in more
    ensures Coherent(Indexed(idx, e), more + [e])
  {
    var j := Indexed(idx, e);
    IndexedReachable(idx, j, more, e);
    assert GenerationsApart(j, more + [e]) by {
      assert forall k, x :: InFile(j, k, x) <==> InFile(idx, k, x);
      assert forall x :: Live(j, more + [e], x) <==> Live(idx, more, x);
    }
    forall b ensures ShelfOk(j, more + [e], b) { AgainShelf(idx, more, e, b); }
  }

  lemma RepeatCoherent(so: (Index, seq<Entry>), again: bool)
    requires Coherent(so.0, so.1)
    ensures var (i, gen) := Repeated(so, again); Coherent(i, gen)
  {
    if again && so.1 != [] { AgainCoherent(so.0, so.1, so.1[|so.1| - 1]); }
  }

  lemma {:induction false} InsertAllCoherent(idx: Index, more: seq<Entry>, repo: string, items: seq<Fields>)
    requires Coherent(idx, more)
    ensures var (i, gen) := InsertAll(idx, repo, items); Coherent(i, more + gen)
    decreases |items|
  {
    if items == [] {
      assert more + [] == more;
    } else {
      InsertCoherent(idx, more, repo, items[0]);
      var e := Insert(idx, repo, items[0]).1;
      InsertAllNext(idx, more, repo, items);
      InsertAllCoherent(Insert(idx, repo, items[0]).0, more + [e], repo, items[1..]);
    }
  }

  lemma InsertAllNext(idx: Index, more: seq<Entry>, repo: string, items: seq<Fields>)
    requires items != []
    ensures var (i, e) := Insert(idx, repo, items[0]);
            var (j, gen) := InsertAll(i, repo, items[1..]);
            InsertAll(idx, repo, items).0 == j && more + InsertAll(idx, repo, items).1 == more + [e] + gen
  {
    var (i, e) := Insert(idx, repo, items[0]);
    var (j, gen) := InsertAll(i, repo, items[1..]);
    assert more + [e] + gen == more + ([e] + gen);
  }

  lemma FiledLive(idx: Index, key: string, gen: seq<Entry>, e: Entry)
    requires key !in idx.byIndexFile
    ensures Live(idx.(byIndexFile := idx.byIndexFile[key := gen]), [], e) <==> Live(idx, gen, e)
  {
    var j := idx.(byIndexFile := idx.byIndexFile[key := gen]);
    if k :| InFile(j, k, e) { assert k != key ==> InFile(idx, k, e); }
    if k :| InFile(idx, k, e) { assert InFile(j, k, e); }
    if e in gen { assert InFile(j, key, e); }
  }

  lemma FiledCoherent(idx: Index, key: string, gen: seq<Entry>)
    requires Coherent(idx, gen) && key !in idx.byIndexFile && gen != []
    ensures Coherent(idx.(byIndexFile := idx.byIndexFile[key := gen]), [])
  {
    var j := idx.(byIndexFile := idx.byIndexFile[key := gen]);
    forall e ensures Live(j, [], e) <==> Live(idx, gen, e) { FiledLive(idx, key, gen, e); }
    assert forall k, e :: InFile(j, k, e) <==> if k == key then e in gen else InFile(idx, k, e);
    forall b ensures ShelfOk(j, [], b) {
      assert ShelfOk(idx, gen, b);
      assert Shelf(j, b) == Shelf(idx, b);
    }
  }

  function WithRepo(idx: Index, repo: string): Index { idx.(byRepo := idx.byRepo[repo := RepoMap(idx, repo)]) }

  lemma WithRepoCoherent(idx: Index, repo: string)
    requires Coherent(idx, [])
    ensures Coherent(WithRepo(idx, repo), [])
  {
    var i := WithRepo(idx, repo);
    assert forall k, e :: InFile(i, k, e) <==> InFile(idx, k, e);
    assert forall e :: Live(i, [], e) <==> Live(idx, [], e);
    forall b ensures ShelfOk(i, [], b) {
      assert ShelfOk(idx, [], b);
      assert Shelf(i, b) == Shelf(idx, b);
    }
  }

  /**
   Parsing an index file keeps the index coherent, replaces exactly that file's
   generation by one entry per item, and leaves every other file's generation as
   it was.
   */
  lemma LoadCoherent(idx: Index, key: string, repo: string, items: seq<Fields>, again: bool)
    requires Coherent(idx, [])
    ensures var j := Load(idx, key, repo, items, again);
            && Coherent(j, [])
            && MadeFrom(Generation(j, key), repo, items, again)
            && j.byIndexFile - {key} == idx.byIndexFile - {key}
  {
    ClearedCoherent(idx, key);
    var i := WithRepo(Cleared(idx, key), repo);
    WithRepoCoherent(Cleared(idx, key), repo);
    InsertAllCoherent(i, [], repo, items);
    LoadedCoherent(i, key, repo, items, again);
    LoadedMade(i, key, repo, items, again);
  }

  lemma LoadedCoherent(idx: Index, key: string, repo: string, items: seq<Fields>, again: bool)
    requires key !in idx.byIndexFile
    requires var (i, gen) := InsertAll(idx, repo, items); Coherent(i, [] + gen)
    ensures Coherent(Filed(Repeated(InsertAll(idx, repo, items), again), key), [])
  {
    var so := InsertAll(idx, repo, items);
    assert [] + so.1 == so.1;
    RepeatCoherent(so, again);
    RepeatMade(idx, repo, items, again);
    var (j, gen) := Repeated(so, again);
    if gen != [] { FiledCoherent(j, key, gen); }
  }

  lemma LoadedMade(idx: Index, key: string, repo: string, items: seq<Fields>, again: bool)
    requires key !in idx.byIndexFile
    ensures var j := Filed(Repeated(InsertAll(idx, repo, items), again), key);
            MadeFrom(Generation(j, key), repo, items, again) && j.byIndexFile - {key} == idx.byIndexFile
  {
    RepeatMade(idx, repo, items, again);
    var (j, gen) := Repeated(InsertAll(idx, repo, items), again);
    assert j.byIndexFile - {key} == j.byIndexFile && j.byIndexFile[key := gen] - {key} == j.byIndexFile;
  }

  // ----- look-ups -----------------------------------------------------------

  function ByRepoAndPath(idx: Index, repo: string, path: string): Option<Entry> {
    if repo in idx.byRepo && path in idx.byRepo[repo] then Some(idx.byRepo[repo][path]) else None
  }

  /** A look-up by path: an exact match in some repository, else the first entry of that basename. */
  ghost predicate ByPath(idx: Index, path: string, r: Option<Entry>) {
    if exists repo :: ByRepoAndPath(idx, repo, path).Some?
    then exists repo :: ByRepoAndPath(idx, repo, path).Some? && r == ByRepoAndPath(idx, repo, path)
    else r == if Shelf(idx, Base(path)) == [] then None else Some(Shelf(idx, Base(path))[0])
  }

  /** Every live file name is found by its path, and what is found is live and has that path or its basename. */
  lemma LiveFilesAreFound(idx: Index, path: string, r: Option<Entry>)
    requires Coherent(idx, []) && ByPath(idx, path, r)
    ensures (exists e :: Live(idx, [], e) && e.fields.filename == path && path != "") ==> r.Some?
    ensures r.Some? ==> Live(idx, [], r.value)
    ensures r.Some? ==> r.value.fields.filename == path || OnShelf(r.value, Base(path))
  {
    assert ShelfOk(idx, [], Base(path));
    if Shelf(idx, Base(path)) != [] { assert Shelf(idx, Base(path))[0] in Shelf(idx, Base(path)); }
  }

  // ----- runs ---------------------------------------------------------------

  datatype Parse = Parse(key: string, repo: string, items: seq<Fields>, again: bool)

  function LoadParse(idx: Index, p: Parse): Index { Load(idx, p.key, p.repo, p.items, p.again) }

  function AfterParses(idx: Index, run: seq<Parse>): Index
    decreases |run|
  {
    if run == [] then idx
    else
      LoadParse(AfterParses(idx, run[..|run| - 1]), run[|run| - 1])
  }

  /** The last parse of file `key` in the run. */
  ghost function LastParse(run: seq<Parse>, key: string): Option<Parse>
    decreases |run|
  {
    if run == [] then None
    else if run[|run| - 1].key == key then Some(run[|run| - 1])
    else LastParse(run[..|run| - 1], key)
  }

  /**
   After any sequence of parses the index is coherent and holds, for every file,
   exactly the entries of its last parse and nothing of earlier ones.
   */
  lemma {:induction false} IndexRun(run: seq<Parse>, key: string)
    ensures var idx := AfterParses(EMPTY, run);
            && Coherent(idx, [])
            && match LastParse(run, key)
               case None => Generation(idx, key) == []
               case Some(p) => MadeFrom(Generation(idx, key), p.repo, p.items, p.again)
    decreases |run|
  {
    if run == [] {
      assert Coherent(EMPTY, []);
    } else {
      var p, before := run[|run| - 1], AfterParses(EMPTY, run[..|run| - 1]);
      IndexRun(run[..|run| - 1], key);
      LoadCoherent(before, p.key, p.repo, p.items, p.again);
      var after := Load(before, p.key, p.repo, p.items, p.again);
      if key != p.key {
        assert key in after.byIndexFile <==> key in after.byIndexFile - {p.key};
        assert key in before.byIndexFile <==> key in before.byIndexFile - {p.key};
        assert Generation(after, key) == Generation(before, key);
      }
    }
  }

  lemma {:induction false} CountDistinct(es: seq<Entry>, e: Entry)
    requires forall k, l :: 0 <= k < l < |es| ==> es[k] != es[l]
    ensures Count(es, e) == if e in es then 1 else 0
  {
    if es != [] {
      CountDistinct(es[1..], e);
      assert es == [es[0]] + es[1..];
    }
  }

  lemma MadeCounts(gen: seq<Entry>, repo: string, items: seq<Fields>, again: bool, e: Entry)
    requires MadeFrom(gen, repo, items, again) && e in gen
    ensures Count(gen, e) == if again && e == gen[|gen| - 1] then 2 else 1
  {
    var n := |items|;
    assert gen == gen[..n] + gen[n..];
    CountDistinct(gen[..n], e);
    if again && n > 0 { assert gen[n..] == [gen[n]] && gen[n - 1] in gen[..n]; } else { assert gen[n..] == []; }
  }

  /**
   Re-parsing never piles entries up: after any run, a live entry is listed under
   its basename once — or twice, exactly when it is the last entry of a file whose
   last parse stopped at the limit.
   */
  lemma ListedOnce(run: seq<Parse>, key: string, e: Entry, b: string)
    requires InFile(AfterParses(EMPTY, run), key, e) && OnShelf(e, b)
    ensures var idx, p := AfterParses(EMPTY, run), LastParse(run, key);
            && p.Some?
            && Count(Shelf(idx, b), e) ==
               if p.value.again && e == Generation(idx, key)[|Generation(idx, key)| - 1] then 2 else 1
  {
    IndexRun(run, key);
    ListedAsFiled(AfterParses(EMPTY, run), LastParse(run, key), key, e, b);
  }

  lemma ListedAsFiled(idx: Index, last: Option<Parse>, key: string, e: Entry, b: string)
    requires Shelved(idx, []) && InFile(idx, key, e) && OnShelf(e, b)
    requires match last
             case None => Generation(idx, key) == []
             case Some(p) => MadeFrom(Generation(idx, key), p.repo, p.items, p.again)
    ensures && last.Some?
            && Count(Shelf(idx, b), e) ==
               if last.value.again && e == Generation(idx, key)[|Generation(idx, key)| - 1] then 2 else 1
  {
    var p := last.value;
    assert ShelfOk(idx, [], b);
    MadeCounts(Generation(idx, key), p.repo, p.items, p.again, e);
  }
}
