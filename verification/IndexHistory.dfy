/**
 What the digest and path maps hold, exactly: for every key, the entry that was
 indexed under it last — of all the entries ever indexed — as long as that entry is
 still live, and nothing once it is not.
 */
module IndexHistory {
  import opened PackageIndex
  import opened Prelude

  /** The entry last indexed under a digest. */
  ghost function LastUnder(log: seq<Entry>, sha: string): (last: Option<Entry>)
    ensures last.Some? ==> last.value.fields.sha == sha
  {
    if log == [] then None
    else if log[|log| - 1].fields.sha == sha then Some(log[|log| - 1])
    else LastUnder(log[..|log| - 1], sha)
  }

  predicate At(e: Entry, repo: string, path: string) {
    e.repo == repo && e.fields.filename == path && path != ""
  }

  /** The entry last indexed in a repository under a path. */
  ghost function LastAt(log: seq<Entry>, repo: string, path: string): (last: Option<Entry>)
    ensures last.Some? ==> At(last.value, repo, path)
  {
    if log == [] then None
    else if At(log[|log| - 1], repo, path) then Some(log[|log| - 1])
    else LastAt(log[..|log| - 1], repo, path)
  }

  function ByDigest(idx: Index, sha: string): Option<Entry> {
    if sha in idx.packages then Some(idx.packages[sha]) else None
  }

  /** `found` is the entry `last` while it is live. */
  ghost predicate WhileLive(idx: Index, more: seq<Entry>, found: Option<Entry>, last: Option<Entry>) {
    found == if last.Some? && Live(idx, more, last.value) then last else None
  }

  ghost predicate Exact(idx: Index, more: seq<Entry>, log: seq<Entry>, sha: string, repo: string, path: string) {
    && WhileLive(idx, more, ByDigest(idx, sha), LastUnder(log, sha))
    && WhileLive(idx, more, ByRepoAndPath(idx, repo, path), LastAt(log, repo, path))
  }

  lemma ClearedPath(idx: Index, key: string, repo: string, path: string)
    ensures var was, gone := ByRepoAndPath(idx, repo, path), Generation(idx, key);
            ByRepoAndPath(Cleared(idx, key), repo, path) == if was.Some? && was.value !in gone then was else None
  {
    if repo in idx.byRepo {
      var kept := Keep(idx.byRepo[repo], Generation(idx, key));
      assert path in kept <==> path in idx.byRepo[repo] && idx.byRepo[repo][path] !in Generation(idx, key);
    }
  }

  lemma ClearedExact(idx: Index, key: string, log: seq<Entry>, sha: string, repo: string, path: string)
    requires GenerationsApart(idx, []) && Exact(idx, [], log, sha, repo, path)
    ensures Exact(Cleared(idx, key), [], log, sha, repo, path)
  {
    var under, at := LastUnder(log, sha), LastAt(log, repo, path);
    if under.Some? { ClearedLive(idx, key, under.value); }
    if at.Some? { ClearedLive(idx, key, at.value); }
    ClearedPath(idx, key, repo, path);
  }

  lemma WithRepoExact(idx: Index, r: string, log: seq<Entry>, sha: string, repo: string, path: string)
    requires Exact(idx, [], log, sha, repo, path)
    ensures Exact(WithRepo(idx, r), [], log, sha, repo, path)
  {
    assert forall k, e :: InFile(WithRepo(idx, r), k, e) <==> InFile(idx, k, e);
    assert forall e :: Live(WithRepo(idx, r), [], e) <==> Live(idx, [], e);
  }

  lemma IndexedExact(idx: Index, j: Index, more: seq<Entry>, e: Entry, log: seq<Entry>, sha: string, repo: string, path: string)
    requires Exact(idx, more, log, sha, repo, path) && j == Indexed(idx, e).(nextId := j.nextId)
    ensures Exact(j, more + [e], log + [e], sha, repo, path)
  {
    assert forall k, x :: InFile(j, k, x) <==> InFile(idx, k, x);
    assert forall x :: Live(j, more + [e], x) <==> Live(idx, more, x) || x == e;
    assert (log + [e])[..|log|] == log;
  }

  lemma {:induction false} InsertAllExact(idx: Index, more: seq<Entry>, r: string, items: seq<Fields>, log: seq<Entry>,
                                          sha: string, repo: string, path: string)
    requires Exact(idx, more, log, sha, repo, path)
    ensures var (i, gen) := InsertAll(idx, r, items); Exact(i, more + gen, log + gen, sha, repo, path)
    decreases |items|
  {
    if items == [] {
      assert more + [] == more && log + [] == log;
    } else {
      var (i, e) := Insert(idx, r, items[0]);
      IndexedExact(idx, i, more, e, log, sha, repo, path);
      InsertAllExact(i, more + [e], r, items[1..], log + [e], sha, repo, path);
      InsertAllNext(idx, more, r, items);
      InsertAllNext(idx, log, r, items);
    }
  }

  lemma RepeatedExact(so: (Index, seq<Entry>), again: bool, log: seq<Entry>, sha: string, repo: string, path: string)
    requires Exact(so.0, so.1, log + so.1, sha, repo, path)
    ensures var (i, gen) := Repeated(so, again); Exact(i, gen, log + gen, sha, repo, path)
  {
    if again && so.1 != [] {
      var e := so.1[|so.1| - 1];
      IndexedExact(so.0, Indexed(so.0, e), so.1, e, log + so.1, sha, repo, path);
      assert log + so.1 + [e] == log + (so.1 + [e]);
    }
  }

  lemma FiledExact(idx: Index, key: string, gen: seq<Entry>, log: seq<Entry>, sha: string, repo: string, path: string)
    requires key !in idx.byIndexFile && Exact(idx, gen, log, sha, repo, path)
    ensures Exact(Filed((idx, gen), key), [], log, sha, repo, path)
  {
    if gen != [] {
      var under, at := LastUnder(log, sha), LastAt(log, repo, path);
      if under.Some? { FiledLive(idx, key, gen, under.value); }
      if at.Some? { FiledLive(idx, key, gen, at.value); }
    }
  }

  // ----- runs ---------------------------------------------------------------

  /** The entries one parse indexes, in order. */
  function Entries(idx: Index, p: Parse): seq<Entry> {
    Repeated(InsertAll(WithRepo(Cleared(idx, p.key), p.repo), p.repo, p.items), p.again).1
  }

  /** Every entry ever indexed, in order. */
  function Log(run: seq<Parse>): seq<Entry>
    decreases |run|
  {
    if run == [] then []
    else
      var before := run[..|run| - 1];
      Log(before) + Entries(AfterParses(EMPTY, before), run[|run| - 1])
  }

  lemma LoadExact(idx: Index, p: Parse, log: seq<Entry>, sha: string, repo: string, path: string)
    requires GenerationsApart(idx, []) && Exact(idx, [], log, sha, repo, path)
    ensures Exact(LoadParse(idx, p), [], log + Entries(idx, p), sha, repo, path)
  {
    ClearedExact(idx, p.key, log, sha, repo, path);
    WithRepoExact(Cleared(idx, p.key), p.repo, log, sha, repo, path);
    var i := WithRepo(Cleared(idx, p.key), p.repo);
    InsertAllExact(i, [], p.repo, p.items, log, sha, repo, path);
    var so := InsertAll(i, p.repo, p.items);
    assert [] + so.1 == so.1;
    RepeatedExact(so, p.again, log, sha, repo, path);
    RepeatMade(i, p.repo, p.items, p.again);
    var (j, gen) := Repeated(so, p.again);
    FiledExact(j, p.key, gen, log + gen, sha, repo, path);
  }

  /**
   After any sequence of parses, a digest is present exactly while the entry indexed
   under it last is live, and then it leads to that entry; likewise a path in a
   repository. An older entry under the same key does not come back.
   */
  lemma {:induction false} LookupsExactly(run: seq<Parse>, sha: string, repo: string, path: string)
    ensures var idx := AfterParses(EMPTY, run);
            && WhileLive(idx, [], ByDigest(idx, sha), LastUnder(Log(run), sha))
            && WhileLive(idx, [], ByRepoAndPath(idx, repo, path), LastAt(Log(run), repo, path))
    decreases |run|
  {
    if run != [] {
      var before := run[..|run| - 1];
      LookupsExactly(before, sha, repo, path);
      Apart(before);
      LoadExact(AfterParses(EMPTY, before), run[|run| - 1], Log(before), sha, repo, path);
    }
  }

  lemma Apart(run: seq<Parse>)
    ensures GenerationsApart(AfterParses(EMPTY, run), [])
  {
    IndexRun(run, "");
  }

  // ----- a digest two files list --------------------------------------------

  /** When the file that indexed a digest last no longer lists anything, the digest is gone, whoever else lists it. */
  lemma DroppedByLaterFile(idx: Index, kept: string, dropped: string, e: Entry, last: Entry, repo: string)
    requires Coherent(idx, []) && kept != dropped && InFile(idx, kept, e) && InFile(idx, dropped, last)
    requires e.fields.sha == last.fields.sha && ByDigest(idx, e.fields.sha) == Some(last)
    ensures var j := Load(idx, dropped, repo, [], false);
            InFile(j, kept, e) && ByDigest(j, e.fields.sha) == None
  {
    assert last in Generation(idx, dropped);
  }

  /** One item parsed alone is the last under its digest. */
  lemma ParsedAlone(idx: Index, key: string, repo: string, item: Fields)
    requires Coherent(idx, [])
    ensures var j := Load(idx, key, repo, [item], false);
            |Generation(j, key)| == 1 && ByDigest(j, item.sha) == Some(Generation(j, key)[0])
            && Generation(j, key)[0].fields == item
  {
    var i := WithRepo(Cleared(idx, key), repo);
    var (n, e) := Insert(i, repo, item);
    assert [item][1..] == [] && InsertAll(n, repo, []) == (n, []) && [e] + [] == [e];
    assert InsertAll(i, repo, [item]) == (n, [e]);
  }

  /** Two files list the same item, and the second drops it: the digest is gone although the first still lists it. */
  lemma SharedDigestVanishes(first: string, second: string, repo: string, item: Fields) returns (e: Entry)
    requires first != second
    ensures var run := [Parse(first, repo, [item], false), Parse(second, repo, [item], false), Parse(second, repo, [], false)];
            var idx := AfterParses(EMPTY, run);
            InFile(idx, first, e) && e.fields == item && ByDigest(idx, item.sha) == None
  {
    var p, q, r := Parse(first, repo, [item], false), Parse(second, repo, [item], false), Parse(second, repo, [], false);
    IndexRun([], "");
    var one := LoadParse(EMPTY, p);
    LoadCoherent(EMPTY, first, repo, [item], false);
    ParsedAlone(EMPTY, first, repo, item);
    e := Generation(one, first)[0];
    var two := LoadParse(one, q);
    LoadCoherent(one, second, repo, [item], false);
    ParsedAlone(one, second, repo, item);
    assert first in one.byIndexFile - {second} && first in two.byIndexFile - {second};
    DroppedByLaterFile(two, first, second, e, Generation(two, second)[0], repo);
    ThreeParses(p, q, r);
  }

  lemma ThreeParses(p: Parse, q: Parse, r: Parse)
    ensures AfterParses(EMPTY, [p, q, r]) == LoadParse(LoadParse(LoadParse(EMPTY, p), q), r)
  {
    assert [p, q, r][..2] == [p, q] && [p, q][..1] == [p] && [p][..0] == [];
    assert AfterParses(EMPTY, [p]) == LoadParse(AfterParses(EMPTY, []), p);
    assert AfterParses(EMPTY, [p, q]) == LoadParse(AfterParses(EMPTY, [p]), q);
  }
}
