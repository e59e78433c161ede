/**
 What a written `Packages` or `Sources` file is read as: every field of every stanza,
 and every artifact of every source under its pool path.
 */
module StanzaFiles {
  import opened IndexHistory
  import opened PackageIndex
  import opened Prelude
  import opened Stanzas

  // ----- text ---------------------------------------------------------------

  predicate AllSpace(s: string) { forall k :: 0 <= k < |s| ==> IsSpace(s[k]) }

  predicate NoSpace(s: string) { forall k :: 0 <= k < |s| ==> !IsSpace(s[k]) }

  /** What is left of `s` after white space went from both ends. */
  ghost predicate Trimmed(s: string, r: string) {
    && (exists a, b :: s == a + r + b && AllSpace(a) && AllSpace(b))
    && (r != "" ==> !IsSpace(r[0]) && !IsSpace(r[|r| - 1]))
  }

  lemma {:induction false} TrimLeftDrops(s: string) returns (a: string)
    ensures s == a + TrimLeft(s) && AllSpace(a) && (TrimLeft(s) != "" ==> !IsSpace(TrimLeft(s)[0]))
  {
    a := "";
    if s != "" && IsSpace(s[0]) {
      a := TrimLeftDrops(s[1..]);
      a := [s[0]] + a;
    }
  }

  lemma {:induction false} TrimRightDrops(s: string) returns (b: string)
    ensures s == TrimRight(s) + b && AllSpace(b) && (TrimRight(s) != "" ==> !IsSpace(TrimRight(s)[|TrimRight(s)| - 1]))
  {
    b := "";
    if s != "" && IsSpace(s[|s| - 1]) {
      b := TrimRightDrops(s[..|s| - 1]);
      b := b + [s[|s| - 1]];
    }
  }

  /** Trimming takes white space from both ends and nothing else. */
  lemma TrimSpaceExactly(s: string)
    ensures Trimmed(s, TrimSpace(s))
  {
    var a := TrimLeftDrops(s);
    var l := TrimLeft(s);
    var b := TrimRightDrops(l);
    var r := TrimRight(l);
    assert s == a + r + b;
    if r != "" { assert l[0] == r[0]; }
  }

  /** A directory loses the slashes at its end and nothing else. */
  lemma {:induction false} TrimSlashesExactly(p: string)
    ensures TrimSlashes(p) <= p && (TrimSlashes(p) != "" ==> TrimSlashes(p)[|TrimSlashes(p)| - 1] != '/')
    ensures forall k :: |TrimSlashes(p)| <= k < |p| ==> p[k] == '/'
  {
    if p != "" && p[|p| - 1] == '/' { TrimSlashesExactly(p[..|p| - 1]); }
  }

  lemma TrimSpaceAfterBlank(v: string)
    ensures TrimSpace([' '] + v) == TrimSpace(v)
  {
    assert ([' '] + v)[1..] == v;
  }

  lemma TrimSpaceOfWord(v: string)
    requires NoSpace(v)
    ensures TrimSpace(v) == v
  {
  }

  // ----- numbers ------------------------------------------------------------

  function Digit(d: nat): (c: char)
    requires d < 10
    ensures IsDigit(c) && c as int - '0' as int == d
  {
    ('0' as int + d) as char
  }

  function Decimal(n: nat): (r: string)
    ensures r != "" && forall k :: 0 <= k < |r| ==> IsDigit(r[k])
  {
    if n < 10 then [Digit(n)] else Decimal(n / 10) + [Digit(n % 10)]
  }

  function Numeral(n: int): string { if n < 0 then ['-'] + Decimal(-n) else Decimal(n) }

  lemma {:induction false} DigitsOf(n: nat, rest: string)
    ensures Digits(Decimal(n) + rest, 0) == Digits(rest, n)
    decreases n
  {
    if n < 10 {
      var s := [Digit(n)] + rest;
      assert s[1..] == rest;
    } else {
      var tail := [Digit(n % 10)] + rest;
      assert Decimal(n) + rest == Decimal(n / 10) + tail && tail[1..] == rest;
      DigitsOf(n / 10, tail);
    }
  }

  lemma NumberOf(n: int)
    ensures Number(Numeral(n)) == Some(n) && NoSpace(Numeral(n)) && Numeral(n) != ""
  {
    var d := Decimal(if n < 0 then -n else n);
    DigitsOf(if n < 0 then -n else n, "");
    assert d + "" == d;
    if n < 0 { assert Numeral(n)[1..] == d; }
  }

  // ----- digests ------------------------------------------------------------

  function HexValue(c: char): int {
    if IsDigit(c) then c as int - '0' as int else if 'a' <= c then c as int - 'a' as int + 10 else c as int - 'A' as int + 10
  }

  predicate LowerDigit(c: char) { IsDigit(c) || 'a' <= c <= 'f' }

  /** The same digits, in lower case. */
  lemma LowerHexExactly(s: string, k: nat)
    requires k < |s| && IsHex(s[k])
    ensures LowerDigit(LowerHex(s)[k]) && HexValue(LowerHex(s)[k]) == HexValue(s[k])
  {
  }

  // ----- Packages -----------------------------------------------------------

  /** A field with its name, a colon and a blank before it. */
  function Line(field: string, value: string): string { field + [':'] + ([' '] + value) }

  lemma LineRead(f: Fields, field: string, value: string)
    requires ':' !in field && TrimSpace(value) == value
    ensures field == "Package" ==> WithField(f, Line(field, value)) == f.(name := value)
    ensures field == "Version" ==> WithField(f, Line(field, value)) == f.(version := value)
    ensures field == "Architecture" ==> WithField(f, Line(field, value)) == f.(arch := value)
    ensures field == "Filename" ==> WithField(f, Line(field, value)) == f.(filename := value)
    ensures field == "SHA256" ==> WithField(f, Line(field, value)) == f.(sha := value)
  {
    FieldRead(f, field, [' '] + value);
    TrimSpaceAfterBlank(value);
  }

  lemma SizeRead(f: Fields, n: int)
    requires MIN_INT64 <= n <= MAX_INT64
    ensures WithField(f, Line("Size", Numeral(n))) == f.(size := n)
  {
    FieldRead(f, "Size", [' '] + Numeral(n));
    TrimSpaceAfterBlank(Numeral(n));
    NumberOf(n);
    TrimSpaceOfWord(Numeral(n));
  }

  function PackageLines(f: Fields): seq<string> {
    [Line("Package", f.name), Line("Version", f.version), Line("Architecture", f.arch),
     Line("Filename", f.filename), Line("Size", Numeral(f.size)), Line("SHA256", f.sha)]
  }

  /** The values a stanza can hold: no white space around them, a size of 64 bits, and a digest. */
  ghost predicate Writable(f: Fields) {
    && TrimSpace(f.name) == f.name && TrimSpace(f.version) == f.version && TrimSpace(f.arch) == f.arch
    && TrimSpace(f.filename) == f.filename && TrimSpace(f.sha) == f.sha != "" && MIN_INT64 <= f.size <= MAX_INT64
  }

  lemma PackagesOneLine(line: string, rest: seq<string>, f: Fields, g: Fields)
    requires line != "" && WithField(f, line) == g
    ensures PackagesFrom([line] + rest, Some(f)) == PackagesFrom(rest, Some(g))
    ensures f == BLANK ==> PackagesFrom([line] + rest, None) == PackagesFrom(rest, Some(g))
  {
    assert ([line] + rest)[1..] == rest;
  }

  lemma IdentityRead(f: Fields, rest: seq<string>)
    requires Writable(f)
    ensures var l0, l1, l2 := Line("Package", f.name), Line("Version", f.version), Line("Architecture", f.arch);
            PackagesFrom([l0] + ([l1] + ([l2] + rest)), None) ==
              PackagesFrom(rest, Some(BLANK.(name := f.name, version := f.version, arch := f.arch)))
  {
    var l0, l1, l2 := Line("Package", f.name), Line("Version", f.version), Line("Architecture", f.arch);
    var f1 := BLANK.(name := f.name);
    var f2 := f1.(version := f.version);
    LineRead(BLANK, "Package", f.name);
    PackagesOneLine(l0, [l1] + ([l2] + rest), BLANK, f1);
    LineRead(f1, "Version", f.version);
    PackagesOneLine(l1, [l2] + rest, f1, f2);
    LineRead(f2, "Architecture", f.arch);
    PackagesOneLine(l2, rest, f2, f2.(arch := f.arch));
  }

  lemma FileRead(f: Fields, g: Fields)
    requires Writable(f)
    ensures var l3, l4, l5 := Line("Filename", f.filename), Line("Size", Numeral(f.size)), Line("SHA256", f.sha);
            PackagesFrom([l3] + ([l4] + [l5]), Some(g)) == [g.(filename := f.filename, size := f.size, sha := f.sha)]
  {
    var l3, l4, l5 := Line("Filename", f.filename), Line("Size", Numeral(f.size)), Line("SHA256", f.sha);
    var g1 := g.(filename := f.filename);
    var g2 := g1.(size := f.size);
    LineRead(g, "Filename", f.filename);
    PackagesOneLine(l3, [l4] + [l5], g, g1);
    SizeRead(g1, f.size);
    PackagesOneLine(l4, [l5], g1, g2);
    LineRead(g2, "SHA256", f.sha);
    assert [l5] + [] == [l5];
    PackagesOneLine(l5, [], g2, g2.(sha := f.sha));
  }

  /** A stanza of six fields is read as exactly those fields. */
  lemma PackageReadsBack(f: Fields)
    requires Writable(f)
    ensures PackagesOf(PackageLines(f)) == [f]
  {
    var l0, l1, l2 := Line("Package", f.name), Line("Version", f.version), Line("Architecture", f.arch);
    var l3, l4, l5 := Line("Filename", f.filename), Line("Size", Numeral(f.size)), Line("SHA256", f.sha);
    IdentityRead(f, [l3] + ([l4] + [l5]));
    FileRead(f, BLANK.(name := f.name, version := f.version, arch := f.arch));
    assert PackageLines(f) == [l0] + ([l1] + ([l2] + ([l3] + ([l4] + [l5]))));
  }

  function PackagesFile(items: seq<Fields>): seq<string> {
    if items == [] then [] else PackageLines(items[0]) + [""] + PackagesFile(items[1..])
  }

  /** A written `Packages` file is read as the list it was written from. */
  lemma {:induction false} PackagesRoundTrip(items: seq<Fields>)
    requires forall k :: 0 <= k < |items| ==> Writable(items[k])
    ensures PackagesOf(PackagesFile(items)) == items
    decreases |items|
  {
    if items != [] {
      PackageReadsBack(items[0]);
      PackagesConcat(PackageLines(items[0]), PackagesFile(items[1..]), None);
      PackagesRoundTrip(items[1..]);
    }
  }

  // ----- Sources ------------------------------------------------------------

  lemma {:induction false} WordRead(w: string, rest: string, word: string)
    requires NoSpace(w)
    ensures Words(w + rest, word) == Words(rest, word + w)
    decreases |w|
  {
    if w == "" {
      assert w + rest == rest && word + w == word;
    } else {
      assert (w + rest)[1..] == w[1..] + rest && word + [w[0]] + w[1..] == word + w;
      WordRead(w[1..], rest, word + [w[0]]);
    }
  }

  lemma BlankRead(rest: string, word: string)
    ensures Words([' '] + rest, word) == (if word == "" then [] else [word]) + Words(rest, "")
  {
    assert ([' '] + rest)[1..] == rest;
  }

  /** An indented line with a digest, a size and a name. */
  function EntryLine(sha: string, size: int, name: string): string {
    [' '] + (sha + ([' '] + (Numeral(size) + ([' '] + name))))
  }

  lemma EntryWords(sha: string, size: int, name: string)
    requires sha != "" && NoSpace(sha) && name != "" && NoSpace(name)
    ensures Words(EntryLine(sha, size, name), "") == [sha, Numeral(size), name]
  {
    NumberOf(size);
    var tail := [' '] + name;
    var mid := [' '] + (Numeral(size) + tail);
    BlankRead(sha + mid, "");
    WordRead(sha, mid, "");
    BlankRead(Numeral(size) + tail, sha);
    WordRead(Numeral(size), tail, "");
    BlankRead(name, Numeral(size));
    WordRead(name, "", "");
    assert "" + sha == sha && "" + Numeral(size) == Numeral(size) && "" + name == name && name + "" == name;
  }

  lemma HexHasNoSpace(sha: string)
    requires IsHex64(sha)
    ensures NoSpace(sha) && sha != ""
  {
  }

  /** An entry is taken with its digest in lower case, its size as far as 64 bits go, and its name. */
  lemma EntryRead(s: Source, sha: string, size: int, name: string)
    requires s.inChecksums && IsHex64(sha) && name != "" && NoSpace(name)
    ensures WithLine(s, EntryLine(sha, size, name)) ==
            s.(files := s.files + [Artifact(LowerHex(sha), Clamp64(size), name)])
  {
    HexHasNoSpace(sha);
    EntryWords(sha, size, name);
    NumberOf(size);
  }

  /** An indented line of the block that does not begin with 64 hexadecimal digits is passed over. */
  lemma OtherEntryIgnored(s: Source, word: string, size: int, name: string)
    requires s.inChecksums && word != "" && NoSpace(word) && !IsHex64(word) && NoSpace(name)
    ensures name != "" ==> WithLine(s, EntryLine(word, size, name)) == s
    ensures WithLine(s, [' '] + word) == s
  {
    if name != "" { EntryWords(word, size, name); }
    BlankRead(word, "");
    WordRead(word, "", "");
    assert word + "" == word && "" + word == word;
  }

  /** A field of another name closes the block: what is indented below it lists no artifacts. */
  lemma OtherBlockIgnored(s: Source, field: string, value: string, line: string)
    requires field != "" && field[0] != ' ' && field[0] != '\t' && ':' !in field && field != "Checksums-Sha256"
    requires line != "" && (line[0] == ' ' || line[0] == '\t')
    ensures WithLine(WithLine(s, field + [':'] + value), line).files == s.files
  {
    ColonAt(field, value);
    var first := field + [':'] + value;
    assert first[0] == field[0] && first[..|field|] == field;
  }

  lemma SourceLineRead(s: Source, field: string, value: string)
    requires ':' !in field && field != "" && !s.inChecksums
    ensures field == "Package" ==> WithLine(s, field + [':'] + value) == s.(name := TrimSpace(value))
    ensures field == "Directory" ==> WithLine(s, field + [':'] + value) == s.(directory := TrimSlashes(TrimSpace(value)))
    ensures field == "Checksums-Sha256" ==> WithLine(s, field + [':'] + value) == s.(inChecksums := true)
  {
    ColonAt(field, value);
    var line := field + [':'] + value;
    assert line[..|field|] == field && line[|field| + 1..] == value;
  }

  datatype Listed = Listed(sha: string, size: int, name: string)

  predicate Listable(l: Listed) { IsHex64(l.sha) && l.name != "" && NoSpace(l.name) }

  function EntryLines(files: seq<Listed>): seq<string> {
    seq(|files|, k requires 0 <= k < |files| => EntryLine(files[k].sha, files[k].size, files[k].name))
  }

  function SourceLines(name: string, directory: string, files: seq<Listed>): seq<string> {
    [Line("Package", name), Line("Directory", directory), "Checksums-Sha256" + [':'] + ""] + EntryLines(files)
  }

  lemma {:induction false} SourcesThrough(lines: seq<string>, states: seq<Source>)
    requires |states| == |lines| + 1
    requires forall k :: 0 <= k < |lines| ==> lines[k] != "" && WithLine(states[k], lines[k]) == states[k + 1]
    ensures SourcesFrom(lines, states[0]) == Emitted(states[|lines|])
    decreases |lines|
  {
    if lines != [] {
      assert lines[0] != "" && WithLine(states[0], lines[0]) == states[1];
      forall k | 0 <= k < |lines[1..]|
        ensures lines[1..][k] != "" && WithLine(states[1..][k], lines[1..][k]) == states[1..][k + 1]
      {
        assert lines[k + 1] != "" && WithLine(states[k + 1], lines[k + 1]) == states[k + 2];
      }
      SourcesThrough(lines[1..], states[1..]);
    }
  }

  function Taken(files: seq<Listed>): seq<Artifact> {
    seq(|files|, k requires 0 <= k < |files| => Artifact(LowerHex(files[k].sha), Clamp64(files[k].size), files[k].name))
  }

  /** The state after the first `k` entries. */
  function SourceState(name: string, directory: string, files: seq<Listed>, k: nat): Source
    requires k <= |files|
  {
    Source(name, directory, Taken(files)[..k], true)
  }

  lemma EntriesRead(name: string, directory: string, files: seq<Listed>)
    requires forall k :: 0 <= k < |files| ==> Listable(files[k])
    ensures SourcesFrom(EntryLines(files), SourceState(name, directory, files, 0)) ==
            Emitted(SourceState(name, directory, files, |files|))
  {
    var states := seq(|files| + 1, k requires 0 <= k <= |files| => SourceState(name, directory, files, k));
    var lines := EntryLines(files);
    forall k | 0 <= k < |lines| ensures lines[k] != "" && WithLine(states[k], lines[k]) == states[k + 1] {
      EntryRead(states[k], files[k].sha, files[k].size, files[k].name);
      assert Taken(files)[..k + 1] == Taken(files)[..k] + [Taken(files)[k]];
    }
    SourcesThrough(lines, states);
  }

  lemma {:induction false} ArtifactsAt(s: Source, files: seq<Artifact>)
    requires s.directory != ""
    ensures |ArtifactsFrom(s, files)| == |files|
    ensures forall k :: 0 <= k < |files| ==> ArtifactsFrom(s, files)[k] == ArtifactFields(s, files[k])
    decreases |files|
  {
    if files != [] {
      ArtifactsAt(s, files[1..]);
      assert files == [files[0]] + files[1..];
    }
  }

  lemma HeaderRead(name: string, directory: string, rest: seq<string>)
    ensures var l0, l1, l2 := Line("Package", name), Line("Directory", directory), "Checksums-Sha256" + [':'] + "";
            SourcesFrom([l0, l1, l2] + rest, NO_SOURCE) ==
              SourcesFrom(rest, Source(TrimSpace(name), TrimSlashes(TrimSpace(directory)), [], true))
  {
    var l0, l1, l2 := Line("Package", name), Line("Directory", directory), "Checksums-Sha256" + [':'] + "";
    var s1 := NO_SOURCE.(name := TrimSpace(name));
    var s2 := s1.(directory := TrimSlashes(TrimSpace(directory)));
    SourceLineRead(NO_SOURCE, "Package", [' '] + name);
    TrimSpaceAfterBlank(name);
    SourceLineRead(s1, "Directory", [' '] + directory);
    TrimSpaceAfterBlank(directory);
    SourceLineRead(s2, "Checksums-Sha256", "");
    assert [l0, l1, l2] + rest == [l0] + ([l1] + ([l2] + rest));
    SourcesOneLine(l0, [l1] + ([l2] + rest), NO_SOURCE);
    SourcesOneLine(l1, [l2] + rest, s1);
    SourcesOneLine(l2, rest, s2);
  }

  /** The item a listed artifact must become: its path is directory, slash, name; its digest the one listed, in lower case. */
  ghost predicate ItemFor(item: Fields, name: string, directory: string, l: Listed) {
    && item.name == name && item.version == "" && item.arch == ""
    && item.filename == directory + "/" + l.name
    && item.size == (if l.size < MIN_INT64 then MIN_INT64 else if l.size > MAX_INT64 then MAX_INT64 else l.size)
    && |item.sha| == 64
    && forall k :: 0 <= k < 64 && k < |l.sha| ==> LowerDigit(item.sha[k]) && HexValue(item.sha[k]) == HexValue(l.sha[k])
  }

  /**
   A source stanza is read as exactly one item per listed artifact, in order, each under
   the directory of the stanza; without a directory it is read as nothing.
   */
  lemma SourceReadsBack(name: string, directory: string, files: seq<Listed>)
    requires forall k :: 0 <= k < |files| ==> Listable(files[k])
    ensures var items, dir := SourcesOf(SourceLines(name, directory, files)), TrimSlashes(TrimSpace(directory));
            if dir == "" then items == []
            else |items| == |files| && forall k :: 0 <= k < |files| ==> ItemFor(items[k], TrimSpace(name), dir, files[k])
  {
    var dir := TrimSlashes(TrimSpace(directory));
    HeaderRead(name, directory, EntryLines(files));
    assert Taken(files)[..0] == [] && Taken(files)[..|files|] == Taken(files);
    EntriesRead(TrimSpace(name), dir, files);
    if dir != "" {
      ArtifactsAt(Source(TrimSpace(name), dir, Taken(files), true), Taken(files));
      var items := SourcesOf(SourceLines(name, directory, files));
      forall k | 0 <= k < |files| ensures ItemFor(items[k], TrimSpace(name), dir, files[k]) {
        var sha := files[k].sha;
        forall j | 0 <= j < 64 ensures LowerDigit(LowerHex(sha)[j]) && HexValue(LowerHex(sha)[j]) == HexValue(sha[j]) {
          LowerHexExactly(sha, j);
        }
      }
    }
  }

  /** Wherever a source stanza stands between blank lines, it is read as if it stood alone. */
  lemma SourceAnywhere(a: seq<string>, lines: seq<string>, b: seq<string>)
    ensures SourcesOf(a + [""] + (lines + [""] + b)) == SourcesOf(a) + SourcesOf(lines) + SourcesOf(b)
  {
    SourcesConcat(a, lines + [""] + b, NO_SOURCE);
    SourcesConcat(lines, b, NO_SOURCE);
    assert SourcesOf(a) + (SourcesOf(lines) + SourcesOf(b)) == SourcesOf(a) + SourcesOf(lines) + SourcesOf(b);
  }

  // ----- what is found after a parse ----------------------------------------

  /** Item `k` is the last one of its path. */
  ghost predicate LastOfPath(items: seq<Fields>, k: nat) {
    k < |items| && items[k].filename != "" && forall l :: k < l < |items| ==> items[l].filename != items[k].filename
  }

  /** Item `k` is the last one of its digest. */
  ghost predicate LastOfDigest(items: seq<Fields>, k: nat) {
    k < |items| && forall l :: k < l < |items| ==> items[l].sha != items[k].sha
  }

  lemma {:induction false} InsertedElsewhere(idx: Index, repo: string, items: seq<Fields>, path: string, sha: string)
    ensures var i := InsertAll(idx, repo, items).0;
            && ((forall k :: 0 <= k < |items| ==> items[k].filename != path || path == "") ==>
                  ByRepoAndPath(i, repo, path) == ByRepoAndPath(idx, repo, path))
            && ((forall k :: 0 <= k < |items| ==> items[k].sha != sha) ==> ByDigest(i, sha) == ByDigest(idx, sha))
    decreases |items|
  {
    if items != [] {
      assert forall k :: 0 <= k < |items[1..]| ==> items[1..][k] == items[k + 1];
      InsertedElsewhere(Insert(idx, repo, items[0]).0, repo, items[1..], path, sha);
    }
  }

  lemma {:induction false} InsertedFound(idx: Index, repo: string, items: seq<Fields>, k: nat)
    requires k < |items|
    ensures var (i, gen) := InsertAll(idx, repo, items);
            && |gen| == |items|
            && (LastOfPath(items, k) ==> ByRepoAndPath(i, repo, items[k].filename) == Some(gen[k]))
            && (LastOfDigest(items, k) ==> ByDigest(i, items[k].sha) == Some(gen[k]))
    decreases |items|
  {
    InsertAllMade(idx, repo, items);
    var (i, e) := Insert(idx, repo, items[0]);
    var rest := items[1..];
    assert forall l :: 0 <= l < |rest| ==> rest[l] == items[l + 1];
    var (j, es) := InsertAll(i, repo, rest);
    assert InsertAll(idx, repo, items) == (j, [e] + es);
    if k == 0 {
      InsertedElsewhere(i, repo, rest, items[0].filename, items[0].sha);
    } else {
      InsertedFound(i, repo, rest, k - 1);
    }
  }

  /** Indexing the last entry once more moves nothing. */
  lemma RepeatedFound(i: Index, gen: seq<Entry>, again: bool, path: string, sha: string, repo: string, k: nat)
    requires k < |gen| && forall l :: k <= l < |gen| ==> gen[l].repo == repo
    ensures var j := Repeated((i, gen), again).0;
            && (path != "" && (forall l :: k < l < |gen| ==> gen[l].fields.filename != path) ==>
                  ByRepoAndPath(i, repo, path) == Some(gen[k]) ==> ByRepoAndPath(j, repo, path) == Some(gen[k]))
            && ((forall l :: k < l < |gen| ==> gen[l].fields.sha != sha) ==>
                  ByDigest(i, sha) == Some(gen[k]) ==> ByDigest(j, sha) == Some(gen[k]))
  {
  }

  /** After a parse, every path and every digest of the file leads to the last item that has it. */
  lemma ParsedFound(idx: Index, p: Parse, k: nat) returns (e: Entry)
    requires k < |p.items|
    ensures e.repo == p.repo && e.fields == p.items[k]
    ensures LastOfPath(p.items, k) ==> ByRepoAndPath(LoadParse(idx, p), p.repo, p.items[k].filename) == Some(e)
    ensures LastOfDigest(p.items, k) ==> ByDigest(LoadParse(idx, p), p.items[k].sha) == Some(e)
  {
    var i := WithRepo(Cleared(idx, p.key), p.repo);
    InsertedFound(i, p.repo, p.items, k);
    InsertAllMade(i, p.repo, p.items);
    var (j, gen) := InsertAll(i, p.repo, p.items);
    RepeatedFound(j, gen, p.again, p.items[k].filename, p.items[k].sha, p.repo, k);
    e := gen[k];
    FiledFinds(Repeated((j, gen), p.again), p.key, p.repo, p.items[k].filename, p.items[k].sha);
  }

  lemma FiledFinds(so: (Index, seq<Entry>), key: string, repo: string, path: string, sha: string)
    ensures ByRepoAndPath(Filed(so, key), repo, path) == ByRepoAndPath(so.0, repo, path)
    ensures ByDigest(Filed(so, key), sha) == ByDigest(so.0, sha)
  {
  }

  /** After a written `Packages` file was parsed, an item is found by path and digest with all it was written with. */
  lemma PackageFound(idx: Index, key: string, repo: string, items: seq<Fields>, k: nat) returns (e: Entry)
    requires k < |items| <= MAX_PACKAGES && forall j :: 0 <= j < |items| ==> Writable(items[j])
    ensures e.repo == repo && e.fields == items[k]
    ensures var j := LoadParse(idx, PackagesParse(key, repo, PackagesFile(items)));
            && (LastOfPath(items, k) ==> ByRepoAndPath(j, repo, items[k].filename) == Some(e))
            && (LastOfDigest(items, k) ==> ByDigest(j, items[k].sha) == Some(e))
  {
    PackagesRoundTrip(items);
    e := ParsedFound(idx, PackagesParse(key, repo, PackagesFile(items)), k);
  }

  /**
   After a `Sources` file of four lines was parsed, its artifact is found under the path
   of directory, slash and name, with its digest and size.
   */
  lemma SourceFound(idx: Index, key: string, repo: string, name: string, directory: string, l: Listed) returns (e: Entry)
    requires Listable(l) && TrimSlashes(TrimSpace(directory)) != ""
    ensures var j := LoadParse(idx, SourcesParse(key, repo, SourceLines(name, directory, [l])));
            var dir := TrimSlashes(TrimSpace(directory));
            && ByRepoAndPath(j, repo, dir + "/" + l.name) == Some(e)
            && e.repo == repo && ItemFor(e.fields, TrimSpace(name), dir, l)
  {
    var lines := SourceLines(name, directory, [l]);
    SourceReadsBack(name, directory, [l]);
    assert |SourcesOf(lines)| == 1 && Take(SourcesOf(lines), MAX_PACKAGES) == SourcesOf(lines);
    e := ParsedFound(idx, SourcesParse(key, repo, lines), 0);
  }
}
