/**
 Reading Debian `Packages` and `Sources` files: decompressed lines in, the fields
 of every indexable item out, in file order.
 */
module Stanzas {
  import opened PackageIndex
  import opened Prelude

  const MIN_INT64 := -0x8000_0000_0000_0000
  const MAX_INT64 := 0x7fff_ffff_ffff_ffff

  /** How many items one index file may contribute. */
  const MAX_PACKAGES := 500_000

  function Take<T>(s: seq<T>, n: nat): seq<T> { if |s| <= n then s else s[..n] }

  // ----- text ---------------------------------------------------------------

  predicate IsSpace(c: char) {
    var n := c as int;
    (9 <= n <= 13) || n == 32 || n == 0x85 || n == 0xA0
  }

  function TrimLeft(s: string): string {
    if s != "" && IsSpace(s[0]) then TrimLeft(s[1..]) else s
  }

  function TrimRight(s: string): string {
    if s != "" && IsSpace(s[|s| - 1]) then TrimRight(s[..|s| - 1]) else s
  }

  function TrimSpace(s: string): string { TrimRight(TrimLeft(s)) }

  /** Position of the first colon, or the length of the line. */
  function Colon(s: string): (k: nat)
    ensures k <= |s| && ':' !in s[..k] && (k < |s| ==> s[k] == ':')
  {
    if s == "" || s[0] == ':' then 0
    else
      var k := Colon(s[1..]);
      assert s[..k + 1] == [s[0]] + s[1..][..k];
      k + 1
  }

  /** The whitespace-separated words; `word` is the one being read. */
  function Words(s: string, word: string): seq<string>
    decreases |s|
  {
    if s == "" then (if word == "" then [] else [word])
    else if IsSpace(s[0]) then (if word == "" then [] else [word]) + Words(s[1..], "")
    else Words(s[1..], word + [s[0]])
  }

  predicate IsDigit(c: char) { '0' <= c <= '9' }

  predicate IsHex(c: char) { IsDigit(c) || 'a' <= c <= 'f' || 'A' <= c <= 'F' }

  predicate IsHex64(s: string) { |s| == 64 && forall k :: 0 <= k < |s| ==> IsHex(s[k]) }

  function LowerHex(s: string): (r: string)
    ensures |r| == |s|
  {
    seq(|s|, k requires 0 <= k < |s| => if 'A' <= s[k] <= 'F' then s[k] - 'A' + 'a' else s[k])
  }

  function Digits(s: string, acc: nat): Option<nat>
    decreases |s|
  {
    if s == "" then Some(acc)
    else if IsDigit(s[0]) then Digits(s[1..], acc * 10 + (s[0] as int - '0' as int))
    else None
  }

  /** A decimal number with an optional sign, of any magnitude. */
  function Number(s: string): Option<int> {
    var signed := s != "" && (s[0] == '-' || s[0] == '+');
    var body := if signed then s[1..] else s;
    if body == "" then None
    else
      var d := Digits(body, 0);
      if d.None? then None
      else
        var n: int := d.value;
        Some(if signed && s[0] == '-' then -n else n)
  }

  // ----- Packages -----------------------------------------------------------

  const BLANK := Fields("", "", "", "", 0, "")

  function WithField(f: Fields, line: string): Fields {
    var c := Colon(line);
    if c == |line| then f
    else
      var field, value := line[..c], TrimSpace(line[c + 1..]);
      if field == "Package" then f.(name := value)
      else if field == "Version" then f.(version := value)
      else if field == "Architecture" then f.(arch := value)
      else if field == "Filename" then f.(filename := value)
      else if field == "Size" then
        var n := Number(value);
        if n.Some? && MIN_INT64 <= n.value <= MAX_INT64 then f.(size := n.value) else f
      else if field == "SHA256" then f.(sha := value)
      else f
  }

  /** A stanza counts when it names a digest. */
  function Finished(cur: Option<Fields>): seq<Fields> {
    if cur.Some? && cur.value.sha != "" then [cur.value] else []
  }

  function Continued(cur: Option<Fields>, line: string): Fields {
    WithField(if cur.Some? then cur.value else BLANK, line)
  }

  function PackagesFrom(lines: seq<string>, cur: Option<Fields>): seq<Fields>
    decreases |lines|
  {
    if lines == [] then Finished(cur)
    else if lines[0] == "" then Finished(cur) + PackagesFrom(lines[1..], None)
    else PackagesFrom(lines[1..], Some(Continued(cur, lines[0])))
  }

  function PackagesOf(lines: seq<string>): seq<Fields> { PackagesFrom(lines, None) }

  /** The indexable stanzas that a blank line ends; at most the last stanza of a file is not among them. */
  function EndedFrom(lines: seq<string>, cur: Option<Fields>): seq<Fields>
    decreases |lines|
  {
    if lines == [] then []
    else if lines[0] == "" then Finished(cur) + EndedFrom(lines[1..], None)
    else EndedFrom(lines[1..], Some(Continued(cur, lines[0])))
  }

  lemma {:induction false} EndedThenOneMore(lines: seq<string>, cur: Option<Fields>)
    ensures EndedFrom(lines, cur) <= PackagesFrom(lines, cur)
    ensures |PackagesFrom(lines, cur)| <= |EndedFrom(lines, cur)| + 1
    decreases |lines|
  {
    if lines != [] {
      EndedThenOneMore(lines[1..], if lines[0] == "" then None else Some(Continued(cur, lines[0])));
    }
  }

  /** What one parse of a `Packages` file contributes, and whether the limit stopped it at a blank line. */
  function PackagesParse(key: string, repo: string, lines: seq<string>): Parse {
    Parse(key, repo, Take(PackagesOf(lines), MAX_PACKAGES), |EndedFrom(lines, None)| >= MAX_PACKAGES)
  }

  /** A blank line is a full stop: what comes after it is read as if it stood alone. */
  lemma {:induction false} PackagesConcat(a: seq<string>, b: seq<string>, cur: Option<Fields>)
    ensures PackagesFrom(a + [""] + b, cur) == PackagesFrom(a, cur) + PackagesOf(b)
    decreases |a|
  {
    if a == [] {
      assert (a + [""] + b)[1..] == b;
    } else {
      assert (a + [""] + b)[1..] == a[1..] + [""] + b;
      PackagesConcat(a[1..], b, if a[0] == "" then None else Some(Continued(cur, a[0])));
    }
  }

  // ----- a file that reaches the limit ---------------------------------------

  /** The limit stops a parse only after it took as many items as it allows. */
  lemma AgainMeansFull(key: string, repo: string, lines: seq<string>)
    ensures PackagesParse(key, repo, lines).again ==> |PackagesParse(key, repo, lines).items| == MAX_PACKAGES
  {
    EndedThenOneMore(lines, None);
  }

  lemma {:induction false} ColonAt(field: string, value: string)
    requires ':' !in field
    ensures Colon(field + [':'] + value) == |field|
  {
    var line := field + [':'] + value;
    if field != "" {
      assert line[1..] == field[1..] + [':'] + value;
      ColonAt(field[1..], value);
    }
  }

  /** A line of a named field sets that field to its value without the white space around it, and no other. */
  lemma FieldRead(f: Fields, field: string, value: string)
    requires ':' !in field
    ensures field == "Package" ==> WithField(f, field + [':'] + value) == f.(name := TrimSpace(value))
    ensures field == "Version" ==> WithField(f, field + [':'] + value) == f.(version := TrimSpace(value))
    ensures field == "Architecture" ==> WithField(f, field + [':'] + value) == f.(arch := TrimSpace(value))
    ensures field == "Filename" ==> WithField(f, field + [':'] + value) == f.(filename := TrimSpace(value))
    ensures field == "SHA256" ==> WithField(f, field + [':'] + value) == f.(sha := TrimSpace(value))
    ensures field == "Size" ==>
              WithField(f, field + [':'] + value) ==
                match Number(TrimSpace(value))
                case Some(n) => if MIN_INT64 <= n <= MAX_INT64 then f.(size := n) else f
                case None => f
  {
    ColonAt(field, value);
    var line := field + [':'] + value;
    assert line[..|field|] == field && line[|field| + 1..] == value;
    if field == "Version" { assert field[0] == 'V'; }
    if field == "SHA256" { assert field[0] == 'S' && field[1] == 'H'; }
    if field == "Size" { assert field[0] == 'S' && field[1] == 'i'; }
  }

  /** `n` stanzas of two lines. */
  function Repeat(a: string, b: string, n: nat): seq<string> {
    if n == 0 then [] else [a, b, ""] + Repeat(a, b, n - 1)
  }

  lemma StanzaEnds(a: string, b: string, rest: seq<string>)
    requires a != "" && b != ""
    ensures EndedFrom([a, b, ""] + rest, None) ==
            Finished(Some(Continued(Some(Continued(None, a)), b))) + EndedFrom(rest, None)
  {
    var lines, one := [a, b, ""] + rest, Some(Continued(None, a));
    var two := Some(Continued(one, b));
    assert lines[1..] == [b, ""] + rest && ([b, ""] + rest)[1..] == [""] + rest && ([""] + rest)[1..] == rest;
    assert EndedFrom(lines, None) == EndedFrom([b, ""] + rest, one);
    assert EndedFrom([b, ""] + rest, one) == EndedFrom([""] + rest, two);
  }

  lemma {:induction false} RepeatEnds(a: string, b: string, item: Fields, n: nat)
    requires a != "" && b != "" && item.sha != "" && Continued(Some(Continued(None, a)), b) == item
    ensures |EndedFrom(Repeat(a, b, n), None)| == n
    ensures forall k :: 0 <= k < n ==> EndedFrom(Repeat(a, b, n), None)[k] == item
    decreases n
  {
    if n > 0 {
      StanzaEnds(a, b, Repeat(a, b, n - 1));
      RepeatEnds(a, b, item, n - 1);
    }
  }

  /** A file of as many stanzas as the limit has its last package listed twice. */
  lemma LimitListsTwice(key: string, repo: string, sha: string, name: string) returns (lines: seq<string>, e: Entry)
    requires TrimSpace(sha) == sha != "" && TrimSpace(name) == name != ""
    ensures PackagesParse(key, repo, lines).again
    ensures Count(Shelf(AfterParses(EMPTY, [PackagesParse(key, repo, lines)]), Base(name)), e) == 2
  {
    var a, b := "SHA256" + [':'] + sha, "Filename" + [':'] + name;
    var item := Fields("", "", "", name, 0, sha);
    FieldRead(BLANK, "SHA256", sha);
    FieldRead(BLANK.(sha := sha), "Filename", name);
    lines := Repeat(a, b, MAX_PACKAGES);
    RepeatEnds(a, b, item, MAX_PACKAGES);
    EndedThenOneMore(lines, None);
    AgainMeansFull(key, repo, lines);
    e := LastTwice(PackagesParse(key, repo, lines));
  }

  lemma LastTwice(p: Parse) returns (e: Entry)
    requires p.again && p.items != [] && p.items[|p.items| - 1].filename != ""
    ensures Count(Shelf(AfterParses(EMPTY, [p]), Base(p.items[|p.items| - 1].filename)), e) == 2
  {
    IndexRun([p], p.key);
    var gen := Generation(AfterParses(EMPTY, [p]), p.key);
    e := gen[|gen| - 1];
    ListedOnce([p], p.key, e, Base(p.items[|p.items| - 1].filename));
  }

  // ----- Sources ------------------------------------------------------------

  datatype Artifact = Artifact(sha: string, size: int, name: string)

  datatype Source = Source(name: string, directory: string, files: seq<Artifact>, inChecksums: bool)

  const NO_SOURCE := Source("", "", [], false)

  function Clamp64(n: int): int {
    if n < MIN_INT64 then MIN_INT64 else if n > MAX_INT64 then MAX_INT64 else n
  }

  /** Indented lines of a checksum block list artifacts; anything else closes the block. */
  function WithLine(s: Source, line: string): Source
    requires line != ""
  {
    if s.inChecksums && (line[0] == ' ' || line[0] == '\t') then
      var w := Words(line, "");
      if |w| >= 3 && IsHex64(w[0]) then
        var n := Number(w[1]);
        s.(files := s.files + [Artifact(LowerHex(w[0]), if n.Some? then Clamp64(n.value) else 0, w[2])])
      else s
    else
      var s := s.(inChecksums := false);
      var c := Colon(line);
      if c == |line| then s
      else
        var field, value := line[..c], TrimSpace(line[c + 1..]);
        if field == "Package" then s.(name := value)
        else if field == "Directory" then s.(directory := TrimSlashes(value))
        else if field == "Checksums-Sha256" then s.(inChecksums := true)
        else s
  }

  function ArtifactsFrom(s: Source, files: seq<Artifact>): seq<Fields> {
    if files == [] || s.directory == "" then []
    else [ArtifactFields(s, files[0])] + ArtifactsFrom(s, files[1..])
  }

  function ArtifactFields(s: Source, a: Artifact): Fields {
    Fields(s.name, "", "", s.directory + "/" + a.name, a.size, a.sha)
  }

  function Emitted(s: Source): seq<Fields> { ArtifactsFrom(s, s.files) }

  function SourcesFrom(lines: seq<string>, s: Source): seq<Fields>
    decreases |lines|
  {
    if lines == [] then Emitted(s)
    else if lines[0] == "" then Emitted(s) + SourcesFrom(lines[1..], NO_SOURCE)
    else SourcesFrom(lines[1..], WithLine(s, lines[0]))
  }

  function SourcesOf(lines: seq<string>): seq<Fields> { SourcesFrom(lines, NO_SOURCE) }

  function SourcesParse(key: string, repo: string, lines: seq<string>): Parse {
    Parse(key, repo, Take(SourcesOf(lines), MAX_PACKAGES), false)
  }

  lemma SourcesOneLine(line: string, rest: seq<string>, s: Source)
    ensures SourcesFrom([line] + rest, s) ==
            if line == "" then Emitted(s) + SourcesOf(rest) else SourcesFrom(rest, WithLine(s, line))
  {
    assert ([line] + rest)[1..] == rest;
  }

  lemma {:induction false} SourcesConcat(a: seq<string>, b: seq<string>, s: Source)
    ensures SourcesFrom(a + [""] + b, s) == SourcesFrom(a, s) + SourcesOf(b)
    decreases |a|
  {
    if a == [] {
      SourcesOneLine("", b, s);
      assert a + [""] + b == [""] + b;
    } else {
      var rest := a[1..];
      assert a + [""] + b == [a[0]] + (rest + [""] + b) && a == [a[0]] + rest;
      SourcesOneLine(a[0], rest + [""] + b, s);
      SourcesOneLine(a[0], rest, s);
      SourcesConcat(rest, b, if a[0] == "" then NO_SOURCE else WithLine(s, a[0]));
    }
  }
}
