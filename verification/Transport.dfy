/**
 How the bytes of a chunk are asked for and delivered: the two peer protocols, the
 peer that answers them, and HTTP mirrors with and without range support. Peer
 ranges exclude their end; HTTP ranges include it.
 */
module Transport {
  import opened Assembly
  import opened BigEndian
  import opened ChunkGrid
  import opened ChunkedDownload
  import opened Prelude

  const REQUEST_LEN := 81
  const MAX_TRANSFER := 500 * 1024 * 1024
  const NEWLINE: Byte := 10

  predicate IsHexByte(b: Byte) { 48 <= b <= 57 || 65 <= b <= 70 || 97 <= b <= 102 }

  predicate IsDigest(h: seq<Byte>) { |h| == 64 && forall k :: 0 <= k < 64 ==> IsHexByte(h[k]) }

  // ----- range requests -----------------------------------------------------

  /** The first 64 bytes, filled up with zeros. */
  function Fixed64(h: seq<Byte>): (r: seq<Byte>)
    ensures |r| == 64
  {
    if |h| >= 64 then h[..64] else h + seq(64 - |h|, k => 0)
  }

  function NonNegative(n: int): nat { if n < 0 then 0 else n }

  function EncodeRange(h: seq<Byte>, start: int, end: int): (r: seq<Byte>)
    ensures |r| == REQUEST_LEN
  {
    Fixed64(h) + Put(NonNegative(start), 8) + Put(NonNegative(end), 8) + [NEWLINE]
  }

  datatype Range = Range(hash: seq<Byte>, start: nat, end: nat)

  /** Reads by length: a newline among the offsets does not end the request. */
  function DecodeRange(s: seq<Byte>): Option<Range> {
    if |s| < REQUEST_LEN then None
    else
      var start, end := Get(s[64..72]), Get(s[72..80]);
      if start >= TWO_63 || end >= TWO_63 then None else Some(Range(s[..64], start, end))
  }

  /** The layout of a request: 64 bytes of digest, two offsets of eight bytes, a newline. */
  lemma RangeLayout(h: seq<Byte>, start: int, end: int)
    requires |h| == 64
    ensures var s := EncodeRange(h, start, end);
            && s[..64] == h && s[80] == NEWLINE
            && s[64..72] == Put(if start < 0 then 0 else start, 8) && s[72..80] == Put(if end < 0 then 0 else end, 8)
  {
  }

  lemma RangeRoundTrip(h: seq<Byte>, start: int, end: int, rest: seq<Byte>)
    requires |h| == 64 && Int64(start) && Int64(end)
    ensures DecodeRange(EncodeRange(h, start, end) + rest) == Some(Range(h, NonNegative(start), NonNegative(end)))
  {
    var s := EncodeRange(h, start, end) + rest;
    assert s[..64] == h && s[64..72] == Put(NonNegative(start), 8) && s[72..80] == Put(NonNegative(end), 8);
    Widths();
    GetPut(NonNegative(start), 8);
    GetPut(NonNegative(end), 8);
  }

  // ----- the answering peer -------------------------------------------------

  const REFUSED := Put(0, 8)

  /** Clips the range to the content; an empty or inverted range is refused like missing content. */
  function Answer(store: map<seq<Byte>, seq<Byte>>, h: seq<Byte>, start: int, end: int): seq<Byte> {
    if !IsDigest(h) || h !in store then REFUSED
    else
      var c := store[h];
      var e := if end <= 0 || end > |c| then |c| else end;
      var s := NonNegative(start);
      if s > e || s >= |c| then REFUSED else Put(e - s, 8) + c[s..e]
  }

  /** The bytes up to the first newline, if there is one. */
  function FirstLine(s: seq<Byte>): Option<seq<Byte>> {
    if s == [] then None
    else if s[0] == NEWLINE then Some([])
    else
      var rest := FirstLine(s[1..]);
      if rest.None? then None else Some([s[0]] + rest.value)
  }

  /** What a peer writes for a request; nothing when it cannot be read. At most 256 bytes of it are looked at. */
  function Serve(store: map<seq<Byte>, seq<Byte>>, accepts: bool, ranged: bool, request: seq<Byte>): seq<Byte> {
    var seen := if |request| > 256 then request[..256] else request;
    if !accepts then REFUSED
    else if ranged then
      var d := DecodeRange(seen);
      if d.None? then [] else Answer(store, d.value.hash, d.value.start, d.value.end)
    else
      var line := FirstLine(seen);
      if line.None? then [] else Answer(store, line.value, 0, -1)
  }

  // ----- the asking peer ----------------------------------------------------

  datatype Request = Request(ranged: bool, bytes: seq<Byte>)

  function Ask(h: seq<Byte>, start: int, end: int): Option<Request> {
    if start > 0 || end > 0 then
      if start < 0 || end < -1 then None else Some(Request(true, EncodeRange(h, start, end)))
    else Some(Request(false, h + [NEWLINE]))
  }

  function ReadReply(s: seq<Byte>): Option<seq<Byte>> {
    if |s| < 8 then None
    else
      var size := Get(s[..8]);
      if size >= TWO_63 || size == 0 || size > MAX_TRANSFER || |s| < 8 + size then None else Some(s[8..8 + size])
  }

  function PeerDownload(store: map<seq<Byte>, seq<Byte>>, accepts: bool, h: seq<Byte>, start: int, end: int)
    : Option<seq<Byte>>
  {
    var r := Ask(h, start, end);
    if r.None? then None else ReadReply(Serve(store, accepts, r.value.ranged, r.value.bytes))
  }

  /** The part of `c` a peer range means; a non-positive end is the end of the content. */
  ghost function Part(c: seq<Byte>, start: int, end: int): Option<seq<Byte>> {
    var e := if end <= 0 || end > |c| then |c| else end;
    var s := NonNegative(start);
    if s < e && e - s <= MAX_TRANSFER then Some(c[s..e]) else None
  }

  lemma {:induction false} FirstLineOf(h: seq<Byte>, rest: seq<Byte>)
    requires NEWLINE !in h
    ensures FirstLine(h + [NEWLINE] + rest) == Some(h)
  {
    var s := h + [NEWLINE] + rest;
    if h != [] {
      assert s[1..] == h[1..] + [NEWLINE] + rest;
      FirstLineOf(h[1..], rest);
      assert h == [h[0]] + h[1..];
    }
  }

  /** The key a peer looks up when it is asked for `h`: by range its first 64 bytes, else its first line. */
  function Key(h: seq<Byte>, ranged: bool): Option<seq<Byte>> {
    if ranged then Some(Fixed64(h))
    else
      var line := h + [NEWLINE];
      FirstLine(if |line| > 256 then line[..256] else line)
  }

  /** A digest is looked up as what it is, either way. */
  lemma DigestIsKey(h: seq<Byte>, ranged: bool)
    requires IsDigest(h)
    ensures Key(h, ranged) == Some(h)
  {
    FirstLineOf(h, []);
    assert h + [NEWLINE] + [] == h + [NEWLINE];
    assert h[..64] == h;
  }

  lemma AnswerReadsBack(store: map<seq<Byte>, seq<Byte>>, h: seq<Byte>, start: int, end: int)
    requires h in store ==> |store[h]| < TWO_63
    ensures ReadReply(Answer(store, h, start, end)) ==
            if IsDigest(h) && h in store then Part(store[h], start, end) else None
  {
    Widths();
    var reply := Answer(store, h, start, end);
    if reply == REFUSED {
      RefusalReadsAsNothing();
    } else {
      var c := store[h];
      var e := if end <= 0 || end > |c| then |c| else end;
      var s := NonNegative(start);
      assert reply[..8] == Put(e - s, 8) && reply[8..8 + (e - s)] == c[s..e];
      GetPut(e - s, 8);
    }
  }

  /** What a peer holds under the key that `h` becomes. */
  ghost function Held(store: map<seq<Byte>, seq<Byte>>, h: seq<Byte>, ranged: bool): Option<seq<Byte>> {
    var key := Key(h, ranged);
    if key.Some? && IsDigest(key.value) && key.value in store then Some(store[key.value]) else None
  }

  lemma RangeAnswered(store: map<seq<Byte>, seq<Byte>>, h: seq<Byte>, start: int, end: int)
    requires Int64(start) && Int64(end)
    ensures Serve(store, true, true, EncodeRange(h, start, end)) ==
            Answer(store, Fixed64(h), NonNegative(start), NonNegative(end))
  {
    RangeRoundTrip(Fixed64(h), start, end, []);
    assert Fixed64(Fixed64(h)) == Fixed64(h);
    assert EncodeRange(Fixed64(h), start, end) + [] == EncodeRange(h, start, end);
  }

  lemma LineAnswered(store: map<seq<Byte>, seq<Byte>>, h: seq<Byte>)
    ensures Serve(store, true, false, h + [NEWLINE]) ==
            var key := Key(h, false); if key.None? then [] else Answer(store, key.value, 0, -1)
  {
  }

  /**
   Whatever is asked for, in whichever of the two protocols the client picks, the
   peer's answer is read as exactly that part of the content it holds under the key —
   or as nothing: when the range is malformed or empty, too long, or there is no such
   content.
   */
  lemma PeerDownloadExactly(store: map<seq<Byte>, seq<Byte>>, accepts: bool, h: seq<Byte>, start: int, end: int)
    requires Int64(start) && Int64(end) && forall k :: k in store ==> |store[k]| < TWO_63
    ensures var held := Held(store, h, start > 0 || end > 0);
            PeerDownload(store, accepts, h, start, end) ==
            if accepts && held.Some? && !(start < 0 < end) && !(end < -1 && start > 0) then Part(held.value, start, end)
            else None
  {
    if !accepts {
      RefusalReadsAsNothing();
    } else if start > 0 || end > 0 {
      RangeAnswered(store, h, start, end);
      AnswerReadsBack(store, Fixed64(h), NonNegative(start), NonNegative(end));
    } else {
      LineAnswered(store, h);
      var key := Key(h, false);
      if key.Some? { AnswerReadsBack(store, key.value, 0, -1); }
    }
  }

  /** A line of more than 256 bytes is not read to its end, so nothing is answered. */
  lemma LongLineRefused(store: map<seq<Byte>, seq<Byte>>, accepts: bool, h: seq<Byte>)
    requires |h| >= 256 && NEWLINE !in h[..256] && forall k :: k in store ==> |store[k]| < TWO_63
    ensures PeerDownload(store, accepts, h, 0, -1) == None
  {
    var line := h + [NEWLINE];
    assert line[..256] == h[..256];
    NoFirstLine(h[..256]);
    PeerDownloadExactly(store, accepts, h, 0, -1);
  }

  lemma {:induction false} NoFirstLine(s: seq<Byte>)
    requires NEWLINE !in s
    ensures FirstLine(s) == None
  {
    if s != [] { NoFirstLine(s[1..]); }
  }

  lemma RefusalReadsAsNothing()
    ensures ReadReply(REFUSED) == None
  {
    Widths();
    GetPut(0, 8);
    assert REFUSED[..8] == REFUSED;
  }

  // ----- mirrors ------------------------------------------------------------

  datatype Response = Full(body: seq<Byte>) | Partial(body: seq<Byte>) | Status(code: int)

  function Limit(s: seq<Byte>, n: int): seq<Byte> {
    if n <= 0 then [] else if |s| <= n then s else s[..n]
  }

  /** A plain fetch: only a 200 within the size limit counts. */
  function Fetch(resp: Response, maxSize: nat): Option<seq<Byte>> {
    if resp.Full? && |resp.body| <= maxSize then Some(resp.body) else None
  }

  /** A fetch of bytes `start` to `last`, both included; a negative `last` is the end of the file. */
  function FetchRange(start: int, last: int, resp: Response, maxSize: nat): Option<seq<Byte>> {
    if start == 0 && last < 0 then Fetch(resp, maxSize)
    else
      match resp
      case Status(_) => None
      case Full(body) =>
        var skip := NonNegative(start);
        if |body| < skip then None
        else Some(Limit(body[skip..], if last < 0 then maxSize else last - start + 1))
      case Partial(body) =>
        Some(Limit(body, if last < 0 then maxSize + 1 else last - start + 2))
  }

  /** The downloader's ranges exclude their end, so the proxy shifts it. */
  function MirrorDownload(start: int, end: int, resp: Response, maxSize: nat): Option<seq<Byte>> {
    FetchRange(start, if end > 0 then end - 1 else end, resp, maxSize)
  }

  /** What a mirror holding `c` may answer, by section 14 of RFC 9110: the range, or all of it. */
  ghost predicate Serves(c: seq<Byte>, start: nat, last: int, resp: Response) {
    || resp == Full(c)
    || ((start > 0 || last >= 0) && start < |c| && (last < 0 || start <= last) &&
        resp == Partial(if last < 0 || last >= |c| then c[start..] else c[start..last + 1]))
  }

  /** Both kinds of mirror deliver exactly the range, cut off at the end of the file. */
  lemma MirrorRangeExactly(c: seq<Byte>, s: nat, e: nat, resp: Response, maxSize: nat)
    requires s < e && s < |c| && Serves(c, s, e - 1, resp)
    ensures MirrorDownload(s, e, resp, maxSize) == Some(c[s..if e > |c| then |c| else e])
  {
    var stop := if e > |c| then |c| else e;
    assert Limit(c[s..], e - s) == c[s..stop];
    assert e > |c| ==> c[s..] == c[s..stop];
  }

  /** A partial answer longer than the range is not cut to its length: it arrives one byte too long. */
  lemma OverlongAnswerShows(s: nat, e: nat, body: seq<Byte>, maxSize: nat)
    requires s < e && |body| > e - s
    ensures MirrorDownload(s, e, Partial(body), maxSize).Some?
    ensures |MirrorDownload(s, e, Partial(body), maxSize).value| == e - s + 1
  {
  }

  /** A whole file arrives exactly when it is within the size limit. */
  lemma MirrorFullExactly(c: seq<Byte>, resp: Response, maxSize: nat)
    requires Serves(c, 0, -1, resp)
    ensures MirrorDownload(0, -1, resp, maxSize) == if |c| <= maxSize then Some(c) else None
  {
  }

  /** An open range is cut without an error when it exceeds the limit, one byte later on a partial answer. */
  lemma OpenRangeExactly(c: seq<Byte>, s: nat, resp: Response, maxSize: nat)
    requires 0 < s < |c| && Serves(c, s, -1, resp)
    ensures MirrorDownload(s, -1, resp, maxSize).Some?
    ensures MirrorDownload(s, -1, resp, maxSize) == Some(c[s..]) <==>
            |c| - s <= maxSize || (resp.Partial? && |c| - s == maxSize + 1)
  {
  }

  /**
   For every chunk of the grid, a peer that has the package and either kind of
   mirror deliver the same bytes: the chunk's slice, as an honest source must.
   */
  lemma SourcesAgree(j: Job, c: seq<Byte>, i: nat, store: map<seq<Byte>, seq<Byte>>, h: seq<Byte>,
                     resp: Response, maxSize: nat)
    requires j.chunk > 0 && |c| == j.size < TWO_63 && i < NumChunks(j.size, j.chunk) && j.chunk <= MAX_TRANSFER
    requires IsDigest(h) && h in store && store[h] == c && forall k :: k in store ==> |store[k]| < TWO_63
    requires Serves(c, Start(i, j.chunk), End(i, j.size, j.chunk) - 1, resp)
    ensures var s, e := Start(i, j.chunk), End(i, j.size, j.chunk);
            && s < e
            && PeerDownload(store, true, h, s, e) == MirrorDownload(s, e, resp, maxSize) == Some(c[s..e])
            && Slices(j, c, i, c[s..e])
  {
    ChunkInFile(i, j.size, j.chunk);
    var s, e := Start(i, j.chunk), End(i, j.size, j.chunk);
    DigestIsKey(h, true);
    PeerDownloadExactly(store, true, h, s, e);
    MirrorRangeExactly(c, s, e, resp, maxSize);
  }
}
