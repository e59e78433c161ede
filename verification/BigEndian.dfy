/** Fixed-width big-endian integers, unsigned and in two's complement. */
module BigEndian {
  import opened Prelude

  function Pow256(w: nat): (p: nat)
    ensures p > 0
  {
    if w == 0 then 1 else 256 * Pow256(w - 1)
  }

  /** The `w` bytes of `n`, most significant first. */
  function Put(n: nat, w: nat): (bs: seq<Byte>)
    ensures |bs| == w
  {
    if w == 0 then [] else Put(n / 256, w - 1) + [n % 256]
  }

  function Get(bs: seq<Byte>): nat {
    if bs == [] then 0 else Get(bs[..|bs| - 1]) * 256 + bs[|bs| - 1]
  }

  lemma {:induction false} GetPut(n: nat, w: nat)
    requires n < Pow256(w)
    ensures Get(Put(n, w)) == n
  {
    if w > 0 {
      GetPut(n / 256, w - 1);
      assert Put(n, w)[..w - 1] == Put(n / 256, w - 1);
    }
  }

  lemma ScaleUp(n: nat, x: nat, y: nat)
    requires x <= n / 256 < y
    ensures 256 * x <= n < 256 * y
  {
  }

  lemma Regroup(a: nat, p: nat)
    ensures a * (256 * p) == 256 * (a * p)
  {
  }

  /** The most significant byte comes first. */
  lemma {:induction false} MostSignificantFirst(n: nat, w: nat)
    requires 0 < w && n < Pow256(w)
    ensures Put(n, w)[0] * Pow256(w - 1) <= n < (Put(n, w)[0] + 1) * Pow256(w - 1)
    decreases w
  {
    if w == 1 {
      assert Put(n, 1) == [n % 256] && Pow256(1) == 256 && Pow256(0) == 1;
    } else {
      var top: nat, p := Put(n, w)[0], Pow256(w - 2);
      MostSignificantFirst(n / 256, w - 1);
      assert Put(n / 256, w - 1)[0] == Put(n, w)[0];
      ScaleUp(n, top * p, (top + 1) * p);
      Regroup(top, p);
      Regroup(top + 1, p);
    }
  }

  lemma {:induction false} PutGet(bs: seq<Byte>)
    ensures Get(bs) < Pow256(|bs|) && Put(Get(bs), |bs|) == bs
  {
    if bs != [] {
      PutGet(bs[..|bs| - 1]);
      assert bs == bs[..|bs| - 1] + [bs[|bs| - 1]];
    }
  }

  const TWO_63 := 0x8000_0000_0000_0000
  const TWO_64 := 0x1_0000_0000_0000_0000

  predicate Int64(n: int) { -TWO_63 <= n < TWO_63 }

  function PutInt64(n: int): (bs: seq<Byte>)
    requires Int64(n)
    ensures |bs| == 8
  {
    Put(if n < 0 then n + TWO_64 else n, 8)
  }

  function GetInt64(bs: seq<Byte>): int {
    var n := Get(bs);
    if n < TWO_63 then n else n - TWO_64
  }

  lemma Widths()
    ensures Pow256(2) == 65536 && Pow256(4) == 0x1_0000_0000 && Pow256(8) == TWO_64
  {
    assert Pow256(2) == 65536;
    assert Pow256(4) == 65536 * Pow256(2);
    assert Pow256(6) == 65536 * Pow256(4);
    assert Pow256(8) == 65536 * Pow256(6);
  }

  lemma Int64RoundTrip(n: int)
    requires Int64(n)
    ensures GetInt64(PutInt64(n)) == n
  {
    Widths();
    GetPut(if n < 0 then n + TWO_64 else n, 8);
  }

  lemma Int64Bytes(bs: seq<Byte>)
    requires |bs| == 8
    ensures Int64(GetInt64(bs)) && PutInt64(GetInt64(bs)) == bs
  {
    Widths();
    PutGet(bs);
  }
}
