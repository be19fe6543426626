/** Wide accesses: a host integer is little-endian in memory, its byte swap makes the
    guest's big-endian value. */
module BigEndian {
  type Byte = x: int | 0 <= x < 256

  function Pow256(n: nat): (p: nat)
    ensures p > 0
  {
    if n == 0 then 1 else 256 * Pow256(n - 1)
  }

  /** The n bytes of v, most significant first. */
  function Big(v: nat, n: nat): (bs: seq<Byte>)
    ensures |bs| == n
  {
    if n == 0 then [] else Big(v / 256, n - 1) + [v % 256]
  }

  function FromBig(bs: seq<Byte>): nat
    decreases |bs|
  {
    if bs == [] then 0 else 256 * FromBig(bs[..|bs| - 1]) + bs[|bs| - 1]
  }

  /** The n bytes of v as the host stores an integer. */
  function Little(v: nat, n: nat): (bs: seq<Byte>)
    ensures |bs| == n
  {
    if n == 0 then [] else [v % 256] + Little(v / 256, n - 1)
  }

  function FromLittle(bs: seq<Byte>): nat
    decreases |bs|
  {
    if bs == [] then 0 else bs[0] + 256 * FromLittle(bs[1..])
  }

  function Reversed(bs: seq<Byte>): (r: seq<Byte>)
    ensures |r| == |bs|
    decreases |bs|
  {
    if bs == [] then [] else Reversed(bs[1..]) + [bs[0]]
  }

  /** __builtin_bswap of an n-byte integer. */
  function Swap(v: nat, n: nat): nat {
    FromLittle(Reversed(Little(v, n)))
  }

  lemma {:induction false} ReversedLittle(v: nat, n: nat)
    ensures Reversed(Little(v, n)) == Big(v, n)
  {
    if n > 0 {
      ReversedLittle(v / 256, n - 1);
      assert Little(v, n)[1..] == Little(v / 256, n - 1);
    }
  }

  lemma {:induction false} LittleOfFromLittle(bs: seq<Byte>)
    ensures Little(FromLittle(bs), |bs|) == bs
    decreases |bs|
  {
    if bs != [] {
      LittleOfFromLittle(bs[1..]);
      var v := FromLittle(bs);
      assert v % 256 == bs[0] && v / 256 == FromLittle(bs[1..]);
    }
  }

  /** Storing the swapped integer lays the value down big-endian. */
  lemma StoredSwapped(v: nat, n: nat)
    ensures Little(Swap(v, n), n) == Big(v, n)
  {
    ReversedLittle(v, n);
    LittleOfFromLittle(Big(v, n));
  }

  lemma {:induction false} FromBigIsReversed(bs: seq<Byte>)
    ensures FromLittle(Reversed(bs)) == FromBig(bs)
    decreases |bs|
  {
    if bs != [] {
      var init, last := bs[..|bs| - 1], bs[|bs| - 1];
      FromBigIsReversed(init);
      ReversedLast(init, last);
      assert bs == init + [last];
    }
  }

  lemma {:induction false} ReversedLast(bs: seq<Byte>, b: Byte)
    ensures Reversed(bs + [b]) == [b] + Reversed(bs)
    decreases |bs|
  {
    if bs != [] {
      ReversedLast(bs[1..], b);
      assert (bs + [b])[1..] == bs[1..] + [b];
    } else {
      assert bs + [b] == [b];
    }
  }

  /** Loading an integer and swapping it reads the bytes big-endian. */
  lemma LoadedSwapped(bs: seq<Byte>)
    ensures Swap(FromLittle(bs), |bs|) == FromBig(bs)
  {
    LittleOfFromLittle(bs);
    FromBigIsReversed(bs);
  }

  lemma {:induction false} BigRoundTrip(v: nat, n: nat)
    requires v < Pow256(n)
    ensures FromBig(Big(v, n)) == v
  {
    if n > 0 {
      BigRoundTrip(v / 256, n - 1);
      assert Big(v, n)[..n - 1] == Big(v / 256, n - 1);
    }
  }

  lemma {:induction false} Pow256Divides(v: nat, k: nat)
    ensures v / 256 / Pow256(k) == v / Pow256(k + 1)
  {
    var p := Pow256(k);
    var q, r := v / 256 / p, v / 256 % p;
    assert v == 256 * (p * q + r) + v % 256;
    QuotientOf(v, 256 * p, q, 256 * r + v % 256);
  }

  lemma QuotientOf(v: nat, d: nat, q: nat, r: nat)
    requires d > 0 && v == d * q + r && r < d
    ensures v / d == q
  {
    var e := v / d - q;
    assert d * e == r - v % d;
    assert e > 0 ==> d * e >= d;
    assert e < 0 ==> d * e + d <= 0;
  }

  /** Byte i from the left has weight 256 to the number of bytes right of it. */
  lemma {:induction false} BigAt(v: nat, n: nat, i: nat)
    requires i < n
    ensures Big(v, n)[i] == v / Pow256(n - 1 - i) % 256
    decreases n
  {
    if i < n - 1 {
      BigAt(v / 256, n - 1, i);
      Pow256Divides(v, n - 2 - i);
    } else {
      assert Pow256(0) == 1;
    }
  }
}
