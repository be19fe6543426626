/** Guest words shared by the modules: addresses, zero-filled word maps and the
    constants of the PAL scheduler data. Address 0 is the null pointer. */
module Guest {
  type Ptr = int

  const READY := 1
  const RUNNING := 2
  const WAITING := 4
  const MORIBUND := 8

  const RUN_QUEUES: Ptr := 0x803477B0
  const RUN_QUEUE_BYTES := 0x100
  const DEFAULT_THREAD: Ptr := 0x80347498
  const JOIN_QUEUE_OFFSET := 0x2E8

  /** A guest word: backing memory is zero-filled, so an unwritten word reads 0. */
  function At(m: map<Ptr, int>, p: Ptr): int {
    if p in m then m[p] else 0
  }

  /** The OSThreadQueue of priority level p inside the run-queue array. */
  function RunQ(p: int): Ptr {
    RUN_QUEUES + 8 * p
  }

  predicate IsRunQ(a: Ptr) {
    RUN_QUEUES <= a < RUN_QUEUES + RUN_QUEUE_BYTES && (a - RUN_QUEUES) % 8 == 0
  }

  function LevelOf(a: Ptr): int {
    (a - RUN_QUEUES) / 8
  }

  lemma RunQLevel(p: int)
    ensures 0 <= p < 32 <==> IsRunQ(RunQ(p))
    ensures LevelOf(RunQ(p)) == p
  {
  }

  function JoinQ(t: Ptr): Ptr {
    t + JOIN_QUEUE_OFFSET
  }

  predicate Dead(state: int) {
    state == 0 || state == MORIBUND
  }

  predicate ValidPriority(p: int) {
    0 <= p <= 31
  }

  /** A 32-bit mask in PowerPC bit order: element p is bit 31 - p of the word. */
  type Mask = m: seq<bool> | |m| == 32 witness seq(32, _ => false)

  /** PPC_Cntlzw: number of leading zero bits, 32 for the zero word. */
  function Cntlzw(m: Mask, from: nat := 0): (n: nat)
    requires from <= 32
    requires forall i :: 0 <= i < from ==> !m[i]
    ensures from <= n <= 32
    ensures forall i :: 0 <= i < n ==> !m[i]
    ensures n < 32 ==> m[n]
    decreases 32 - from
  {
    if from == 32 || m[from] then from else Cntlzw(m, from + 1)
  }

  predicate Zero(m: Mask) {
    forall i :: 0 <= i < 32 ==> !m[i]
  }

  predicate Distinct<T(==)>(xs: seq<T>) {
    forall i, j :: 0 <= i < j < |xs| ==> xs[i] != xs[j]
  }

  /** xs with the (first) occurrence of x taken out. */
  function Without<T(==)>(xs: seq<T>, x: T): (ys: seq<T>)
    ensures x !in xs ==> ys == xs
  {
    if xs == [] then []
    else if xs[0] == x then xs[1..]
    else [xs[0]] + Without(xs[1..], x)
  }

  lemma {:induction false} WithoutAt<T>(xs: seq<T>, x: T, k: nat)
    requires k < |xs| && xs[k] == x && x !in xs[..k]
    ensures Without(xs, x) == xs[..k] + xs[k + 1..]
  {
    if k > 0 {
      assert xs[0] in xs[..k];
      assert xs[1..][..k - 1] == xs[..k][1..];
      WithoutAt(xs[1..], x, k - 1);
      assert xs[1..][k..] == xs[k + 1..];
      assert xs[..k] == [xs[0]] + xs[1..][..k - 1];
    }
  }

  lemma WithoutElement<T>(xs: seq<T>, m: T) returns (k: nat)
    requires Distinct(xs) && m in xs
    ensures k < |xs| && xs[k] == m && Without(xs, m) == xs[..k] + xs[k + 1..]
    ensures Distinct(Without(xs, m))
    ensures forall x :: x in Without(xs, m) <==> x in xs && x != m
  {
    k :| 0 <= k < |xs| && xs[k] == m;
    WithoutAt(xs, m, k);
    var ys := Without(xs, m);
    forall x ensures x in ys <==> x in xs && x != m {
      if x in xs && x != m {
        var i :| 0 <= i < |xs| && xs[i] == x;
        assert x == if i < k then ys[i] else ys[i - 1];
      }
    }
  }
}
