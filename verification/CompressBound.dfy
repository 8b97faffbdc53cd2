/**
 The worst-case compressed size that the batching code budgets with: the input's
 size, a 256th of it, and a margin for small inputs that is gone at 128 KiB. The
 formula is evaluated in 64 bits; here it is on unbounded integers, and does not
 overflow.
 */
module CompressBound {
  import opened Bytes

  const MAX_INPUT: nat := 0xFF00_FF00_FF00_FF00
  const KB128: nat := 131072

  /** The macro's formula: 0 stands for its error code. */
  function Bound(n: nat): nat {
    if n >= MAX_INPUT then 0
    else n + n / 256 + (if n < KB128 then (KB128 - n) / 2048 else 0)
  }

  /** The machine's 64-bit evaluation never wraps. */
  lemma NoOverflow(n: nat)
    ensures Bound(n) < TWO_64
  {
    if n < MAX_INPUT {
      assert n / 256 <= (MAX_INPUT - 1) / 256;
    }
  }

  lemma AtLeast(n: nat)
    requires n < MAX_INPUT
    ensures Bound(n) >= n && Bound(n) >= 64
  {
    if n < KB128 {
      var q := (KB128 - n) / 2048;
      assert KB128 - n < 2048 * (q + 1);
      assert n + q >= 64;
    }
  }

  /** What is allowed on top of one byte in 256: 64 for nothing, less and less, and 0 from 128 KiB on. */
  lemma MarginShrinks(m: nat, n: nat)
    requires m <= n < MAX_INPUT
    ensures 0 <= Bound(n) - n - n / 256 <= Bound(m) - m - m / 256 <= 64
    ensures Bound(m) - m - m / 256 == 64 <==> m == 0
    ensures n >= KB128 ==> Bound(n) == n + n / 256
  {
    assert m < KB128 ==> (KB128 - m) / 2048 <= 64 && (n < KB128 ==> (KB128 - n) / 2048 <= (KB128 - m) / 2048);
  }

  lemma Monotone(m: nat, n: nat)
    requires m <= n < MAX_INPUT
    ensures Bound(m) <= Bound(n)
  {
    assert m / 256 <= n / 256;
    if n < KB128 {
      assert (KB128 - m) / 2048 <= (KB128 - n) / 2048 + (n - m);
    } else if m < KB128 {
      assert (KB128 - m) / 2048 <= KB128 - m;
    }
  }

  /** Below 128 KiB, compressing apart is budgeted at least as high as compressing together. */
  lemma Subadditive(a: nat, b: nat)
    requires a + b < KB128
    ensures Bound(a + b) <= Bound(a) + Bound(b)
  {
    assert (a + b) / 256 <= a / 256 + b / 256 + 1;
    SplitMargin(a, b);
  }

  lemma SplitMargin(a: nat, b: nat)
    requires a + b < KB128
    ensures (KB128 - (a + b)) / 2048 + 1 <= (KB128 - a) / 2048 + (KB128 - b) / 2048
  {
    var x, y := (KB128 - a) / 2048, (KB128 - b) / 2048;
    assert KB128 - a < 2048 * (x + 1) && KB128 - b < 2048 * (y + 1);
    var z := (KB128 - (a + b)) / 2048;
    assert 2048 * z <= KB128 - (a + b);
  }

  /** From 128 KiB on it is the other way round, as the formula's comment promises. */
  lemma Superadditive(a: nat, b: nat)
    requires KB128 <= a && KB128 <= b && a + b < MAX_INPUT
    ensures Bound(a) + Bound(b) <= Bound(a + b)
  {
    assert a / 256 + b / 256 <= (a + b) / 256;
  }

  function Sum(ns: seq<nat>): nat {
    if ns == [] then 0 else Sum(ns[..|ns| - 1]) + ns[|ns| - 1]
  }

  function SumOfBounds(ns: seq<nat>): nat {
    if ns == [] then 0 else SumOfBounds(ns[..|ns| - 1]) + Bound(ns[|ns| - 1])
  }

  /** The running sum of per-message bounds covers the bound of the whole batch's bytes. */
  lemma {:induction false} BatchCovered(ns: seq<nat>)
    requires ns != [] && Sum(ns) < KB128
    ensures Bound(Sum(ns)) <= SumOfBounds(ns)
  {
    var init, last := ns[..|ns| - 1], ns[|ns| - 1];
    if init == [] {
      assert Sum(ns) == last;
    } else {
      BatchCovered(init);
      Subadditive(Sum(init), last);
    }
  }
}
