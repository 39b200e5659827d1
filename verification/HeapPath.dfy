/** The 32-bit path arithmetic by which the heap finds the slot with a given level-order number. */
module HeapPath {

  const UINT_RANGE: nat := 0x1_0000_0000

  function Pow2(e: nat): (r: nat)
    ensures r > 0
  {
    if e == 0 then 1 else 2 * Pow2(e - 1)
  }

  lemma {:induction false} Pow2Grows(a: nat, b: nat)
    requires a <= b
    ensures Pow2(a) <= Pow2(b)
  {
    if a < b {
      Pow2Grows(a, b - 1);
    }
  }

  /** n shifted right by k bits. */
  function Shr(n: nat, k: nat): nat {
    if k == 0 then n else Shr(n, k - 1) / 2
  }

  /** The low k bits of n in reversed order: bit k-1 of n comes out as bit 0. */
  function Reversed(n: nat, k: nat): nat {
    if k == 0 then 0 else 2 * Reversed(n, k - 1) + Shr(n, k - 1) % 2
  }

  lemma {:induction false} ReversedFits(n: nat, k: nat)
    ensures Reversed(n, k) < Pow2(k)
  {
    if k > 0 {
      ReversedFits(n, k - 1);
    }
  }

  lemma {:induction false} ShrOfHalf(n: nat, k: nat)
    ensures Shr(n / 2, k) == Shr(n, k + 1)
  {
    if k > 0 {
      ShrOfHalf(n, k - 1);
    }
  }

  lemma {:induction false} ShrBound(n: nat, k: nat)
    requires Shr(n, k) >= 1
    ensures Pow2(k) <= n
  {
    if k > 0 {
      ShrOfHalf(n, k - 1);
      ShrBound(n / 2, k - 1);
    }
  }

  /** The shift-and-or loop keeps every bit of the path within 32 bits. */
  method PathTo(number: nat) returns (path: nat, k: nat)
    requires 1 <= number < 0x1_0000_0000
    ensures path < 0x1_0000_0000 && Follow(1, path, k) == number
  {
    path, k := 0, 0;
    var n := number;
    while n >= 2
      invariant n == Shr(number, k) >= 1 && path == Reversed(number, k) < UINT_RANGE
    {
      ReversedFits(number, k + 1);
      ShrBound(number, k + 1);
      path := (2 * path) % UINT_RANGE + n % 2;
      k, n := k + 1, n / 2;
    }
    ReversedLeadsTo(number, k);
  }

  /** The slot number reached from slot v by consuming k path bits, low bit first: 0 left, 1 right. */
  function Follow(v: nat, path: nat, k: nat): (number: nat)
    ensures v <= number && (k > 0 ==> 2 * v <= number)
    decreases k
  {
    if k == 0 then v else Follow(2 * v + path % 2, path / 2, k - 1)
  }

  lemma Push(rest: nat, bit: nat)
    requires bit < 2
    ensures (2 * rest + bit) / 2 == rest && (2 * rest + bit) % 2 == bit
  {
  }

  lemma FollowBit(v: nat, rest: nat, bit: nat, k: nat)
    requires bit < 2 && k > 0
    ensures Follow(v, 2 * rest + bit, k) == Follow(2 * v + bit, rest, k - 1)
  {
    Push(rest, bit);
  }

  /** Following the reversed low bits of n from its top bits leads to n. */
  lemma {:induction false} ReversedLeadsTo(n: nat, k: nat)
    ensures Follow(Shr(n, k), Reversed(n, k), k) == n
  {
    if k > 0 {
      hide Follow;
      var m := Shr(n, k - 1);
      ReversedLeadsTo(n, k - 1);
      assert Shr(n, k) == m / 2 && Reversed(n, k) == 2 * Reversed(n, k - 1) + m % 2;
      FollowBit(m / 2, Reversed(n, k - 1), m % 2, k);
    } else {
      FollowNothing(n, Reversed(n, 0));
    }
  }

  lemma FollowNothing(v: nat, path: nat)
    ensures Follow(v, path, 0) == v
  {
  }

  /** The depth of a level-order position, and so the most swaps a walk to the root can take. */
  function Depth(i: nat): nat {
    if i == 0 then 0 else 1 + Depth((i - 1) / 2)
  }

  lemma {:induction false} DepthIsLogarithmic(i: nat)
    ensures Pow2(Depth(i)) <= i + 1 < 2 * Pow2(Depth(i))
  {
    if i > 0 {
      DepthIsLogarithmic((i - 1) / 2);
    }
  }
}
