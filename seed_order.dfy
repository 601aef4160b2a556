/** The standard bracket seed order (`getStandardSeedOrder`): bracket
    position `i` receives seed `order[i]`, so that the best seeds meet as
    late as possible, as in [1, 8, 4, 5, 2, 7, 3, 6] for eight positions. */
module SeedOrder {
  import opened Common
  import opened Collections
  import opened RoundSizing

  /** `Array.from({ length: n }, (_, i) => i + 1)`. */
  function Identity(n: nat): (r: seq<int>)
    ensures |r| == n && forall i :: 0 <= i < n ==> r[i] == i + 1
  {
    seq(n, i => i + 1)
  }

  /** Each seed of the half-size order followed by its mirror `size + 1 - s`. */
  function Interleave(h: seq<int>, size: int): (r: seq<int>)
    ensures |r| == 2 * |h|
    ensures forall i :: 0 <= i < |h| ==> r[2 * i] == h[i] && r[2 * i + 1] == size + 1 - h[i]
  {
    if h == [] then []
    else
      var init, last := h[..|h| - 1], h[|h| - 1];
      var r0 := Interleave(init, size);
      var r := r0 + [last, size + 1 - last];
      assert forall i :: 0 <= i < |init| ==> r[2 * i] == r0[2 * i] && r[2 * i + 1] == r0[2 * i + 1];
      assert r[2 * |init|] == last && r[2 * |init| + 1] == size + 1 - last;
      r
  }

  /** The seed order for `size` positions. Sizes below 1 give `[1]`, odd
      sizes and sizes above 1024 give the identity order, and other even
      sizes interleave the half-size order with its mirror. */
  function StandardSeedOrder(size: nat): (r: seq<int>)
    ensures |r| == if size < 1 then 1 else size
    decreases size
  {
    if size < 1 then Identity(1)
    else if size == 1 then [1]
    else if size == 2 then [1, 2]
    else if size % 2 != 0 then Identity(size)
    else if size > 1024 then Identity(size)
    else Interleave(StandardSeedOrder(size / 2), size)
  }

  /** `getStandardSeedOrder(size)`, recursion and push loop included. The
      guards on `half` and on the length of the half-size order are kept
      although they never fire. */
  method GetStandardSeedOrder(size: nat) returns (r: seq<int>)
    ensures r == StandardSeedOrder(size)
    decreases size
  {
    if size < 1 {
      return Identity(1);
    }
    if size == 1 {
      return [1];
    }
    if size == 2 {
      return [1, 2];
    }
    if size % 2 != 0 || size < 2 {
      return Identity(size);
    }
    var half := size / 2;
    if half < 1 || size > 1024 {
      return Identity(size);
    }
    var firstHalf := GetStandardSeedOrder(half);
    if |firstHalf| != half {
      return Identity(size);
    }
    r := PushMirrored(firstHalf, size);
  }

  /** The push loop of `getStandardSeedOrder`: each seed of the half-size
      order, then its mirror. */
  method PushMirrored(firstHalf: seq<int>, size: int) returns (r: seq<int>)
    ensures r == Interleave(firstHalf, size)
  {
    r := [];
    var i := 0;
    while i < |firstHalf|
      invariant 0 <= i <= |firstHalf|
      invariant r == Interleave(firstHalf[..i], size)
    {
      var h := firstHalf[..i + 1];
      assert h[..i] == firstHalf[..i] && h[i] == firstHalf[i];
      assert Interleave(h, size) == Interleave(firstHalf[..i], size) + [firstHalf[i], size + 1 - firstHalf[i]];
      r := r + [firstHalf[i], size - firstHalf[i] + 1];
      i := i + 1;
    }
    assert firstHalf[..i] == firstHalf;
  }

  /** `r` lists each of the seeds 1..n exactly once. */
  ghost predicate IsSeedPermutation(r: seq<int>, n: nat)
  {
    && |r| == n
    && (forall i :: 0 <= i < n ==> 1 <= r[i] <= n)
    && Distinct(r)
    && (forall v :: 1 <= v <= n ==> v in r)
  }

  lemma IdentityIsPermutation(n: nat)
    ensures IsSeedPermutation(Identity(n), n)
  {
    var r := Identity(n);
    forall v | 1 <= v <= n
      ensures v in r
    {
      assert r[v - 1] == v;
    }
  }

  lemma InterleaveIsPermutation(h: seq<int>, half: nat)
    requires IsSeedPermutation(h, half)
    ensures IsSeedPermutation(Interleave(h, 2 * half), 2 * half)
  {
    InterleaveRange(h, half);
    InterleaveDistinct(h, half);
    InterleaveCovers(h, half);
  }

  lemma InterleaveRange(h: seq<int>, half: nat)
    requires IsSeedPermutation(h, half)
    ensures var r := Interleave(h, 2 * half);
      forall i :: 0 <= i < 2 * half ==> if i % 2 == 0 then 1 <= r[i] <= half else half < r[i] <= 2 * half
  {
    var size := 2 * half;
    var r := Interleave(h, size);
    forall i | 0 <= i < size
      ensures if i % 2 == 0 then 1 <= r[i] <= half else half < r[i] <= size
    {
      if i % 2 == 0 {
        assert r[2 * (i / 2)] == h[i / 2];
      } else {
        assert r[2 * (i / 2) + 1] == size + 1 - h[i / 2];
      }
    }
  }

  lemma InterleaveDistinct(h: seq<int>, half: nat)
    requires IsSeedPermutation(h, half)
    ensures Distinct(Interleave(h, 2 * half))
  {
    var size := 2 * half;
    var r := Interleave(h, size);
    forall i, j | 0 <= i < j < size
      ensures r[i] != r[j]
    {
      assert r[i] == if i % 2 == 0 then h[i / 2] else size + 1 - h[i / 2];
      assert r[j] == if j % 2 == 0 then h[j / 2] else size + 1 - h[j / 2];
      if i % 2 == j % 2 {
        assert i / 2 < j / 2;
        assert h[i / 2] != h[j / 2];
      }
    }
  }

  lemma InterleaveCovers(h: seq<int>, half: nat)
    requires IsSeedPermutation(h, half)
    ensures forall v :: 1 <= v <= 2 * half ==> v in Interleave(h, 2 * half)
  {
    var size := 2 * half;
    var r := Interleave(h, size);
    forall v | 1 <= v <= size
      ensures v in r
    {
      var w := if v <= half then v else size + 1 - v;
      assert w in h;
      var k := IndexOf(h, w);
      assert 0 <= k < |h| && h[k] == w;
      var at := if v <= half then 2 * k else 2 * k + 1;
      assert 0 <= at < |r| && r[at] == v;
    }
  }

  /** For every size of at least one position the order is a permutation of
      the seeds 1..size. */
  lemma {:induction false} SeedOrderIsPermutation(size: nat)
    requires size >= 1
    ensures IsSeedPermutation(StandardSeedOrder(size), size)
    decreases size
  {
    if size == 1 || size % 2 != 0 || size > 1024 {
      IdentityIsPermutation(size);
    } else if size == 2 {
      assert StandardSeedOrder(2) == Identity(2);
      IdentityIsPermutation(2);
    } else {
      SeedOrderIsPermutation(size / 2);
      InterleaveIsPermutation(StandardSeedOrder(size / 2), size / 2);
    }
  }

  /** For an even number of positions up to 1024, positions 2p and 2p + 1
      hold seeds adding up to `size + 1`, the better one first. */
  lemma SeedOrderPairs(size: nat)
    requires size % 2 == 0 && 2 <= size <= 1024
    ensures var r := StandardSeedOrder(size);
      forall p :: 0 <= p < size / 2 ==> r[2 * p] + r[2 * p + 1] == size + 1 && r[2 * p] <= size / 2
  {
    if size > 2 {
      SeedOrderIsPermutation(size / 2);
    }
  }

  /** For a power of two up to 1024, seed 1 opens the top half and seed 2
      opens the bottom half. */
  lemma {:induction false} TopSeedsInOppositeHalves(size: nat)
    requires IsPow2(size) && 2 <= size <= 1024
    ensures StandardSeedOrder(size)[0] == 1 && StandardSeedOrder(size)[size / 2] == 2
    decreases size
  {
    if size > 2 {
      TopSeedsInOppositeHalves(size / 2);
      var h := StandardSeedOrder(size / 2);
      assert StandardSeedOrder(size)[2 * 0] == h[0];
      assert StandardSeedOrder(size)[2 * (size / 4)] == h[size / 4];
    }
  }

  /** Whatever the size, the order opens with seed 1. */
  lemma {:induction false} SeedOrderStartsWithOne(size: nat)
    requires size >= 1
    ensures StandardSeedOrder(size)[0] == 1
    decreases size
  {
    if size % 2 == 0 && size <= 1024 {
      SeedOrderStartsWithOne(size / 2);
    }
  }

  /** Odd sizes keep the seeds in order. */
  lemma SeedOrderOdd(size: nat)
    requires size % 2 == 1
    ensures StandardSeedOrder(size) == Identity(size)
  {
  }

  lemma SeedOrderOfEight()
    ensures StandardSeedOrder(8) == [1, 8, 4, 5, 2, 7, 3, 6]
  {
  }
}
