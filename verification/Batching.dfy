/** Counting in pages and batches of a fixed size. */
module Batching {

  function Min(a: int, b: int): (r: int)
    ensures r <= a && r <= b && (r == a || r == b)
  {
    if a < b then a else b
  }

  /** Start of the k-th page: offset += limit, k times. */
  function Offset(limit: nat, k: nat): nat {
    if k == 0 then 0 else Offset(limit, k - 1) + limit
  }

  lemma OffsetIsProduct(size: nat, k: nat)
    ensures Offset(size, k) == k * size
  {
    if k > 0 {
      OffsetIsProduct(size, k - 1);
      assert k * size == (k - 1) * size + size;
    }
  }

  lemma ProductGrows(a: int, b: int, size: nat)
    requires a <= b
    ensures a * size <= b * size
  {
  }

  lemma CeilingMeans(n: nat, size: nat, k: nat)
    requires size >= 1
    ensures k * size >= n <==> k >= (n + size - 1) / size
  {
    var c := (n + size - 1) / size;
    assert n <= c * size < n + size;
    if k >= c {
      ProductGrows(c, k, size);
    } else {
      ProductGrows(k, c - 1, size);
      assert (c - 1) * size == c * size - size;
    }
  }
}
