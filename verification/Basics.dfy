/** Small shared vocabulary: optional values, results and alignment arithmetic. */
module Basics {

  datatype Option<+T> = None | Some(value: T)

  datatype Result<+T, +E> = Ok(value: T) | Err(error: E)

  function Max(x: nat, y: nat): nat {
    if x < y then y else x
  }

  /** Rounds `x` up to a multiple of `g`, in the way both the partition table and the
      volume group do it: unchanged when already aligned, otherwise to the next multiple. */
  function AlignUp(x: nat, g: nat): (r: nat)
    requires 0 < g
    ensures r % g == 0
    ensures x <= r < x + g
  {
    ModBounds(x, g);
    if x % g == 0 then x
    else
      assert (x - x % g) + g == (x / g + 1) * g;
      MultipleAligned(x / g + 1, g);
      (x - x % g) + g
  }

  lemma ModBounds(x: nat, g: nat)
    requires 0 < g
    ensures x == g * (x / g) + x % g && 0 <= x % g < g
  {
  }

  lemma ProductSign(g: int, k: int)
    requires 0 < g
    ensures 0 < k ==> g <= g * k
    ensures k < 0 ==> g * k <= -g
  {
  }

  /** Quotient and remainder are determined by the division equation. */
  lemma DivisionUnique(x: nat, g: nat, q: int, r: nat)
    requires 0 < g && x == g * q + r && r < g
    ensures x % g == r
  {
    ModBounds(x, g);
    ProductSign(g, x / g - q);
    assert g * (x / g - q) == r - x % g;
  }

  lemma MultipleAligned(k: nat, g: nat)
    requires 0 < g
    ensures (k * g) % g == 0
  {
    DivisionUnique(k * g, g, k, 0);
  }

  /** Sums of aligned numbers are aligned. */
  lemma AlignedSum(x: nat, y: nat, g: nat)
    requires 0 < g && x % g == 0 && y % g == 0
    ensures (x + y) % g == 0
  {
    assert x + y == (x / g + y / g) * g;
    MultipleAligned(x / g + y / g, g);
  }

  lemma AlignedDifference(x: nat, y: nat, g: nat)
    requires 0 < g && x % g == 0 && y % g == 0 && y <= x
    ensures (x - y) % g == 0
  {
    assert x - y == g * (x / g - y / g);
    DivisionUnique(x - y, g, x / g - y / g, 0);
  }

  /** `AlignUp` is the least aligned number that is large enough. */
  lemma AlignUpLeast(x: nat, y: nat, g: nat)
    requires 0 < g && x <= y && y % g == 0
    ensures AlignUp(x, g) <= y
  {
    var r := AlignUp(x, g);
    if y < r {
      AlignedDifference(r, y, g);
      DivisionUnique(r - y, g, 0, r - y);
    }
  }

  lemma AlignUpMonotone(x: nat, y: nat, g: nat)
    requires 0 < g && x <= y
    ensures AlignUp(x, g) <= AlignUp(y, g)
  {
    AlignUpLeast(x, AlignUp(y, g), g);
  }

  /** A permutation of `xs` contains the head of `xs`, and the rests are permutations. */
  lemma SplitAtHead<T>(xs: seq<T>, ys: seq<T>) returns (a: seq<T>, b: seq<T>)
    requires xs != [] && multiset(xs) == multiset(ys)
    ensures ys == a + [xs[0]] + b
    ensures multiset(xs[1..]) == multiset(a + b)
  {
    assert xs[0] in multiset(ys);
    var k :| 0 <= k < |ys| && ys[k] == xs[0];
    a, b := ys[..k], ys[k + 1..];
    assert ys == a + [xs[0]] + b;
    HeadRemoved(xs);
    MiddleRemoved(a, xs[0], b);
  }

  lemma HeadRemoved<T>(xs: seq<T>)
    requires xs != []
    ensures multiset(xs[1..]) == multiset(xs) - multiset{xs[0]}
  {
    assert xs == [xs[0]] + xs[1..];
  }

  lemma MiddleRemoved<T>(a: seq<T>, x: T, b: seq<T>)
    ensures multiset(a + b) == multiset(a + [x] + b) - multiset{x}
  {
  }

  lemma SameLength<T>(xs: seq<T>, ys: seq<T>)
    requires multiset(xs) == multiset(ys)
    ensures |xs| == |ys|
  {
    assert |multiset(xs)| == |xs| && |multiset(ys)| == |ys|;
  }

  lemma TailsPermute<T>(xs: seq<T>, ys: seq<T>)
    requires xs != [] && ys != [] && multiset(xs) == multiset(ys) && xs[0] == ys[0]
    ensures multiset(xs[1..]) == multiset(ys[1..])
  {
    HeadRemoved(xs);
    HeadRemoved(ys);
  }

  /** Where an element of `ys` occurs in the permutation `xs`. */
  lemma Occurrence<T>(xs: seq<T>, ys: seq<T>, y: T) returns (i: nat)
    requires multiset(xs) == multiset(ys) && y in ys
    ensures i < |xs| && xs[i] == y
  {
    assert y in multiset(ys);
    i :| 0 <= i < |xs| && xs[i] == y;
  }

  lemma SwapLastTwo<T>(r: seq<T>) returns (s: seq<T>)
    requires 1 < |r|
    ensures |s| == |r| && multiset(s) == multiset(r)
    ensures forall i :: 0 <= i < |r| - 2 ==> s[i] == r[i]
    ensures s[|r| - 2] == r[|r| - 1] && s[|r| - 1] == r[|r| - 2]
  {
    var n := |r|;
    s := r[..n - 2] + [r[n - 1], r[n - 2]];
    assert r == r[..n - 2] + [r[n - 2], r[n - 1]];
  }

  lemma AroundIndex<T>(s: seq<T>, k: nat)
    requires k < |s|
    ensures s == s[..k] + [s[k]] + s[k + 1..]
  {
  }

  // ---------- sums over finite maps ----------

  ghost function SumOver<K>(sizes: map<K, nat>, keys: set<K>): nat
    requires keys <= sizes.Keys
  {
    if keys == {} then 0
    else
      var k :| k in keys;
      sizes[k] + SumOver(sizes, keys - {k})
  }

  /** The sum does not depend on the order in which it is taken. */
  lemma {:induction false} SumOverRemove<K>(sizes: map<K, nat>, keys: set<K>, x: K)
    requires keys <= sizes.Keys && x in keys
    ensures SumOver(sizes, keys) == sizes[x] + SumOver(sizes, keys - {x})
  {
    var k :| k in keys && SumOver(sizes, keys) == sizes[k] + SumOver(sizes, keys - {k});
    if k != x {
      SumOverRemove(sizes, keys - {k}, x);
      SumOverRemove(sizes, keys - {x}, k);
      assert keys - {k} - {x} == keys - {x} - {k};
    }
  }

  lemma SumOverAdd<K>(sizes: map<K, nat>, keys: set<K>, x: K)
    requires keys <= sizes.Keys && x in sizes && x !in keys
    ensures SumOver(sizes, keys + {x}) == SumOver(sizes, keys) + sizes[x]
  {
    SumOverRemove(sizes, keys + {x}, x);
    assert keys + {x} - {x} == keys;
  }

  /** Only the values at the summed keys matter. */
  lemma {:induction false} SumOverSame<K>(sizes: map<K, nat>, sizes': map<K, nat>, keys: set<K>)
    requires keys <= sizes.Keys && keys <= sizes'.Keys
    requires forall k :: k in keys ==> sizes[k] == sizes'[k]
    ensures SumOver(sizes, keys) == SumOver(sizes', keys)
  {
    if keys != {} {
      var x :| x in keys;
      SumOverRemove(sizes, keys, x);
      SumOverRemove(sizes', keys, x);
      SumOverSame(sizes, sizes', keys - {x});
    }
  }
}
