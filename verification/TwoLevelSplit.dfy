/** Arithmetic and ordering facts behind the rebuild of a two-level mapping table:
    how `__new_roots` cuts a sorted run of keys into leaves, and why the cut is the
    one that the binary search over separators finds again. */
module TwoLevelSplit {
  import opened Types

  /** One hash index to grain mapping, `struct leaf_e`. */
  datatype Entry = Entry(hidx: nat, ppa: nat)

  ghost predicate Ascending(es: seq<Entry>) {
    forall i, j :: 0 <= i < j < |es| ==> es[i].hidx <= es[j].hidx
  }

  ghost predicate StrictlyAscending(es: seq<Entry>) {
    forall i, j :: 0 <= i < j < |es| ==> es[i].hidx < es[j].hidx
  }

  ghost predicate DistinctKeys(es: seq<Entry>) {
    forall i, j :: 0 <= i < j < |es| ==> es[i].hidx != es[j].hidx
  }

  // ----- sorting (the kernel's sort() with cmp_hidx) -----

  function InsertSorted(e: Entry, es: seq<Entry>): (r: seq<Entry>)
    ensures |r| == |es| + 1
    ensures multiset(r) == multiset(es) + multiset{e}
  {
    if es == [] || e.hidx <= es[0].hidx then [e] + es
    else
      assert es == [es[0]] + es[1..];
      [es[0]] + InsertSorted(e, es[1..])
  }

  function SortByHidx(es: seq<Entry>): (r: seq<Entry>)
    ensures |r| == |es|
    ensures multiset(r) == multiset(es)
  {
    if es == [] then []
    else
      assert es == [es[0]] + es[1..];
      InsertSorted(es[0], SortByHidx(es[1..]))
  }

  lemma {:induction false} InsertSortedAscending(e: Entry, es: seq<Entry>)
    requires Ascending(es)
    ensures Ascending(InsertSorted(e, es))
  {
    if es == [] || e.hidx <= es[0].hidx {
    } else {
      InsertSortedAscending(e, es[1..]);
      var r := InsertSorted(e, es[1..]);
      forall i | 0 <= i < |r|
        ensures es[0].hidx <= r[i].hidx
      {
        assert r[i] in multiset(r);
        assert multiset(r) == multiset(es[1..]) + multiset{e};
        assert r[i] == e || r[i] in es[1..];
      }
    }
  }

  lemma {:induction false} SortByHidxAscending(es: seq<Entry>)
    ensures Ascending(SortByHidx(es))
  {
    if es != [] {
      SortByHidxAscending(es[1..]);
      InsertSortedAscending(es[0], SortByHidx(es[1..]));
    }
  }

  lemma SameMembers(a: seq<Entry>, b: seq<Entry>)
    requires multiset(a) == multiset(b)
    ensures forall e :: e in a <==> e in b
  {
    forall e
      ensures e in a <==> e in b
    {
      assert e in a <==> e in multiset(a);
      assert e in b <==> e in multiset(b);
    }
  }

  /** Two equal keys in the result would be two equal keys in the input. */
  lemma {:induction false} PermutationKeepsDistinctKeys(a: seq<Entry>, b: seq<Entry>)
    requires multiset(a) == multiset(b) && DistinctKeys(a)
    ensures DistinctKeys(b)
  {
    SameMembers(a, b);
    forall i, j | 0 <= i < j < |b|
      ensures b[i].hidx != b[j].hidx
    {
      if b[i].hidx == b[j].hidx {
        assert b[i] in a && b[j] in a;
        assert b[i] == b[j];
        Occurrences(b, i, j);
        DistinctOnce(a, b[i]);
      }
    }
  }

  lemma Occurrences(b: seq<Entry>, i: nat, j: nat)
    requires i < j < |b| && b[i] == b[j]
    ensures multiset(b)[b[i]] >= 2
  {
    assert b == b[..j] + [b[j]] + b[j + 1..];
    assert b[..j][i] == b[i];
    assert b[i] in multiset(b[..j]);
  }

  lemma {:induction false} DistinctOnce(a: seq<Entry>, e: Entry)
    requires DistinctKeys(a)
    ensures multiset(a)[e] <= 1
  {
    if a != [] {
      assert a == [a[0]] + a[1..];
      DistinctOnce(a[1..], e);
      if a[0] == e {
        assert forall i :: 0 <= i < |a[1..]| ==> a[1..][i] != e;
        assert e !in a[1..];
      }
    }
  }

  /** A sort of entries with distinct keys is strictly ascending and keeps the entries. */
  lemma SortDistinct(es: seq<Entry>)
    requires DistinctKeys(es)
    ensures StrictlyAscending(SortByHidx(es))
    ensures forall e :: e in SortByHidx(es) <==> e in es
  {
    SortByHidxAscending(es);
    PermutationKeepsDistinctKeys(es, SortByHidx(es));
    SameMembers(es, SortByHidx(es));
  }

  // ----- cutting n keys into c leaves -----

  /** The number of keys that leaf `i` receives. */
  function LeafSize(n: nat, c: nat, i: nat): nat
    requires c > 0
  {
    n / c + if i < n % c then 1 else 0
  }

  /** The index of the first key of leaf `i`. */
  function Start(n: nat, c: nat, i: nat): nat
    requires c > 0
  {
    if i == 0 then 0 else Start(n, c, i - 1) + LeafSize(n, c, i - 1)
  }

  lemma {:induction false} StartClosedForm(n: nat, c: nat, i: nat)
    requires 0 < c && i <= c
    ensures Start(n, c, i) == i * (n / c) + if i < n % c then i else n % c
  {
    if i > 0 {
      StartClosedForm(n, c, i - 1);
    }
  }

  /** All keys are handed out. */
  lemma StartEnds(n: nat, c: nat)
    requires 0 < c
    ensures Start(n, c, c) == n
  {
    StartClosedForm(n, c, c);
  }

  lemma {:induction false} StartMonotone(n: nat, c: nat, i: nat, j: nat)
    requires 0 < c && i <= j
    ensures Start(n, c, i) <= Start(n, c, j)
    decreases j
  {
    if i < j {
      StartMonotone(n, c, i, j - 1);
    }
  }

  /** With at least one key, the first leaf is not empty. */
  lemma StartPositive(n: nat, c: nat, i: nat)
    requires 0 < c && 0 < n && 0 < i
    ensures 1 <= Start(n, c, i)
  {
    StartMonotone(n, c, 1, i);
    if n / c == 0 {
      assert n == c * (n / c) + n % c;
    }
    assert Start(n, c, 1) == Start(n, c, 0) + LeafSize(n, c, 0);
  }

  /** No leaf receives more than `cap` keys when `c` leaves of `cap` slots hold `n` keys. */
  lemma LeafSizeBound(n: nat, c: nat, cap: nat, i: nat)
    requires 0 < c && n <= c * cap
    ensures LeafSize(n, c, i) <= cap
  {
    var q, r := n / c, n % c;
    assert n == c * q + r;
    if q >= cap {
      assert c * q >= c * cap;
      assert r == 0;
      assert q == cap || c * q >= c * (cap + 1);
    }
  }

  /** Every key index falls into exactly one leaf. */
  lemma {:induction false} GroupOf(n: nat, c: nat, t: nat, hi: nat) returns (g: nat)
    requires 0 < c && hi <= c && t < Start(n, c, hi)
    ensures g < hi && Start(n, c, g) <= t < Start(n, c, g + 1)
    decreases hi
  {
    if t < Start(n, c, hi - 1) {
      g := GroupOf(n, c, t, hi - 1);
    } else {
      g := hi - 1;
    }
  }

  /** `k` is the last key of the leaf that ends before leaf `i`. */
  ghost predicate EndsBefore(k: nat, es: seq<Entry>, c: nat, i: nat)
    requires 0 < c
  {
    1 <= Start(|es|, c, i) <= |es| && k == es[Start(|es|, c, i) - 1].hidx
  }

  /** The separators that `__new_roots` writes for sorted entries `es` and `c` leaves. */
  ghost predicate AreSeparators(roots: seq<nat>, es: seq<Entry>, c: nat)
    requires 0 < c
  {
    && |roots| == c
    && roots[c - 1] == UINT_MAX
    && forall i :: 0 <= i < c - 1 ==> EndsBefore(roots[i], es, c, i + 1)
  }

  /** Leaf `i` is where the binary search over `roots` sends key `k`. */
  ghost predicate IsHome(roots: seq<nat>, i: nat, k: nat) {
    i < |roots| && k <= roots[i] && (i > 0 ==> roots[i - 1] < k)
  }

  lemma SeparatorsAscending(roots: seq<nat>, es: seq<Entry>, c: nat)
    requires 0 < c && AreSeparators(roots, es, c) && StrictlyAscending(es)
    requires forall e :: e in es ==> e.hidx < UINT_MAX
    ensures forall i, j :: 0 <= i < j < c ==> roots[i] <= roots[j]
    ensures forall i :: 0 <= i < c - 1 ==> roots[i] < UINT_MAX
  {
    forall i | 0 <= i < c - 1
      ensures roots[i] < UINT_MAX
    {
      assert EndsBefore(roots[i], es, c, i + 1);
      assert es[Start(|es|, c, i + 1) - 1] in es;
    }
    forall i, j | 0 <= i < j < c
      ensures roots[i] <= roots[j]
    {
      if j < c - 1 {
        assert EndsBefore(roots[i], es, c, i + 1) && EndsBefore(roots[j], es, c, j + 1);
        StartMonotone(|es|, c, i + 1, j + 1);
      }
    }
  }

  /** The search over the new separators sends each key back to the leaf it was cut into. */
  lemma SeparatorsSendHome(roots: seq<nat>, es: seq<Entry>, c: nat, t: nat, g: nat)
    requires 0 < c && AreSeparators(roots, es, c) && StrictlyAscending(es)
    requires forall e :: e in es ==> e.hidx < UINT_MAX
    requires t < |es| && g < c && Start(|es|, c, g) <= t < Start(|es|, c, g + 1)
    ensures IsHome(roots, g, es[t].hidx)
  {
    assert es[t] in es;
    if g < c - 1 {
      assert EndsBefore(roots[g], es, c, g + 1);
      assert es[t].hidx <= es[Start(|es|, c, g + 1) - 1].hidx;
    }
    if g > 0 {
      assert EndsBefore(roots[g - 1], es, c, g);
    }
  }

  /** Sorted separators have at most one home for a key. */
  lemma HomeUnique(roots: seq<nat>, i: nat, j: nat, k: nat)
    requires forall a, b :: 0 <= a < b < |roots| ==> roots[a] <= roots[b]
    requires IsHome(roots, i, k) && IsHome(roots, j, k)
    ensures i == j
  {
  }

  /** `__new_roots`: pick the last key of each leaf but the last as its separator. */
  method NewRoots(es: seq<Entry>, c: nat) returns (roots: seq<nat>)
    requires 0 < c && 0 < |es|
    ensures AreSeparators(roots, es, c)
  {
    var keysPerLeaf := |es| / c;
    var extraKeys := |es| % c;
    var keyIndex := 0;
    roots := [];
    StartEnds(|es|, c);
    for i := 0 to c
      invariant |roots| == i
      invariant keyIndex == Start(|es|, c, i)
      invariant extraKeys == if i < |es| % c then |es| % c - i else 0
      invariant forall k :: 0 <= k < i && k < c - 1 ==> EndsBefore(roots[k], es, c, k + 1)
      invariant i == c ==> roots[c - 1] == UINT_MAX
    {
      StartPositive(|es|, c, i + 1);
      StartMonotone(|es|, c, i + 1, c);
      keyIndex := keyIndex + keysPerLeaf - 1;
      if extraKeys > 0 {
        keyIndex := keyIndex + 1;
        extraKeys := extraKeys - 1;
      }
      assert Start(|es|, c, i + 1) == Start(|es|, c, i) + LeafSize(|es|, c, i);
      if i < c - 1 {
        roots := roots + [es[keyIndex].hidx];
      } else {
        roots := roots + [UINT_MAX];
      }
      keyIndex := keyIndex + 1;
    }
  }
}
