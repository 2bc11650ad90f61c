/** The two-level mapping table of one hash table section (twolevel.c).

    A page holds a root of separators followed by leaves of eight slots. The table is
    changed in place: a leaf fills up by appending, a full leaf forces a rebuild that
    cuts all keys evenly over the leaves, and overwrite and delete go by the byte
    position of the mapping in the page. `M` is the map the table stands for. */
module TwoLevelTable {
  import opened Types
  import opened TwoLevelSplit

  const GRAINED_UNIT: nat := 64
  const ORIG_GLEN: nat := ROOT_G + 2
  const ROOT_BYTES: nat := 4 + 4 * IN_ROOT
  const LEAF_BYTES: nat := 8 * IN_LEAF

  // ----- byte positions -----

  /** Slot `j` of leaf `i`. */
  datatype Slot = Slot(i: nat, j: nat)

  /** The byte position in the page of the grain stored in slot `s`. */
  function PosOf(s: Slot): nat {
    ROOT_BYTES + LEAF_BYTES * s.i + 4 * IN_LEAF + 4 * s.j
  }

  /** Root and leaves fit the page. */
  lemma InPage(s: Slot)
    requires s.i < IN_ROOT && s.j < IN_LEAF
    ensures PosOf(s) + 4 <= GRAINED_UNIT * GRAIN_PER_PAGE < UINT_MAX
  {
  }

  lemma DivideByUnit(q: nat, r: nat)
    requires r < 64
    ensures (64 * q + r) / 64 == q && (64 * q + r) % 64 == r
  {
  }

  /** The slot whose grain lies at byte `pos`, as an overwrite addresses it. */
  method Locate(pos: nat, ghost s: Slot) returns (i: nat, j: nat)
    requires s.i < IN_ROOT && s.j < IN_LEAF && pos == PosOf(s)
    ensures i == s.i && j == s.j
  {
    var off := pos - ROOT_BYTES;
    DivideByUnit(s.i, 32 + 4 * s.j);
    i := off / LEAF_BYTES;
    j := (off % LEAF_BYTES - 4 * IN_LEAF) / 4;
  }

  /** The slot that a delete computes: it finds the leaf by whole grains, ROOT_G of them
      for the root, although the root is 12 bytes short of that. */
  method LocateForDelete(pos: nat, ghost s: Slot) returns (i: nat, j: nat)
    requires s.i < IN_ROOT && s.j < IN_LEAF && pos == PosOf(s)
    ensures i == s.i && j == s.j
  {
    DivideByUnit(s.i + 4, 20 + 4 * s.j);
    i := pos / GRAINED_UNIT - ROOT_G;
    var leafBytes := ROOT_BYTES + LEAF_BYTES * i;
    j := (pos - leafBytes - 32) / 4;
  }

  // ----- runs of entries as maps -----

  /** As many distinct keys as the key set has, no more. */
  lemma {:induction false} DistinctCount(es: seq<Entry>, keys: set<nat>)
    requires DistinctKeys(es)
    requires forall e :: e in es ==> e.hidx in keys
    requires forall k :: k in keys ==> exists e :: e in es && e.hidx == k
    ensures |es| == |keys|
  {
    if es == [] {
      assert forall k :: k !in keys;
    } else {
      var rest, k0 := es[1..], es[0].hidx;
      forall e | e in rest
        ensures e.hidx in keys - {k0}
      {
        var i :| 0 <= i < |rest| && rest[i] == e;
        assert es[i + 1] == e;
      }
      forall k | k in keys - {k0}
        ensures exists e :: e in rest && e.hidx == k
      {
        var e :| e in es && e.hidx == k;
        assert e in rest;
      }
      DistinctCount(rest, keys - {k0});
    }
  }

  /** The map that a run of entries stands for. */
  ghost predicate Represents(es: seq<Entry>, m: map<nat, nat>) {
    && DistinctKeys(es)
    && (forall e :: e in es ==> e.hidx in m && m[e.hidx] == e.ppa)
    && (forall k :: k in m ==> Entry(k, m[k]) in es)
  }

  lemma RepresentsSize(es: seq<Entry>, m: map<nat, nat>)
    requires Represents(es, m)
    ensures |es| == |m|
  {
    forall k | k in m.Keys
      ensures exists e :: e in es && e.hidx == k
    {
      assert Entry(k, m[k]) in es;
    }
    DistinctCount(es, m.Keys);
  }

  // ----- one leaf -----

  /** `struct leaf`: eight slots, the unused ones hold UINT_MAX. */
  type Leaf = seq<Entry>

  const EMPTY_SLOT: Entry := Entry(UINT_MAX, UINT_MAX)

  /** The entries `es` in the first slots of a leaf. */
  function Pad(es: seq<Entry>): (leaf: Leaf)
    requires |es| <= IN_LEAF
    ensures |leaf| == IN_LEAF && es <= leaf
  {
    es + seq(IN_LEAF - |es|, _ => EMPTY_SLOT)
  }

  lemma PadAppend(es: seq<Entry>, e: Entry)
    requires |es| < IN_LEAF
    ensures Pad(es)[|es| := e] == Pad(es + [e])
  {
  }

  lemma PadReplace(es: seq<Entry>, j: nat, e: Entry)
    requires j < |es| <= IN_LEAF
    ensures Pad(es)[j := e] == Pad(es[j := e])
  {
  }

  lemma PadRemove(es: seq<Entry>, j: nat)
    requires j < |es| <= IN_LEAF
    ensures Pad(es)[..j] + Pad(es)[j + 1..] + [EMPTY_SLOT] == Pad(es[..j] + es[j + 1..])
  {
  }

  /** The loop of a delete: move the later slots down and empty the last one. */
  method CloseGap(leaf: Leaf, first: nat, ghost es: seq<Entry>) returns (lf: Leaf)
    requires first < |es| <= IN_LEAF && leaf == Pad(es)
    ensures lf == Pad(es[..first] + es[first + 1..])
  {
    lf := leaf;
    for j := first to IN_LEAF - 1
      invariant |lf| == IN_LEAF
      invariant forall c :: 0 <= c < IN_LEAF ==> lf[c] == leaf[if first <= c < j then c + 1 else c]
    {
      lf := lf[j := lf[j + 1]];
    }
    lf := lf[IN_LEAF - 1 := EMPTY_SLOT];
    assert lf == leaf[..first] + leaf[first + 1..] + [EMPTY_SLOT];
    PadRemove(es, first);
  }

  // ----- all leaves -----

  type Parts = seq<seq<Entry>>

  /** The leaves hold the entries of `parts`. */
  ghost predicate Padded(l: seq<Leaf>, parts: Parts) {
    && |l| == |parts| == IN_ROOT
    && (forall i :: 0 <= i < IN_ROOT ==> |parts[i]| <= IN_LEAF)
    && (forall i :: 0 <= i < IN_ROOT ==> l[i] == Pad(parts[i]))
  }

  /** Part `i` holds mappings of `m` whose home is `i`, each key once. */
  ghost predicate PartOf(es: seq<Entry>, m: map<nat, nat>, roots: seq<nat>, i: nat) {
    && DistinctKeys(es)
    && (es != [] ==> i < |roots|)
    && forall e :: e in es ==> e.hidx < UINT_MAX && e.hidx in m && m[e.hidx] == e.ppa && IsHome(roots, i, e.hidx)
  }

  ghost predicate InSome(parts: Parts, e: Entry) {
    exists i :: 0 <= i < |parts| && e in parts[i]
  }

  /** `m` is cut into `parts`, each key in the part where the search over `roots` looks. */
  ghost predicate CutBy(m: map<nat, nat>, parts: Parts, roots: seq<nat>) {
    && (forall i :: 0 <= i < |parts| ==> PartOf(parts[i], m, roots, i))
    && (forall k :: k in m ==> InSome(parts, Entry(k, m[k])))
  }

  ghost predicate Sorted(roots: seq<nat>) {
    forall i, j :: 0 <= i < j < |roots| ==> roots[i] <= roots[j]
  }

  /** The separators are sorted, the last one admits every key, and a leaf under a
      separator that was never set is empty. */
  ghost predicate Rooted(parts: Parts, roots: seq<nat>) {
    && 1 <= |roots| <= |parts|
    && Sorted(roots)
    && roots[|roots| - 1] == UINT_MAX
    && (forall i :: 0 <= i < |roots| - 1 && roots[i] == UINT_MAX ==> parts[i] == [])
  }

  /** A mapping of `m` is in the part that the search picks, and only there. */
  lemma InItsPart(m: map<nat, nat>, parts: Parts, roots: seq<nat>, i: nat, k: nat)
    requires CutBy(m, parts, roots) && Sorted(roots) && i < |parts| && IsHome(roots, i, k)
    ensures k in m ==> Entry(k, m[k]) in parts[i]
    ensures k !in m ==> forall e :: e in parts[i] ==> e.hidx != k
  {
    assert PartOf(parts[i], m, roots, i);
    if k in m {
      assert InSome(parts, Entry(k, m[k]));
      var c :| 0 <= c < |parts| && Entry(k, m[k]) in parts[c];
      assert PartOf(parts[c], m, roots, c);
      HomeUnique(roots, i, c, k);
    }
  }

  /** If part `i` takes over the change of key `k`, the cut is one of the changed map. */
  lemma Recut(m: map<nat, nat>, parts: Parts, roots: seq<nat>, i: nat, k: nat, m': map<nat, nat>, es': seq<Entry>)
    requires CutBy(m, parts, roots) && Sorted(roots) && i < |parts| && IsHome(roots, i, k)
    requires PartOf(es', m', roots, i)
    requires m' - {k} == m - {k}
    requires forall e :: e in parts[i] && e.hidx != k ==> e in es'
    requires k in m' ==> Entry(k, m'[k]) in es'
    ensures CutBy(m', parts[i := es'], roots)
  {
    var parts' := parts[i := es'];
    forall c | 0 <= c < |parts'|
      ensures PartOf(parts'[c], m', roots, c)
    {
      if c != i {
        assert PartOf(parts[c], m, roots, c);
        forall e | e in parts[c]
          ensures e.hidx in m' && m'[e.hidx] == e.ppa
        {
          if e.hidx == k {
            HomeUnique(roots, i, c, k);
          }
          assert e.hidx in m - {k};
        }
      }
    }
    forall q | q in m'
      ensures InSome(parts', Entry(q, m'[q]))
    {
      if q == k {
        assert Entry(q, m'[q]) in parts'[i];
      } else {
        assert q in m' - {k};
        assert InSome(parts, Entry(q, m[q]));
        var c :| 0 <= c < |parts| && Entry(q, m[q]) in parts[c];
        assert Entry(q, m'[q]) in parts'[c];
      }
    }
  }

  lemma RecutInsert(m: map<nat, nat>, parts: Parts, roots: seq<nat>, i: nat, k: nat, grain: nat)
    requires CutBy(m, parts, roots) && Sorted(roots) && i < |parts| && IsHome(roots, i, k) && k !in m && k < UINT_MAX
    ensures CutBy(m[k := grain], parts[i := parts[i] + [Entry(k, grain)]], roots)
  {
    var es, m' := parts[i], m[k := grain];
    assert PartOf(es, m, roots, i);
    assert forall j :: 0 <= j < |es| ==> es[j] in es && es[j].hidx != k;
    assert PartOf(es + [Entry(k, grain)], m', roots, i);
    assert m' - {k} == m - {k};
    Recut(m, parts, roots, i, k, m', es + [Entry(k, grain)]);
  }

  /** Rewriting slot `j` changes the grain of its key and no other mapping. */
  lemma ReplaceOne(es: seq<Entry>, j: nat, grain: nat)
    requires DistinctKeys(es) && j < |es|
    ensures var es', e' := es[j := es[j].(ppa := grain)], es[j].(ppa := grain);
            DistinctKeys(es') && forall e :: e in es' <==> e == e' || (e in es && e.hidx != e'.hidx)
  {
    var es' := es[j := es[j].(ppa := grain)];
    forall e | e in es && e.hidx != es[j].hidx
      ensures e in es'
    {
      var c :| 0 <= c < |es| && es[c] == e;
      assert es'[c] == e;
    }
    assert es'[j] in es';
  }

  lemma RecutReplace(m: map<nat, nat>, parts: Parts, roots: seq<nat>, i: nat, j: nat, grain: nat)
    requires CutBy(m, parts, roots) && Sorted(roots) && i < |parts| && j < |parts[i]|
    ensures parts[i][j].hidx in m
    ensures CutBy(m[parts[i][j].hidx := grain], parts[i := parts[i][j := parts[i][j].(ppa := grain)]], roots)
  {
    var es, k := parts[i], parts[i][j].hidx;
    var es', m' := es[j := es[j].(ppa := grain)], m[k := grain];
    assert PartOf(es, m, roots, i);
    assert es[j] in es;
    ReplaceOne(es, j, grain);
    assert PartOf(es', m', roots, i);
    hide PartOf, CutBy;
    assert m' - {k} == m - {k};
    Recut(m, parts, roots, i, k, m', es');
  }

  /** Dropping slot `j` drops its key and no other. */
  lemma DropOne(es: seq<Entry>, j: nat)
    requires DistinctKeys(es) && j < |es|
    ensures DistinctKeys(es[..j] + es[j + 1..])
    ensures forall e :: e in es[..j] + es[j + 1..] <==> e in es && e.hidx != es[j].hidx
  {
    var es' := es[..j] + es[j + 1..];
    assert forall c :: 0 <= c < |es'| ==> es'[c] == es[if c < j then c else c + 1];
    forall e | e in es && e.hidx != es[j].hidx
      ensures e in es'
    {
      var c :| 0 <= c < |es| && es[c] == e;
      assert es'[if c < j then c else c - 1] == e;
    }
  }

  lemma RecutRemove(m: map<nat, nat>, parts: Parts, roots: seq<nat>, i: nat, j: nat)
    requires CutBy(m, parts, roots) && Sorted(roots) && i < |parts| && j < |parts[i]|
    ensures parts[i][j].hidx in m
    ensures CutBy(m - {parts[i][j].hidx}, parts[i := parts[i][..j] + parts[i][j + 1..]], roots)
  {
    var es, k := parts[i], parts[i][j].hidx;
    var es', m' := es[..j] + es[j + 1..], m - {k};
    assert PartOf(es, m, roots, i);
    assert es[j] in es;
    DropOne(es, j);
    assert PartOf(es', m', roots, i);
    assert m' - {k} == m - {k};
    hide PartOf, CutBy;
    Recut(m, parts, roots, i, k, m', es');
  }

  lemma RootUsable(parts: Parts, roots: seq<nat>)
    requires Rooted(parts, roots)
    ensures 1 <= |roots| <= |parts| && Sorted(roots) && roots[|roots| - 1] == UINT_MAX
  {
  }

  lemma RootedUpdate(parts: Parts, roots: seq<nat>, i: nat, es: seq<Entry>)
    requires Rooted(parts, roots) && i < |parts|
    requires es == [] || parts[i] != [] || (i < |roots| && roots[i] != UINT_MAX) || i == |roots| - 1
    ensures Rooted(parts[i := es], roots)
  {
  }

  /** A first key under a separator that was never set becomes that separator. */
  lemma SetSeparator(parts: Parts, m: map<nat, nat>, roots: seq<nat>, i: nat, k: nat)
    requires Rooted(parts, roots) && CutBy(m, parts, roots) && k < UINT_MAX
    requires i < |roots| - 1 && roots[i] == UINT_MAX && IsHome(roots, i, k)
    ensures Rooted(parts, roots[i := k]) && CutBy(m, parts, roots[i := k]) && IsHome(roots[i := k], i, k)
  {
    var roots' := roots[i := k];
    assert parts[i] == [];
    forall c | 0 <= c < |parts|
      ensures PartOf(parts[c], m, roots', c)
    {
      assert PartOf(parts[c], m, roots, c);
      forall e | e in parts[c]
        ensures IsHome(roots', c, e.hidx)
      {
        assert IsHome(roots, c, e.hidx);
        assert c != i && c - 1 != i;
      }
    }
  }

  /** What appending to the leaf that the search picked does to the map and its cut. */
  lemma Inserting(parts: Parts, m: map<nat, nat>, roots: seq<nat>, i: nat, k: nat, grain: nat)
    requires Rooted(parts, roots) && CutBy(m, parts, roots)
    requires IsHome(roots, i, k) && k !in m && k < UINT_MAX
    ensures i < |roots| <= |parts|
    ensures |m[k := grain]| == |m| + 1
    ensures var parts', roots' := parts[i := parts[i] + [Entry(k, grain)]], AfterInsert(roots, i, k);
            Rooted(parts', roots') && CutBy(m[k := grain], parts', roots')
  {
    var roots' := AfterInsert(roots, i, k);
    if i < |roots| - 1 && roots[i] == UINT_MAX {
      SetSeparator(parts, m, roots, i, k);
    } else {
      assert roots' == roots;
    }
    RecutInsert(m, parts, roots', i, k, grain);
    hide CutBy;
    RootedUpdate(parts, roots', i, parts[i] + [Entry(k, grain)]);
    assert m[k := grain].Keys == m.Keys + {k};
  }

  /** A leaf is full exactly when its last slot is in use, and otherwise the search for
      an empty slot stops right behind its entries. */
  lemma AppendingToLeaf(l: seq<Leaf>, parts: Parts, m: map<nat, nat>, roots: seq<nat>, i: nat, e: Entry)
    requires Padded(l, parts) && CutBy(m, parts, roots) && i < |parts|
    ensures |l| == |parts| == IN_ROOT && |l[i]| == IN_LEAF && |parts[i]| <= IN_LEAF
    ensures l[i][IN_LEAF - 1].hidx != UINT_MAX <==> |parts[i]| == IN_LEAF
    ensures |parts[i]| < IN_LEAF ==> FirstEmpty(l[i], |parts[i]|)
    ensures |parts[i]| < IN_LEAF ==> l[i][|parts[i]| := e] == Pad(parts[i] + [e])
  {
    assert PartOf(parts[i], m, roots, i);
    hide CutBy;
    assert forall j :: 0 <= j < |parts[i]| ==> parts[i][j] in parts[i];
    if |parts[i]| < IN_LEAF {
      PadAppend(parts[i], e);
    }
  }

  ghost predicate Grown(before: Parts, after: Parts, i: nat, e: Entry) {
    i < |before| && after == before[i := before[i] + [e]]
  }

  ghost predicate FirstEmpty(leaf: Leaf, n: nat) {
    && n < |leaf| == IN_LEAF
    && leaf[n].hidx == UINT_MAX
    && (forall j :: 0 <= j < n ==> leaf[j].hidx != UINT_MAX)
  }

  /** The separators after an insert into leaf `i`. */
  ghost function AfterInsert(roots: seq<nat>, i: nat, k: nat): seq<nat>
    requires i < |roots|
  {
    if i != |roots| - 1 && (k >= roots[i] || roots[i] == UINT_MAX) then roots[i := k] else roots
  }

  // ----- collecting all entries -----

  ghost function Flat(parts: Parts): seq<Entry> {
    if parts == [] then [] else Flat(parts[..|parts| - 1]) + parts[|parts| - 1]
  }

  lemma {:induction false} FlatPrefix(m: map<nat, nat>, parts: Parts, roots: seq<nat>, n: nat)
    requires CutBy(m, parts, roots) && Sorted(roots) && n <= |parts|
    ensures forall e :: e in Flat(parts[..n]) <==> InSome(parts[..n], e)
    ensures DistinctKeys(Flat(parts[..n]))
  {
    if n > 0 {
      FlatPrefix(m, parts, roots, n - 1);
      var a, b := Flat(parts[..n - 1]), parts[n - 1];
      assert parts[..n][..n - 1] == parts[..n - 1];
      assert Flat(parts[..n]) == a + b;
      forall e
        ensures e in Flat(parts[..n]) <==> InSome(parts[..n], e)
      {
        FlatStep(parts, n, e);
      }
      assert PartOf(b, m, roots, n - 1);
      forall x, y | 0 <= x < |a| && 0 <= y < |b|
        ensures a[x].hidx != b[y].hidx
      {
        assert a[x] in a && b[y] in b;
        var c :| 0 <= c < n - 1 && a[x] in parts[..n - 1][c];
        assert PartOf(parts[c], m, roots, c);
        assert IsHome(roots, c, a[x].hidx) && IsHome(roots, n - 1, b[y].hidx);
      }
      DistinctConcat(a, b);
    }
  }

  lemma FlatStep(parts: Parts, n: nat, e: Entry)
    requires 0 < n <= |parts|
    ensures InSome(parts[..n], e) <==> InSome(parts[..n - 1], e) || e in parts[n - 1]
  {
    if InSome(parts[..n], e) {
      var c :| 0 <= c < n && e in parts[..n][c];
      assert c < n - 1 ==> e in parts[..n - 1][c];
    }
    if InSome(parts[..n - 1], e) {
      var c :| 0 <= c < n - 1 && e in parts[..n - 1][c];
      assert e in parts[..n][c];
    }
    if e in parts[n - 1] {
      assert e in parts[..n][n - 1];
    }
  }

  lemma DistinctConcat(a: seq<Entry>, b: seq<Entry>)
    requires DistinctKeys(a) && DistinctKeys(b)
    requires forall x, y :: 0 <= x < |a| && 0 <= y < |b| ==> a[x].hidx != b[y].hidx
    ensures DistinctKeys(a + b)
  {
  }

  /** Reading all leaves out yields the map that was cut into them. */
  lemma FlatRepresents(m: map<nat, nat>, parts: Parts, roots: seq<nat>)
    requires CutBy(m, parts, roots) && Sorted(roots)
    ensures Represents(Flat(parts), m)
  {
    FlatPrefix(m, parts, roots, |parts|);
    assert parts[..|parts|] == parts;
    forall e | e in Flat(parts)
      ensures e.hidx in m && m[e.hidx] == e.ppa
    {
      var c :| 0 <= c < |parts| && e in parts[c];
      assert PartOf(parts[c], m, roots, c);
    }
  }

  lemma {:induction false} FlatEmptyTail(parts: Parts, n: nat)
    requires n <= |parts| && forall i :: n <= i < |parts| ==> parts[i] == []
    ensures Flat(parts) == Flat(parts[..n])
    decreases |parts|
  {
    if n < |parts| {
      FlatEmptyTail(parts[..|parts| - 1], n);
      assert parts[..|parts| - 1][..n] == parts[..n];
    } else {
      assert parts[..n] == parts;
    }
  }

  lemma {:induction false} FlatSize(parts: Parts, n: nat)
    requires n <= |parts| && forall i :: 0 <= i < |parts| ==> |parts[i]| <= IN_LEAF
    ensures |Flat(parts[..n])| <= n * IN_LEAF
  {
    if n > 0 {
      FlatSize(parts, n - 1);
      assert parts[..n][..n - 1] == parts[..n - 1];
    }
  }

  /** A table holds no more mappings than its leaves have slots. */
  lemma Capacity(l: seq<Leaf>, parts: Parts, m: map<nat, nat>, roots: seq<nat>)
    requires Padded(l, parts) && Rooted(parts, roots) && CutBy(m, parts, roots)
    ensures |m| <= |roots| * IN_LEAF
  {
    FlatRepresents(m, parts, roots);
    RepresentsSize(Flat(parts), m);
    UnusedLeaves(m, parts, roots, |roots|);
    FlatEmptyTail(parts, |roots|);
    FlatSize(parts, |roots|);
  }

  lemma RepresentsExtended(es: seq<Entry>, m: map<nat, nat>, k: nat, grain: nat)
    requires Represents(es, m) && k !in m
    ensures Represents(es + [Entry(k, grain)], m[k := grain])
  {
    assert forall i :: 0 <= i < |es| ==> es[i] in es;
  }

  /** Two maps read from the same entries are one. */
  lemma RepresentsUnique(es: seq<Entry>, m: map<nat, nat>, es': seq<Entry>, m': map<nat, nat>)
    requires Represents(es, m) && Represents(es', m') && forall e :: e in es <==> e in es'
    ensures m == m'
  {
    forall k
      ensures k in m <==> k in m'
      ensures k in m ==> m[k] == m'[k]
    {
      if k in m {
        assert Entry(k, m[k]) in es;
      }
      if k in m' {
        assert Entry(k, m'[k]) in es';
      }
    }
  }

  /** Every slot up to the first empty one is read out and emptied. */
  method GatherLeaf(leaf: Leaf, ghost p: seq<Entry>) returns (read: seq<Entry>, lf: Leaf)
    requires |p| <= IN_LEAF && leaf == Pad(p) && forall e :: e in p ==> e.hidx < UINT_MAX
    ensures read == p && lf == Pad([])
  {
    read, lf := [], leaf;
    assert forall c :: 0 <= c < |p| ==> p[c] in p;
    for j := 0 to IN_LEAF
      invariant j <= |p| && read == p[..j] && |lf| == IN_LEAF
      invariant forall c :: 0 <= c < IN_LEAF ==> lf[c] == if c < j then EMPTY_SLOT else leaf[c]
    {
      if lf[j].hidx == UINT_MAX {
        break;
      }
      read := read + [lf[j]];
      lf := lf[j := EMPTY_SLOT];
    }
  }

  lemma PaddedSize(l: seq<Leaf>, parts: Parts)
    requires Padded(l, parts)
    ensures |l| == |parts| == IN_ROOT
  {
  }

  lemma LeafReadable(l: seq<Leaf>, parts: Parts, m: map<nat, nat>, p0: Parts, roots: seq<nat>, i: nat)
    requires Padded(l, parts) && CutBy(m, p0, roots) && |p0| == IN_ROOT && i < IN_ROOT && parts[i] == p0[i]
    ensures |l| == IN_ROOT && |p0[i]| <= IN_LEAF && l[i] == Pad(p0[i])
    ensures forall e :: e in p0[i] ==> e.hidx < UINT_MAX
  {
    assert PartOf(p0[i], m, roots, i);
  }

  lemma UnusedLeaves(m: map<nat, nat>, parts: Parts, roots: seq<nat>, n: nat)
    requires CutBy(m, parts, roots) && |roots| <= n <= |parts|
    ensures forall i :: n <= i < |parts| ==> parts[i] == []
  {
    forall i | n <= i < |parts|
      ensures parts[i] == []
    {
      assert PartOf(parts[i], m, roots, i);
    }
  }

  lemma KeysBelowMax(m: map<nat, nat>, parts: Parts, roots: seq<nat>)
    requires CutBy(m, parts, roots)
    ensures forall k :: k in m ==> k < UINT_MAX
  {
    forall k | k in m
      ensures k < UINT_MAX
    {
      var i :| 0 <= i < |parts| && Entry(k, m[k]) in parts[i];
      assert PartOf(parts[i], m, roots, i);
    }
  }

  lemma BelowMax(es: seq<Entry>, m: map<nat, nat>)
    requires Represents(es, m) && forall k :: k in m ==> k < UINT_MAX
    ensures forall e :: e in es ==> e.hidx < UINT_MAX
  {
  }

  lemma SortRepresents(es: seq<Entry>, m: map<nat, nat>)
    requires Represents(es, m)
    ensures Represents(SortByHidx(es), m) && StrictlyAscending(SortByHidx(es))
  {
    SortDistinct(es);
  }

  /** The map to rebuild for: with one more mapping unless `k` is UINT_MAX. */
  ghost function Wanted(m: map<nat, nat>, k: nat, grain: nat): map<nat, nat> {
    if k == UINT_MAX then m else m[k := grain]
  }

  lemma RootCount(roots: seq<nat>, es: seq<Entry>, c: nat)
    requires 0 < c && AreSeparators(roots, es, c)
    ensures |roots| == c
  {
  }

  lemma RepresentsPermuted(es: seq<Entry>, es': seq<Entry>, m: map<nat, nat>)
    requires DistinctKeys(es) && Represents(es', m) && forall e :: e in es <==> e in es'
    ensures Represents(es, m)
  {
  }

  /** After the last key of a leaf the next key lies above its separator. */
  lemma NextAscends(roots: seq<nat>, es: seq<Entry>, c: nat, t: nat, cur: nat)
    requires 0 < c && AreSeparators(roots, es, c) && StrictlyAscending(es)
    requires t < |es| && cur < c && (cur > 0 ==> roots[cur - 1] < es[t].hidx)
    ensures t + 1 < |es| && cur > 0 ==> roots[cur - 1] < es[t + 1].hidx
  {
  }

  // ----- filling the leaves again -----

  /** An emptied table under new separators is a valid empty table. */
  lemma EmptyRooted(es: seq<Entry>, roots: seq<nat>, c: nat)
    requires 0 < c <= IN_ROOT && AreSeparators(roots, es, c) && StrictlyAscending(es)
    requires forall e :: e in es ==> e.hidx < UINT_MAX
    ensures Rooted(seq(IN_ROOT, _ => []), roots) && CutBy(map[], seq(IN_ROOT, _ => []), roots)
  {
    SeparatorsAscending(roots, es, c);
  }

  lemma NothingRepresented(es: seq<Entry>)
    ensures Represents(es[..0], map[])
  {
  }

  /** Leaf `i` holds those of the first `t` entries that are cut into it, in order. */
  ghost predicate FilledUpTo(parts: Parts, es: seq<Entry>, c: nat, t: nat)
    requires 0 < c
  {
    |parts| >= c && forall i :: 0 <= i < c ==> parts[i] == Chunk(es, c, t, i)
  }

  ghost function Chunk(es: seq<Entry>, c: nat, t: nat, i: nat): seq<Entry>
    requires 0 < c
  {
    var lo := Start(|es|, c, i);
    var hi := if t <= Start(|es|, c, i + 1) then t else Start(|es|, c, i + 1);
    if lo <= hi <= |es| then es[lo..hi] else []
  }

  /** The table is the even cut of the sorted mappings of `m`, and the separators are its own. */
  ghost predicate EvenCut(es: seq<Entry>, m: map<nat, nat>, c: nat, roots: seq<nat>, parts: Parts) {
    && 0 < c && Represents(es, m) && StrictlyAscending(es) && AreSeparators(roots, es, c)
    && FilledUpTo(parts, es, c, |es|) && forall i :: c <= i < |parts| ==> parts[i] == []
  }

  ghost predicate Rebuilt(m: map<nat, nat>, c: nat, roots: seq<nat>, parts: Parts) {
    exists es :: EvenCut(es, m, c, roots, parts)
  }

  lemma NothingFilled(parts: Parts, es: seq<Entry>, c: nat)
    requires 0 < c <= |parts| && forall i :: 0 <= i < |parts| ==> parts[i] == []
    ensures FilledUpTo(parts, es, c, 0)
  {
  }

  /** While the keys of a leaf are placed the next one is empty. */
  lemma NextLeafEmpty(parts: Parts, es: seq<Entry>, c: nat, t: nat, i: nat)
    requires i + 1 < c && FilledUpTo(parts, es, c, t) && t <= Start(|es|, c, i + 1)
    ensures |parts| > i + 1 && parts[i + 1] == [] && t <= Start(|es|, c, i + 2)
  {
    StartMonotone(|es|, c, i + 1, i + 2);
  }

  /** The next key finds room in its leaf: no leaf is given more than IN_LEAF keys. */
  lemma Room(roots: seq<nat>, es: seq<Entry>, c: nat, t: nat, parts: Parts) returns (g: nat)
    requires 0 < c && AreSeparators(roots, es, c) && StrictlyAscending(es) && Sorted(roots)
    requires forall e :: e in es ==> e.hidx < UINT_MAX
    requires t < |es| <= c * IN_LEAF && FilledUpTo(parts, es, c, t)
    ensures g < c && Start(|es|, c, g) <= t < Start(|es|, c, g + 1) && IsHome(roots, g, es[t].hidx)
    ensures forall i :: 0 <= i < c && IsHome(roots, i, es[t].hidx) ==> i == g
    ensures |parts[g]| < IN_LEAF
  {
    StartEnds(|es|, c);
    g := GroupOf(|es|, c, t, c);
    SeparatorsSendHome(roots, es, c, t, g);
    LeafSizeBound(|es|, c, IN_LEAF, g);
    forall i | 0 <= i < c && IsHome(roots, i, es[t].hidx)
      ensures i == g
    {
      HomeUnique(roots, i, g, es[t].hidx);
    }
  }

  /** Reinserting does not move the separators. */
  lemma SameRoots(roots: seq<nat>, es: seq<Entry>, c: nat, t: nat, g: nat)
    requires 0 < c && AreSeparators(roots, es, c) && StrictlyAscending(es)
    requires forall e :: e in es ==> e.hidx < UINT_MAX
    requires t < |es| && g < c && IsHome(roots, g, es[t].hidx)
    ensures AfterInsert(roots, g, es[t].hidx) == roots
  {
    SeparatorsAscending(roots, es, c);
  }

  lemma OneMore(parts: Parts, es: seq<Entry>, c: nat, t: nat, g: nat)
    requires 0 < c && g < c && FilledUpTo(parts, es, c, t) && Start(|es|, c, g) <= t < Start(|es|, c, g + 1) && t < |es|
    ensures FilledUpTo(parts[g := parts[g] + [es[t]]], es, c, t + 1)
  {
    var n, parts' := |es|, parts[g := parts[g] + [es[t]]];
    forall i | 0 <= i < c
      ensures parts'[i] == Chunk(es, c, t + 1, i)
    {
      assert parts[i] == Chunk(es, c, t, i);
      if i < g {
        StartMonotone(n, c, i + 1, g);
      } else if i > g {
        StartMonotone(n, c, g + 1, i);
      }
    }
  }

  lemma NotYet(es: seq<Entry>, t: nat, m: map<nat, nat>)
    requires t < |es| && StrictlyAscending(es) && Represents(es[..t], m)
    ensures es[t].hidx !in m
  {
    assert forall e :: e in es[..t] ==> e.hidx < es[t].hidx;
  }

  lemma RepresentsNext(es: seq<Entry>, t: nat, m: map<nat, nat>)
    requires t < |es| && Represents(es[..t], m) && es[t].hidx !in m
    ensures Represents(es[..t + 1], m[es[t].hidx := es[t].ppa])
  {
    RepresentsExtended(es[..t], m, es[t].hidx, es[t].ppa);
    assert es[..t + 1] == es[..t] + [Entry(es[t].hidx, es[t].ppa)];
  }

  /** One step of a bulk insert: the next key goes behind the entries of its leaf. */
  lemma Placing(l: seq<Leaf>, parts: Parts, m: map<nat, nat>, roots: seq<nat>, es: seq<Entry>, c: nat, t: nat, cur: nat)
    requires Padded(l, parts) && Rooted(parts, roots) && CutBy(m, parts, roots)
    requires 0 < c && AreSeparators(roots, es, c) && StrictlyAscending(es) && t < |es| <= c * IN_LEAF
    requires forall e :: e in es ==> e.hidx < UINT_MAX
    requires Represents(es[..t], m) && FilledUpTo(parts, es, c, t) && t <= Start(|es|, c, cur + 1)
    requires cur < c && IsHome(roots, cur, es[t].hidx)
    ensures |l| == |parts| == IN_ROOT && cur < |parts| && |l[cur]| == IN_LEAF && |parts[cur]| < IN_LEAF
    ensures l[cur][|parts[cur]| := es[t]] == Pad(parts[cur] + [es[t]])
    ensures t + 1 <= Start(|es|, c, cur + 1)
    ensures t + 1 < |es| && cur > 0 ==> roots[cur - 1] < es[t + 1].hidx
    ensures var parts', m' := parts[cur := parts[cur] + [es[t]]], m[es[t].hidx := es[t].ppa];
            && Rooted(parts', roots) && CutBy(m', parts', roots)
            && Represents(es[..t + 1], m') && FilledUpTo(parts', es, c, t + 1)
  {
    hide Padded, Rooted, CutBy, AreSeparators, StrictlyAscending, Represents, FilledUpTo, Pad;
    RootUsable(parts, roots);
    RootCount(roots, es, c);
    var g := Room(roots, es, c, t, parts);
    assert g == cur && es[t] in es;
    NotYet(es, t, m);
    Inserting(parts, m, roots, cur, es[t].hidx, es[t].ppa);
    AppendingToLeaf(l, parts, m, roots, cur, es[t]);
    SameRoots(roots, es, c, t, cur);
    OneMore(parts, es, c, t, cur);
    RepresentsNext(es, t, m);
    NextAscends(roots, es, c, t, cur);
  }

  /** `pos` is the byte position of the grain of `k`. */
  ghost predicate IsPos(parts: Parts, k: nat, pos: nat) {
    exists s: Slot :: s.i < |parts| && s.j < |parts[s.i]| && parts[s.i][s.j].hidx == k && pos == PosOf(s)
  }

  /** The scan of the leaf that the search picked stops at the key, if the table has it,
      and otherwise at the first empty slot or at the end. */
  lemma Finding(l: seq<Leaf>, parts: Parts, m: map<nat, nat>, roots: seq<nat>, i: nat, k: nat) returns (at: nat)
    requires Padded(l, parts) && Sorted(roots) && CutBy(m, parts, roots)
    requires i < |parts| && IsHome(roots, i, k) && k < UINT_MAX
    ensures |l| == IN_ROOT && |l[i]| == IN_LEAF
    ensures at <= IN_LEAF && forall c :: 0 <= c < at ==> l[i][c].hidx != k && l[i][c].hidx != UINT_MAX
    ensures k in m ==> at < IN_LEAF && l[i][at] == Entry(k, m[k]) && IsPos(parts, k, PosOf(Slot(i, at)))
    ensures i < IN_ROOT
    ensures k !in m ==> at == IN_LEAF || l[i][at].hidx == UINT_MAX
  {
    InItsPart(m, parts, roots, i, k);
    var es := parts[i];
    assert PartOf(es, m, roots, i);
    hide CutBy, PosOf, Sorted, IsHome, PartOf;
    assert forall j :: 0 <= j < |es| ==> es[j] in es && l[i][j] == es[j];
    if k in m {
      at :| 0 <= at < |es| && es[at] == Entry(k, m[k]);
      assert parts[Slot(i, at).i][Slot(i, at).j].hidx == k;
    } else {
      at := |es|;
    }
  }

  lemma SlotOf(parts: Parts, k: nat, pos: nat) returns (at: Slot)
    requires IsPos(parts, k, pos)
    ensures at.i < |parts| && at.j < |parts[at.i]| && parts[at.i][at.j].hidx == k && pos == PosOf(at)
  {
    at :| at.i < |parts| && at.j < |parts[at.i]| && parts[at.i][at.j].hidx == k && pos == PosOf(at);
  }

  /** What an overwrite at `pos` does to the leaves is what `m[k := grain]` asks for. */
  lemma Overwriting(l: seq<Leaf>, parts: Parts, m: map<nat, nat>, roots: seq<nat>, k: nat, grain: nat, pos: nat) returns (at: Slot)
    requires Padded(l, parts) && Rooted(parts, roots) && CutBy(m, parts, roots) && IsPos(parts, k, pos)
    ensures at.i < |parts| == |l| == IN_ROOT && at.j < |parts[at.i]| <= IN_LEAF && pos == PosOf(at) && parts[at.i][at.j].hidx == k
    ensures |l[at.i]| == IN_LEAF && k in m && |m[k := grain]| == |m|
    ensures l[at.i][at.j := l[at.i][at.j].(ppa := grain)] == Pad(parts[at.i][at.j := Entry(k, grain)])
    ensures var parts' := parts[at.i := parts[at.i][at.j := Entry(k, grain)]];
            Rooted(parts', roots) && CutBy(m[k := grain], parts', roots)
  {
    hide CutBy, IsPos, PosOf;
    at := SlotOf(parts, k, pos);
    RecutReplace(m, parts, roots, at.i, at.j, grain);
    PadReplace(parts[at.i], at.j, Entry(k, grain));
    RootedUpdate(parts, roots, at.i, parts[at.i][at.j := Entry(k, grain)]);
    assert m[k := grain].Keys == m.Keys;
  }

  /** What a delete at `pos` does to the leaves is what `m - {k}` asks for. */
  lemma Deleting(l: seq<Leaf>, parts: Parts, m: map<nat, nat>, roots: seq<nat>, k: nat, pos: nat) returns (at: Slot)
    requires Padded(l, parts) && Rooted(parts, roots) && CutBy(m, parts, roots) && IsPos(parts, k, pos)
    ensures at.i < |parts| == |l| == IN_ROOT && at.j < |parts[at.i]| <= IN_LEAF && pos == PosOf(at) && parts[at.i][at.j].hidx == k
    ensures l[at.i] == Pad(parts[at.i]) && k in m && |m - {k}| == |m| - 1
    ensures var parts' := parts[at.i := parts[at.i][..at.j] + parts[at.i][at.j + 1..]];
            Rooted(parts', roots) && CutBy(m - {k}, parts', roots)
  {
    hide CutBy, IsPos, PosOf;
    at := SlotOf(parts, k, pos);
    RecutRemove(m, parts, roots, at.i, at.j);
    RootedUpdate(parts, roots, at.i, parts[at.i][..at.j] + parts[at.i][at.j + 1..]);
    assert (m - {k}).Keys == m.Keys - {k};
  }

  /** An insert appends to the home of the key, or rebuilds the table when that is full. */
  ghost predicate Inserted(c: nat, roots: seq<nat>, parts: Parts, m': map<nat, nat>, roots': seq<nat>, parts': Parts, k: nat, grain: nat) {
    exists i :: 0 <= i < |roots| && i < |parts| && IsHome(roots, i, k)
      && if |parts[i]| < IN_LEAF then Grown(parts, parts', i, Entry(k, grain)) && roots' == AfterInsert(roots, i, k)
         else Rebuilt(m', c, roots', parts')
  }

  lemma WhereInserted(c: nat, roots: seq<nat>, parts: Parts, m': map<nat, nat>, roots': seq<nat>, parts': Parts, k: nat, grain: nat) returns (i: nat)
    requires Inserted(c, roots, parts, m', roots', parts', k, grain)
    ensures i < |roots| && i < |parts| && IsHome(roots, i, k)
    ensures |parts[i]| < IN_LEAF ==> Grown(parts, parts', i, Entry(k, grain)) && roots' == AfterInsert(roots, i, k)
  {
    i :| 0 <= i < |roots| && i < |parts| && IsHome(roots, i, k)
      && if |parts[i]| < IN_LEAF then Grown(parts, parts', i, Entry(k, grain)) && roots' == AfterInsert(roots, i, k)
         else Rebuilt(m', c, roots', parts');
  }

  /** An overwrite changes the one slot at `pos`. */
  ghost predicate Rewritten(parts: Parts, parts': Parts, k: nat, grain: nat, pos: nat) {
    exists s: Slot :: s.i < |parts| && s.j < |parts[s.i]| && parts[s.i][s.j].hidx == k && pos == PosOf(s)
      && parts' == parts[s.i := parts[s.i][s.j := Entry(k, grain)]]
  }

  /** A delete takes the one slot at `pos` out; the later ones of its leaf close up. */
  ghost predicate Removed(parts: Parts, parts': Parts, k: nat, pos: nat) {
    exists s: Slot :: s.i < |parts| && s.j < |parts[s.i]| && parts[s.i][s.j].hidx == k && pos == PosOf(s)
      && parts' == parts[s.i := parts[s.i][..s.j] + parts[s.i][s.j + 1..]]
  }

  class Table {
    var cnt: nat               // leaves in use
    const entries: array<nat>  // separators
    const leaf: array<Leaf>
    var cachedCnt: nat         // ht->cached_cnt
    var reloading: bool        // the file's `reloading` flag

    ghost var M: map<nat, nat>  // the mappings held
    ghost var parts: Parts      // the same, leaf by leaf

    ghost predicate Shape()
      reads this, leaf
    {
      entries.Length == leaf.Length == IN_ROOT && 1 <= cnt <= IN_ROOT && Padded(leaf[..], parts)
    }

    ghost predicate Valid()
      reads this, entries, leaf
    {
      && Shape()
      && Rooted(parts, entries[..cnt])
      && CutBy(M, parts, entries[..cnt])
      && cachedCnt == |M|
    }

    /** `twolevel_init`. */
    constructor ()
      ensures Valid() && M == map[] && !reloading && cnt == ORIG_GLEN - ROOT_G
      ensures forall i :: 0 <= i < IN_ROOT ==> entries[i] == UINT_MAX
      ensures fresh(entries) && fresh(leaf)
    {
      cnt := ORIG_GLEN - ROOT_G;
      entries := new nat[IN_ROOT](_ => UINT_MAX);
      leaf := new Leaf[IN_ROOT](_ => seq(IN_LEAF, _ => EMPTY_SLOT));
      cachedCnt := 0;
      reloading := false;
      M, parts := map[], seq(IN_ROOT, _ => []);
    }

    /** `__lower_bound`: binary search for the leaf of a key. */
    method LowerBound(k: nat) returns (left: nat)
      requires entries.Length == IN_ROOT && 1 <= cnt <= IN_ROOT && k <= UINT_MAX
      requires Sorted(entries[..cnt]) && entries[..cnt][cnt - 1] == UINT_MAX
      ensures IsHome(entries[..cnt], left, k)
    {
      ghost var roots := entries[..cnt];
      left := 0;
      var right: int := cnt - 1;
      while left <= right
        invariant 0 <= left <= right + 1 <= cnt
        invariant forall j :: 0 <= j < left ==> roots[j] < k
        invariant forall j :: right < j < cnt ==> k <= roots[j]
      {
        var mid := left + (right - left) / 2;
        assert roots[mid] == entries[mid];
        if entries[mid] < k {
          left := mid + 1;
        } else {
          right := mid - 1;
        }
      }
    }

    /** `twolevel_find`: the grain of a key and its byte position, or UINT_MAX. */
    method Find(k: nat) returns (grain: nat, pos: nat)
      requires Valid() && k < UINT_MAX
      ensures k in M ==> grain == M[k] && IsPos(parts, k, pos) && pos < UINT_MAX
      ensures k !in M ==> grain == UINT_MAX && pos == UINT_MAX
    {
      hide CutBy, Padded, IsPos, PosOf;
      var i := LowerBound(k);
      ghost var at := Finding(leaf[..], parts, M, entries[..cnt], i, k);
      var lf := leaf[i];
      for j := 0 to IN_LEAF
        invariant j <= at
      {
        if lf[j].hidx == k {
          InPage(Slot(i, j));
          return lf[j].ppa, PosOf(Slot(i, j));
        } else if lf[j].hidx == UINT_MAX {
          break;
        }
      }
      return UINT_MAX, UINT_MAX;
    }

    /** Write back one leaf together with the mappings it then stands for. */
    method SetLeaf(i: nat, lf: Leaf, ghost es: seq<Entry>, ghost m: map<nat, nat>)
      requires Shape() && i < IN_ROOT && |es| <= IN_LEAF && lf == Pad(es)
      modifies this`M, this`parts, leaf
      ensures Shape() && M == m && parts == old(parts)[i := es]
    {
      hide Pad;
      leaf[i] := lf;
      M, parts := m, parts[i := es];
    }

    /** `twolevel_insert` at a byte position with a real grain: overwrite in place. */
    method Overwrite(k: nat, grain: nat, pos: nat)
      requires Valid() && IsPos(parts, k, pos)
      modifies this, leaf
      ensures Valid() && k in old(M) && M == old(M)[k := grain]
      ensures cnt == old(cnt) && reloading == old(reloading) && Rewritten(old(parts), parts, k, grain, pos)
    {
      hide CutBy, Rooted, Padded, Pad, IsPos, PosOf;
      ghost var roots := entries[..cnt];
      ghost var at := Overwriting(leaf[..], parts, M, roots, k, grain, pos);
      var i, j := Locate(pos, at);
      var lf := leaf[i];
      ghost var before := parts;
      SetLeaf(i, lf[j := lf[j].(ppa := grain)], parts[i][j := Entry(k, grain)], M[k := grain]);
      assert entries[..cnt] == roots;
      assert parts == before[at.i := before[at.i][at.j := Entry(k, grain)]];
    }

    /** `twolevel_insert` at a byte position with UINT_MAX: delete and close the gap. */
    method Delete(k: nat, pos: nat)
      requires Valid() && IsPos(parts, k, pos)
      modifies this, leaf
      ensures Valid() && k in old(M) && M == old(M) - {k}
      ensures cnt == old(cnt) && reloading == old(reloading) && Removed(old(parts), parts, k, pos)
    {
      hide CutBy, Rooted, Padded, Pad, IsPos, PosOf;
      ghost var roots := entries[..cnt];
      ghost var at := Deleting(leaf[..], parts, M, roots, k, pos);
      var i, first := LocateForDelete(pos, at);
      var lf := CloseGap(leaf[i], first, parts[i]);
      cachedCnt := cachedCnt - 1;
      ghost var before := parts;
      SetLeaf(i, lf, parts[i][..first] + parts[i][first + 1..], M - {k});
      assert entries[..cnt] == roots;
      assert parts == before[at.i := before[at.i][..at.j] + before[at.i][at.j + 1..]];
    }

    /** `twolevel_insert` without a position: append to the leaf of the key, or rebuild
        the table when that leaf is full. The assertion of the source that a rebuild
        never meets a full leaf is the third requirement. */
    method Insert(k: nat, grain: nat)
      requires Valid() && k !in M && k < UINT_MAX
      requires !reloading ==> |M| < cnt * IN_LEAF
      requires reloading ==> forall i :: 0 <= i < cnt && IsHome(entries[..cnt], i, k) ==> |parts[i]| < IN_LEAF
      modifies this, entries, leaf
      ensures Valid() && M == old(M)[k := grain]
      ensures cnt == old(cnt) && reloading == old(reloading)
      ensures Inserted(cnt, old(entries[..cnt]), old(parts), M, entries[..cnt], parts, k, grain)
      decreases !reloading, 2
    {
      hide CutBy, Padded, Pad, Rooted;
      cachedCnt := cachedCnt + 1;
      ghost var roots := entries[..cnt];
      RootUsable(parts, roots);
      var i := LowerBound(k);
      Inserting(parts, M, roots, i, k, grain);
      AppendingToLeaf(leaf[..], parts, M, roots, i, Entry(k, grain));
      var lf := leaf[i];
      ghost var before := parts;
      if lf[IN_LEAF - 1].hidx != UINT_MAX {
        Reload(k, grain, roots);
        assert IsHome(roots, i, k) && |before[i]| == IN_LEAF;
        return;
      }
      if i != cnt - 1 && (k >= entries[i] || entries[i] == UINT_MAX) {
        entries[i] := k;
      }
      assert entries[..cnt] == AfterInsert(roots, i, k);
      var j := 0;
      while lf[j].hidx != UINT_MAX
        invariant j <= |parts[i]|
        decreases IN_LEAF - j
      {
        j := j + 1;
      }
      SetLeaf(i, lf[j := Entry(k, grain)], parts[i] + [Entry(k, grain)], M[k := grain]);
      assert entries[..cnt] == AfterInsert(roots, i, k);
      assert IsHome(roots, i, k) && Grown(before, parts, i, Entry(k, grain));
    }

    /** The first loop of `twolevel_reload`: read all leaves out and empty them. */
    method Gather(ghost roots: seq<nat>) returns (es: seq<Entry>)
      requires Shape() && CutBy(M, parts, roots) && Sorted(roots) && |roots| <= cnt
      modifies this`M, this`parts, leaf
      ensures Represents(es, old(M))
      ensures Shape() && M == map[] && parts == seq(IN_ROOT, _ => [])
    {
      hide CutBy, Padded, Pad, Represents, Sorted;
      PaddedSize(leaf[..], parts);
      es := [];
      ghost var p0, m0 := parts, M;
      for i := 0 to cnt
        invariant Shape() && |parts| == |p0| == IN_ROOT
        invariant forall c :: 0 <= c < IN_ROOT ==> parts[c] == if c < i then [] else p0[c]
        invariant es == Flat(p0[..i])
      {
        LeafReadable(leaf[..], parts, m0, p0, roots, i);
        var read, lf := GatherLeaf(leaf[i], p0[i]);
        es := es + read;
        assert p0[..i + 1][..i] == p0[..i];
        SetLeaf(i, lf, [], M);
      }
      UnusedLeaves(m0, p0, roots, cnt);
      FlatEmptyTail(p0, cnt);
      FlatRepresents(m0, p0, roots);
      M := map[];
    }

    /** The entries of a rebuild, sorted, with one more unless `k` is UINT_MAX. */
    method Collect(k: nat, grain: nat, ghost roots: seq<nat>) returns (es: seq<Entry>)
      requires Shape() && CutBy(M, parts, roots) && Sorted(roots) && |roots| <= cnt
      requires k !in M && k <= UINT_MAX
      modifies this`M, this`parts, leaf
      ensures Represents(es, Wanted(old(M), k, grain)) && StrictlyAscending(es)
      ensures |es| == |old(M)| + if k == UINT_MAX then 0 else 1
      ensures forall e :: e in es ==> e.hidx < UINT_MAX
      ensures Shape() && M == map[] && parts == seq(IN_ROOT, _ => [])
    {
      hide CutBy, Padded, Pad, Represents, Sorted, StrictlyAscending;
      ghost var m0 := M;
      KeysBelowMax(m0, parts, roots);
      es := Gather(roots);
      if k != UINT_MAX {
        RepresentsExtended(es, m0, k, grain);
        es := es + [Entry(k, grain)];
        assert m0[k := grain].Keys == m0.Keys + {k};
      }
      RepresentsSize(es, Wanted(m0, k, grain));
      SortRepresents(es, Wanted(m0, k, grain));
      es := SortByHidx(es);
      BelowMax(es, Wanted(m0, k, grain));
    }

    /** `twolevel_reload`: rebuild the table, with one more mapping unless `k` is UINT_MAX. */
    method Reload(k: nat, grain: nat, ghost roots0: seq<nat>)
      requires Shape() && CutBy(M, parts, roots0) && Sorted(roots0) && |roots0| <= cnt && !reloading
      requires k !in M && k <= UINT_MAX
      requires cachedCnt == |M| + if k == UINT_MAX then 0 else 1
      requires 1 <= cachedCnt <= cnt * IN_LEAF
      modifies this, entries, leaf
      ensures Valid() && M == Wanted(old(M), k, grain)
      ensures cnt == old(cnt) && !reloading && Rebuilt(M, cnt, entries[..cnt], parts)
      decreases !reloading, 1
    {
      hide CutBy, Padded, Represents, Rooted, StrictlyAscending, AreSeparators, Wanted;
      reloading := true;
      var es := Collect(k, grain, roots0);
      cachedCnt := cachedCnt - |es|;
      var roots := NewRoots(es, cnt);
      RootCount(roots, es, cnt);
      for i := 0 to cnt
        modifies entries
        invariant entries[..i] == roots[..i]
      {
        entries[i] := roots[i];
      }
      assert entries[..cnt] == roots;
      EmptyRooted(es, roots, cnt);
      Reinsert(es);
      RepresentsUnique(es, M, es, Wanted(old(M), k, grain));
      UnusedLeaves(M, parts, entries[..cnt], cnt);
      assert EvenCut(es, M, cnt, entries[..cnt], parts);
      reloading := false;
    }

    /** The last loop of `twolevel_reload`. No leaf overflows on the way. */
    method Reinsert(es: seq<Entry>)
      requires Valid() && M == map[] && parts == seq(IN_ROOT, _ => []) && reloading
      requires AreSeparators(entries[..cnt], es, cnt) && StrictlyAscending(es)
      requires forall e :: e in es ==> e.hidx < UINT_MAX
      requires |es| <= cnt * IN_LEAF
      modifies this, entries, leaf
      ensures Valid() && Represents(es, M)
      ensures cnt == old(cnt) && reloading && entries[..cnt] == old(entries[..cnt]) && FilledUpTo(parts, es, cnt, |es|)
      decreases !reloading, 3
    {
      hide CutBy, Padded, Rooted, StrictlyAscending, AreSeparators, Represents;
      ghost var roots := entries[..cnt];
      RootUsable(parts, roots);
      NothingRepresented(es);
      NothingFilled(parts, es, cnt);
      for t := 0 to |es|
        invariant Valid() && reloading && cnt == old(cnt) && entries[..cnt] == roots
        invariant Represents(es[..t], M)
        invariant FilledUpTo(parts, es, cnt, t)
      {
        ghost var p0, m0 := parts, M;
        ghost var g := Room(roots, es, cnt, t, parts);
        NotYet(es, t, M);
        assert es[t] in es;
        Insert(es[t].hidx, es[t].ppa);
        ghost var i := WhereInserted(cnt, roots, p0, M, entries[..cnt], parts, es[t].hidx, es[t].ppa);
        SameRoots(roots, es, cnt, t, i);
        OneMore(p0, es, cnt, t, g);
        RepresentsNext(es, t, m0);
      }
      assert es[..|es|] == es;
    }

    /** `twolevel_bulk_insert` into an empty table, and the count that its caller adds: walk
        the sorted entries and the separators side by side. The source writes without looking
        for room, and takes it that no hash index is 0. */
    method BulkInsert(unsorted: seq<Entry>)
      requires Shape() && M == map[] && parts == seq(IN_ROOT, _ => []) && cachedCnt == 0
      requires DistinctKeys(unsorted) && forall e :: e in unsorted ==> 0 < e.hidx < UINT_MAX
      requires 1 <= |unsorted| <= cnt * IN_LEAF
      modifies this, entries, leaf
      ensures Valid() && Represents(unsorted, M)
      ensures cnt == old(cnt) && reloading == old(reloading) && Rebuilt(M, cnt, entries[..cnt], parts)
    {
      hide Padded, CutBy, Rooted, StrictlyAscending, AreSeparators, Represents, DistinctKeys;
      var es := SortByHidx(unsorted);
      SortDistinct(unsorted);
      var roots := NewRoots(es, cnt);
      RootCount(roots, es, cnt);
      for i := 0 to cnt
        modifies entries
        invariant entries[..i] == roots[..i]
      {
        entries[i] := roots[i];
      }
      assert entries[..cnt] == roots;
      EmptyRooted(es, roots, cnt);
      BulkFill(es, roots);
      cachedCnt := cachedCnt + |es|;
      RepresentsSize(es, M);
      UnusedLeaves(M, parts, entries[..cnt], cnt);
      assert EvenCut(es, M, cnt, entries[..cnt], parts);
      RepresentsPermuted(unsorted, es, M);
    }

    method BulkFill(es: seq<Entry>, roots: seq<nat>)
      requires Shape() && M == map[] && parts == seq(IN_ROOT, _ => []) && entries[..cnt] == roots
      requires Rooted(parts, roots) && CutBy(M, parts, roots)
      requires AreSeparators(roots, es, cnt) && StrictlyAscending(es) && 0 < |es| <= cnt * IN_LEAF
      requires forall e :: e in es ==> 0 < e.hidx < UINT_MAX
      modifies this`M, this`parts, leaf
      ensures Shape() && Rooted(parts, roots) && CutBy(M, parts, roots) && Represents(es, M) && FilledUpTo(parts, es, cnt, |es|)
    {
      hide Padded, CutBy, Rooted, StrictlyAscending, AreSeparators, Represents, Pad, FilledUpTo, Start;
      RootUsable(parts, roots);
      PaddedSize(leaf[..], parts);
      NothingRepresented(es);
      NothingFilled(parts, es, cnt);
      StartMonotone(|es|, cnt, 0, 1);
      var cur, idx, t := 0, 0, 0;
      while t < |es|
        modifies this`M, this`parts, leaf
        invariant Shape() && cur < cnt && t <= |es|
        invariant Rooted(parts, roots) && CutBy(M, parts, roots) && Represents(es[..t], M)
        invariant FilledUpTo(parts, es, cnt, t) && t <= Start(|es|, cnt, cur + 1)
        invariant cur < |parts| && idx == |parts[cur]|
        invariant t < |es| && cur > 0 ==> roots[cur - 1] < es[t].hidx
        decreases |es| - t, cnt - cur
      {
        assert es[t] in es;
        if es[t].hidx <= roots[cur] {
          assert es[t].hidx > 0;
          Placing(leaf[..], parts, M, roots, es, cnt, t, cur);
          SetLeaf(cur, leaf[cur][idx := es[t]], parts[cur] + [es[t]], M[es[t].hidx := es[t].ppa]);
          t, idx := t + 1, idx + 1;
        } else {
          NextLeafEmpty(parts, es, cnt, t, cur);
          cur, idx := cur + 1, 0;
        }
      }
      assert es[..|es|] == es;
    }
  }

  // ----- a hash table section -----

  ghost predicate InSection(m: map<nat, nat>, idx: nat) {
    forall k :: k in m ==> EPP * idx <= k < EPP * idx + EPP
  }

  lemma {:induction false} RangeSize(s: set<nat>, lo: nat, n: nat)
    requires forall x :: x in s ==> lo <= x < lo + n
    ensures |s| <= n
    decreases n
  {
    if n == 0 {
      assert s == {};
    } else {
      RangeSize(s - {lo + n - 1}, lo, n - 1);
      assert lo + n - 1 in s ==> |s - {lo + n - 1}| == |s| - 1;
      assert lo + n - 1 !in s ==> s - {lo + n - 1} == s;
    }
  }

  /** Pigeonhole: a section that misses a key of its range is not full, so a table with
      all its leaves full still has a leaf to grow into. */
  lemma MissingKeyLeavesRoom(m: map<nat, nat>, idx: nat, k: nat)
    requires InSection(m, idx) && EPP * idx <= k < EPP * idx + EPP && k !in m
    ensures |m| < EPP
  {
    RangeSize(m.Keys + {k}, EPP * idx, EPP);
  }

  datatype Op = Put(lpa: nat, grain: nat) | Drop(lpa: nat) | Get(lpa: nat)

  /** The map that a section stands for, operation by operation. */
  function Apply(m: map<nat, nat>, op: Op): map<nat, nat> {
    match op
    case Put(lpa, grain) => m[lpa := grain]
    case Drop(lpa) => m - {lpa}
    case Get(_) => m
  }

  function ApplyAll(m: map<nat, nat>, ops: seq<Op>): map<nat, nat> {
    if ops == [] then m else Apply(ApplyAll(m, ops[..|ops| - 1]), ops[|ops| - 1])
  }

  /** What a lookup in the map answers, UINT_MAX for nothing. */
  function Lookup(m: map<nat, nat>, lpa: nat): nat {
    if lpa in m then m[lpa] else UINT_MAX
  }

  /** What the lookups of a run answer, in order. */
  function Answers(m: map<nat, nat>, ops: seq<Op>): seq<nat> {
    if ops == [] then []
    else
      var before := ops[..|ops| - 1];
      Answers(m, before) + if ops[|ops| - 1].Get? then [Lookup(ApplyAll(m, before), ops[|ops| - 1].lpa)] else []
  }

  /** `__update_map`: a table without a free slot is expanded and rebuilt before a new key is
      inserted, and only then. */
  ghost predicate Updated(c: nat, roots: seq<nat>, parts: Parts, m: map<nat, nat>,
                          c': nat, roots': seq<nat>, parts': Parts, k: nat, grain: nat, pos: nat) {
    if pos != UINT_MAX then
      c' == c && roots' == roots && if grain == UINT_MAX then Removed(parts, parts', k, pos) else Rewritten(parts, parts', k, grain, pos)
    else if |m| == c * IN_LEAF then
      c' == c + 1 && exists rs, ps :: Rebuilt(m, c', rs, ps) && Inserted(c', rs, ps, m[k := grain], roots', parts', k, grain)
    else
      c' == c && Inserted(c, roots, parts, m[k := grain], roots', parts', k, grain)
  }

  /** What a find reports as the position of a key. */
  ghost predicate Located(parts: Parts, m: map<nat, nat>, k: nat, pos: nat) {
    if k in m then IsPos(parts, k, pos) && pos < UINT_MAX else pos == UINT_MAX
  }

  /** An operation updates the table at the place that a find reports; a lookup and the delete
      of a key that is not there do not. */
  ghost predicate DidOp(c: nat, roots: seq<nat>, parts: Parts, m: map<nat, nat>, c': nat, roots': seq<nat>, parts': Parts, op: Op) {
    if op.Get? || (op.Drop? && op.lpa !in m) then c' == c && roots' == roots && parts' == parts
    else exists pos :: Located(parts, m, op.lpa, pos)
           && Updated(c, roots, parts, m, c', roots', parts', op.lpa, if op.Put? then op.grain else UINT_MAX, pos)
  }

  /** The most keys that are held at any time of a run. */
  ghost function Peak(m: map<nat, nat>, ops: seq<Op>): nat {
    if ops == [] then |m|
    else
      var p, n := Peak(m, ops[..|ops| - 1]), |ApplyAll(m, ops)|;
      if n > p then n else p
  }

  /** Leaves of eight keys for `n` keys, and two at least. */
  function LeavesFor(n: nat): nat {
    if n <= 2 * IN_LEAF then 2 else (n + IN_LEAF - 1) / IN_LEAF
  }

  lemma ApplySize(m: map<nat, nat>, op: Op)
    ensures |Apply(m, op)| == |m| + (if op.Put? && op.lpa !in m then 1 else 0) - (if op.Drop? && op.lpa in m then 1 else 0)
  {
    match op
    case Put(lpa, grain) =>
      assert m[lpa := grain].Keys == m.Keys + {lpa};
    case Drop(lpa) =>
      assert (m - {lpa}).Keys == m.Keys - {lpa};
    case Get(_) =>
  }

  lemma StaysInSection(m: map<nat, nat>, idx: nat, lpa: nat, grain: nat)
    requires InSection(m, idx) && EPP * idx <= lpa < EPP * idx + EPP
    ensures InSection(m - {lpa}, idx) && InSection(m[lpa := grain], idx)
  {
  }

  class Section {
    const idx: nat
    const table: Table
    var lenOnDisk: nat

    ghost predicate Valid()
      reads this, table, table.entries, table.leaf
    {
      && table.Valid() && !table.reloading
      && InSection(table.M, idx)
      && EPP * idx + EPP <= UINT_MAX
      && lenOnDisk == ROOT_G + table.cnt
    }

    constructor (idx: nat)
      requires EPP * idx + EPP <= UINT_MAX
      ensures Valid() && table.M == map[] && table.cnt == LeavesFor(0) && this.idx == idx && fresh(table) && fresh(table.entries) && fresh(table.leaf)
    {
      this.idx := idx;
      table := new Table();
      lenOnDisk := ORIG_GLEN;
    }

    /** The table part of `__update_map`: grow the table when all leaves are full, then
        insert, overwrite or delete. It never grows past IN_ROOT leaves or the page. */
    method UpdateMap(lpa: nat, grain: nat, pos: nat)
      requires Valid() && EPP * idx <= lpa < EPP * idx + EPP
      requires pos == UINT_MAX ==> lpa !in table.M && grain != UINT_MAX
      requires pos != UINT_MAX ==> IsPos(table.parts, lpa, pos)
      modifies this, table, table.entries, table.leaf
      ensures Valid() && lenOnDisk <= GRAIN_PER_PAGE
      ensures table.M == if grain == UINT_MAX then old(table.M) - {lpa} else old(table.M)[lpa := grain]
      ensures table.cnt == old(table.cnt) + (if pos == UINT_MAX && |old(table.M)| == old(table.cnt) * IN_LEAF then 1 else 0)
      ensures Updated(old(table.cnt), old(table.entries[..table.cnt]), old(table.parts), old(table.M),
                      table.cnt, table.entries[..table.cnt], table.parts, lpa, grain, pos)
    {
      hide CutBy, Padded, Rooted, IsPos, Represents, Rebuilt, Inserted, Removed, Rewritten, InSection;
      StaysInSection(table.M, idx, lpa, grain);
      Capacity(table.leaf[..], table.parts, table.M, table.entries[..table.cnt]);
      if table.cachedCnt == table.cnt * IN_LEAF && pos == UINT_MAX {
        MissingKeyLeavesRoom(table.M, idx, lpa);
        RootUsable(table.parts, table.entries[..table.cnt]);
        ghost var roots := table.entries[..table.cnt];
        lenOnDisk := lenOnDisk + 1;
        table.cnt := table.cnt + 1;
        KeysBelowMax(table.M, table.parts, roots);
        table.Reload(UINT_MAX, UINT_MAX, roots);
      }
      if pos == UINT_MAX {
        table.Insert(lpa, grain);
      } else if grain == UINT_MAX {
        table.Delete(lpa, pos);
      } else {
        table.Overwrite(lpa, grain, pos);
      }
    }

    /** A store (find, then update), a delete (find, then update if found) or a lookup. */
    method Step(op: Op) returns (answer: nat)
      requires Valid() && EPP * idx <= op.lpa < EPP * idx + EPP && (op.Put? ==> op.grain < UINT_MAX)
      modifies this, table, table.entries, table.leaf
      ensures Valid() && table.M == Apply(old(table.M), op) && answer == Lookup(old(table.M), op.lpa)
      ensures table.cnt == old(table.cnt) + (if op.Put? && op.lpa !in old(table.M) && |old(table.M)| == old(table.cnt) * IN_LEAF then 1 else 0)
      ensures DidOp(old(table.cnt), old(table.entries[..table.cnt]), old(table.parts), old(table.M),
                    table.cnt, table.entries[..table.cnt], table.parts, op)
    {
      hide CutBy, Padded, Rooted, IsPos, Updated;
      var pos;
      answer, pos := table.Find(op.lpa);
      assert Located(table.parts, table.M, op.lpa, pos);
      match op {
        case Put(lpa, grain) => UpdateMap(lpa, grain, pos);
        case Drop(lpa) => if pos != UINT_MAX { UpdateMap(lpa, UINT_MAX, pos); }
        case Get(_) =>
      }
    }

    /** Any run of stores, deletes and lookups answers as a plain map does. The table has the
        leaves for the most keys that it ever held. */
    method Run(ops: seq<Op>) returns (answers: seq<nat>)
      requires Valid()
      requires forall op :: op in ops ==> EPP * idx <= op.lpa < EPP * idx + EPP && (op.Put? ==> op.grain < UINT_MAX)
      modifies this, table, table.entries, table.leaf
      ensures Valid() && table.M == ApplyAll(old(table.M), ops)
      ensures answers == Answers(old(table.M), ops)
      ensures table.cachedCnt == |ApplyAll(old(table.M), ops)|
      ensures old(table.cnt == LeavesFor(|table.M|)) ==> table.cnt == LeavesFor(Peak(old(table.M), ops)) && lenOnDisk == ROOT_G + table.cnt
    {
      hide CutBy, Padded, Rooted, Apply, Lookup, DidOp;
      answers := [];
      assert ops[..0] == [];
      for n := 0 to |ops|
        invariant Valid() && table.M == ApplyAll(old(table.M), ops[..n])
        invariant old(table.cnt == LeavesFor(|table.M|)) ==> table.cnt == LeavesFor(Peak(old(table.M), ops[..n]))
        invariant |table.M| <= Peak(old(table.M), ops[..n])
        invariant answers == Answers(old(table.M), ops[..n])
      {
        assert ops[..n + 1][..n] == ops[..n];
        ApplySize(table.M, ops[n]);
        Capacity(table.leaf[..], table.parts, table.M, table.entries[..table.cnt]);
        var a := Step(ops[n]);
        if ops[n].Get? {
          answers := answers + [a];
        }
      }
      assert ops[..|ops|] == ops;
    }
  }
}
