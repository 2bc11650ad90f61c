/** The queue of victim lines: an array heap on the number of valid grains, with the
    position of each line kept in the line (pqueue.c, demand_ftl.c). */
module VictimHeap {

  /** Every line at its parent's side has no fewer valid grains than the parent. The heap
      is `d[1..n]`, filled with line numbers that index the priorities. */
  ghost predicate InRange(d: seq<nat>, n: nat, lines: nat) {
    1 <= n <= |d| && forall k :: 1 <= k < n ==> d[k] < lines
  }

  predicate Edge(d: seq<nat>, pri: seq<int>, n: nat, k: nat)
    requires 1 <= n <= |d| && forall j :: 1 <= j < n ==> d[j] < |pri|
  {
    2 <= k < n ==> pri[d[k / 2]] <= pri[d[k]]
  }

  ghost predicate Ordered(d: seq<nat>, pri: seq<int>, n: nat)
    requires InRange(d, n, |pri|)
  {
    forall k: nat :: Edge(d, pri, n, k)
  }

  /** Order but for the edge above `i`, whose parent is still below its children. */
  ghost predicate OrderedBelow(d: seq<nat>, pri: seq<int>, n: nat, i: nat)
    requires InRange(d, n, |pri|)
  {
    && 1 <= i < n
    && (forall k: nat :: k != i ==> Edge(d, pri, n, k))
    && (forall k: nat :: Grandchild(d, pri, n, i, k))
  }

  /** Order but for the edges below `i`. */
  ghost predicate OrderedAbove(d: seq<nat>, pri: seq<int>, n: nat, i: nat)
    requires InRange(d, n, |pri|)
  {
    && 1 <= i < n
    && (forall k: nat :: k / 2 != i ==> Edge(d, pri, n, k))
    && (forall k: nat :: Grandchild(d, pri, n, i, k))
  }

  ghost predicate Grandchild(d: seq<nat>, pri: seq<int>, n: nat, i: nat, k: nat)
    requires InRange(d, n, |pri|)
  {
    k / 2 == i && 2 <= i && k < n ==> pri[d[i / 2]] <= pri[d[k]]
  }

  /** Positions of the lines but for the one at `i`. */
  ghost predicate Placed(d: seq<nat>, pos: seq<nat>, n: nat, i: nat)
    requires InRange(d, n, |pos|)
  {
    && (forall k :: 1 <= k < n && k != i ==> pos[d[k]] == k)
    && (forall j, k :: 1 <= j < k < n ==> d[j] != d[k])
  }

  function Swap(d: seq<nat>, i: nat, j: nat): seq<nat>
    requires i < |d| && j < |d|
  {
    d[i := d[j]][j := d[i]]
  }

  lemma SwapKeeps(d: seq<nat>, pos: seq<nat>, n: nat, i: nat, j: nat)
    requires InRange(d, n, |pos|) && 1 <= i < n && 1 <= j < n && i != j && Placed(d, pos, n, i)
    ensures InRange(Swap(d, i, j), n, |pos|) && Placed(Swap(d, i, j), pos[d[j] := i], n, j)
  {
  }

  lemma SwapUp(d: seq<nat>, pri: seq<int>, n: nat, i: nat)
    requires InRange(d, n, |pri|) && OrderedBelow(d, pri, n, i) && 2 <= i && pri[d[i / 2]] > pri[d[i]]
    ensures InRange(Swap(d, i, i / 2), n, |pri|) && OrderedBelow(Swap(d, i, i / 2), pri, n, i / 2)
  {
    var p: nat, d' := i / 2, Swap(d, i, i / 2);
    assert InRange(d', n, |pri|);
    assert Edge(d, pri, n, p);
    forall k: nat
      ensures k != p ==> Edge(d', pri, n, k)
      ensures Grandchild(d', pri, n, p, k)
    {
      assert k != i ==> Edge(d, pri, n, k);
      assert Grandchild(d, pri, n, i, k);
    }
  }

  /** `c` is a child of `i` with no more valid grains than the other. */
  ghost predicate LeastBelow(d: seq<nat>, pri: seq<int>, n: nat, i: nat, c: nat)
    requires InRange(d, n, |pri|)
  {
    && 1 <= i < c < n && c / 2 == i
    && forall k :: 2 <= k < n && k / 2 == i ==> pri[d[c]] <= pri[d[k]]
  }

  lemma SwapDown(d: seq<nat>, pri: seq<int>, n: nat, i: nat, c: nat)
    requires InRange(d, n, |pri|) && OrderedAbove(d, pri, n, i) && LeastBelow(d, pri, n, i, c) && pri[d[i]] > pri[d[c]]
    ensures InRange(Swap(d, i, c), n, |pri|) && OrderedAbove(Swap(d, i, c), pri, n, c)
  {
    var d' := Swap(d, i, c);
    assert InRange(d', n, |pri|);
    forall k: nat
      ensures k / 2 != c ==> Edge(d', pri, n, k)
      ensures Grandchild(d', pri, n, c, k)
    {
      assert k / 2 != i ==> Edge(d, pri, n, k);
      assert Grandchild(d, pri, n, i, k);
      assert Grandchild(d, pri, n, i, c);
    }
  }

  lemma UpDone(d: seq<nat>, pri: seq<int>, n: nat, i: nat)
    requires InRange(d, n, |pri|) && OrderedBelow(d, pri, n, i) && (i == 1 || pri[d[i / 2]] <= pri[d[i]])
    ensures Ordered(d, pri, n)
  {
    assert Edge(d, pri, n, i);
  }

  lemma DownDone(d: seq<nat>, pri: seq<int>, n: nat, i: nat)
    requires InRange(d, n, |pri|) && OrderedAbove(d, pri, n, i)
    requires 2 * i >= n || exists c: nat :: LeastBelow(d, pri, n, i, c) && pri[d[i]] <= pri[d[c]]
    ensures Ordered(d, pri, n)
  {
    forall k: nat
      ensures Edge(d, pri, n, k)
    {
      assert k / 2 != i ==> Edge(d, pri, n, k);
    }
  }

  /** The root of an ordered heap has the least priority. */
  lemma {:induction false} RootIsLeast(d: seq<nat>, pri: seq<int>, n: nat, k: nat)
    requires InRange(d, n, |pri|) && Ordered(d, pri, n) && 1 <= k < n
    ensures pri[d[1]] <= pri[d[k]]
  {
    if k > 1 {
      assert Edge(d, pri, n, k);
      RootIsLeast(d, pri, n, k / 2);
    }
  }

  // ----- checking a heap -----

  /** `subtree_is_valid`. */
  predicate SubtreeValid(d: seq<nat>, pri: seq<int>, n: nat, i: nat)
    requires 1 <= n <= |d| && 1 <= i && forall j :: 1 <= j < n ==> d[j] < |pri|
    decreases n - i
  {
    && (2 * i < n ==> pri[d[i]] <= pri[d[2 * i]] && SubtreeValid(d, pri, n, 2 * i))
    && (2 * i + 1 < n ==> pri[d[i]] <= pri[d[2 * i + 1]] && SubtreeValid(d, pri, n, 2 * i + 1))
  }

  /** The places below a place. */
  predicate Under(i: nat, k: nat) {
    k == i || (k > i && Under(i, k / 2))
  }

  lemma {:induction false} AllUnderRoot(k: nat)
    requires 1 <= k
    ensures Under(1, k)
  {
    if k > 1 {
      AllUnderRoot(k / 2);
    }
  }

  lemma {:induction false} UnderChild(i: nat, k: nat)
    requires 1 <= i < k && Under(i, k)
    ensures Under(2 * i, k) || Under(2 * i + 1, k)
    decreases k
  {
    if k / 2 > i {
      UnderChild(i, k / 2);
    }
  }

  lemma {:induction false} SubtreeOrdered(d: seq<nat>, pri: seq<int>, n: nat, i: nat, k: nat)
    requires InRange(d, n, |pri|) && 1 <= i < k && Under(i, k) && SubtreeValid(d, pri, n, i)
    ensures Edge(d, pri, n, k)
    decreases n - i
  {
    UnderChild(i, k);
    if k < n && k != 2 * i && k != 2 * i + 1 {
      if Under(2 * i, k) {
        UnderLarger(2 * i, k);
        SubtreeOrdered(d, pri, n, 2 * i, k);
      } else {
        UnderLarger(2 * i + 1, k);
        SubtreeOrdered(d, pri, n, 2 * i + 1, k);
      }
    }
  }

  lemma UnderLarger(i: nat, k: nat)
    requires Under(i, k)
    ensures i <= k
  {
  }

  lemma {:induction false} OrderedSubtree(d: seq<nat>, pri: seq<int>, n: nat, i: nat)
    requires InRange(d, n, |pri|) && 1 <= i && Ordered(d, pri, n)
    ensures SubtreeValid(d, pri, n, i)
    decreases n - i
  {
    if 2 * i < n {
      assert Edge(d, pri, n, 2 * i);
      OrderedSubtree(d, pri, n, 2 * i);
    }
    if 2 * i + 1 < n {
      assert Edge(d, pri, n, 2 * i + 1);
      OrderedSubtree(d, pri, n, 2 * i + 1);
    }
  }

  /** `pqueue_is_valid` accepts exactly the ordered heaps. */
  lemma IsValidIff(d: seq<nat>, pri: seq<int>, n: nat)
    requires InRange(d, n, |pri|)
    ensures SubtreeValid(d, pri, n, 1) <==> Ordered(d, pri, n)
  {
    if SubtreeValid(d, pri, n, 1) {
      forall k: nat
        ensures Edge(d, pri, n, k)
      {
        if 2 <= k {
          AllUnderRoot(k);
          SubtreeOrdered(d, pri, n, 1, k);
        }
      }
    }
    if Ordered(d, pri, n) {
      OrderedSubtree(d, pri, n, 1);
    }
  }

  // ----- the queue itself -----

  /** Positions are complete once the moving line has its own. */
  lemma PlaceLast(d: seq<nat>, pos: seq<nat>, n: nat, i: nat)
    requires InRange(d, n, |pos|) && 1 <= i < n && Placed(d, pos, n, i)
    ensures Placed(d, pos[d[i] := i], n, 0)
  {
  }

  lemma PlacedElsewhere(d: seq<nat>, pos: seq<nat>, n: nat, i: nat)
    requires InRange(d, n, |pos|) && Placed(d, pos, n, 0)
    ensures Placed(d, pos, n, i)
  {
  }

  /** A new priority at `i` breaks order only around `i`, above it if it fell, below it if
      it rose. */
  lemma Reprioritised(d: seq<nat>, pri: seq<int>, pos: seq<nat>, n: nat, i: nat, p: int)
    requires InRange(d, n, |pri|) && |pos| == |pri| && Placed(d, pos, n, 0) && 1 <= i < n
    ensures var pri' := pri[d[i] := p];
            && (Ordered(d, pri, n) && p <= pri[d[i]] ==> OrderedBelow(d, pri', n, i))
            && (Ordered(d, pri, n) && p >= pri[d[i]] ==> OrderedAbove(d, pri', n, i))
  {
    if Ordered(d, pri, n) {
      var pri' := pri[d[i] := p];
      forall k: nat
        ensures p <= pri[d[i]] && k != i ==> Edge(d, pri', n, k)
        ensures p >= pri[d[i]] && k / 2 != i ==> Edge(d, pri', n, k)
        ensures Grandchild(d, pri', n, i, k)
      {
        assert Edge(d, pri, n, k);
        assert Edge(d, pri, n, i);
      }
    }
  }

  /** The children of place `i` have no fewer valid grains than `p`. */
  ghost predicate NotBelow(d: seq<nat>, pri: seq<int>, n: nat, i: nat, p: int)
    requires InRange(d, n, |pri|)
  {
    forall k: nat :: 2 <= k < n && k / 2 == i ==> p <= pri[d[k]]
  }

  /** A priority that is raised behind the back of the queue leaves it in order exactly if
      the line is not queued, or its children are not below the new priority. */
  lemma RaisedIff(d: seq<nat>, pri: seq<int>, pos: seq<nat>, n: nat, x: nat, p: int)
    requires InRange(d, n, |pri|) && |pos| == |pri| && Placed(d, pos, n, 0) && Ordered(d, pri, n) && x < |pri| && pri[x] <= p
    ensures Ordered(d, pri[x := p], n) <==> x !in Bag(d, n) || NotBelow(d, pri, n, pos[x], p)
  {
    var pri' := pri[x := p];
    Inside(d, n);
    if x in Bag(d, n) {
      QueuedAt(d, pos, n, x);
      var i := pos[x];
      assert forall k :: 1 <= k < n && k != i ==> d[k] != x;
      forall k: nat
        ensures Edge(d, pri', n, k) <==> (2 <= k < n && k / 2 == i ==> p <= pri[d[k]])
      {
        assert Edge(d, pri, n, k);
      }
    } else {
      forall k: nat
        ensures Edge(d, pri', n, k)
      {
        assert Edge(d, pri, n, k);
      }
    }
  }

  /** The priority of a line that is not queued is of no account. */
  lemma Unqueued(d: seq<nat>, pri: seq<int>, n: nat, x: nat, p: int)
    requires InRange(d, n, |pri|) && x < |pri| && x !in Bag(d, n)
    ensures Ordered(d, pri, n) ==> Ordered(d, pri[x := p], n)
  {
    var pri' := pri[x := p];
    Inside(d, n);
    if Ordered(d, pri, n) {
      forall k: nat
        ensures Edge(d, pri', n, k)
      {
        assert Edge(d, pri, n, k);
      }
    }
  }

  /** Two queued lines with 5 and 7 valid grains: raising the first to 9 breaks the order. */
  lemma RaiseBreaks()
    ensures Ordered([0, 0, 1], [5, 7], 3) && !Ordered([0, 0, 1], [9, 7], 3)
  {
    forall k: nat
      ensures Edge([0, 0, 1], [5, 7], 3, k)
    {
    }
    assert !Edge([0, 0, 1], [9, 7], 3, 2);
  }

  /** The last line put in the place of the one at `i`. */
  function Replaced(d: seq<nat>, n: nat, i: nat): seq<nat>
    requires 2 <= n <= |d| && 1 <= i < n
  {
    d[i := d[n - 1]]
  }

  lemma Moved(d: seq<nat>, pri: seq<int>, pos: seq<nat>, n: nat, i: nat)
    requires InRange(d, n, |pri|) && |pos| == |pri| && Placed(d, pos, n, 0) && 1 <= i < n - 1
    ensures var d' := Replaced(d, n, i);
            && InRange(d', n - 1, |pri|) && Placed(d', pos, n - 1, i)
            && (Ordered(d, pri, n) && pri[d[n - 1]] <= pri[d[i]] ==> OrderedBelow(d', pri, n - 1, i))
            && (Ordered(d, pri, n) && pri[d[n - 1]] >= pri[d[i]] ==> OrderedAbove(d', pri, n - 1, i))
  {
    var d', m: nat := Replaced(d, n, i), n - 1;
    assert InRange(d', m, |pri|);
    if Ordered(d, pri, n) {
      forall k: nat
        ensures pri[d[m]] <= pri[d[i]] && k != i ==> Edge(d', pri, m, k)
        ensures pri[d[m]] >= pri[d[i]] && k / 2 != i ==> Edge(d', pri, m, k)
        ensures Grandchild(d', pri, m, i, k)
      {
        assert Edge(d, pri, n, k);
        assert Edge(d, pri, n, i);
      }
    }
  }

  lemma LostOne(d: seq<nat>, n: nat, i: nat)
    requires 2 <= n <= |d| && 1 <= i < n
    ensures Bag(Replaced(d, n, i), n - 1) == Bag(d, n) - multiset{d[i]}
  {
    assert d[1..n] == d[1..n - 1] + [d[n - 1]];
    if i == n - 1 {
      assert Replaced(d, n, i)[1..n - 1] == d[1..n - 1];
    } else {
      assert Replaced(d, n, i)[1..n - 1] == d[1..n - 1][i - 1 := d[n - 1]];
    }
  }

  lemma Shorter(d: seq<nat>, pri: seq<int>, pos: seq<nat>, n: nat)
    requires InRange(d, n, |pri|) && |pos| == |pri| && Placed(d, pos, n, 0) && 2 <= n
    ensures InRange(d, n - 1, |pri|) && (Ordered(d, pri, n) ==> Ordered(d, pri, n - 1)) && Placed(d, pos, n - 1, 0)
  {
    var m: nat := n - 1;
    if Ordered(d, pri, n) {
      forall k: nat
        ensures Edge(d, pri, m, k)
      {
        assert Edge(d, pri, n, k);
      }
    }
  }

  lemma Longer(d: seq<nat>, pri: seq<int>, pos: seq<nat>, n: nat, x: nat)
    requires InRange(d, n, |pri|) && |pos| == |pri| && Placed(d, pos, n, 0)
    requires n < |d| && x < |pri| && x !in Bag(d, n)
    ensures var d' := d[n := x];
            && InRange(d', n + 1, |pri|) && Placed(d', pos, n + 1, n)
            && (Ordered(d, pri, n) ==> OrderedBelow(d', pri, n + 1, n))
  {
    var d', m: nat := d[n := x], n + 1;
    assert InRange(d', m, |pri|);
    Inside(d, n);
    if Ordered(d, pri, n) {
      forall k: nat | k != n
        ensures Edge(d', pri, m, k)
      {
        assert Edge(d, pri, n, k);
        assert k < n ==> k / 2 < n;
      }
      forall k: nat
        ensures Grandchild(d', pri, m, n, k)
      {
        assert k < m ==> k / 2 < n;
      }
    }
  }

  lemma GainedOne(d: seq<nat>, n: nat, x: nat)
    requires 1 <= n < |d|
    ensures Bag(d[n := x], n + 1) == Bag(d, n) + multiset{x}
  {
    assert d[n := x][1..n + 1] == d[1..n] + [x];
  }

  /** The lines in the first `n` places. */
  ghost function Bag(d: seq<nat>, n: nat): multiset<nat>
    requires 1 <= n <= |d|
  {
    multiset(d[1..n])
  }

  /** Lines moved around: the same lines in the same places altogether, and the positions of
      other lines untouched. */
  ghost predicate Shuffled(v: seq<nat>, v0: seq<nat>, pos: seq<nat>, pos0: seq<nat>, n: nat) {
    && |v| == |v0| && |pos| == |pos0| && 1 <= n <= |v|
    && Bag(v, n) == Bag(v0, n)
    && forall l :: 0 <= l < |pos| && l !in Bag(v0, n) ==> pos[l] == pos0[l]
  }

  lemma ShuffledStep(v: seq<nat>, v0: seq<nat>, pos: seq<nat>, pos0: seq<nat>, n: nat, i: nat, j: nat)
    requires Shuffled(v, v0, pos, pos0, n) && 1 <= i < n && 1 <= j < n && i != j && v[j] < |pos|
    ensures Shuffled(Swap(v, i, j), v0, pos[v[j] := i], pos0, n)
  {
    SwapBag(v, n, i, j);
    hide Swap;
    AmongThem(v, v0, n, j);
  }

  lemma SwapBag(v: seq<nat>, n: nat, i: nat, j: nat)
    requires 1 <= i < n <= |v| && 1 <= j < n && i != j
    ensures |Swap(v, i, j)| == |v| && Bag(Swap(v, i, j), n) == Bag(v, n)
  {
    var w := v[1..n];
    assert Swap(v, i, j)[1..n] == w[i - 1 := w[j - 1]][j - 1 := w[i - 1]];
  }

  lemma AmongThem(v: seq<nat>, v0: seq<nat>, n: nat, j: nat)
    requires 1 <= j < n <= |v| == |v0| && Bag(v, n) == Bag(v0, n)
    ensures v[j] in Bag(v0, n)
  {
    assert v[1..n][j - 1] in multiset(v[1..n]);
  }

  lemma ShuffledLast(v: seq<nat>, v0: seq<nat>, pos: seq<nat>, pos0: seq<nat>, n: nat, i: nat)
    requires Shuffled(v, v0, pos, pos0, n) && 1 <= i < n && v[i] < |pos|
    ensures Shuffled(v, v0, pos[v[i] := i], pos0, n)
  {
    AmongThem(v, v0, n, i);
  }

  lemma ShuffledNot(v: seq<nat>, pos: seq<nat>, n: nat)
    requires 1 <= n <= |v|
    ensures Shuffled(v, v, pos, pos, n)
  {
  }

  class PQueue {
    const d: array<nat>
    const pri: array<int>
    const pos: array<nat>
    var size: nat

    ghost predicate Shaped()
      reads this, d
    {
      && d != pos && pri.Length == pos.Length && 1 <= size <= d.Length
      && InRange(d[..], size, pri.Length)
    }

    /** Every line in the queue knows its place. */
    ghost predicate Valid()
      reads this, d, pos
    {
      Shaped() && Placed(d[..], pos[..], size, 0)
    }

    /** The queue is in heap order. Raising the priority of a line behind the back of the
        queue can break this, but not `Valid`. */
    ghost predicate IsHeap()
      requires Shaped()
      reads this, d, pri
    {
      Ordered(d[..], pri[..], size)
    }

    /** The lines in the queue. */
    ghost function Members(): multiset<nat>
      requires 1 <= size <= d.Length
      reads this, d
    {
      Bag(d[..], size)
    }

    /** `pqueue_init`, for lines numbered below `lines`. */
    constructor (lines: nat, pri: array<int>, pos: array<nat>)
      requires pri.Length == pos.Length == lines
      ensures Valid() && IsHeap() && size == 1 && this.pri == pri && this.pos == pos && fresh(d) && d.Length == lines + 1
    {
      d := new nat[lines + 1](_ => 0);
      this.pri, this.pos, size := pri, pos, 1;
    }

    /** Put the line at `j` at `i`; the hole and the moving line are at `j` now. */
    method Shift(i: nat, j: nat, moving: nat, ghost v: seq<nat>)
      requires d != pos && 1 <= i < size <= d.Length && 1 <= j < size && i != j && v == d[..][i := moving] && d[j] < pos.Length
      modifies d, pos
      ensures d[..][j := moving] == Swap(v, i, j) && pos[..] == old(pos[..])[v[j] := i] && v[j] == old(d[j])
    {
      d[i] := d[j];
      pos[d[i]] := i;
    }

    method Land(i: nat, moving: nat, ghost v: seq<nat>)
      requires d != pos && 1 <= i < size <= d.Length && v == d[..][i := moving] && moving < pos.Length
      modifies d, pos
      ensures d[..] == v && pos[..] == old(pos[..])[v[i] := i]
    {
      d[i] := moving;
      pos[moving] := i;
    }

    /** Move the line at `start` up until its parent has no more valid grains. */
    method BubbleUp(start: nat)
      requires Shaped() && 1 <= start < size && Placed(d[..], pos[..], size, start)
      modifies d, pos
      ensures Valid() && Shuffled(d[..], old(d[..]), pos[..], old(pos[..]), size)
      ensures old(OrderedBelow(d[..], pri[..], size, start)) ==> IsHeap()
    {
      hide InRange, OrderedBelow, Placed, Ordered, Shuffled, Swap;
      var i := start;
      HoleAt(d[..], pri[..], size, start);
      var moving := d[i];
      ghost var v, p, n := d[..], pri[..], size;
      ghost var ok := OrderedBelow(v, p, n, i);
      ShuffledNot(v, pos[..], n);
      while i > 1 && pri[d[i / 2]] > pri[moving]
        invariant 1 <= i < n && moving < pri.Length && v == d[..][i := moving]
        invariant InRange(v, n, pri.Length) && (ok ==> OrderedBelow(v, p, n, i)) && Placed(v, pos[..], n, i)
        invariant Shuffled(v, old(d[..]), pos[..], old(pos[..]), n)
        invariant i > 1 ==> d[i / 2] < pri.Length
        modifies d, pos
        decreases i
      {
        ghost var j := i / 2;
        if ok { SwapUp(v, p, n, i); }
        SwapKeeps(v, pos[..], n, i, j);
        ShuffledStep(v, old(d[..]), pos[..], old(pos[..]), n, i, j);
        Shift(i, i / 2, moving, v);
        v := Swap(v, i, j);
        i := i / 2;
        HoleAt(v, p, n, i);
      }
      HoleAt(v, p, n, i);
      if ok { UpDone(v, p, n, i); }
      PlaceLast(v, pos[..], n, i);
      ShuffledLast(v, old(d[..]), pos[..], old(pos[..]), n, i);
      Land(i, moving, v);
    }

    /** `maxchild`: the child with fewer valid grains, or 0. */
    method LeastChild(i: nat, ghost v: seq<nat>) returns (c: nat)
      requires 1 <= i < size <= d.Length && |v| == d.Length && InRange(v, size, pri.Length)
      requires forall k :: i < k < size ==> d[k] == v[k]
      ensures c == 0 <==> 2 * i >= size
      ensures c != 0 ==> LeastBelow(v, pri[..], size, i, c)
    {
      c := 2 * i;
      if c >= size {
        return 0;
      }
      if c + 1 < size && pri[d[c]] > pri[d[c + 1]] {
        c := c + 1;
      }
      assert forall k :: 2 <= k < size && k / 2 == i ==> k == 2 * i || k == 2 * i + 1;
    }

    /** Move the line at `start` down until its children have no fewer valid grains. */
    method PercolateDown(start: nat)
      requires Shaped() && 1 <= start < size && Placed(d[..], pos[..], size, start)
      modifies d, pos
      ensures Valid() && Shuffled(d[..], old(d[..]), pos[..], old(pos[..]), size)
      ensures old(OrderedAbove(d[..], pri[..], size, start)) ==> IsHeap()
    {
      hide InRange, OrderedAbove, Placed, Ordered, Shuffled, Swap, LeastBelow;
      var i := start;
      HoleAt(d[..], pri[..], size, start);
      var moving := d[i];
      ghost var v, p, n := d[..], pri[..], size;
      ghost var ok := OrderedAbove(v, p, n, i);
      ShuffledNot(v, pos[..], n);
      while true
        invariant 1 <= i < n && moving < pri.Length && v == d[..][i := moving]
        invariant InRange(v, n, pri.Length) && (ok ==> OrderedAbove(v, p, n, i)) && Placed(v, pos[..], n, i)
        invariant Shuffled(v, old(d[..]), pos[..], old(pos[..]), n)
        modifies d, pos
        decreases n - i
      {
        var c := LeastChild(i, v);
        if c == 0 {
          break;
        }
        LeastInRange(v, p, n, i, c);
        if pri[moving] <= pri[d[c]] {
          break;
        }
        if ok { SwapDown(v, p, n, i, c); }
        SwapKeeps(v, pos[..], n, i, c);
        ShuffledStep(v, old(d[..]), pos[..], old(pos[..]), n, i, c);
        Shift(i, c, moving, v);
        v := Swap(v, i, c);
        i := c;
      }
      HoleAt(v, p, n, i);
      if ok { DownDone(v, p, n, i); }
      PlaceLast(v, pos[..], n, i);
      ShuffledLast(v, old(d[..]), pos[..], old(pos[..]), n, i);
      Land(i, moving, v);
    }

    /** `pqueue_insert`. */
    method Insert(x: nat)
      requires Valid() && size < d.Length && x < pri.Length && x !in Members()
      modifies this`size, d, pos
      ensures Valid() && Members() == old(Members()) + multiset{x} && size == old(size) + 1
      ensures old(IsHeap()) ==> IsHeap()
      ensures forall l :: 0 <= l < pos.Length && l != x && l !in old(Members()) ==> pos[l] == old(pos[l])
    {
      hide InRange, OrderedBelow, Placed, Ordered, Shuffled, Bag;
      ghost var v, n := d[..][size := x], size;
      Longer(d[..], pri[..], pos[..], size, x);
      GainedOne(d[..], size, x);
      ghost var d0, pos0 := d[..], pos[..];
      d[size] := x;
      size := size + 1;
      assert d[..] == v;
      BubbleUp(size - 1);
      ShuffledIn(d[..], v, pos[..], pos0, n, d0, x);
    }

    /** `pqueue_change_priority`. */
    method ChangePriority(x: nat, p: int)
      requires Valid() && x in Members()
      modifies d, pos, pri
      ensures x < pri.Length && Valid() && Members() == old(Members()) && pri[..] == old(pri[..])[x := p]
      ensures old(IsHeap()) ==> IsHeap()
      ensures forall l :: 0 <= l < pos.Length && l !in old(Members()) ==> pos[l] == old(pos[l])
    {
      hide InRange, OrderedBelow, OrderedAbove, Placed, Ordered, Bag;
      QueuedAt(d[..], pos[..], size, x);
      Reprioritised(d[..], pri[..], pos[..], size, pos[x], p);
      PlacedElsewhere(d[..], pos[..], size, pos[x]);
      var was := pri[x];
      ghost var v := pri[..][x := p];
      pri[x] := p;
      assert pri[..] == v;
      if was > p {
        BubbleUp(pos[x]);
      } else {
        PercolateDown(pos[x]);
      }
    }

    /** Put the last line in the place of the one at `i`, and restore the order. */
    method Fill(i: nat)
      requires Valid() && 1 <= i < size - 1
      modifies this`size, d, pos
      ensures Valid() && size == old(size) - 1 && (old(IsHeap()) ==> IsHeap())
      ensures Shuffled(d[..], Replaced(old(d[..]), old(size), i), pos[..], old(pos[..]), size)
    {
      hide InRange, OrderedBelow, OrderedAbove, Placed, Ordered, Shuffled, Bag;
      Moved(d[..], pri[..], pos[..], size, i);
      LastInRange(d[..], size, pri.Length, i);
      var was := pri[d[i]];
      ghost var v := Replaced(d[..], size, i);
      size := size - 1;
      d[i] := d[size];
      assert d[..] == v;
      LastInRange(v, size, pri.Length, i);
      if was > pri[d[i]] {
        BubbleUp(i);
      } else {
        PercolateDown(i);
      }
    }

    /** Take out the line at `i`. If it is the last line there is nothing to restore. */
    method TakeOut(i: nat)
      requires Valid() && 1 <= i < size
      modifies this`size, d, pos
      ensures Valid() && Members() == old(Members()) - multiset{old(d[i])} && size == old(size) - 1
      ensures old(IsHeap()) ==> IsHeap()
      ensures forall l :: 0 <= l < pos.Length && l !in old(Members()) ==> pos[l] == old(pos[l])
    {
      hide InRange, OrderedBelow, OrderedAbove, Placed, Ordered, Shuffled, Replaced, Bag;
      ghost var d0, pos0, n := d[..], pos[..], size;
      if i < size - 1 {
        Fill(i);
      } else {
        ShuffledNot(d0, pos0, n - 1);
        Shorter(d0, pri[..], pos0, n);
        ReplacedIs(d0, n, i);
        size := size - 1;
      }
      ShuffledOut(d[..], pos[..], pos0, n, d0, i);
    }

    /** `pqueue_remove`. */
    method Remove(x: nat)
      requires Valid() && x in Members()
      modifies this`size, d, pos
      ensures Valid() && Members() == old(Members()) - multiset{x} && size == old(size) - 1
      ensures old(IsHeap()) ==> IsHeap()
      ensures forall l :: 0 <= l < pos.Length && l !in old(Members()) ==> pos[l] == old(pos[l])
    {
      hide InRange, Placed, Ordered, Bag;
      QueuedAt(d[..], pos[..], size, x);
      TakeOut(pos[x]);
    }

    /** `pqueue_peek`: a line with the fewest valid grains, if there is any. */
    method Peek() returns (found: bool, x: nat)
      requires Valid()
      ensures found == (size > 1)
      ensures found ==> x in Members() && x < pri.Length && x == d[1]
      ensures found && IsHeap() ==> forall l :: l in Members() ==> l < pri.Length && pri[x] <= pri[l]
    {
      found, x := size > 1, 0;
      if found {
        x := d[1];
        Inside(d[..], size);
        if IsHeap() {
          LeastMember(d[..], pri[..], size);
        }
      }
    }

    /** `pqueue_pop`: take out a line with the fewest valid grains. Its own position is left
        as it was. */
    method Pop() returns (found: bool, x: nat)
      requires Valid()
      modifies this`size, d, pos
      ensures found == (old(size) > 1) && Valid()
      ensures !found ==> size == old(size) && Members() == old(Members()) && pos[..] == old(pos[..])
      ensures found ==> x in old(Members()) && Members() == old(Members()) - multiset{x} && size == old(size) - 1
      ensures found ==> x < pri.Length && forall l :: 0 <= l < pos.Length && l !in old(Members()) ==> pos[l] == old(pos[l])
      ensures old(IsHeap()) ==> IsHeap()
      ensures found && old(IsHeap()) ==> forall l :: l in old(Members()) ==> l < pri.Length && pri[x] <= pri[l]
    {
      hide InRange, Placed, Ordered, Bag;
      found, x := Peek();
      if found {
        TakeOut(1);
      }
    }

    /** `pqueue_is_valid`. */
    method IsValid() returns (ok: bool)
      requires Shaped()
      ensures ok <==> IsHeap()
    {
      IsValidIff(d[..], pri[..], size);
      ok := SubtreeValid(d[..], pri[..], size, 1);
    }
  }

  lemma LeastMember(d: seq<nat>, pri: seq<int>, n: nat)
    requires InRange(d, n, |pri|) && Ordered(d, pri, n) && 1 < n
    ensures forall l :: l in Bag(d, n) ==> l < |pri| && pri[d[1]] <= pri[l]
  {
    forall l | l in Bag(d, n)
      ensures l < |pri| && pri[d[1]] <= pri[l]
    {
      assert l in d[1..n];
      var j :| 0 <= j < n - 1 && d[1..n][j] == l;
      assert d[j + 1] == l;
      RootIsLeast(d, pri, n, j + 1);
    }
  }

  lemma LastInRange(d: seq<nat>, n: nat, lines: nat, i: nat)
    requires InRange(d, n, lines) && 1 <= i < n
    ensures d[i] < lines
  {
  }

  lemma ReplacedIs(d: seq<nat>, n: nat, i: nat)
    requires 2 <= n <= |d| && 1 <= i < n
    ensures Replaced(d, n, i) == d[i := d[n - 1]] && |Replaced(d, n, i)| == |d|
    ensures i == n - 1 ==> Replaced(d, n, i) == d
  {
  }

  lemma ShuffledIn(v': seq<nat>, v: seq<nat>, pos': seq<nat>, pos: seq<nat>, n: nat, d: seq<nat>, x: nat)
    requires Shuffled(v', v, pos', pos, n + 1) && 1 <= n < |d| && v == d[n := x]
    ensures Bag(v', n + 1) == Bag(d, n) + multiset{x} && |pos'| == |pos|
    ensures forall l :: 0 <= l < |pos| && l != x && l !in Bag(d, n) ==> pos'[l] == pos[l]
  {
    GainedOne(d, n, x);
  }

  /** What is left after a line was taken out. */
  lemma ShuffledOut(v': seq<nat>, pos': seq<nat>, pos: seq<nat>, n: nat, d: seq<nat>, i: nat)
    requires 1 <= i < n <= |d| && Shuffled(v', Replaced(d, n, i), pos', pos, n - 1)
    ensures Bag(v', n - 1) == Bag(d, n) - multiset{d[i]} && |pos'| == |pos|
    ensures forall l :: 0 <= l < |pos| && l !in Bag(d, n) ==> pos'[l] == pos[l]
  {
    LostOne(d, n, i);
  }

  lemma QueuedAt(d: seq<nat>, pos: seq<nat>, n: nat, x: nat)
    requires InRange(d, n, |pos|) && Placed(d, pos, n, 0) && x in Bag(d, n)
    ensures x < |pos| && 1 <= pos[x] < n && d[pos[x]] == x
  {
    var j :| 0 <= j < n - 1 && d[1..n][j] == x;
    assert d[j + 1] == x;
  }

  /** A line is in the queue exactly if its place holds it. */
  lemma QueuedIff(d: seq<nat>, pos: seq<nat>, n: nat, x: nat)
    requires InRange(d, n, |pos|) && Placed(d, pos, n, 0) && x < |pos|
    ensures x in Bag(d, n) <==> 1 <= pos[x] < n && d[pos[x]] == x
  {
    if x in Bag(d, n) {
      QueuedAt(d, pos, n, x);
    } else if 1 <= pos[x] < n {
      assert d[1..n][pos[x] - 1] == d[pos[x]];
    }
  }

  lemma LeastInRange(d: seq<nat>, pri: seq<int>, n: nat, i: nat, c: nat)
    requires InRange(d, n, |pri|) && LeastBelow(d, pri, n, i, c)
    ensures 1 <= i < c < n <= |d| && d[c] < |pri|
  {
  }

  lemma HoleAt(d: seq<nat>, pri: seq<int>, n: nat, i: nat)
    requires InRange(d, n, |pri|) && 1 <= i < n
    ensures n <= |d| && d[i] < |pri| && (i > 1 ==> d[i / 2] < |pri|)
  {
  }

  lemma Inside(d: seq<nat>, n: nat)
    requires n <= |d| && 1 <= n
    ensures forall k :: 1 <= k < n ==> d[k] in Bag(d, n)
  {
    forall k | 1 <= k < n
      ensures d[k] in Bag(d, n)
    {
      assert d[1..n][k - 1] == d[k];
    }
  }
}
