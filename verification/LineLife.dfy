/** The life of a line: free list, write pointers, full list, victim queue and collection
    (init_lines, advance_write_pointer, mark_grain_valid, mark_grain_invalid,
    select_victim_line and mark_line_free in demand_ftl.c). */
module LineLife {
  import opened Lists
  import opened VictimHeap

  /** Where lines are: two lists, the queue, the write pointers and the collector. */
  datatype Places = Places(free: seq<nat>, full: seq<nat>, queue: multiset<nat>, wps: seq<nat>, taken: set<nat>)

  function One(b: bool): nat {
    if b then 1 else 0
  }

  /** A line is in exactly one place. */
  ghost predicate InOnePlace(p: Places, l: nat) {
    One(l in p.free) + One(l in p.full) + One(l in p.queue) + One(l in p.wps) + One(l in p.taken) == 1
  }

  ghost predicate Somewhere(p: Places, l: nat) {
    l in p.free || l in p.full || l in p.queue || l in p.wps || l in p.taken
  }

  ghost predicate Partition(p: Places, lines: nat) {
    && Distinct(p.free) && Distinct(p.full) && Distinct(p.wps)
    && (forall l: nat :: l < lines ==> InOnePlace(p, l))
    && (forall l: nat :: Somewhere(p, l) ==> l < lines)
  }

  /** The counters of a line of `grains` grains, by where the line is. Map lines are closed
      with or without invalid grains, data lines always with some. */
  ghost predicate Sound(p: Places, l: nat, vgc: int, igc: int, forMap: bool, grains: nat) {
    && 0 <= vgc && 0 <= igc && vgc + igc <= grains && 0 < grains
    && (l in p.free ==> vgc == 0 && igc == 0)
    && (l in p.wps ==> vgc + igc < grains)
    && (l in p.full ==> forMap)
    && (l in p.queue || l in p.taken ==> 0 < igc)
  }

  ghost predicate AllSound(p: Places, vgc: seq<int>, igc: seq<int>, isMap: seq<bool>, grains: nat) {
    |vgc| == |igc| == |isMap| && forall l :: 0 <= l < |vgc| ==> Sound(p, l, vgc[l], igc[l], isMap[l], grains)
  }

  /** A line has a position exactly while it is queued. */
  ghost predicate Positioned(queue: multiset<nat>, pos: seq<nat>) {
    forall l :: 0 <= l < |pos| ==> (pos[l] != 0 <==> l in queue)
  }

  /** Only a line on the full list has all its grains valid. */
  lemma AllValidIsFull(p: Places, l: nat, lines: nat, vgc: int, igc: int, forMap: bool, grains: nat)
    requires Partition(p, lines) && l < lines && Sound(p, l, vgc, igc, forMap, grains) && vgc >= grains
    ensures l in p.full && forMap && igc == 0 && l !in p.queue
  {
    assert InOnePlace(p, l);
  }

  // ----- steps on places -----

  /** The write pointer `k` leaves its line, which goes to the full list or the queue. */
  ghost function Closed(p: Places, k: nat, toFull: bool): Places
    requires k < |p.wps| && p.free != []
  {
    var l := p.wps[k];
    Places(p.free[1..], if toFull then p.full + [l] else p.full, if toFull then p.queue else p.queue + multiset{l},
           p.wps[k := p.free[0]], p.taken)
  }

  ghost predicate ClosedTo(p: Places, p': Places, k: nat, toFull: bool) {
    k < |p.wps| && p.free != [] && p' == Closed(p, k, toFull)
  }

  lemma ClosedOk(p: Places, k: nat, toFull: bool, lines: nat)
    requires Partition(p, lines) && k < |p.wps| && p.free != []
    ensures Partition(Closed(p, k, toFull), lines)
    ensures p.wps[k] < lines && p.free[0] < lines && p.wps[k] !in p.queue && p.wps[k] !in p.full
    ensures forall x: nat :: x != p.wps[k] && x != p.free[0] ==> SamePlace(p, Closed(p, k, toFull), x)
    ensures var p' := Closed(p, k, toFull);
            && p.wps[k] !in p'.free && p.wps[k] !in p'.wps && p.wps[k] !in p'.taken
            && (p.wps[k] in p'.full <==> toFull) && (p.wps[k] in p'.queue <==> !toFull)
            && p.free[0] in p'.wps && p.free[0] !in p'.free && p.free[0] !in p'.full && p.free[0] !in p'.queue && p.free[0] !in p'.taken
  {
    var l, f, p' := p.wps[k], p.free[0], Closed(p, k, toFull);
    assert l in p.wps && Somewhere(p, l) && InOnePlace(p, l);
    assert f in p.free && Somewhere(p, f) && InOnePlace(p, f);
    PoppedFirst(p.free);
    PutAt(p.wps, k, f);
    PutLast(p.full, l);
    forall x: nat | x != l && x != f
      ensures SamePlace(p, p', x)
    {
    }
    hide Distinct, Closed;
    forall x: nat | x < lines
      ensures InOnePlace(p', x)
    {
      if x != l && x != f {
        assert InOnePlace(p, x) && SamePlace(p, p', x);
      }
    }
    forall x: nat | Somewhere(p', x)
      ensures x < lines
    {
      if x != l && x != f {
        assert SamePlace(p, p', x) && Somewhere(p, x);
      }
    }
  }

  ghost predicate SamePlace(p: Places, p': Places, x: nat) {
    && (x in p'.free <==> x in p.free) && (x in p'.full <==> x in p.full) && (x in p'.queue <==> x in p.queue)
    && (x in p'.wps <==> x in p.wps) && (x in p'.taken <==> x in p.taken)
  }

  /** One line moves: the rest keeps its place. */
  lemma MovedOk(p: Places, p': Places, l: nat, lines: nat)
    requires Partition(p, lines) && l < lines && InOnePlace(p', l)
    requires Distinct(p'.free) && Distinct(p'.full) && Distinct(p'.wps)
    requires forall x: nat :: x != l ==> SamePlace(p, p', x)
    ensures Partition(p', lines)
  {
    hide Distinct;
    forall x: nat | x < lines
      ensures InOnePlace(p', x)
    {
      if x != l {
        assert InOnePlace(p, x) && SamePlace(p, p', x);
      }
    }
    forall x: nat | Somewhere(p', x)
      ensures x < lines
    {
      if x != l {
        assert SamePlace(p, p', x) && Somewhere(p, x);
      }
    }
  }

  /** From the full list to the queue. */
  ghost function Requeued(p: Places, l: nat): Places {
    p.(full := Without(p.full, l), queue := p.queue + multiset{l})
  }

  lemma RequeuedOk(p: Places, l: nat, lines: nat)
    requires Partition(p, lines) && l in p.full
    ensures l < lines && Partition(Requeued(p, l), lines)
    ensures var p' := Requeued(p, l);
            l in p'.queue && l !in p'.full && l !in p'.free && l !in p'.wps && l !in p'.taken && |p'.full| == |p.full| - 1
    ensures forall x: nat :: x != l ==> SamePlace(p, Requeued(p, l), x)
  {
    var p' := Requeued(p, l);
    assert Somewhere(p, l) && InOnePlace(p, l);
    WithoutIs(p.full, l);
    forall x: nat | x != l
      ensures SamePlace(p, p', x)
    {
    }
    hide Distinct;
    MovedOk(p, p', l, lines);
  }

  /** From the queue to the collector. */
  ghost function Picked(p: Places, l: nat): Places {
    p.(queue := p.queue - multiset{l}, taken := p.taken + {l})
  }

  lemma PickedOk(p: Places, l: nat, lines: nat)
    requires Partition(p, lines) && p.queue[l] == 1
    ensures l < lines && Partition(Picked(p, l), lines)
    ensures var p' := Picked(p, l); l !in p'.queue && l in p'.taken && l !in p'.full && l !in p'.free && l !in p'.wps
    ensures forall x: nat :: x != l ==> SamePlace(p, Picked(p, l), x)
  {
    var p' := Picked(p, l);
    assert Somewhere(p, l) && InOnePlace(p, l);
    forall x: nat | x != l
      ensures SamePlace(p, p', x)
    {
    }
    hide Distinct;
    MovedOk(p, p', l, lines);
  }

  /** From the collector to the free list. */
  ghost function Freed(p: Places, l: nat): Places {
    p.(taken := p.taken - {l}, free := p.free + [l])
  }

  lemma FreedOk(p: Places, l: nat, lines: nat)
    requires Partition(p, lines) && l in p.taken
    ensures l < lines && Partition(Freed(p, l), lines)
    ensures var p' := Freed(p, l); l !in p'.queue && l !in p'.taken && l !in p'.full && l in p'.free && l !in p'.wps
    ensures forall x: nat :: x != l ==> SamePlace(p, Freed(p, l), x)
  {
    var p' := Freed(p, l);
    assert Somewhere(p, l) && InOnePlace(p, l);
    PutLast(p.free, l);
    forall x: nat | x != l
      ensures SamePlace(p, p', x)
    {
    }
    hide Distinct;
    MovedOk(p, p', l, lines);
  }

  /** Counters stay sound where neither place nor counters change. */
  lemma SoundElsewhere(p: Places, p': Places, l: nat, vgc: seq<int>, igc: seq<int>, isMap: seq<bool>,
                       vgc': seq<int>, igc': seq<int>, isMap': seq<bool>, grains: nat)
    requires AllSound(p, vgc, igc, isMap, grains) && |vgc'| == |igc'| == |isMap'| == |vgc|
    requires forall x: nat :: x != l ==> SamePlace(p, p', x)
    requires forall x :: 0 <= x < |vgc| && x != l ==> vgc'[x] == vgc[x] && igc'[x] == igc[x] && isMap'[x] == isMap[x]
    requires l < |vgc| ==> Sound(p', l, vgc'[l], igc'[l], isMap'[l], grains)
    ensures AllSound(p', vgc', igc', isMap', grains)
  {
    forall x | 0 <= x < |vgc|
      ensures Sound(p', x, vgc'[x], igc'[x], isMap'[x], grains)
    {
      if x != l {
        assert SamePlace(p, p', x) && Sound(p, x, vgc[x], igc[x], isMap[x], grains);
      }
    }
  }

  // ----- lines that never leave the full list -----

  /** The line is on the full list though it has invalid grains: no invalidation moves it to
      the queue any more. */
  ghost predicate Stuck(full: seq<nat>, igc: seq<int>, l: nat) {
    l in full && l < |igc| && 0 < igc[l]
  }

  ghost predicate StuckStay(full: seq<nat>, igc: seq<int>, full': seq<nat>, igc': seq<int>) {
    forall l :: Stuck(full, igc, l) ==> Stuck(full', igc', l)
  }

  /** A stuck line is out of the reach of every step. */
  lemma StuckApart(p: Places, vgc: seq<int>, igc: seq<int>, isMap: seq<bool>, grains: nat, l: nat)
    requires Partition(p, |vgc|) && AllSound(p, vgc, igc, isMap, grains) && |igc| == |vgc| && Stuck(p.full, igc, l)
    ensures vgc[l] < grains && l !in p.free && l !in p.queue && l !in p.wps && l !in p.taken
  {
    assert Sound(p, l, vgc[l], igc[l], isMap[l], grains);
    assert InOnePlace(p, l);
  }

  lemma StuckKept(p: Places, p': Places, vgc: seq<int>, igc: seq<int>, isMap: seq<bool>, grains: nat, igc': seq<int>, x: nat)
    requires Partition(p, |vgc|) && AllSound(p, vgc, igc, isMap, grains) && |igc'| == |igc| == |vgc|
    requires forall l :: l in p.full && l != x ==> l in p'.full
    requires forall l :: 0 <= l < |igc| && l != x ==> igc'[l] == igc[l]
    requires Stuck(p.full, igc, x) ==> Stuck(p'.full, igc', x)
    ensures StuckStay(p.full, igc, p'.full, igc')
  {
  }

  // ----- the queue has room for every line -----

  lemma Room(d: seq<nat>, pos: seq<nat>, n: nat, x: nat)
    requires InRange(d, n, |pos|) && VictimHeap.Placed(d, pos, n, 0) && x < |pos| && x !in Bag(d, n)
    ensures n <= |pos|
  {
    var s := d[1..n];
    assert Distinct(s);
    PutLast(s, x);
    Pigeonhole(s + [x], |pos|);
  }

  /** A queued line is queued once. */
  lemma QueuedOnce(d: seq<nat>, pos: seq<nat>, n: nat, x: nat)
    requires InRange(d, n, |pos|) && VictimHeap.Placed(d, pos, n, 0) && x in Bag(d, n)
    ensures Bag(d, n)[x] == 1
  {
    QueuedAt(d, pos, n, x);
    var k := pos[x];
    assert d[1..n] == d[1..k] + [d[k]] + d[k + 1..n];
    assert x !in d[1..k] && x !in d[k + 1..n];
  }

  // ----- the line manager -----

  class Lines {
    const grains: nat
    const queue: PQueue
    const igc: array<int>
    const isMap: array<bool>
    var free: seq<nat>
    var full: seq<nat>
    var wps: seq<nat>
    var taken: set<nat>
    var freeCnt: int
    var fullCnt: int
    var victimCnt: int

    ghost function P(): Places
      requires queue.Shaped()
      reads this, queue, queue.d
    {
      Places(free, full, queue.Members(), wps, taken)
    }

    ghost predicate Valid()
      reads this, queue, queue.d, queue.pos, queue.pri, igc, isMap
    {
      && queue.Valid() && |wps| == 4
      && queue.pri != igc && queue.pri.Length == igc.Length == isMap.Length && queue.d.Length == igc.Length + 1
      && Partition(P(), queue.pri.Length)
      && AllSound(P(), queue.pri[..], igc[..], isMap[..], grains)
      && Positioned(queue.Members(), queue.pos[..])
      && freeCnt == |free| && fullCnt == |full| && victimCnt == queue.size - 1
    }

    /** `init_lines` and the four calls of `prepare_write_pointer`: stores, mapping pages,
        collected mapping pages and collection. */
    constructor (lines: nat, grains: nat)
      requires 4 <= lines && 0 < grains
      ensures Valid() && this.grains == grains && queue.pri.Length == lines && wps == [0, 1, 2, 3] && taken == {}
      ensures fresh(queue) && fresh(queue.d) && fresh(queue.pos) && fresh(queue.pri) && fresh(igc) && fresh(isMap)
      ensures free == seq(lines - 4, i => 4 + i) && full == [] && queue.Members() == multiset{} && queue.IsHeap()
      ensures forall l :: 0 <= l < lines ==> queue.pri[l] == 0 && igc[l] == 0 && isMap[l] == (l == 1 || l == 2)
    {
      hide Partition, VictimHeap.Placed, InRange, Ordered, Bag, AllSound, Positioned, Distinct;
      this.grains := grains;
      var vgc := new int[lines](_ => 0);
      var pos := new nat[lines](_ => 0);
      var inv := new int[lines](_ => 0);
      var kinds := new bool[lines](l => l == 1 || l == 2);
      var q := new PQueue(lines, vgc, pos);
      queue, igc, isMap := q, inv, kinds;
      free, full, wps, taken := seq(lines - 4, i => 4 + i), [], [0, 1, 2, 3], {};
      freeCnt, fullCnt, victimCnt := lines - 4, 0, 0;
      new;
      NoneLeft(queue.d[..], 1);
      StartOk(P(), lines);
      StartSound(P(), vgc[..], inv[..], kinds[..], pos[..], grains);
    }

    /** `mark_grain_valid`, for a line in use with room for the grains. A queued line is not
        moved within the queue. */
    method MarkValid(l: nat, len: nat)
      requires Valid() && l < queue.pri.Length && l !in free
      requires queue.pri[l] + igc[l] + len <= grains && (l in wps ==> queue.pri[l] + igc[l] + len < grains)
      modifies queue.pri
      ensures Valid() && queue.pri[..] == old(queue.pri[..])[l := old(queue.pri[l]) + len]
      ensures old(queue.IsHeap()) ==>
        (queue.IsHeap() <==> l !in queue.Members() || NotBelow(queue.d[..], old(queue.pri[..]), queue.size, queue.pos[l], queue.pri[l]))
    {
      hide Partition, InRange, VictimHeap.Placed, Bag, Ordered, NotBelow;
      ghost var vgc := queue.pri[..];
      if queue.IsHeap() {
        RaisedIff(queue.d[..], vgc, queue.pos[..], queue.size, l, vgc[l] + len);
      }
      queue.pri[l] := queue.pri[l] + len;
      assert queue.pri[..] == vgc[l := vgc[l] + len];
      SoundElsewhere(P(), P(), l, vgc, igc[..], isMap[..], queue.pri[..], igc[..], isMap[..], grains);
    }

    /** Put a line in the queue that is in none of the other places any more. */
    method Enqueue(l: nat)
      requires queue.Valid() && queue.d.Length == queue.pri.Length + 1 && l < queue.pri.Length && l !in queue.Members()
      requires Positioned(queue.Members(), queue.pos[..])
      modifies queue`size, queue.d, queue.pos
      ensures queue.Valid() && queue.Members() == old(queue.Members()) + multiset{l} && queue.size == old(queue.size) + 1
      ensures Positioned(queue.Members(), queue.pos[..]) && (old(queue.IsHeap()) ==> queue.IsHeap())
    {
      hide InRange, VictimHeap.Placed, Bag, Positioned, Ordered;
      Room(queue.d[..], queue.pos[..], queue.size, l);
      ghost var was, q := queue.pos[..], queue.Members();
      queue.Insert(l);
      StillPositioned(queue.d[..], queue.size, was, queue.pos[..], q, queue.Members());
    }

    /** The line of a write pointer. */
    function Current(k: nat): nat
      requires k < |wps|
      reads this
    {
      wps[k]
    }

    /** The line of a write pointer has invalid grains, or is for mapping pages. */
    predicate Closable(k: nat)
      reads this, igc, isMap
    {
      k < |wps| && wps[k] < igc.Length == isMap.Length && (isMap[wps[k]] || 0 < igc[wps[k]])
    }

    /** The line of a write pointer is used up: it goes to the full list if it has no invalid
        grains, else to the queue, and a free line takes its place. Data lines always have
        invalid grains by then. Without a free line the source stops (BUG_ON). */
    method Close(k: nat) returns (ok: bool, toFull: bool)
      requires Valid() && Closable(k)
      modifies this, queue`size, queue.d, queue.pos, isMap
      ensures ok == (old(free) != []) && (!ok ==> free == [])
      ensures ok ==> Valid() && ClosedTo(old(P()), P(), k, toFull) && old(free)[0] < igc.Length
      ensures ok ==> isMap[..] == old(isMap[..])[old(free)[0] := k == 1 || k == 2]
      ensures toFull ==> old(isMap[Current(k)])
      ensures ok ==> toFull == (igc[old(Current(k))] == 0) && (old(queue.IsHeap()) ==> queue.IsHeap())
      ensures ok ==> StuckStay(old(full), igc[..], full, igc[..])
    {
      hide Partition, InRange, VictimHeap.Placed, Bag, Positioned, AllSound, Distinct, Ordered;
      var l := wps[k];
      toFull := igc[l] == 0;
      ok := free != [];
      if !ok { return; }
      ghost var p, kinds := P(), isMap[..];
      ClosedOk(p, k, toFull, igc.Length);
      ClosedSound(p, k, toFull, queue.pri[..], igc[..], kinds, k == 1 || k == 2, grains);
      var next := free[0];
      isMap[next] := k == 1 || k == 2;
      assert isMap[..] == kinds[next := k == 1 || k == 2];
      Retire(l, toFull);
      free := free[1..];
      freeCnt := freeCnt - 1;
      wps := wps[k := next];
      assert P() == Closed(p, k, toFull);
      StuckKept(p, P(), queue.pri[..], igc[..], kinds, grains, igc[..], igc.Length);
    }

    /** Put a used-up line where it belongs. */
    method Retire(l: nat, toFull: bool)
      requires queue.Valid() && queue.d.Length == queue.pri.Length + 1 && l < queue.pri.Length && l !in queue.Members()
      requires Positioned(queue.Members(), queue.pos[..])
      modifies this`full, this`fullCnt, this`victimCnt, queue`size, queue.d, queue.pos
      ensures queue.Valid() && Positioned(queue.Members(), queue.pos[..])
      ensures full == (if toFull then old(full) + [l] else old(full)) && fullCnt == old(fullCnt) + One(toFull)
      ensures queue.Members() == (if toFull then old(queue.Members()) else old(queue.Members()) + multiset{l})
      ensures victimCnt == old(victimCnt) + One(!toFull) && queue.size == old(queue.size) + One(!toFull)
      ensures old(queue.IsHeap()) ==> queue.IsHeap()
    {
      hide InRange, VictimHeap.Placed, Bag, Positioned, Ordered;
      if toFull {
        full := full + [l];
        fullCnt := fullCnt + 1;
      } else {
        Enqueue(l);
        victimCnt := victimCnt + 1;
      }
    }

    /** A new count of valid grains; a queued line is moved within the queue. */
    method SetCount(l: nat, v: int)
      requires queue.Valid() && l < queue.pri.Length && Positioned(queue.Members(), queue.pos[..])
      modifies queue.d, queue.pos, queue.pri
      ensures queue.Valid() && queue.Members() == old(queue.Members()) && queue.pri[..] == old(queue.pri[..])[l := v]
      ensures Positioned(queue.Members(), queue.pos[..]) && (old(queue.IsHeap()) ==> queue.IsHeap())
    {
      hide InRange, VictimHeap.Placed, Bag, Positioned, Ordered;
      PositionIs(queue.Members(), queue.pos[..], l);
      ghost var was, q, vgc := queue.pos[..], queue.Members(), queue.pri[..];
      if queue.pos[l] != 0 {
        queue.ChangePriority(l, v);
        StillPositioned(queue.d[..], queue.size, was, queue.pos[..], q, q);
      } else {
        Unqueued(queue.d[..], vgc, queue.size, l, v);
        queue.pri[l] := v;
        assert queue.pri[..] == vgc[l := v];
      }
    }

    /** One page of `mark_grain_invalid`. The flag comes from the page before and is never
        reset; if it is set, or the line has no grain but valid ones, the line is taken off
        the full list and put in the queue. */
    method InvalidateRun(l: nat, len: nat, flag: bool) returns (wasFull: bool)
      requires Valid() && l < queue.pri.Length && 0 < len <= queue.pri[l] && !flag
      modifies this, queue`size, queue.d, queue.pos, queue.pri, igc
      ensures Valid() && wasFull == (flag || old(queue.pri[l]) == grains)
      ensures queue.pri[..] == old(queue.pri[..])[l := old(queue.pri[l]) - len] && igc[..] == old(igc[..])[l := old(igc[l]) + len]
      ensures P() == if wasFull then Requeued(old(P()), l) else old(P())
      ensures old(queue.IsHeap()) ==> queue.IsHeap()
    {
      hide Partition, InRange, VictimHeap.Placed, Bag, Positioned, Distinct, AllSound, Without, Ordered;
      ghost var p, vgc, inv := P(), queue.pri[..], igc[..];
      RunSound(p, l, len, vgc, inv, isMap[..], grains);
      wasFull := flag;
      if queue.pri[l] >= grains {
        wasFull := true;
      }
      igc[l] := igc[l] + len;
      assert igc[..] == inv[l := inv[l] + len];
      SetCount(l, queue.pri[l] - len);
      if wasFull {
        full := Without(full, l);
        fullCnt := fullCnt - 1;
        Enqueue(l);
        victimCnt := victimCnt + 1;
      }
    }

    /** `mark_grain_invalid` over the runs of an extent. The flag of the source is not reset
        between runs, but it is never set when a second run begins: only a full line sets
        it, data lines are never full, and mapping pages have one run. */
    method MarkInvalid(l: nat, runs: seq<nat>)
      requires Valid() && l < queue.pri.Length && Total(runs) <= queue.pri[l]
      requires (forall i :: 0 <= i < |runs| ==> 0 < runs[i]) && (isMap[l] ==> |runs| <= 1)
      modifies this, queue`size, queue.d, queue.pos, queue.pri, igc
      ensures Valid()
      ensures queue.pri[..] == old(queue.pri[..])[l := old(queue.pri[l]) - Total(runs)]
      ensures igc[..] == old(igc[..])[l := old(igc[l]) + Total(runs)]
      ensures P() == if runs != [] && old(queue.pri[l]) == grains then Requeued(old(P()), l) else old(P())
      ensures StuckStay(old(full), old(igc[..]), full, igc[..]) && (old(queue.IsHeap()) ==> queue.IsHeap())
    {
      hide Partition, InRange, VictimHeap.Placed, Bag, Positioned, Distinct, AllSound, Requeued, Total, Ordered, StuckStay;
      ghost var vgc, inv, p := queue.pri[..], igc[..], P();
      NotFullData(p, l, vgc, inv, isMap[..], grains);
      TotalEnds(runs);
      var wasFull := false;
      SetOnce(vgc, inv, l);
      for i := 0 to |runs|
        invariant Valid() && (old(queue.IsHeap()) ==> queue.IsHeap())
        invariant queue.pri[..] == vgc[l := vgc[l] - Total(runs[..i])] && igc[..] == inv[l := inv[l] + Total(runs[..i])]
        invariant wasFull == (i > 0 && vgc[l] == grains)
        invariant P() == if wasFull then Requeued(p, l) else p
      {
        TotalNext(runs, i);
        SetTwice(vgc, inv, l, Total(runs[..i]), runs[i]);
        wasFull := InvalidateRun(l, runs[i], wasFull);
      }
      StuckInvalid(p, l, Total(runs), vgc, inv, isMap[..], grains, P());
    }

    /** Take the least line off the queue. */
    method PopLine() returns (found: bool, l: nat)
      requires queue.Valid() && Positioned(queue.Members(), queue.pos[..])
      modifies queue`size, queue.d, queue.pos
      ensures queue.Valid() && found == (old(queue.size) > 1)
      ensures found ==> l < queue.pos.Length && old(queue.Members())[l] == 1 && queue.Members() == old(queue.Members()) - multiset{l}
      ensures found ==> l !in queue.Members() && queue.size == old(queue.size) - 1 && Positioned(queue.Members(), queue.pos[..])
      ensures !found ==> queue.Members() == old(queue.Members()) && Positioned(queue.Members(), queue.pos[..])
      ensures !found ==> queue.size == old(queue.size)
      ensures old(queue.IsHeap()) ==> queue.IsHeap()
      ensures found && old(queue.IsHeap()) ==> Least(queue.pri[..], old(queue.Members()), queue.pri.Length, l)
    {
      hide InRange, VictimHeap.Placed, Bag, Positioned, Ordered;
      ghost var was, q, d0, n := queue.pos[..], queue.Members(), queue.d[..], queue.size;
      found, l := queue.Pop();
      if found {
        QueuedOnce(d0, was, n, l);
        ghost var now := queue.pos[..];
        queue.pos[l] := 0;
        assert queue.pos[..] == now[l := 0];
        Unpositioned(queue.d[..], queue.size, was, now, q, l);
      }
    }

    /** Take the least line off the queue that is not `current`, which is put back if it was
        in the way. */
    method PopOther(current: nat) returns (found: bool, l: nat)
      requires queue.Valid() && Positioned(queue.Members(), queue.pos[..]) && queue.d.Length == queue.pri.Length + 1 && current < queue.pri.Length
      modifies queue`size, queue.d, queue.pos
      ensures queue.Valid() && Positioned(queue.Members(), queue.pos[..])
      ensures found ==> l != current && old(queue.Members())[l] == 1 && queue.Members() == old(queue.Members()) - multiset{l}
      ensures found ==> queue.size == old(queue.size) - 1
      ensures !found ==> queue.Members() == old(queue.Members()) && queue.size == old(queue.size)
      ensures !found ==> forall x :: x in old(queue.Members()) ==> x == current
      ensures old(queue.IsHeap()) ==> queue.IsHeap()
      ensures found && old(queue.IsHeap()) ==> Least(queue.pri[..], old(queue.Members()), current, l)
    {
      hide InRange, VictimHeap.Placed, Bag, Positioned, Ordered, Least;
      ghost var q := queue.Members();
      NoneLeft(queue.d[..], queue.size);
      BagRange(queue.d[..], queue.size, queue.pri.Length);
      ghost var heap := queue.IsHeap();
      found, l := PopLine();
      if found && l == current {
        NoneLeft(queue.d[..], queue.size);
        found, l := PopLine();
        if found && heap {
          LeastOther(queue.pri[..], q, current, l);
        }
        Enqueue(current);
        BackAgain(q, current, l);
      } else if found && heap {
        LeastAnyway(queue.pri[..], q, current, l);
      }
    }

    /** `select_victim_line`: the least line of the queue that is not the line of the next
        store. */
    method SelectVictim(current: nat) returns (found: bool, l: nat)
      requires Valid() && current < queue.pri.Length
      modifies this, queue`size, queue.d, queue.pos
      ensures Valid()
      ensures found ==> l != current && l in old(P()).queue && P() == Picked(old(P()), l)
      ensures !found ==> P() == old(P()) && forall x :: x in old(P()).queue ==> x == current
      ensures StuckStay(old(full), igc[..], full, igc[..]) && (old(queue.IsHeap()) ==> queue.IsHeap())
      ensures found && old(queue.IsHeap()) ==> Least(queue.pri[..], old(P()).queue, current, l)
    {
      hide Partition, InRange, VictimHeap.Placed, Bag, Positioned, Distinct, AllSound, Ordered, Least;
      ghost var p := P();
      found, l := PopOther(current);
      if found {
        victimCnt := victimCnt - 1;
        taken := taken + {l};
        PickedOk(p, l, queue.pri.Length);
        PickedSound(p, l, queue.pri[..], igc[..], isMap[..], grains);
      }
    }

    /** `mark_line_free` after a collection. */
    method FreeLine(l: nat)
      requires Valid() && l in taken
      modifies this, queue.pri, igc
      ensures Valid() && P() == Freed(old(P()), l) && l < queue.pri.Length
      ensures queue.pri[..] == old(queue.pri[..])[l := 0] && igc[..] == old(igc[..])[l := 0]
      ensures StuckStay(old(full), old(igc[..]), full, igc[..]) && (old(queue.IsHeap()) ==> queue.IsHeap())
    {
      hide Partition, InRange, VictimHeap.Placed, Bag, Positioned, Distinct, AllSound, Ordered, StuckStay;
      ghost var p, vgc, inv := P(), queue.pri[..], igc[..];
      FreedOk(p, l, queue.pri.Length);
      StuckFreed(p, l, vgc, inv, isMap[..], grains);
      Unqueued(queue.d[..], vgc, queue.size, l, 0);
      igc[l] := 0;
      queue.pri[l] := 0;
      assert queue.pri[..] == vgc[l := 0] && igc[..] == inv[l := 0];
      free := free + [l];
      freeCnt := freeCnt + 1;
      taken := taken - {l};
      FreedSound(p, l, vgc, inv, isMap[..], grains);
    }
  }

  /** No line of `q` but `current` has fewer valid grains. */
  ghost predicate Least(vgc: seq<int>, q: multiset<nat>, current: nat, l: nat) {
    l < |vgc| && forall x :: x in q && x != current ==> x < |vgc| && vgc[l] <= vgc[x]
  }

  lemma LeastOther(vgc: seq<int>, q: multiset<nat>, current: nat, l: nat)
    requires q[current] == 1 && Least(vgc, q - multiset{current}, |vgc|, l) && forall x :: x in q ==> x < |vgc|
    ensures Least(vgc, q, current, l)
  {
    forall x | x in q && x != current
      ensures x < |vgc| && vgc[l] <= vgc[x]
    {
      assert x in q - multiset{current};
    }
  }

  lemma LeastAnyway(vgc: seq<int>, q: multiset<nat>, current: nat, l: nat)
    requires Least(vgc, q, |vgc|, l) && forall x :: x in q ==> x < |vgc|
    ensures Least(vgc, q, current, l)
  {
  }

  lemma StuckInvalid(p: Places, l: nat, len: nat, vgc: seq<int>, igc: seq<int>, isMap: seq<bool>, grains: nat, p': Places)
    requires Partition(p, |vgc|) && AllSound(p, vgc, igc, isMap, grains) && l < |vgc| && |igc| == |vgc|
    requires p' == p || (vgc[l] == grains && p' == Requeued(p, l))
    ensures StuckStay(p.full, igc, p'.full, igc[l := igc[l] + len])
  {
    if p' != p {
      AllValidIsFull(p, l, |vgc|, vgc[l], igc[l], isMap[l], grains);
      RequeuedOk(p, l, |vgc|);
    }
    hide Requeued;
    forall x | Stuck(p.full, igc, x)
      ensures Stuck(p'.full, igc[l := igc[l] + len], x)
    {
      StuckApart(p, vgc, igc, isMap, grains, x);
      if x != l && p' != p {
        assert SamePlace(p, p', x);
      }
    }
  }

  lemma StuckFreed(p: Places, l: nat, vgc: seq<int>, igc: seq<int>, isMap: seq<bool>, grains: nat)
    requires Partition(p, |vgc|) && AllSound(p, vgc, igc, isMap, grains) && |igc| == |vgc| && l in p.taken && l < |igc|
    ensures StuckStay(p.full, igc, p.full, igc[l := 0]) && l !in p.queue
  {
    assert InOnePlace(p, l);
    forall x | Stuck(p.full, igc, x)
      ensures Stuck(p.full, igc[l := 0], x)
    {
      StuckApart(p, vgc, igc, isMap, grains, x);
    }
  }

  lemma BagRange(d: seq<nat>, n: nat, lines: nat)
    requires InRange(d, n, lines)
    ensures forall x :: x in Bag(d, n) ==> x < lines
  {
    forall x | x in Bag(d, n)
      ensures x < lines
    {
      var j :| 0 <= j < n - 1 && d[1..n][j] == x;
      assert d[j + 1] == x;
    }
  }

  lemma BackAgain(q: multiset<nat>, c: nat, l: nat)
    requires q[c] == 1
    ensures q - multiset{c} + multiset{c} == q
    ensures l != c ==> (q - multiset{c})[l] == q[l] && q - multiset{c} - multiset{l} + multiset{c} == q - multiset{l}
    ensures q - multiset{c} == multiset{} ==> forall x :: x in q ==> x == c
    ensures (q - multiset{c})[c] == 0
  {
    if q - multiset{c} == multiset{} {
      forall x | x in q
        ensures x == c
      {
        assert x != c ==> x in q - multiset{c};
      }
    }
  }

  lemma NoneLeft(d: seq<nat>, n: nat)
    requires 1 <= n <= |d|
    ensures n == 1 ==> Bag(d, n) == multiset{}
  {
  }

  lemma PickedSound(p: Places, l: nat, vgc: seq<int>, igc: seq<int>, isMap: seq<bool>, grains: nat)
    requires Partition(p, |vgc|) && AllSound(p, vgc, igc, isMap, grains) && p.queue[l] == 1
    ensures AllSound(Picked(p, l), vgc, igc, isMap, grains)
  {
    PickedOk(p, l, |vgc|);
    assert Sound(p, l, vgc[l], igc[l], isMap[l], grains);
    hide Partition, Picked;
    SoundElsewhere(p, Picked(p, l), l, vgc, igc, isMap, vgc, igc, isMap, grains);
  }

  lemma FreedSound(p: Places, l: nat, vgc: seq<int>, igc: seq<int>, isMap: seq<bool>, grains: nat)
    requires Partition(p, |vgc|) && AllSound(p, vgc, igc, isMap, grains) && l in p.taken && |igc| == |vgc|
    ensures l < |vgc| && AllSound(Freed(p, l), vgc[l := 0], igc[l := 0], isMap, grains)
  {
    FreedOk(p, l, |vgc|);
    assert Sound(p, l, vgc[l], igc[l], isMap[l], grains);
    hide Partition, Freed;
    SoundElsewhere(p, Freed(p, l), l, vgc, igc, isMap, vgc[l := 0], igc[l := 0], isMap, grains);
  }

  lemma Unpositioned(d: seq<nat>, n: nat, was: seq<nat>, now: seq<nat>, q: multiset<nat>, l: nat)
    requires InRange(d, n, |now|) && VictimHeap.Placed(d, now, n, 0) && |was| == |now| && l < |now|
    requires Bag(d, n) == q - multiset{l} && q[l] == 1
    requires Positioned(q, was) && forall x :: 0 <= x < |now| && x !in q ==> now[x] == was[x]
    ensures VictimHeap.Placed(d, now[l := 0], n, 0) && Positioned(Bag(d, n), now[l := 0])
  {
    Inside(d, n);
    forall x | 0 <= x < |now|
      ensures now[l := 0][x] != 0 <==> x in Bag(d, n)
    {
      if x in Bag(d, n) {
        QueuedAt(d, now, n, x);
      }
    }
  }

  lemma SetOnce(a: seq<int>, b: seq<int>, l: nat)
    requires l < |a| && l < |b|
    ensures a[l := a[l] - 0] == a && b[l := b[l] + 0] == b
  {
  }

  lemma SetTwice(a: seq<int>, b: seq<int>, l: nat, x: nat, y: nat)
    requires l < |a| && l < |b|
    ensures a[l := a[l] - x][l := a[l] - x - y] == a[l := a[l] - (x + y)]
    ensures b[l := b[l] + x][l := b[l] + x + y] == b[l := b[l] + (x + y)]
    ensures a[l := a[l] - x][l] == a[l] - x && b[l := b[l] + x][l] == b[l] + x
  {
  }

  lemma TotalEnds(runs: seq<nat>)
    ensures Total(runs[..0]) == 0 && runs[..|runs|] == runs
  {
  }

  /** A data line never has all its grains valid. */
  lemma NotFullData(p: Places, l: nat, vgc: seq<int>, igc: seq<int>, isMap: seq<bool>, grains: nat)
    requires Partition(p, |vgc|) && AllSound(p, vgc, igc, isMap, grains) && l < |vgc| && |isMap| == |igc| == |vgc|
    ensures !isMap[l] ==> vgc[l] < grains
  {
    assert Sound(p, l, vgc[l], igc[l], isMap[l], grains);
    if vgc[l] >= grains {
      AllValidIsFull(p, l, |vgc|, vgc[l], igc[l], isMap[l], grains);
    }
  }

  function Total(runs: seq<nat>): nat {
    if runs == [] then 0 else Total(runs[..|runs| - 1]) + runs[|runs| - 1]
  }

  lemma TotalNext(runs: seq<nat>, i: nat)
    requires i < |runs|
    ensures Total(runs[..i + 1]) == Total(runs[..i]) + runs[i] <= Total(runs)
  {
    assert runs[..i + 1][..i] == runs[..i];
    TotalGrows(runs, i + 1);
  }

  lemma {:induction false} TotalGrows(runs: seq<nat>, i: nat)
    requires i <= |runs|
    ensures Total(runs[..i]) <= Total(runs)
    decreases |runs| - i
  {
    if i == |runs| {
      assert runs[..i] == runs;
    } else {
      assert runs[..i + 1][..i] == runs[..i];
      TotalGrows(runs, i + 1);
    }
  }

  /** Counters after a write pointer moved on. */
  lemma ClosedSound(p: Places, k: nat, toFull: bool, vgc: seq<int>, igc: seq<int>, isMap: seq<bool>, forMap: bool, grains: nat)
    requires k < |p.wps| && p.free != [] && Partition(p, |vgc|) && AllSound(p, vgc, igc, isMap, grains)
    requires |igc| == |isMap| == |vgc| && p.wps[k] < |vgc| && p.free[0] < |vgc|
    requires toFull <==> igc[p.wps[k]] == 0
    requires toFull ==> isMap[p.wps[k]]
    ensures AllSound(Closed(p, k, toFull), vgc, igc, isMap[p.free[0] := forMap], grains)
  {
    ClosedOk(p, k, toFull, |vgc|);
    var l, f, p', isMap' := p.wps[k], p.free[0], Closed(p, k, toFull), isMap[p.free[0] := forMap];
    assert l in p.wps && f in p.free && InOnePlace(p, f);
    hide Closed, Partition;
    forall x | 0 <= x < |vgc|
      ensures Sound(p', x, vgc[x], igc[x], isMap'[x], grains)
    {
      assert Sound(p, x, vgc[x], igc[x], isMap[x], grains);
      if x != l && x != f {
        assert SamePlace(p, p', x);
      }
    }
  }

  /** What one page of an invalidation does to places and counters. */
  lemma RunSound(p: Places, l: nat, len: nat, vgc: seq<int>, igc: seq<int>, isMap: seq<bool>, grains: nat)
    requires Partition(p, |vgc|) && AllSound(p, vgc, igc, isMap, grains) && l < |vgc| && |igc| == |isMap| == |vgc| && 0 < len <= vgc[l]
    ensures var wasFull := vgc[l] >= grains; var p' := if wasFull then Requeued(p, l) else p;
            && (wasFull <==> vgc[l] == grains)
            && (wasFull ==> l in p.full && l !in p.queue && |p'.full| == |p.full| - 1)
            && Partition(p', |vgc|) && AllSound(p', vgc[l := vgc[l] - len], igc[l := igc[l] + len], isMap, grains)
  {
    assert Sound(p, l, vgc[l], igc[l], isMap[l], grains);
    var wasFull := vgc[l] >= grains;
    var p' := if wasFull then Requeued(p, l) else p;
    if wasFull {
      AllValidIsFull(p, l, |vgc|, vgc[l], igc[l], isMap[l], grains);
      RequeuedOk(p, l, |vgc|);
    }
    hide Partition, Requeued, AllSound;
    SoundElsewhere(p, p', l, vgc, igc, isMap, vgc[l := vgc[l] - len], igc[l := igc[l] + len], isMap, grains);
  }

  lemma PositionIs(q: multiset<nat>, pos: seq<nat>, l: nat)
    requires Positioned(q, pos) && l < |pos|
    ensures pos[l] != 0 <==> l in q
  {
  }

  /** Positions of queued lines are set by the queue, those of others stay zero. */
  lemma StillPositioned(d: seq<nat>, n: nat, was: seq<nat>, pos: seq<nat>, q: multiset<nat>, q': multiset<nat>)
    requires InRange(d, n, |pos|) && VictimHeap.Placed(d, pos, n, 0) && q' == Bag(d, n) && |was| == |pos|
    requires Positioned(q, was) && forall l :: l in q ==> l in q'
    requires forall l :: 0 <= l < |pos| && l !in q' ==> pos[l] == was[l]
    ensures Positioned(q', pos)
  {
    forall l | 0 <= l < |pos|
      ensures pos[l] != 0 <==> l in q'
    {
      if l in q' {
        QueuedAt(d, pos, n, l);
      }
    }
  }

  lemma StartSound(p: Places, vgc: seq<int>, igc: seq<int>, isMap: seq<bool>, pos: seq<nat>, grains: nat)
    requires p.full == [] && p.queue == multiset{} && p.taken == {} && 0 < grains && |vgc| == |igc| == |isMap|
    requires forall l :: 0 <= l < |vgc| ==> vgc[l] == 0 && igc[l] == 0
    requires forall l :: 0 <= l < |pos| ==> pos[l] == 0
    ensures AllSound(p, vgc, igc, isMap, grains) && Positioned(p.queue, pos)
  {
  }

  lemma StartOk(p: Places, lines: nat)
    requires 4 <= lines && p == Places(seq(lines - 4, i => 4 + i), [], multiset{}, [0, 1, 2, 3], {})
    ensures Partition(p, lines)
  {
    forall l: nat
      ensures l in p.free <==> 4 <= l < lines
    {
      if 4 <= l < lines {
        assert p.free[l - 4] == l;
      }
    }
    forall l: nat
      ensures l in p.wps <==> l < 4
    {
      assert p.wps[0] == 0 && p.wps[1] == 1 && p.wps[2] == 2 && p.wps[3] == 3;
    }
  }
}
