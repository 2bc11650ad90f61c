/** The work queue of an I/O worker: a free chain and a chain of requests in order of their
    target times, both linked by index through one array of entries (io.c). */
module WorkQueue {
  import opened Lists

  const NONE: int := -1

  ghost predicate Below(s: seq<nat>, n: nat) {
    forall i :: 0 <= i < |s| ==> s[i] < n
  }

  ghost predicate NextIs(next: seq<int>, s: seq<nat>, i: nat)
    requires Below(s, |next|)
  {
    i < |s| ==> next[s[i]] == if i + 1 < |s| then s[i + 1] else NONE
  }

  ghost predicate PrevIs(prev: seq<int>, s: seq<nat>, i: nat)
    requires Below(s, |prev|)
  {
    i < |s| ==> prev[s[i]] == if i > 0 then s[i - 1] else NONE
  }

  /** Following `next` from the first entry of `s` visits `s` and then ends. */
  ghost predicate Linked(next: seq<int>, s: seq<nat>) {
    Below(s, |next|) && forall i: nat :: NextIs(next, s, i)
  }

  ghost predicate BackLinked(prev: seq<int>, s: seq<nat>) {
    Below(s, |prev|) && forall i: nat :: PrevIs(prev, s, i)
  }

  function First(s: seq<nat>): int {
    if s == [] then NONE else s[0]
  }

  function Last(s: seq<nat>): int {
    if s == [] then NONE else s[|s| - 1]
  }

  /** A request may stand in front of another: it is due already, or not later. */
  ghost predicate NotAfter(a: nat, b: nat, latest: nat) {
    a <= latest || a <= b
  }

  ghost predicate InOrder(s: seq<nat>, target: seq<nat>, latest: nat)
    requires Below(s, |target|)
  {
    forall i, j :: 0 <= i <= j < |s| ==> NotAfter(target[s[i]], target[s[j]], latest)
  }

  /** As time goes on the order stays. */
  lemma StillInOrder(s: seq<nat>, target: seq<nat>, latest: nat, later: nat)
    requires Below(s, |target|) && InOrder(s, target, latest) && latest <= later
    ensures InOrder(s, target, later)
  {
    forall i, j | 0 <= i <= j < |s|
      ensures NotAfter(target[s[i]], target[s[j]], later)
    {
      assert NotAfter(target[s[i]], target[s[j]], latest);
    }
  }

  // ----- taking the first free entry -----

  lemma Dropped(next: seq<int>, s: seq<nat>, k: nat)
    requires Linked(next, s) && k <= |s|
    ensures Linked(next, s[k..])
  {
    var t := s[k..];
    assert Below(t, |next|);
    forall i: nat
      ensures NextIs(next, t, i)
    {
      assert NextIs(next, s, k + i);
    }
  }

  // ----- inserting a request -----

  function Inserted(s: seq<nat>, p: nat, e: nat): seq<nat>
    requires p <= |s|
  {
    s[..p] + [e] + s[p..]
  }

  /** The links after `e` went in at place `p`. */
  function NextInserted(next: seq<int>, s: seq<nat>, p: nat, e: nat): seq<int>
    requires p <= |s| && e < |next| && forall i :: 0 <= i < |s| ==> s[i] < |next|
  {
    var a := next[e := if p < |s| then s[p] else NONE];
    if p > 0 then a[s[p - 1] := e] else a
  }

  function PrevInserted(prev: seq<int>, s: seq<nat>, p: nat, e: nat): seq<int>
    requires p <= |s| && e < |prev| && forall i :: 0 <= i < |s| ==> s[i] < |prev|
  {
    var a := prev[e := if p > 0 then s[p - 1] else NONE];
    if p < |s| then a[s[p] := e] else a
  }

  lemma NextInsertedAt(next: seq<int>, s: seq<nat>, p: nat, e: nat)
    requires Below(s, |next|) && Distinct(s) && p <= |s| && e < |next| && e !in s
    ensures |NextInserted(next, s, p, e)| == |next|
    ensures NextInserted(next, s, p, e)[e] == if p < |s| then s[p] else NONE
    ensures forall i :: 0 <= i < |s| ==> NextInserted(next, s, p, e)[s[i]] == if i == p - 1 then e else next[s[i]]
  {
  }

  lemma InsertedAt(s: seq<nat>, p: nat, e: nat)
    requires p <= |s|
    ensures var t := Inserted(s, p, e);
            |t| == |s| + 1 && forall i :: 0 <= i < |t| ==> t[i] == if i < p then s[i] else if i == p then e else s[i - 1]
  {
  }

  lemma InsertedNext(next: seq<int>, s: seq<nat>, p: nat, e: nat)
    requires Linked(next, s) && Distinct(s) && p <= |s| && e < |next| && e !in s
    ensures Linked(NextInserted(next, s, p, e), Inserted(s, p, e))
  {
    hide NextInserted, Distinct;
    var t, next' := Inserted(s, p, e), NextInserted(next, s, p, e);
    InsertedAt(s, p, e);
    NextInsertedAt(next, s, p, e);
    assert Below(t, |next|);
    forall i: nat
      ensures NextIs(next', t, i)
    {
      if i < p {
        assert NextIs(next, s, i);
      } else if p < i <= |s| {
        assert NextIs(next, s, i - 1);
      }
    }
  }

  lemma InsertedPrev(prev: seq<int>, s: seq<nat>, p: nat, e: nat)
    requires BackLinked(prev, s) && Distinct(s) && p <= |s| && e < |prev| && e !in s
    ensures BackLinked(PrevInserted(prev, s, p, e), Inserted(s, p, e))
  {
    var t, prev' := Inserted(s, p, e), PrevInserted(prev, s, p, e);
    assert forall i :: 0 <= i < |t| ==> t[i] == if i < p then s[i] else if i == p then e else s[i - 1];
    assert Below(t, |prev|);
    forall i: nat
      ensures PrevIs(prev', t, i)
    {
      if i < p {
        assert PrevIs(prev, s, i);
      } else if p < i <= |s| {
        assert PrevIs(prev, s, i - 1);
      }
    }
  }

  /** Entries outside both the list and the inserted one keep their links. */
  lemma InsertedFrame(next: seq<int>, s: seq<nat>, p: nat, e: nat, f: seq<nat>)
    requires Linked(next, s) && p <= |s| && e < |next| && Linked(next, f)
    requires e !in f && forall i :: 0 <= i < |s| ==> s[i] !in f
    ensures Linked(NextInserted(next, s, p, e), f)
  {
    var next' := NextInserted(next, s, p, e);
    forall i: nat
      ensures NextIs(next', f, i)
    {
      assert NextIs(next, f, i);
      if i < |f| {
        assert f[i] in f;
      }
    }
  }

  /** The place the backward walk stops at keeps the order. */
  lemma InsertedInOrder(s: seq<nat>, target: seq<nat>, latest: nat, p: nat, e: nat)
    requires Below(s, |target|) && InOrder(s, target, latest) && p <= |s| && e < |target|
    requires BehindLast(s, target, latest, p, target[e])
    ensures Below(Inserted(s, p, e), |target|) && InOrder(Inserted(s, p, e), target, latest)
  {
    var t := Inserted(s, p, e);
    assert forall i :: 0 <= i < |t| ==> t[i] == if i < p then s[i] else if i == p then e else s[i - 1];
    forall i, j | 0 <= i <= j < |t|
      ensures NotAfter(target[t[i]], target[t[j]], latest)
    {
      if i < p {
        assert NotAfter(target[s[i]], target[s[p - 1]], latest);
      }
      if i < p && j > p {
        assert NotAfter(target[s[i]], target[s[j - 1]], latest);
      }
    }
  }

  /** Place `p` is behind the last request that is due or not later than `nsecs`. */
  ghost predicate BehindLast(s: seq<nat>, target: seq<nat>, latest: nat, p: nat, nsecs: nat)
    requires Below(s, |target|)
  {
    && p <= |s|
    && (p > 0 ==> target[s[p - 1]] <= latest || target[s[p - 1]] <= nsecs)
    && (forall i :: p <= i < |s| ==> latest < target[s[i]] && nsecs < target[s[i]])
  }

  // ----- reclaiming a prefix -----

  lemma Appended(next: seq<int>, f: seq<nat>, s: seq<nat>, k: nat)
    requires Linked(next, f) && Linked(next, s) && f != [] && 0 < k <= |s|
    requires Distinct(f) && Distinct(s) && Apart(f, s)
    ensures var next' := next[s[k - 1] := NONE][f[|f| - 1] := s[0]];
            Linked(next', f + s[..k]) && Linked(next', s[k..])
  {
    var next' := next[s[k - 1] := NONE][f[|f| - 1] := s[0]];
    var t, u := f + s[..k], s[k..];
    assert forall i :: 0 <= i < |t| ==> t[i] == if i < |f| then f[i] else s[i - |f|];
    assert Below(t, |next'|) && Below(u, |next'|);
    forall i: nat
      ensures NextIs(next', t, i)
    {
      if i < |f| {
        assert NextIs(next, f, i);
      } else if i < |t| {
        assert NextIs(next, s, i - |f|);
      }
    }
    forall i: nat
      ensures NextIs(next', u, i)
    {
      assert NextIs(next, s, k + i);
    }
  }

  lemma BackDropped(prev: seq<int>, s: seq<nat>, k: nat, x: int)
    requires BackLinked(prev, s) && Distinct(s) && 0 < k <= |s|
    ensures var a := if k < |s| then prev[s[k] := NONE] else prev; BackLinked(a[s[0] := x], s[k..])
  {
    var a := if k < |s| then prev[s[k] := NONE] else prev;
    var b, u := a[s[0] := x], s[k..];
    assert Below(u, |b|);
    forall i: nat
      ensures PrevIs(b, u, i)
    {
      assert PrevIs(prev, s, k + i);
    }
  }

  // ----- all entries are on one of the chains -----

  ghost predicate Apart(f: seq<nat>, s: seq<nat>) {
    forall i, j :: 0 <= i < |f| && 0 <= j < |s| ==> f[i] != s[j]
  }

  /** Every entry is on exactly one of the two chains, once. */
  ghost predicate Shared(f: seq<nat>, s: seq<nat>, n: nat) {
    && Below(f, n) && Below(s, n) && Distinct(f) && Distinct(s) && Apart(f, s)
    && |f| + |s| == n
  }

  /** None is missing. */
  lemma NoneMissing(f: seq<nat>, s: seq<nat>, n: nat, e: nat)
    requires Shared(f, s, n) && e < n
    ensures e in f <==> e !in s
  {
    var t := f + s;
    assert forall i :: 0 <= i < |t| ==> t[i] == if i < |f| then f[i] else s[i - |f|];
    assert Distinct(t);
    if e !in f && e !in s {
      PutLast(t, e);
      Pigeonhole(t + [e], n);
    }
  }

  lemma MovedOver(f: seq<nat>, s: seq<nat>, n: nat, p: nat)
    requires Shared(f, s, n) && f != [] && p <= |s|
    ensures f[0] !in s && f[0] !in f[1..] && Shared(f[1..], Inserted(s, p, f[0]), n)
    ensures forall i :: 0 <= i < |s| ==> s[i] !in f[1..]
  {
    var t := Inserted(s, p, f[0]);
    assert forall i :: 0 <= i < |t| ==> t[i] == if i < p then s[i] else if i == p then f[0] else s[i - 1];
  }

  lemma MovedBack(f: seq<nat>, s: seq<nat>, n: nat, k: nat)
    requires Shared(f, s, n) && k <= |s|
    ensures Shared(f + s[..k], s[k..], n)
  {
    var t := f + s[..k];
    assert forall i :: 0 <= i < |t| ==> t[i] == if i < |f| then f[i] else s[i - |f|];
  }

  // ----- the worker -----

  class Worker {
    const next: array<int>
    const prev: array<int>
    const target: array<nat>
    /** Completed and copied. */
    const done: array<bool>
    var freeSeq: int
    var freeEnd: int
    var ioSeq: int
    var ioEnd: int
    var latest: nat
    ghost var free: seq<nat>
    ghost var io: seq<nat>

    ghost predicate Shaped()
    {
      next != prev && next.Length == prev.Length == target.Length == done.Length
    }

    /** The free chain always keeps an entry, so its end is always known; the end of the
        request chain is known while it has one. */
    ghost predicate Valid()
      reads this, next, prev, target
    {
      && Shaped() && Shared(free, io, next.Length)
      && Linked(next[..], free) && Linked(next[..], io) && BackLinked(prev[..], io)
      && free != [] && freeSeq == First(free) && freeEnd == Last(free)
      && ioSeq == First(io) && (io != [] ==> ioEnd == Last(io))
      && InOrder(io, target[..], latest)
    }

    /** `NVMEV_IO_WORKER_INIT`. */
    constructor (n: nat)
      requires 0 < n
      ensures Valid() && io == [] && next.Length == n
      ensures fresh(next) && fresh(prev) && fresh(target) && fresh(done)
    {
      next := new int[n](i => if i + 1 < n then i + 1 else NONE);
      prev := new int[n]((i: nat) => if i == 0 then NONE else (i - 1) as int);
      target := new nat[n](_ => 0);
      done := new bool[n](_ => false);
      freeSeq, freeEnd, ioSeq, ioEnd, latest := 0, n - 1, NONE, NONE, 0;
      free, io := seq(n, i => i), [];
      new;
      assert free[0] == 0 && free[n - 1] == n - 1;
      forall i: nat
        ensures NextIs(next[..], free, i)
      {
      }
    }

    /** The current time of the worker goes on. */
    method Tick(now: nat)
      requires Valid() && latest <= now
      modifies this`latest
      ensures Valid() && latest == now
    {
      StillInOrder(io, target[..], latest, now);
      latest := now;
    }

    /** A request is done. */
    method Complete(e: nat)
      requires Valid() && e in io
      modifies done
      ensures Valid() && done[..] == old(done[..])[e := true]
    {
      ghost var d := done[..];
      ghost var i :| 0 <= i < |io| && io[i] == e;
      done[e] := true;
      assert done[..] == d[e := true];
    }

    /** `__allocate_work_queue_entry` and the rest of `__enqueue_io_req`: it fails when only
        one free entry is left. `p` is where the request went. */
    method Enqueue(nsecs: nat) returns (ok: bool, e: nat, ghost p: nat)
      requires Valid()
      modifies this, next, prev, target, done
      ensures Valid() && ok == (|old(free)| >= 2) && latest == old(latest)
      ensures !ok ==> free == old(free) && io == old(io) && next[..] == old(next[..]) && target[..] == old(target[..]) && done[..] == old(done[..])
      ensures ok ==> e == old(free)[0] && free == old(free)[1..] && p <= |old(io)| && io == Inserted(old(io), p, e)
      ensures ok ==> e < next.Length && target[..] == old(target[..])[e := nsecs] && done[..] == old(done[..])[e := false]
      ensures ok ==> Below(old(io), next.Length) && BehindLast(old(io), target[..], latest, p, nsecs)
    {
      hide Shared, InOrder, BackLinked;
      e, p := freeSeq, 0;
      ghost var f, s, nx, tg, dn := free, io, next[..], target[..], done[..];
      FirstTwo(nx, f);
      ok := next[e] != NONE;
      if !ok { return; }
      freeSeq := next[e];
      free := free[1..];
      target[e] := nsecs;
      done[e] := false;
      assert target[..] == tg[e := nsecs] && done[..] == dn[e := false];
      Elsewhere(f, s, tg, nsecs, latest);
      ghost var pv := prev[..];
      prev[e], next[e] := NONE, NONE;
      assert next[..] == nx[e := NONE] && prev[..] == pv[e := NONE];
      Unlinked(nx, pv, f, s);
      p := InsertSorted(e);
    }

    /** `__insert_req_sorted`: walk back from the end to the last request that is due, or not
        later than the new one, and link the new one in behind it. */
    method InsertSorted(e: nat) returns (ghost p: nat)
      requires Shaped() && e < next.Length && next[e] == NONE && prev[e] == NONE && |free| + |io| + 1 == next.Length
      requires Shared([e] + free, io, next.Length)
      requires Linked(next[..], free) && Linked(next[..], io) && BackLinked(prev[..], io)
      requires free != [] && freeSeq == First(free) && freeEnd == Last(free)
      requires ioSeq == First(io) && (io != [] ==> ioEnd == Last(io)) && InOrder(io, target[..], latest)
      modifies this`io, this`ioSeq, this`ioEnd, next, prev
      ensures Valid() && p <= |old(io)| && io == Inserted(old(io), p, e)
      ensures Below(old(io), next.Length) && BehindLast(old(io), target[..], latest, p, target[e])
    {
      hide Shared, InOrder, BackLinked, Linked, Inserted, NextInserted, PrevInserted;
      Facts([e] + free, io, next.Length);
      ghost var s, nx, pv, tg := io, next[..], prev[..], target[..];
      p := |s|;
      if ioSeq != NONE {
        var curr := ioEnd;
        while curr != NONE
          modifies {}
          invariant next[..] == nx && prev[..] == pv && target[..] == tg
          invariant p <= |s| && curr == (if p > 0 then s[p - 1] else NONE)
          invariant forall i :: p <= i < |s| ==> latest < tg[s[i]] && tg[e] < tg[s[i]]
          decreases p
        {
          if target[curr] <= latest { break; }
          if target[curr] <= target[e] { break; }
          BackStep(pv, s, p - 1);
          curr := prev[curr];
          p := p - 1;
        }
        InsertedInOrder(s, tg, latest, p, e);
        LinkIn(e, curr, p);
      } else {
        InsertedInOrder(s, tg, latest, p, e);
        ioSeq, ioEnd := e, e;
        OnlyOne(nx, pv, e);
      }
      MovedOver([e] + free, s, next.Length, p);
      assert ([e] + free)[1..] == free;
      InsertedNext(nx, s, p, e);
      InsertedPrev(pv, s, p, e);
      InsertedFrame(nx, s, p, e, free);
      InsertedEnds(s, p, e);
      io := Inserted(s, p, e);
    }

    /** Link an entry in behind `curr`, or in front of all. */
    method LinkIn(e: nat, curr: int, ghost p: nat)
      requires Shaped() && io != [] && Below(io, next.Length) && Distinct(io) && e < next.Length && e !in io
      requires next[e] == NONE && prev[e] == NONE && Linked(next[..], io)
      requires p <= |io| && curr == (if p > 0 then io[p - 1] else NONE) && ioSeq == First(io) && ioEnd == Last(io)
      modifies next, prev, this`ioSeq, this`ioEnd
      ensures next[..] == NextInserted(old(next[..]), io, p, e) && prev[..] == PrevInserted(old(prev[..]), io, p, e)
      ensures ioSeq == (if p == 0 then e else old(ioSeq)) && ioEnd == (if p == |io| then e else old(ioEnd))
    {
      ghost var nx, pv := next[..], prev[..];
      if p > 0 { assert NextIs(nx, io, p - 1); }
      if curr == NONE {
        prev[ioSeq] := e;
        next[e] := ioSeq;
        ioSeq := e;
      } else if next[curr] == NONE {
        prev[e] := curr;
        ioEnd := e;
        next[curr] := e;
      } else {
        prev[e] := curr;
        next[e] := next[curr];
        prev[next[e]] := e;
        next[curr] := e;
      }
      assert next[..] == NextInserted(nx, io, p, e);
      assert prev[..] == PrevInserted(pv, io, p, e);
    }

    /** `__reclaim_completed_reqs`: move the finished requests at the front of the chain to
        the end of the free chain, and no others. */
    method Reclaim() returns (ghost k: nat)
      requires Valid()
      modifies this, next, prev
      ensures Valid() && latest == old(latest)
      ensures k <= |old(io)| && io == old(io)[k..] && free == old(free) + old(io)[..k]
      ensures Below(old(io), done.Length) && forall i :: 0 <= i < k ==> Finished(done[..], target[..], latest, old(io)[i])
      ensures k < |old(io)| ==> !Finished(done[..], target[..], latest, old(io)[k])
    {
      hide Shared, InOrder, BackLinked, Linked;
      ghost var s, f, nx, pv := io, free, next[..], prev[..];
      Facts2(f, s, next.Length);
      var first, curr, last := ioSeq, ioSeq, NONE;
      k := 0;
      while curr != NONE
        modifies {}
        invariant next[..] == nx && prev[..] == pv
        invariant k <= |s| && curr == (if k < |s| then s[k] else NONE) && last == (if k > 0 then s[k - 1] else NONE)
        invariant forall i :: 0 <= i < k ==> Finished(done[..], target[..], latest, s[i])
        decreases |s| - k
      {
        if !(done[curr] && target[curr] <= latest) { break; }
        NextStep(nx, s, k);
        last := curr;
        curr := next[curr];
        k := k + 1;
      }
      if last != NONE {
        Unlink(first, last, k);
      } else {
        assert s[0..] == s && f + s[..0] == f;
      }
    }

    /** Move the first `k` requests, from `first` to `last`, over to the free chain. */
    method Unlink(first: nat, last: nat, ghost k: nat)
      requires Valid() && 0 < k <= |io| && first == io[0] && last == io[k - 1]
      modifies this, next, prev
      ensures Valid() && latest == old(latest) && io == old(io)[k..] && free == old(free) + old(io)[..k]
    {
      hide Shared, InOrder, BackLinked, Linked, Apart, Distinct;
      ghost var s, f, nx, pv := io, free, next[..], prev[..];
      Facts2(f, s, next.Length);
      NextStep(nx, s, k - 1);
      var end: nat := freeEnd;
      ioSeq := next[last];
      Relink(first, last, end);
      freeEnd := last;
      Appended(nx, f, s, k);
      BackDropped(pv, s, k, f[|f| - 1]);
      MovedBack(f, s, next.Length, k);
      RestInOrder(s, target[..], latest, k);
      io, free := s[k..], f + s[..k];
    }

    /** Cut the chain of requests after `last` and hang the part before it onto the free
        chain, which ended at `end`. */
    method Relink(first: nat, last: nat, end: nat)
      requires Shaped() && first < next.Length && last < next.Length && end < next.Length
      requires next[last] == NONE || 0 <= next[last] < next.Length
      modifies next, prev
      ensures next[..] == old(next[..])[last := NONE][end := first]
      ensures prev[..] == (if old(next[last]) != NONE then old(prev[..])[old(next[last]) := NONE] else old(prev[..]))[first := end]
    {
      if next[last] != NONE {
        prev[next[last]] := NONE;
      }
      next[last] := NONE;
      prev[first] := end;
      next[end] := first;
    }
  }

  lemma Facts2(f: seq<nat>, s: seq<nat>, n: nat)
    requires Shared(f, s, n)
    ensures Below(s, n) && Below(f, n) && Distinct(s) && Distinct(f) && Apart(f, s)
  {
  }

  lemma NextStep(next: seq<int>, s: seq<nat>, i: nat)
    requires Linked(next, s) && i < |s|
    ensures s[i] < |next| && next[s[i]] == if i + 1 < |s| then s[i + 1] else NONE
  {
    assert NextIs(next, s, i);
  }

  lemma RestInOrder(s: seq<nat>, target: seq<nat>, latest: nat, k: nat)
    requires Below(s, |target|) && InOrder(s, target, latest) && k <= |s|
    ensures Below(s[k..], |target|) && InOrder(s[k..], target, latest)
  {
  }

  /** A request that is done and due can be reclaimed. */
  predicate Finished(done: seq<bool>, target: seq<nat>, latest: nat, e: nat)
    requires e < |done| && e < |target|
  {
    done[e] && target[e] <= latest
  }

  lemma FirstTwo(next: seq<int>, f: seq<nat>)
    requires Linked(next, f) && f != []
    ensures f[0] < |next| && (next[f[0]] == NONE <==> |f| == 1) && (|f| > 1 ==> next[f[0]] == f[1] == f[1..][0] && Last(f[1..]) == Last(f))
  {
    assert NextIs(next, f, 0);
  }

  /** The new entry is on neither chain, so both chains stay as they are. */
  lemma Unlinked(next: seq<int>, prev: seq<int>, f: seq<nat>, s: seq<nat>)
    requires Linked(next, f) && Linked(next, s) && BackLinked(prev, s) && f != [] && |next| == |prev| && Shared(f, s, |next|)
    ensures var e := f[0];
            && Linked(next[e := NONE], f[1..]) && Linked(next[e := NONE], s) && BackLinked(prev[e := NONE], s)
            && Shared([e] + f[1..], s, |next|)
  {
    var e, prev' := f[0], prev[f[0] := NONE];
    assert [e] + f[1..] == f;
    Dropped(next, f, 1);
    MovedOver(f, s, |next|, 0);
    OtherLinks(next, f[1..], e);
    OtherLinks(next, s, e);
    forall i: nat
      ensures PrevIs(prev', s, i)
    {
      assert PrevIs(prev, s, i);
      assert i < |s| ==> s[i] in s;
    }
  }

  lemma OtherLinks(next: seq<int>, s: seq<nat>, e: nat)
    requires Linked(next, s) && e < |next| && e !in s
    ensures Linked(next[e := NONE], s)
  {
    var next' := next[e := NONE];
    forall i: nat
      ensures NextIs(next', s, i)
    {
      assert NextIs(next, s, i);
      assert i < |s| ==> s[i] in s;
    }
  }

  /** The target of an entry that is not a request does not matter to the order. */
  lemma Elsewhere(f: seq<nat>, s: seq<nat>, target: seq<nat>, x: nat, latest: nat)
    requires f != [] && Shared(f, s, |target|) && InOrder(s, target, latest)
    ensures InOrder(s, target[f[0] := x], latest)
  {
    var t := target[f[0] := x];
    forall i, j | 0 <= i <= j < |s|
      ensures NotAfter(t[s[i]], t[s[j]], latest)
    {
      assert f[0] != s[i] && f[0] != s[j];
    }
  }

  lemma Facts(f: seq<nat>, s: seq<nat>, n: nat)
    requires Shared(f, s, n) && f != []
    ensures Below(s, n) && Distinct(s) && f[0] !in s
  {
  }

  lemma BackStep(prev: seq<int>, s: seq<nat>, i: nat)
    requires BackLinked(prev, s) && i < |s|
    ensures s[i] < |prev| && prev[s[i]] == if i > 0 then s[i - 1] else NONE
  {
    assert PrevIs(prev, s, i);
  }

  lemma OnlyOne(next: seq<int>, prev: seq<int>, e: nat)
    requires e < |next| && e < |prev| && next[e] == NONE && prev[e] == NONE
    ensures NextInserted(next, [], 0, e) == next && PrevInserted(prev, [], 0, e) == prev
  {
  }

  lemma InsertedEnds(s: seq<nat>, p: nat, e: nat)
    requires p <= |s|
    ensures var t := Inserted(s, p, e);
            t != [] && First(t) == (if p == 0 then e else First(s)) && Last(t) == (if p == |s| then e else Last(s))
  {
  }
}
