/** The four write pointers over the line manager: pages are handed out LUN group by LUN
    group, pairs that fit never use the last page of a group, longer ones start a group, and
    so every line leaves its write pointer in a state that the line manager can take
    (advance_write_pointer, __new_page, __new_gc_ppa, clear_rest_of_line and the page loops
    of __store, __copy_valid_pair and __evict_one in demand_ftl.c). */
module Writers {
  import opened Arith
  import opened LineLife
  import VictimHeap

  /** Pages per LUN group, and LUN groups per line. */
  datatype Shape = Shape(ppg: nat, groups: nat) {
    predicate Ok() {
      2 <= ppg && 2 <= groups
    }

    function Grains(): nat {
      64 * (groups * ppg)
    }
  }

  /** A write pointer: the groups it has begun on its line and the pages left in the last of
      them; and the page it handed out last, by its line and the grains of it that are not
      marked yet. */
  datatype Pointer = Pointer(begun: nat, left: nat, page: nat, rest: nat)

  /** Pages handed out on the current line. */
  function Handed(w: Pointer, ppg: nat): int {
    w.begun * ppg - w.left
  }

  /** Hand out one more page of line `l`. */
  function Next(w: Pointer, ppg: nat, l: nat): Pointer
    requires 0 < ppg
  {
    if w.left > 0 then Pointer(w.begun, w.left - 1, l, 64) else Pointer(w.begun + 1, ppg - 1, l, 64)
  }

  /** Every page of the line has been handed out. */
  predicate UsedUp(w: Pointer, groups: nat) {
    w.begun == groups && w.left == 0
  }

  lemma NextHanded(w: Pointer, ppg: nat, l: nat)
    requires 0 < ppg
    ensures Handed(Next(w, ppg, l), ppg) == Handed(w, ppg) + 1
  {
    assert (w.begun + 1) * ppg == w.begun * ppg + ppg;
  }

  lemma SameHanded(w: Pointer, rest: nat, ppg: nat)
    ensures Handed(w.(rest := rest), ppg) == Handed(w, ppg)
  {
  }

  predicate ForMap(k: nat) {
    k == 1 || k == 2
  }

  /** The counters of all lines. */
  datatype Counts = Counts(vgc: seq<int>, igc: seq<int>, isMap: seq<bool>) {
    predicate Has(l: nat) {
      l < |vgc| && |vgc| == |igc| == |isMap|
    }
  }

  function Plus(s: seq<int>, l: nat, x: int): seq<int> {
    if l < |s| then s[l := s[l] + x] else s
  }

  lemma PlusPlus(s: seq<int>, l: nat, x: int, y: int)
    ensures Plus(Plus(s, l, x), l, y) == Plus(s, l, x + y) && Plus(s, l, 0) == s
  {
  }

  lemma PlusIs(s: seq<int>, l: nat, x: int)
    requires l < |s|
    ensures |Plus(s, l, x)| == |s| && Plus(s, l, x)[l] == s[l] + x
  {
  }

  /** The grains that are counted on all lines together. */
  ghost function Sum(s: seq<int>): int {
    if s == [] then 0 else Sum(s[..|s| - 1]) + s[|s| - 1]
  }

  lemma {:induction false} SumPlus(s: seq<int>, l: nat, x: int)
    requires l < |s|
    ensures Sum(Plus(s, l, x)) == Sum(s) + x
  {
    var n := |s| - 1;
    if l < n {
      SumPlus(s[..n], l, x);
      assert Plus(s, l, x)[..n] == Plus(s[..n], l, x);
    } else {
      assert Plus(s, l, x)[..n] == s[..n];
    }
  }

  /** Lines, write pointers and counters. */
  datatype Shot = Shot(p: Places, ws: seq<Pointer>, n: Counts)

  /** Write pointer `k` and its line agree. The grains marked on the line, and those still to
      be marked, fit the pages handed out; an unfinished page may be on a line that is closed
      already; a data line in its last group has invalid grains. */
  ghost predicate PointerOk(sh: Shape, p: Places, w: Pointer, k: nat, n: Counts) {
    && k < |p.wps| && n.Has(p.wps[k]) && n.Has(w.page)
    && w.begun <= sh.groups && w.left < sh.ppg && (w.left > 0 ==> w.begun > 0) && !UsedUp(w, sh.groups) && w.rest <= 64
    && n.isMap[p.wps[k]] == ForMap(k)
    && n.vgc[p.wps[k]] + n.igc[p.wps[k]] + (if w.page == p.wps[k] then w.rest else 0) <= 64 * Handed(w, sh.ppg)
    && (w.rest > 0 && w.page != p.wps[k] ==>
          w.begun == 0 && (w.page in p.full || w.page in p.queue) && n.vgc[w.page] + n.igc[w.page] + w.rest <= sh.Grains())
    && (!ForMap(k) && (w.begun == sh.groups || (w.begun + 1 == sh.groups && w.left == 0 && w.rest == 0)) ==> 0 < n.igc[p.wps[k]])
  }

  /** Marking `len` grains of the open page does not use up the last group but one of a line
      without invalid grains. */
  ghost predicate MayMark(sh: Shape, p: Places, w: Pointer, k: nat, n: Counts, len: nat) {
    && k < |p.wps| && n.Has(p.wps[k])
    && (w.left > 0 || w.begun + 1 != sh.groups || len < w.rest || 0 < n.igc[p.wps[k]])
  }

  /** No line has two unfinished pages. */
  ghost predicate Apart(ws: seq<Pointer>) {
    forall j, k :: 0 <= j < k < |ws| && ws[j].rest > 0 && ws[k].rest > 0 ==> ws[j].page != ws[k].page
  }

  ghost predicate AllOk(sh: Shape, p: Places, ws: seq<Pointer>, n: Counts) {
    && sh.Ok() && |ws| == |p.wps| == 4 && Apart(ws)
    && forall k :: 0 <= k < 4 ==> PointerOk(sh, p, ws[k], k, n)
  }

  // ----- steps -----

  /** The line of a write pointer, and the line of an unfinished page, are no other's. */
  lemma OwnLines(sh: Shape, p: Places, ws: seq<Pointer>, n: Counts, k: nat, j: nat)
    requires AllOk(sh, p, ws, n) && Partition(p, |n.vgc|) && k < 4 && j < 4 && j != k
    ensures p.wps[j] != p.wps[k]
    ensures ws[k].rest > 0 ==> ws[k].page != p.wps[j] && (ws[j].rest > 0 ==> ws[j].page != ws[k].page)
  {
    assert PointerOk(sh, p, ws[k], k, n) && PointerOk(sh, p, ws[j], j, n);
    assert p.wps[j] in p.wps && p.wps[k] in p.wps;
    assert InOnePlace(p, p.wps[j]);
  }

  /** Marking grains of the open page valid. */
  lemma Marked(sh: Shape, p: Places, ws: seq<Pointer>, n: Counts, k: nat, len: nat)
    requires AllOk(sh, p, ws, n) && Partition(p, |n.vgc|) && k < 4 && 0 < len <= ws[k].rest
    requires ForMap(k) || MayMark(sh, p, ws[k], k, n, len)
    ensures n.Has(ws[k].page)
    ensures var x := ws[k].page;
            AllOk(sh, p, ws[k := ws[k].(rest := ws[k].rest - len)], n.(vgc := n.vgc[x := n.vgc[x] + len]))
  {
    hide Partition, Handed, Shape.Grains;
    assert PointerOk(sh, p, ws[k], k, n);
    var x := ws[k].page;
    SameHanded(ws[k], ws[k].rest - len, sh.ppg);
    var ws', n' := ws[k := ws[k].(rest := ws[k].rest - len)], n.(vgc := n.vgc[x := n.vgc[x] + len]);
    forall j | 0 <= j < 4
      ensures PointerOk(sh, p, ws'[j], j, n')
    {
      assert PointerOk(sh, p, ws[j], j, n);
      if j != k {
        OwnLines(sh, p, ws, n, k, j);
      }
    }
  }

  /** Clearing the rest of the open page: valid and at once invalid. */
  lemma Cleared(sh: Shape, p: Places, ws: seq<Pointer>, n: Counts, k: nat)
    requires AllOk(sh, p, ws, n) && Partition(p, |n.vgc|) && k < 4 && 0 < ws[k].rest
    requires n.Has(ws[k].page) && 0 <= n.igc[ws[k].page]
    ensures var x := ws[k].page;
            AllOk(sh, p, ws[k := ws[k].(rest := 0)], n.(igc := n.igc[x := n.igc[x] + ws[k].rest]))
  {
    hide Partition, Handed, Shape.Grains;
    assert PointerOk(sh, p, ws[k], k, n);
    var x := ws[k].page;
    SameHanded(ws[k], 0, sh.ppg);
    var ws', n' := ws[k := ws[k].(rest := 0)], n.(igc := n.igc[x := n.igc[x] + ws[k].rest]);
    forall j | 0 <= j < 4
      ensures PointerOk(sh, p, ws'[j], j, n')
    {
      assert PointerOk(sh, p, ws[j], j, n);
      if j != k {
        OwnLines(sh, p, ws, n, k, j);
      }
    }
  }

  /** Lines move between full list and queue only. */
  ghost predicate Relisted(p: Places, p': Places) {
    p'.wps == p.wps && forall x :: x in p.full || x in p.queue ==> x in p'.full || x in p'.queue
  }

  lemma RelistedOk(sh: Shape, p: Places, p': Places, ws: seq<Pointer>, n: Counts)
    requires AllOk(sh, p, ws, n) && Relisted(p, p')
    ensures AllOk(sh, p', ws, n)
  {
    forall j | 0 <= j < 4
      ensures PointerOk(sh, p', ws[j], j, n)
    {
      assert PointerOk(sh, p, ws[j], j, n);
    }
  }

  lemma RequeuedLists(p: Places, l: nat, lines: nat)
    requires Partition(p, lines) && l in p.full
    ensures Relisted(p, Requeued(p, l))
  {
    RequeuedOk(p, l, lines);
    forall x | x in p.full || x in p.queue
      ensures x in Requeued(p, l).full || x in Requeued(p, l).queue
    {
      if x != l {
        assert SamePlace(p, Requeued(p, l), x);
      }
    }
  }

  /** Invalidating grains of any line. */
  lemma Dropped(sh: Shape, p: Places, p': Places, ws: seq<Pointer>, n: Counts, l: nat, len: nat)
    requires AllOk(sh, p, ws, n) && n.Has(l) && Relisted(p, p')
    ensures AllOk(sh, p', ws, n.(vgc := n.vgc[l := n.vgc[l] - len], igc := n.igc[l := n.igc[l] + len]))
  {
    var n' := n.(vgc := n.vgc[l := n.vgc[l] - len], igc := n.igc[l := n.igc[l] + len]);
    forall j | 0 <= j < 4
      ensures PointerOk(sh, p', ws[j], j, n')
    {
      assert PointerOk(sh, p, ws[j], j, n);
    }
  }

  /** Handing out a page that is not the last of the line. */
  lemma HandedOut(sh: Shape, p: Places, ws: seq<Pointer>, n: Counts, k: nat)
    requires AllOk(sh, p, ws, n) && Partition(p, |n.vgc|) && k < 4 && ws[k].rest == 0
    requires !UsedUp(Next(ws[k], sh.ppg, p.wps[k]), sh.groups)
    ensures AllOk(sh, p, ws[k := Next(ws[k], sh.ppg, p.wps[k])], n)
  {
    var w' := Next(ws[k], sh.ppg, p.wps[k]);
    var ws' := ws[k := w'];
    NextHanded(ws[k], sh.ppg, p.wps[k]);
    assert PointerOk(sh, p, ws[k], k, n);
    assert PointerOk(sh, p, w', k, n);
    forall j | 0 <= j < 4
      ensures PointerOk(sh, p, ws'[j], j, n) && (j != k && ws[j].rest > 0 ==> ws[j].page != p.wps[k])
    {
      assert PointerOk(sh, p, ws[j], j, n);
      if j != k {
        OwnLines(sh, p, ws, n, j, k);
      }
    }
  }

  /** A page was handed out; with the last one the line goes to the full list if it has no
      invalid grains, else to the queue. */
  ghost predicate Took(sh: Shape, p: Places, ws: seq<Pointer>, n: Counts, k: nat, p': Places, ws': seq<Pointer>, n': Counts) {
    && k < |ws| && k < |p.wps| && n.Has(p.wps[k]) && 0 < sh.ppg
    && var l := p.wps[k]; var w := Next(ws[k], sh.ppg, l);
       if UsedUp(w, sh.groups)
       then
         && ClosedTo(p, p', k, n.igc[l] == 0) && ws' == ws[k := Pointer(0, 0, l, 64)]
         && n.Has(p.free[0]) && n' == n.(isMap := n.isMap[p.free[0] := ForMap(k)])
       else p' == p && ws' == ws[k := w] && n' == n
  }

  /** A data line that is used up has invalid grains. */
  lemma UsedUpClosable(sh: Shape, p: Places, ws: seq<Pointer>, n: Counts, k: nat)
    requires AllOk(sh, p, ws, n) && k < 4 && ws[k].rest == 0 && UsedUp(Next(ws[k], sh.ppg, p.wps[k]), sh.groups)
    ensures n.Has(p.wps[k]) && (n.isMap[p.wps[k]] || 0 < n.igc[p.wps[k]])
    ensures n.vgc[p.wps[k]] + n.igc[p.wps[k]] + 64 <= sh.Grains()
  {
    assert PointerOk(sh, p, ws[k], k, n);
    NextHanded(ws[k], sh.ppg, p.wps[k]);
  }

  /** Handing out the last page: the write pointer goes on to a free line. */
  lemma Rolled(sh: Shape, p: Places, ws: seq<Pointer>, n: Counts, k: nat, toFull: bool)
    requires AllOk(sh, p, ws, n) && Partition(p, |n.vgc|) && k < 4 && ws[k].rest == 0 && p.free != []
    requires UsedUp(Next(ws[k], sh.ppg, p.wps[k]), sh.groups)
    requires n.Has(p.free[0]) && n.vgc[p.free[0]] == 0 && n.igc[p.free[0]] == 0
    ensures AllOk(sh, Closed(p, k, toFull), ws[k := Pointer(0, 0, p.wps[k], 64)], n.(isMap := n.isMap[p.free[0] := ForMap(k)]))
  {
    var l, f, p' := p.wps[k], p.free[0], Closed(p, k, toFull);
    var ws', n' := ws[k := Pointer(0, 0, l, 64)], n.(isMap := n.isMap[f := ForMap(k)]);
    UsedUpClosable(sh, p, ws, n, k);
    ClosedOk(p, k, toFull, |n.vgc|);
    assert p.free[0] in p.free && InOnePlace(p, f);
    hide Closed, Partition;
    assert p'.wps == p.wps[k := f] by { ClosedWps(p, k, toFull); }
    forall j | 0 <= j < 4
      ensures PointerOk(sh, p', ws'[j], j, n') && (j != k && ws[j].rest > 0 ==> ws[j].page != l)
    {
      assert PointerOk(sh, p, ws[j], j, n);
      if j != k {
        OwnLines(sh, p, ws, n, j, k);
        NotFree(sh, p, ws, n, j);
        assert SamePlace(p, p', ws[j].page) || ws[j].page == l || ws[j].page == f;
      }
    }
  }

  lemma ClosedWps(p: Places, k: nat, toFull: bool)
    requires k < |p.wps| && p.free != []
    ensures Closed(p, k, toFull).wps == p.wps[k := p.free[0]]
  {
  }

  /** Neither the line of a write pointer nor that of an unfinished page is free or with the
      collector. */
  lemma NotFree(sh: Shape, p: Places, ws: seq<Pointer>, n: Counts, j: nat)
    requires AllOk(sh, p, ws, n) && Partition(p, |n.vgc|) && j < 4
    ensures p.wps[j] !in p.free && p.wps[j] !in p.taken && p.wps[j] !in p.queue
    ensures ws[j].rest > 0 ==> ws[j].page !in p.free && ws[j].page !in p.taken
  {
    assert PointerOk(sh, p, ws[j], j, n);
    assert p.wps[j] in p.wps && InOnePlace(p, p.wps[j]);
    assert InOnePlace(p, ws[j].page);
  }

  /** The collector takes a line without an unfinished page. */
  lemma TakenAway(sh: Shape, p: Places, ws: seq<Pointer>, n: Counts, l: nat)
    requires AllOk(sh, p, ws, n) && Partition(p, |n.vgc|) && p.queue[l] == 1
    requires forall k :: 0 <= k < 4 && ws[k].rest > 0 ==> ws[k].page != l
    ensures AllOk(sh, Picked(p, l), ws, n)
  {
    PickedOk(p, l, |n.vgc|);
    hide Partition;
    forall j | 0 <= j < 4
      ensures PointerOk(sh, Picked(p, l), ws[j], j, n)
    {
      assert PointerOk(sh, p, ws[j], j, n);
      assert SamePlace(p, Picked(p, l), ws[j].page) || ws[j].page == l;
    }
  }

  lemma GivenBack(sh: Shape, p: Places, ws: seq<Pointer>, n: Counts, l: nat)
    requires AllOk(sh, p, ws, n) && Partition(p, |n.vgc|) && l in p.taken && n.Has(l)
    ensures AllOk(sh, Freed(p, l), ws, n.(vgc := n.vgc[l := 0], igc := n.igc[l := 0]))
  {
    var p', n' := Freed(p, l), n.(vgc := n.vgc[l := 0], igc := n.igc[l := 0]);
    forall j | 0 <= j < 4
      ensures PointerOk(sh, p', ws[j], j, n')
    {
      assert PointerOk(sh, p, ws[j], j, n);
      NotFree(sh, p, ws, n, j);
    }
  }

  /** Free lines have nothing marked. */
  lemma FreeCounts(p: Places, n: Counts, grains: nat)
    requires Partition(p, |n.vgc|) && AllSound(p, n.vgc, n.igc, n.isMap, grains) && p.free != []
    ensures n.Has(p.free[0]) && n.vgc[p.free[0]] == 0 && n.igc[p.free[0]] == 0
  {
    assert p.free[0] in p.free && Somewhere(p, p.free[0]);
    assert Sound(p, p.free[0], n.vgc[p.free[0]], n.igc[p.free[0]], n.isMap[p.free[0]], grains);
  }

  /** The open page can be marked. */
  lemma MarkFits(sh: Shape, p: Places, ws: seq<Pointer>, n: Counts, k: nat)
    requires AllOk(sh, p, ws, n) && Partition(p, |n.vgc|) && AllSound(p, n.vgc, n.igc, n.isMap, sh.Grains()) && k < 4 && 0 < ws[k].rest
    ensures var x := ws[k].page;
            && n.Has(x) && x !in p.free && n.vgc[x] + n.igc[x] + ws[k].rest <= sh.Grains() && 0 <= n.vgc[x] && 0 <= n.igc[x]
            && (x in p.wps ==> n.vgc[x] + n.igc[x] + ws[k].rest < sh.Grains())
  {
    var w := ws[k];
    assert PointerOk(sh, p, w, k, n);
    NotFree(sh, p, ws, n, k);
    assert Sound(p, w.page, n.vgc[w.page], n.igc[w.page], n.isMap[w.page], sh.Grains());
    if w.page == p.wps[k] {
      HandedBound(w, sh);
    } else {
      assert InOnePlace(p, w.page);
    }
  }

  lemma HandedBound(w: Pointer, sh: Shape)
    requires sh.Ok() && w.begun <= sh.groups && w.left < sh.ppg && !UsedUp(w, sh.groups)
    ensures 64 * Handed(w, sh.ppg) < sh.Grains()
  {
    if w.begun < sh.groups {
      Multiples(w.begun + 1, sh.groups, sh.ppg);
      assert (w.begun + 1) * sh.ppg == w.begun * sh.ppg + sh.ppg;
    }
  }

  lemma StuckTrans(a: seq<nat>, x: seq<int>, b: seq<nat>, y: seq<int>, c: seq<nat>, z: seq<int>)
    requires StuckStay(a, x, b, y) && StuckStay(b, y, c, z)
    ensures StuckStay(a, x, c, z)
  {
  }

  lemma OneRun(len: nat)
    ensures Total([len]) == len
  {
    assert [len][..0] == [];
  }

  /** Grains that a pair can take from the open page on: all but the last page of the group. */
  function Space(w: Pointer): int {
    if w.left == 0 then 0 else w.rest + 64 * (w.left - 1)
  }

  /** An unfinished page is on the line of its write pointer, unless that line is closed. */
  lemma OnLine(sh: Shape, p: Places, ws: seq<Pointer>, n: Counts, k: nat)
    requires AllOk(sh, p, ws, n) && k < 4 && 0 < ws[k].rest && 0 < ws[k].begun
    ensures ws[k].page == p.wps[k] && n.Has(p.wps[k])
  {
    assert PointerOk(sh, p, ws[k], k, n);
  }

  /** A place for a pair: it fits the group, or the line has invalid grains, or it is the first
      of its line. */
  ghost predicate Ready(sh: Shape, p: Places, w: Pointer, k: nat, n: Counts, len: nat) {
    && k < |p.wps| && n.Has(p.wps[k]) && 0 < w.rest && 0 < w.begun <= sh.groups && w.left < sh.ppg
    && (len <= Space(w) || 0 < n.igc[p.wps[k]] || (w.begun == 1 && w.left + 1 == sh.ppg && w.rest == 64))
  }

  /** What is left of a pair ends within the line, and does not use up the last group but one
      of a line without invalid grains. */
  ghost predicate Safe(sh: Shape, p: Places, w: Pointer, k: nat, n: Counts, rem: nat) {
    && k < |p.wps| && n.Has(p.wps[k]) && 0 < w.rest
    && (w.begun == 0 ==> rem <= w.rest)
    && (w.begun > 0 ==> rem <= Ahead(sh, w))
    && (w.begun > 0 ==> 0 < n.igc[p.wps[k]] || rem <= Space(w) || rem + 64 * sh.ppg < Ahead(sh, w))
  }

  /** Grains of the line from the open page on. */
  function Ahead(sh: Shape, w: Pointer): int {
    sh.Grains() - 64 * Handed(w, sh.ppg) + w.rest
  }

  /** Where the next grain of a pointer goes on its line. */
  function Spent(sh: Shape, w: Pointer): int {
    64 * Handed(w, sh.ppg) - w.rest
  }

  /** Page 0 of the device comes next: it is cleared and passed over. */
  predicate Skips(w: Pointer, l: nat) {
    w.begun == 0 && l == 0
  }

  /** A page was handed out, but not page 0 of the device. */
  ghost predicate Opened(sh: Shape, s: Shot, t: Shot, k: nat) {
    && 2 <= sh.ppg && k < |s.ws| && k < |s.p.wps| && s.n.Has(s.p.wps[k])
    && if Skips(s.ws[k], s.p.wps[k])
       then t == Shot(s.p, s.ws[k := Pointer(1, sh.ppg - 2, 0, 64)], s.n.(igc := Plus(s.n.igc, 0, 64)))
       else Took(sh, s.p, s.ws, s.n, k, t.p, t.ws, t.n)
  }

  /** The rest of the open page of a pointer was cleared. */
  ghost predicate PageCleared(sh: Shape, s: Shot, t: Shot, k: nat) {
    && k < |s.ws| && t.ws == s.ws[k := s.ws[k].(rest := 0)]
    && var x, rest := s.ws[k].page, s.ws[k].rest;
       && t.n == s.n.(igc := Plus(s.n.igc, x, rest))
       && t.p == if 0 < rest && x < |s.n.vgc| && s.n.vgc[x] + rest == sh.Grains() then Requeued(s.p, x) else s.p
  }

  /** The rest of the LUN group was cleared; with its last page a line may have been closed. */
  ghost predicate GroupCleared(sh: Shape, s: Shot, t: Shot, k: nat) {
    && k < |s.ws| && k < |s.p.wps| && |t.ws| == |s.ws| && k < |t.p.wps|
    && var w := s.ws[k]; var l := if 0 < w.left then s.p.wps[k] else w.page;
       && t.n.vgc == s.n.vgc && t.n.igc == Plus(s.n.igc, l, w.rest + 64 * w.left)
       && t.ws[k] == (if 0 < w.left && w.begun == sh.groups then Pointer(0, 0, l, 0) else Pointer(w.begun, 0, l, 0))
       && (!(0 < w.left && w.begun == sh.groups) ==> t.p.wps == s.p.wps)
  }

  /** The same on the way. */
  ghost predicate Clearing(sh: Shape, s: Shot, t: Shot, k: nat) {
    && k < |s.ws| && k < |s.p.wps| && |t.ws| == |s.ws| && k < |t.p.wps|
    && var w, v := s.ws[k], t.ws[k]; var l := if 0 < w.left then s.p.wps[k] else w.page;
       && t.n.vgc == s.n.vgc && t.n.igc == Plus(s.n.igc, l, w.rest + 64 * w.left - v.rest - 64 * v.left)
       && (|| (t.p.wps == s.p.wps && v.begun == w.begun && v.left <= w.left && (v.left == w.left || v.page == l) && (v == w || v.rest == 0 || v.page == l)
               && (v.left == w.left ==> v.page == w.page))
           || (0 < w.left && w.begun == sh.groups && v.begun == 0 && v.left == 0 && v.page == l))
  }

  lemma ClearedPage(sh: Shape, s: Shot, t: Shot, t': Shot, k: nat)
    requires Clearing(sh, s, t, k) && PageCleared(sh, t, t', k) && t'.p.wps == t.p.wps
    requires 0 < s.ws[k].left && 0 < s.ws[k].rest ==> s.ws[k].page == s.p.wps[k]
    ensures Clearing(sh, s, t', k)
  {
    var w, v := s.ws[k], t.ws[k];
    var l := if 0 < w.left then s.p.wps[k] else w.page;
    if 0 < v.rest {
      PlusPlus(s.n.igc, l, w.rest + 64 * w.left - v.rest - 64 * v.left, v.rest);
    } else {
      PlusPlus(t.n.igc, v.page, 0, 0);
    }
  }

  lemma StartClearing(sh: Shape, s: Shot, k: nat)
    requires k < |s.ws| && k < |s.p.wps|
    ensures Clearing(sh, s, s, k)
  {
    PlusPlus(s.n.igc, if 0 < s.ws[k].left then s.p.wps[k] else s.ws[k].page, 0, 0);
  }

  lemma ClearedAll(sh: Shape, s: Shot, t: Shot, k: nat)
    requires Clearing(sh, s, t, k) && t.ws[k].left == t.ws[k].rest == 0 && !UsedUp(t.ws[k], sh.groups)
    ensures GroupCleared(sh, s, t, k)
  {
  }

  lemma ClearedNext(sh: Shape, s: Shot, t: Shot, t': Shot, k: nat)
    requires Clearing(sh, s, t, k) && t.ws[k].rest == 0 && 0 < t.ws[k].left && Took(sh, t.p, t.ws, t.n, k, t'.p, t'.ws, t'.n)
    requires |t'.p.wps| == |t.p.wps|
    ensures Clearing(sh, s, t', k) && t'.ws == t.ws[k := t'.ws[k]] && t'.ws[k].rest == 64 && t'.ws[k].left < t.ws[k].left
  {
  }

  /** Room was made for a pair at an open page: if it does not fit the LUN group, the rest of
      that was cleared and the next page opened. */
  ghost predicate Roomed(sh: Shape, s: Shot, t: Shot, k: nat, len: nat) {
    && k < |s.ws| && k < |s.p.wps|
    && if len <= Space(s.ws[k]) then t == s
       else exists c :: GroupCleared(sh, s, c, k) && Opened(sh, c, t, k)
  }

  /** A pair was written: `len` grains of one line were marked valid, and the pointer is that
      much further on, or on the next line. */
  ghost predicate Wrote(sh: Shape, s: Shot, t: Shot, k: nat, len: nat) {
    && k < |s.ws| && k < |t.ws| && k < |s.p.wps| && k < |t.p.wps|
    && t.n.vgc == Plus(s.n.vgc, s.ws[k].page, len)
    && t.n.igc == (if t.ws[k].begun == 1 && t.p.wps[k] == 0 && s.p.wps[k] != 0 then Plus(s.n.igc, 0, 64) else s.n.igc)
    && (t.p.wps[k] == s.p.wps[k] ==> Spent(sh, t.ws[k]) == Spent(sh, s.ws[k]) + len && t.ws[k].page == s.ws[k].page)
    && 0 < t.ws[k].rest <= 64
  }

  /** The same on the way: `done` grains are marked, and the last page of the line may be open. */
  ghost predicate Writing(sh: Shape, s: Shot, t: Shot, k: nat, done: nat) {
    && k < |s.ws| && k < |t.ws| && k < |s.p.wps| && k < |t.p.wps|
    && t.n.vgc == Plus(s.n.vgc, s.ws[k].page, done) && t.n.igc == s.n.igc && t.ws[k].page == s.ws[k].page
    && if t.ws[k].begun == 0 then t.p.wps[k] != s.p.wps[k] && t.ws[k].left == 0
       else t.p.wps[k] == s.p.wps[k] == s.ws[k].page && Spent(sh, t.ws[k]) == Spent(sh, s.ws[k]) + done
  }

  lemma WroteMark(sh: Shape, s: Shot, t: Shot, k: nat, done: nat, sz: nat)
    requires Writing(sh, s, t, k, done) && sz <= t.ws[k].rest && t.ws[k].page < |t.n.vgc|
    ensures var t' := Shot(t.p, t.ws[k := t.ws[k].(rest := t.ws[k].rest - sz)], t.n.(vgc := t.n.vgc[t.ws[k].page := t.n.vgc[t.ws[k].page] + sz]));
            Writing(sh, s, t', k, done + sz) && (0 < t'.ws[k].rest <= 64 ==> Wrote(sh, s, t', k, done + sz))
  {
    PlusPlus(s.n.vgc, s.ws[k].page, done, sz);
    SameHanded(t.ws[k], t.ws[k].rest - sz, sh.ppg);
  }

  /** The next page of a pair, or the page behind it. */
  lemma WroteNext(sh: Shape, s: Shot, t: Shot, t': Shot, k: nat, done: nat, more: bool)
    requires Writing(sh, s, t, k, done) && t.ws[k].rest == 0 && Opened(sh, t, t', k) && 2 <= sh.groups
    requires k < |t'.p.wps| == |t.p.wps| && 0 < t'.ws[k].rest <= 64
    requires t.p.free != [] ==> t.p.free[0] != t.p.wps[k]
    requires more ==> 0 < t.ws[k].begun
    ensures more ==> Writing(sh, s, t', k, done)
    ensures Wrote(sh, s, t', k, done)
  {
    NextHanded(t.ws[k], sh.ppg, t.p.wps[k]);
    if UsedUp(Next(t.ws[k], sh.ppg, t.p.wps[k]), sh.groups) {
      ClosedWps(t.p, k, true);
      ClosedWps(t.p, k, false);
    }
  }

  /** A pair was written: room was made for it, from a new page on if none was open. */
  ghost predicate DidWrite(sh: Shape, s: Shot, t: Shot, k: nat, len: nat) {
    k < |s.ws| && exists r :: FoundRoom(sh, s, r, k, len) && Wrote(sh, r, t, k, len)
  }

  ghost predicate FoundRoom(sh: Shape, s: Shot, r: Shot, k: nat, len: nat) {
    && k < |s.ws|
    && if 0 < s.ws[k].rest then Roomed(sh, s, r, k, len)
       else exists o :: Opened(sh, s, o, k) && Roomed(sh, o, r, k, len)
  }

  /** The grains of a pair are counted once, on one line: that of the open page, if it fits. */
  lemma PairIsCounted(sh: Shape, s: Shot, t: Shot, k: nat, len: nat)
    requires DidWrite(sh, s, t, k, len) && s.n.Has(s.ws[k].page)
    ensures Sum(t.n.vgc) == Sum(s.n.vgc) + len
    ensures exists x :: t.n.vgc == Plus(s.n.vgc, x, len)
    ensures 0 < s.ws[k].rest && len <= Space(s.ws[k]) ==> t.n.vgc == Plus(s.n.vgc, s.ws[k].page, len)
  {
    var r :| FoundRoom(sh, s, r, k, len) && Wrote(sh, r, t, k, len);
    RoomKeeps(sh, s, r, k, len);
    SumPlus(s.n.vgc, r.ws[k].page, len);
  }

  lemma RoomKeeps(sh: Shape, s: Shot, r: Shot, k: nat, len: nat)
    requires FoundRoom(sh, s, r, k, len) && s.n.Has(s.ws[k].page)
    ensures r.n.vgc == s.n.vgc && k < |r.ws| && r.n.Has(r.ws[k].page)
    ensures 0 < s.ws[k].rest && len <= Space(s.ws[k]) ==> r == s
  {
    if 0 < s.ws[k].rest {
      RoomedKeeps(sh, s, r, k, len);
    } else {
      var o :| Opened(sh, s, o, k) && Roomed(sh, o, r, k, len);
      RoomedKeeps(sh, o, r, k, len);
    }
  }

  lemma RoomedKeeps(sh: Shape, s: Shot, r: Shot, k: nat, len: nat)
    requires Roomed(sh, s, r, k, len) && s.n.Has(s.ws[k].page)
    ensures r.n.vgc == s.n.vgc && k < |r.ws| && r.n.Has(r.ws[k].page)
  {
    if len > Space(s.ws[k]) {
      var c :| GroupCleared(sh, s, c, k) && Opened(sh, c, r, k);
    }
  }

  lemma ReadySafe(sh: Shape, p: Places, w: Pointer, k: nat, n: Counts, len: nat)
    requires sh.Ok() && Ready(sh, p, w, k, n, len) && len + 64 * sh.ppg < sh.Grains()
    ensures len <= Ahead(sh, w) ==> Safe(sh, p, w, k, n, len)
    ensures len <= Space(w) ==> len <= Ahead(sh, w)
  {
    if 0 < w.left {
      Multiples(w.begun, sh.groups, sh.ppg);
    }
  }

  lemma SafeRest(sh: Shape, p: Places, w: Pointer, k: nat, n: Counts, rem: nat)
    requires Safe(sh, p, w, k, n, rem)
    ensures 0 < w.rest
  {
  }

  lemma SafeMay(sh: Shape, p: Places, w: Pointer, k: nat, n: Counts, rem: nat)
    requires sh.Ok() && Safe(sh, p, w, k, n, rem) && 0 < rem
    ensures MayMark(sh, p, w, k, n, if rem < w.rest then rem else w.rest)
  {
    if w.begun + 1 == sh.groups && w.left == 0 {
      assert sh.groups * sh.ppg == w.begun * sh.ppg + sh.ppg;
    }
  }

  /** There is more of a pair only on the line of its pointer. */
  lemma SafeBegun(sh: Shape, p: Places, w: Pointer, k: nat, n: Counts, rem: nat, sz: nat)
    requires Safe(sh, p, w, k, n, rem) && sz <= rem && sz == (if rem < w.rest then rem else w.rest)
    ensures sz < rem ==> 0 < w.begun
  {
  }

  lemma OpenedTook(sh: Shape, s: Shot, t: Shot, k: nat)
    requires Opened(sh, s, t, k) && 0 < s.ws[k].begun
    ensures Took(sh, s.p, s.ws, s.n, k, t.p, t.ws, t.n)
  {
  }

  /** The first page of the next LUN group. */
  lemma OpenedGroup(sh: Shape, s: Shot, t: Shot, k: nat)
    requires Opened(sh, s, t, k) && 0 < s.ws[k].begun && s.ws[k].left == 0 && s.n.Has(s.p.wps[k]) && 0 < s.n.igc[s.p.wps[k]]
    ensures t.p == s.p && t.n == s.n && t.ws[k].begun == s.ws[k].begun + 1
  {
  }

  lemma ReadyStart(sh: Shape, p: Places, ws: seq<Pointer>, n: Counts, k: nat, len: nat)
    requires AllOk(sh, p, ws, n) && k < 4 && Ready(sh, p, ws[k], k, n, len)
    ensures k < |p.wps| && 0 < ws[k].begun && ws[k].page == p.wps[k] && 2 <= sh.groups
  {
    OnLine(sh, p, ws, n, k);
  }

  lemma StartWriting(sh: Shape, s: Shot, k: nat)
    requires k < |s.ws| && k < |s.p.wps| && 0 < s.ws[k].begun && s.ws[k].page == s.p.wps[k]
    ensures Writing(sh, s, s, k, 0)
  {
    PlusPlus(s.n.vgc, s.ws[k].page, 0, 0);
  }

  lemma SafeUnmarked(sh: Shape, p: Places, w: Pointer, k: nat, n: Counts, n': Counts, rem: nat)
    requires Safe(sh, p, w, k, n, rem) && n'.igc == n.igc && |n'.vgc| == |n.vgc| && n'.isMap == n.isMap
    ensures Safe(sh, p, w, k, n', rem)
  {
  }

  /** The next page of a pair. */
  lemma SafeNext(sh: Shape, p: Places, ws: seq<Pointer>, n: Counts, k: nat, rest: nat, rem: nat, p': Places, ws': seq<Pointer>, n': Counts)
    requires sh.Ok() && k < |ws| && ws[k].rest == 0 && Safe(sh, p, ws[k].(rest := rest), k, n, rest + rem) && 0 < rem
    requires Took(sh, p, ws, n, k, p', ws', n') && |p.wps| == 4 && k < 4
    ensures Safe(sh, p', ws'[k], k, n', rem)
  {
    var w := ws[k];
    NextHanded(w, sh.ppg, p.wps[k]);
    SameHanded(w, rest, sh.ppg);
    if !UsedUp(Next(w, sh.ppg, p.wps[k]), sh.groups) {
    } else {
      assert Handed(w, sh.ppg) + 1 == sh.groups * sh.ppg;
      ClosedWps(p, k, true);
      ClosedWps(p, k, false);
    }
  }

  lemma FormattedOk(sh: Shape, p: Places, n: Counts)
    requires sh.Ok() && p.wps == [0, 1, 2, 3] && n.Has(3)
    requires forall l :: 0 <= l < |n.vgc| ==> n.vgc[l] == 0 && n.igc[l] == 0
    requires !n.isMap[0] && n.isMap[1] && n.isMap[2] && !n.isMap[3]
    ensures AllOk(sh, p, [Pointer(0, 0, 0, 0), Pointer(0, 0, 1, 0), Pointer(0, 0, 2, 0), Pointer(0, 0, 3, 0)], n)
  {
  }

  lemma FourPointers(sh: Shape, p: Places, ws: seq<Pointer>, n: Counts)
    requires AllOk(sh, p, ws, n)
    ensures sh.Ok() && |ws| == |p.wps| == 4 && forall k :: 0 <= k < 4 ==> n.Has(p.wps[k])
  {
    forall k | 0 <= k < 4
      ensures n.Has(p.wps[k])
    {
      assert PointerOk(sh, p, ws[k], k, n);
    }
  }

  lemma PointerBounds(sh: Shape, p: Places, ws: seq<Pointer>, n: Counts, k: nat)
    requires AllOk(sh, p, ws, n) && k < 4
    ensures ws[k].begun <= sh.groups && ws[k].left < sh.ppg && ws[k].rest <= 64 && (ws[k].left > 0 ==> ws[k].begun > 0)
    ensures !UsedUp(ws[k], sh.groups)
  {
    assert PointerOk(sh, p, ws[k], k, n);
  }

  /** A line with all its grains valid moves from the full list to the queue. */
  lemma AllValidLists(p: Places, l: nat, vgc: seq<int>, igc: seq<int>, isMap: seq<bool>, grains: nat)
    requires Partition(p, |vgc|) && AllSound(p, vgc, igc, isMap, grains) && l < |vgc| && |igc| == |isMap| == |vgc|
    ensures Relisted(p, p) && (vgc[l] == grains ==> Relisted(p, Requeued(p, l)))
  {
    if vgc[l] == grains {
      assert Sound(p, l, vgc[l], igc[l], isMap[l], grains);
      AllValidIsFull(p, l, |vgc|, vgc[l], igc[l], isMap[l], grains);
      RequeuedLists(p, l, |vgc|);
    }
  }

  lemma PageExists(sh: Shape, p: Places, ws: seq<Pointer>, n: Counts)
    requires AllOk(sh, p, ws, n)
    ensures n.Has(ws[0].page)
  {
    assert PointerOk(sh, p, ws[0], 0, n);
  }

  /** A line is queued once at most. */
  lemma QueuedOnceAll(d: seq<nat>, pos: seq<nat>, n: nat)
    requires VictimHeap.InRange(d, n, |pos|) && VictimHeap.Placed(d, pos, n, 0)
    ensures forall x :: x in VictimHeap.Bag(d, n) ==> VictimHeap.Bag(d, n)[x] == 1
  {
    forall x | x in VictimHeap.Bag(d, n)
      ensures VictimHeap.Bag(d, n)[x] == 1
    {
      QueuedOnce(d, pos, n, x);
    }
  }

  lemma StuckSelf(full: seq<nat>, igc: seq<int>)
    ensures StuckStay(full, igc, full, igc)
  {
  }

  /** A step on lines and write pointers. */
  datatype Step =
    | Pair(gc: bool, len: nat)
    | MapPage(gc: bool)
    | MapFill(gc: bool, len: nat)
    | PageDone(k: nat)
    | Drop(l: nat, runs: seq<nat>)
    | Pick
    | Free(l: nat)
  {
    /** A pair is shorter than the LUN groups of a line but for one. */
    predicate Fine(sh: Shape) {
      Pair? ==> 0 < len && len + 64 * sh.ppg < sh.Grains()
    }

    /** A pair may not fit a LUN group but for its last page and page 0 of the device. */
    predicate Long(sh: Shape) {
      Pair? && len + 128 > 64 * sh.ppg
    }
  }

  /** What a step is specified to do. */
  ghost predicate DidStep(sh: Shape, step: Step, s: Shot, t: Shot) {
    |s.ws| == 4 &&
    match step
    case Pair(gc, len) => DidWrite(sh, s, t, if gc then 3 else 0, len)
    case MapPage(gc) => var k := if gc then 2 else 1; if s.ws[k].rest == 0 then Opened(sh, s, t, k) else t == s
    case MapFill(gc, len) =>
      var k := if gc then 2 else 1; var w := s.ws[k];
      t == if 0 < len <= w.rest then Shot(s.p, s.ws[k := w.(rest := w.rest - len)], s.n.(vgc := Plus(s.n.vgc, w.page, len))) else s
    case PageDone(k) => if k < 4 then PageCleared(sh, s, t, k) else t == s
    case Drop(l, runs) =>
      t == if s.n.Has(l) && Droppable(s.n, l, runs)
           then Shot(if runs != [] && s.n.vgc[l] == sh.Grains() then Requeued(s.p, l) else s.p, s.ws,
                     s.n.(vgc := Plus(s.n.vgc, l, 0 - Total(runs)), igc := Plus(s.n.igc, l, Total(runs))))
           else s
    case Pick =>
      && t.ws == s.ws && t.n == s.n
      && if s.ws[1].rest == s.ws[2].rest == s.ws[3].rest == 0
         then (exists l :: l in s.p.queue && l != s.ws[0].page && t.p == Picked(s.p, l))
              || (t.p == s.p && forall x :: x in s.p.queue ==> x == s.ws[0].page)
         else t.p == s.p
    case Free(l) => t == if l in s.p.taken then Shot(Freed(s.p, l), s.ws, Emptied(s.n, l)) else s
  }

  ghost function Emptied(n: Counts, l: nat): Counts {
    if n.Has(l) then n.(vgc := n.vgc[l := 0], igc := n.igc[l := 0]) else n
  }

  /** Every open page is on a line of the device. */
  ghost predicate Sane(s: Shot) {
    |s.ws| == |s.p.wps| == 4 && forall k :: 0 <= k < 4 ==> s.n.Has(s.ws[k].page)
  }

  lemma OkIsSane(sh: Shape, s: Shot)
    requires AllOk(sh, s.p, s.ws, s.n)
    ensures Sane(s)
  {
    forall k | 0 <= k < 4
      ensures s.n.Has(s.ws[k].page)
    {
      assert PointerOk(sh, s.p, s.ws[k], k, s.n);
    }
  }

  /** The valid grains that a step adds on all lines together. */
  ghost function Added(step: Step, s: Shot): int
    requires Sane(s)
  {
    match step
    case Pair(_, len) => len
    case MapFill(gc, len) => if 0 < len <= s.ws[if gc then 2 else 1].rest then len else 0
    case Drop(l, runs) => if s.n.Has(l) && Droppable(s.n, l, runs) then 0 - Total(runs) else 0
    case Free(l) => if l in s.p.taken && s.n.Has(l) then 0 - s.n.vgc[l] else 0
    case _ => 0
  }

  lemma StepIsCounted(sh: Shape, step: Step, s: Shot, t: Shot)
    requires Sane(s) && DidStep(sh, step, s, t)
    ensures Sum(t.n.vgc) == Sum(s.n.vgc) + Added(step, s)
  {
    match step
    case Pair(gc, len) => PairIsCounted(sh, s, t, if gc then 3 else 0, len);
    case MapFill(gc, len) => SumPlus(s.n.vgc, s.ws[if gc then 2 else 1].page, len);
    case Drop(l, runs) =>
      if s.n.Has(l) {
        SumPlus(s.n.vgc, l, 0 - Total(runs));
      }
    case Free(l) =>
      if l in s.p.taken && s.n.Has(l) {
        SumPlus(s.n.vgc, l, 0 - s.n.vgc[l]);
        assert Plus(s.n.vgc, l, 0 - s.n.vgc[l]) == s.n.vgc[l := 0];
      }
    case _ =>
  }

  ghost function AddedBy(steps: seq<Step>, states: seq<Shot>, n: nat): int
    requires n <= |steps| && n <= |states| && forall i :: 0 <= i < |states| ==> Sane(states[i])
  {
    if n == 0 then 0 else AddedBy(steps, states, n - 1) + Added(steps[n - 1], states[n - 1])
  }

  lemma {:induction false} AddedSame(steps: seq<Step>, states: seq<Shot>, more: seq<Shot>, n: nat)
    requires n <= |steps| && n <= |states| && forall i :: 0 <= i < |states| ==> Sane(states[i])
    requires forall i :: 0 <= i < |more| ==> Sane(more[i])
    ensures AddedBy(steps, states + more, n) == AddedBy(steps, states, n)
  {
    if n > 0 {
      AddedSame(steps, states, more, n - 1);
    }
  }

  /** Over a run the valid grains of all lines are those that were stored, less those that were
      invalidated or erased. */
  lemma {:induction false} RunIsCounted(sh: Shape, steps: seq<Step>, states: seq<Shot>, n: nat)
    requires n <= |steps| && n < |states| && forall i :: 0 <= i < |states| ==> Sane(states[i])
    requires forall i :: 0 <= i < n ==> DidStep(sh, steps[i], states[i], states[i + 1])
    ensures Sum(states[n].n.vgc) == Sum(states[0].n.vgc) + AddedBy(steps, states, n)
  {
    if n > 0 {
      RunIsCounted(sh, steps, states, n - 1);
      StepIsCounted(sh, steps[n - 1], states[n - 1], states[n]);
    }
  }

  /** Grains of a line that can be invalidated. */
  ghost predicate Droppable(n: Counts, l: nat, runs: seq<nat>)
    requires n.Has(l)
  {
    Total(runs) <= n.vgc[l] && (forall i :: 0 <= i < |runs| ==> 0 < runs[i]) && (n.isMap[l] ==> |runs| <= 1)
  }

  class Manager {
    const lines: Lines
    const shape: Shape
    var ws: seq<Pointer>

    ghost function N(): Counts
      reads this, lines, lines.queue, lines.queue.pri, lines.igc, lines.isMap
    {
      Counts(lines.queue.pri[..], lines.igc[..], lines.isMap[..])
    }

    ghost function Now(): Shot
      requires lines.queue.Shaped()
      reads this, lines, lines.queue, lines.queue.d, lines.queue.pos, lines.queue.pri, lines.igc, lines.isMap
    {
      Shot(lines.P(), ws, N())
    }

    ghost predicate Valid()
      reads this, lines, lines.queue, lines.queue.d, lines.queue.pos, lines.queue.pri, lines.igc, lines.isMap
    {
      && lines.Valid() && lines.grains == shape.Grains()
      && AllOk(shape, lines.P(), ws, N())
    }

    constructor (lineCnt: nat, shape: Shape)
      requires 4 <= lineCnt && shape.Ok()
      ensures Valid() && this.shape == shape && fresh(lines) && fresh(lines.queue)
      ensures fresh(lines.queue.d) && fresh(lines.queue.pos) && fresh(lines.queue.pri) && fresh(lines.igc) && fresh(lines.isMap)
      ensures lines.P() == Places(seq(lineCnt - 4, i => 4 + i), [], multiset{}, [0, 1, 2, 3], {}) && lines.queue.IsHeap()
      ensures N() == Counts(seq(lineCnt, _ => 0), seq(lineCnt, _ => 0), seq(lineCnt, l => l == 1 || l == 2))
      ensures ws == [Pointer(0, 0, 0, 0), Pointer(0, 0, 1, 0), Pointer(0, 0, 2, 0), Pointer(0, 0, 3, 0)]
    {
      hide Partition, AllSound, Positioned;
      var m := new Lines(lineCnt, shape.Grains());
      lines := m;
      this.shape := shape;
      ws := [Pointer(0, 0, 0, 0), Pointer(0, 0, 1, 0), Pointer(0, 0, 2, 0), Pointer(0, 0, 3, 0)];
      new;
      FormattedOk(shape, lines.P(), N());
    }

    /** Hand out the next page of a write pointer, as `get_new_page` and
        `advance_write_pointer` do. With the last page of a line the line is closed and a
        free one taken; without a free line the source stops (BUG_ON). */
    method TakePage(k: nat) returns (ok: bool)
      requires Valid() && k < 4 && ws[k].rest == 0
      modifies this, lines, lines.queue, lines.queue.d, lines.queue.pos, lines.isMap
      ensures ok ==> Valid() && StuckStay(old(lines.full), lines.igc[..], lines.full, lines.igc[..])
      ensures ok == (!UsedUp(Next(old(ws)[k], shape.ppg, old(lines.wps)[k]), shape.groups) || old(lines.free) != [])
      ensures ok ==> Took(shape, old(lines.P()), old(ws), old(N()), k, lines.P(), ws, N())
      ensures ok && old(lines.queue.IsHeap()) ==> lines.queue.IsHeap()
      ensures !ok ==> lines.free == []
    {
      hide Partition, AllSound, Positioned, StuckStay, AllOk, VictimHeap.InRange, VictimHeap.Placed, VictimHeap.Bag;
      ok := true;
      FourPointers(shape, lines.P(), ws, N());
      var l := lines.wps[k];
      var w := Next(ws[k], shape.ppg, l);
      ghost var p, n := lines.P(), N();
      if UsedUp(w, shape.groups) {
        UsedUpClosable(shape, p, ws, n, k);
        if lines.free != [] {
          FreeCounts(p, n, lines.grains);
        }
        var toFull;
        ok, toFull := lines.Close(k);
        if !ok { return; }
        Rolled(shape, p, ws, n, k, toFull);
        ws := ws[k := Pointer(0, 0, l, 64)];
        assert N() == n.(isMap := n.isMap[p.free[0] := ForMap(k)]);
      } else {
        HandedOut(shape, p, ws, n, k);
        ws := ws[k := w];
        StuckSelf(lines.full, lines.igc[..]);
      }
    }

    /** Mark grains of the open page valid. */
    method Mark(k: nat, len: nat)
      requires Valid() && k < 4 && 0 < len <= ws[k].rest && (ForMap(k) || MayMark(shape, lines.P(), ws[k], k, N(), len))
      modifies this, lines.queue.pri
      ensures Valid() && ws == old(ws)[k := old(ws)[k].(rest := old(ws)[k].rest - len)]
      ensures lines.P() == old(lines.P()) && N().Has(ws[k].page)
      ensures N() == old(N()).(vgc := old(N()).vgc[ws[k].page := old(N()).vgc[ws[k].page] + len])
      ensures old(lines.queue.IsHeap()) ==>
        (lines.queue.IsHeap() <==>
         || ws[k].page !in lines.P().queue
         || VictimHeap.NotBelow(lines.queue.d[..], old(N()).vgc, lines.queue.size, lines.queue.pos[ws[k].page], N().vgc[ws[k].page]))
    {
      hide Partition, AllSound, Positioned, AllOk, VictimHeap.InRange, VictimHeap.Placed, VictimHeap.Bag, VictimHeap.Ordered;
      ghost var p, n := lines.P(), N();
      FourPointers(shape, p, ws, n);
      MarkFits(shape, p, ws, n, k);
      Marked(shape, p, ws, n, k, len);
      lines.MarkValid(ws[k].page, len);
      ws := ws[k := ws[k].(rest := ws[k].rest - len)];
      assert N() == n.(vgc := n.vgc[ws[k].page := n.vgc[ws[k].page] + len]);
    }

    /** Clear the rest of the open page: mark it valid and at once invalid. */
    method ClearPage(k: nat)
      requires Valid() && k < 4
      modifies this, lines, lines.queue, lines.queue.d, lines.queue.pos, lines.queue.pri, lines.igc
      ensures Valid() && ws == old(ws)[k := old(ws)[k].(rest := 0)] && lines.wps == old(lines.wps)
      ensures 0 < old(ws)[k].rest ==> N().Has(ws[k].page) && 0 < N().igc[ws[k].page]
      ensures PageCleared(shape, old(Now()), Now(), k)
      ensures StuckStay(old(lines.full), old(lines.igc[..]), lines.full, lines.igc[..])
    {
      hide Partition, AllSound, Positioned, AllOk, StuckStay, Requeued, VictimHeap.InRange, VictimHeap.Placed, VictimHeap.Bag, VictimHeap.Ordered;
      ghost var p, n := lines.P(), N();
      FourPointers(shape, p, ws, n);
      if ws[k].rest == 0 {
        StuckSelf(lines.full, lines.igc[..]);
        assert ws == ws[k := ws[k].(rest := 0)];
        PlusPlus(N().igc, ws[k].page, 0, 0);
        return;
      }
      var l, rest := ws[k].page, ws[k].rest;
      MarkFits(shape, p, ws, n, k);
      Cleared(shape, p, ws, n, k);
      lines.MarkValid(l, rest);
      OneRun(rest);
      ghost var vgc := lines.queue.pri[..];
      AllValidLists(p, l, vgc, n.igc, n.isMap, lines.grains);
      lines.MarkInvalid(l, [rest]);
      ws := ws[k := ws[k].(rest := 0)];
      assert N() == n.(igc := n.igc[l := n.igc[l] + rest]);
      RelistedOk(shape, p, lines.P(), ws, N());
    }

    /** A page to write on: page 0 of the device is cleared and passed over. */
    method NewPage(k: nat) returns (ok: bool)
      requires Valid() && k < 4 && ws[k].rest == 0
      modifies this, lines, lines.queue, lines.queue.d, lines.queue.pos, lines.queue.pri, lines.igc, lines.isMap
      ensures ok ==> Valid() && |ws| == |old(ws)| && ws[k].rest == 64
      ensures ok ==> StuckStay(old(lines.full), old(lines.igc[..]), lines.full, lines.igc[..])
      ensures ok && old(ws)[k].left > 0 ==> ws[k].left == old(ws)[k].left - 1
      ensures ok && old(ws)[k].left == 0 ==> ws[k].left + 2 >= shape.ppg
      ensures ok ==> Opened(shape, old(Now()), Now(), k)
      ensures ok && old(ws)[k].begun == 0 ==>
        ws[k].begun == 1 && N().Has(lines.wps[k]) && (ws[k].left + 1 == shape.ppg || 0 < N().igc[lines.wps[k]])
      ensures forall j :: 0 <= j < |old(ws)| && j != k && ok ==> ws[j] == old(ws)[j]
      ensures !ok ==> lines.free == []
    {
      hide Partition, AllSound, Positioned, AllOk, StuckStay, VictimHeap.InRange, VictimHeap.Placed, VictimHeap.Bag, VictimHeap.Ordered;
      FourPointers(shape, lines.P(), ws, N());
      assert lines.queue.pri != lines.igc;
      PointerBounds(shape, lines.P(), ws, N(), k);
      hide LineLife.Lines.Valid;
      ok := TakePage(k);
      if !ok { return; }
      if ws[k].page == 0 && ws[k].begun == 1 && ws[k].left == shape.ppg - 1 {
        MarkFits(shape, lines.P(), ws, N(), k);
        OnLine(shape, lines.P(), ws, N(), k);
        ghost var full, igc := lines.full, lines.igc[..];
        ClearPage(k);
        StuckTrans(old(lines.full), old(lines.igc[..]), full, igc, lines.full, lines.igc[..]);
        full, igc := lines.full, lines.igc[..];
        ok := TakePage(k);
        if !ok { return; }
        StuckTrans(old(lines.full), old(lines.igc[..]), full, igc, lines.full, lines.igc[..]);
      }
    }

    /** `clear_rest_of_line`: clear the open page and every further page of its LUN group. */
    method ClearGroup(k: nat) returns (ok: bool)
      requires Valid() && k < 4
      modifies this, lines, lines.queue, lines.queue.d, lines.queue.pos, lines.queue.pri, lines.igc, lines.isMap
      ensures ok ==> Valid() && |ws| == |old(ws)| && ws[k].rest == 0 && ws[k].left == 0
      ensures ok && 0 < old(ws)[k].rest && 0 < ws[k].begun ==> N().Has(lines.wps[k]) && 0 < N().igc[lines.wps[k]]
      ensures ok ==> GroupCleared(shape, old(Now()), Now(), k)
      ensures ok ==> StuckStay(old(lines.full), old(lines.igc[..]), lines.full, lines.igc[..])
      ensures forall j :: 0 <= j < |old(ws)| && j != k && ok ==> ws[j] == old(ws)[j]
      ensures !ok ==> lines.free == []
    {
      hide Partition, AllSound, Positioned, AllOk, StuckStay, Took, Clearing, PageCleared, GroupCleared, VictimHeap.InRange, VictimHeap.Placed, VictimHeap.Bag, VictimHeap.Ordered;
      FourPointers(shape, lines.P(), ws, N());
      assert lines.queue.pri != lines.igc;
      hide LineLife.Lines.Valid;
      ok := true;
      ghost var s := Now();
      StartClearing(shape, s, k);
      PointerBounds(shape, lines.P(), ws, N(), k);
      if 0 < ws[k].rest && 0 < ws[k].begun {
        OnLine(shape, lines.P(), ws, N(), k);
      }
      StuckSelf(lines.full, lines.igc[..]);
      while true
        invariant Valid() && |ws| == 4 && (0 < old(ws)[k].rest ==> 0 < ws[k].rest)
        invariant StuckStay(old(lines.full), old(lines.igc[..]), lines.full, lines.igc[..])
        invariant forall j :: 0 <= j < 4 && j != k ==> ws[j] == old(ws)[j]
        invariant Clearing(shape, s, Now(), k)
        decreases ws[k].left
      {
        if 0 < ws[k].rest && 0 < ws[k].begun {
          OnLine(shape, lines.P(), ws, N(), k);
        }
        ghost var full, igc, t := lines.full, lines.igc[..], Now();
        ClearPage(k);
        ClearedPage(shape, s, t, Now(), k);
        StuckTrans(old(lines.full), old(lines.igc[..]), full, igc, lines.full, lines.igc[..]);
        if ws[k].left == 0 {
          PointerBounds(shape, lines.P(), ws, N(), k);
          ClearedAll(shape, s, Now(), k);
          return;
        }
        full, igc, t := lines.full, lines.igc[..], Now();
        ok := TakePage(k);
        if !ok { return; }
        FourPointers(shape, lines.P(), ws, N());
        ClearedNext(shape, s, t, Now(), k);
        StuckTrans(old(lines.full), old(lines.igc[..]), full, igc, lines.full, lines.igc[..]);
      }
    }

    /** Write a pair at the pointer of stores or of collection: if it does not fit before the
        last page of the LUN group, clear the group and go to the next. Then mark it valid
        page by page; a page that is filled exactly is followed by a new one at once. A pair
        that does not fit there either runs on into the next group; an assertion stops the
        source if it runs past its line. */
    method WritePair(k: nat, len: nat) returns (ok: bool)
      requires Valid() && (k == 0 || k == 3) && 0 < len && len + 64 * shape.ppg < shape.Grains()
      modifies this, lines, lines.queue, lines.queue.d, lines.queue.pos, lines.queue.pri, lines.igc, lines.isMap
      ensures ok ==> Valid() && ws[k].rest > 0 && forall j :: 0 <= j < 4 && j != k ==> ws[j] == old(ws)[j]
      ensures ok ==> DidWrite(shape, old(Now()), Now(), k, len)
      ensures ok ==> StuckStay(old(lines.full), old(lines.igc[..]), lines.full, lines.igc[..])
      ensures !ok ==> lines.free == [] || len + 128 > 64 * shape.ppg
      ensures !ok ==> lines.free == [] || exists r :: FoundRoom(shape, old(Now()), r, k, len) && k < |r.ws| && Spent(shape, r.ws[k]) + len > shape.Grains()
    {
      hide Partition, AllSound, Positioned, AllOk, StuckStay, Took, Ready, Safe, MayMark, Writing, Wrote, Opened, Roomed, VictimHeap.InRange, VictimHeap.Placed, VictimHeap.Bag, VictimHeap.Ordered;
      FourPointers(shape, lines.P(), ws, N());
      assert lines.queue.pri != lines.igc;
      hide LineLife.Lines.Valid;
      ok := FindSpace(k, len);
      if !ok { return; }
      ReadySafe(shape, lines.P(), ws[k], k, N(), len);
      if len > Ahead(shape, ws[k]) {
        assert FoundRoom(shape, old(Now()), Now(), k, len);
        return false;
      }
      ReadyStart(shape, lines.P(), ws, N(), k, len);
      ghost var s := Now();
      StartWriting(shape, s, k);
      hide Ahead;
      var rem := len;
      while rem > 0
        invariant 0 <= rem <= len && Valid() && |ws| == 4 && ws[k].rest > 0
        invariant rem > 0 ==> Safe(shape, lines.P(), ws[k], k, N(), rem) && Writing(shape, s, Now(), k, len - rem)
        invariant rem == 0 ==> Wrote(shape, s, Now(), k, len)
        invariant StuckStay(old(lines.full), old(lines.igc[..]), lines.full, lines.igc[..])
        invariant forall j :: 0 <= j < 4 && j != k ==> ws[j] == old(ws)[j]
      {
        ghost var full, igc := lines.full, lines.igc[..];
        ok, rem := WritePart(k, rem, s, len);
        if !ok { return; }
        StuckTrans(old(lines.full), old(lines.igc[..]), full, igc, lines.full, lines.igc[..]);
      }
    }

    /** One turn of the loop: mark what fits the open page, and open the next one if that is
        full. */
    method WritePart(k: nat, rem: nat, ghost s: Shot, ghost len: nat) returns (ok: bool, left: nat)
      requires Valid() && |ws| == 4 && (k == 0 || k == 3) && 0 < rem <= len
      requires Safe(shape, lines.P(), ws[k], k, N(), rem) && Writing(shape, s, Now(), k, len - rem)
      modifies this, lines, lines.queue, lines.queue.d, lines.queue.pos, lines.queue.pri, lines.igc, lines.isMap
      ensures ok ==> Valid() && |ws| == 4 && ws[k].rest > 0 && left < rem && forall j :: 0 <= j < 4 && j != k ==> ws[j] == old(ws)[j]
      ensures ok && left > 0 ==> Safe(shape, lines.P(), ws[k], k, N(), left) && Writing(shape, s, Now(), k, len - left)
      ensures ok && left == 0 ==> Wrote(shape, s, Now(), k, len)
      ensures ok ==> StuckStay(old(lines.full), old(lines.igc[..]), lines.full, lines.igc[..])
      ensures !ok ==> lines.free == []
    {
      hide Partition, AllSound, Positioned, AllOk, StuckStay, Took, Safe, MayMark, Writing, Wrote, Opened, VictimHeap.InRange, VictimHeap.Placed, VictimHeap.Bag, VictimHeap.Ordered;
      ok := true;
      StuckSelf(lines.full, lines.igc[..]);
      SafeRest(shape, lines.P(), ws[k], k, N(), rem);
      var sz := if rem < ws[k].rest then rem else ws[k].rest;
      ghost var w, n, t := ws[k], N(), Now();
      FourPointers(shape, lines.P(), ws, n);
      SafeMay(shape, lines.P(), w, k, n, rem);
      PointerBounds(shape, lines.P(), ws, n, k);
      Mark(k, sz);
      WroteMark(shape, s, t, k, len - rem, sz);
      left := rem - sz;
      if left == 0 && ws[k].rest > 0 {
        return;
      }
      ghost var p, ws', n' := lines.P(), ws, N();
      t := Now();
      NotFree(shape, p, ws, n', k);
      SafeBegun(shape, p, w, k, n, rem, sz);
      ok := NewPage(k);
      if !ok { return; }
      FourPointers(shape, lines.P(), ws, N());
      WroteNext(shape, s, t, Now(), k, len - left, left > 0);
      if left > 0 {
        OpenedTook(shape, t, Now(), k);
        SafeUnmarked(shape, p, w, k, n, n', rem);
        SafeNext(shape, p, ws', n', k, sz, left, lines.P(), ws, N());
      }
    }

    /** Make sure that a pair fits from the open page on. */
    method FindSpace(k: nat, len: nat) returns (ok: bool)
      requires Valid() && k < 4 && 0 < len
      modifies this, lines, lines.queue, lines.queue.d, lines.queue.pos, lines.queue.pri, lines.igc, lines.isMap
      ensures ok ==> Valid() && |ws| == |old(ws)| && Ready(shape, lines.P(), ws[k], k, N(), len)
      ensures ok && len + 128 <= 64 * shape.ppg ==> len <= Space(ws[k])
      ensures ok ==> FoundRoom(shape, old(Now()), Now(), k, len)
      ensures ok ==> ws[k].rest > 0
      ensures forall j :: 0 <= j < |old(ws)| && j != k && ok ==> ws[j] == old(ws)[j]
      ensures ok ==> StuckStay(old(lines.full), old(lines.igc[..]), lines.full, lines.igc[..])
      ensures !ok ==> lines.free == []
    {
      hide Partition, AllSound, Positioned, AllOk, StuckStay, Took, GroupCleared, VictimHeap.InRange, VictimHeap.Placed, VictimHeap.Bag, VictimHeap.Ordered;
      FourPointers(shape, lines.P(), ws, N());
      assert lines.queue.pri != lines.igc;
      hide LineLife.Lines.Valid;
      ok := true;
      StuckSelf(lines.full, lines.igc[..]);
      if ws[k].rest == 0 {
        ok := NewPage(k);
        if !ok { return; }
      }
      if Space(ws[k]) < len {
        ghost var full, igc := lines.full, lines.igc[..];
        ok := ClearGroup(k);
        if !ok { return; }
        StuckTrans(old(lines.full), old(lines.igc[..]), full, igc, lines.full, lines.igc[..]);
        full, igc := lines.full, lines.igc[..];
        ghost var t := Now();
        ok := NewPage(k);
        if !ok { return; }
        if 0 < t.ws[k].begun {
          OpenedGroup(shape, t, Now(), k);
        }
        StuckTrans(old(lines.full), old(lines.igc[..]), full, igc, lines.full, lines.igc[..]);
      }
      FourPointers(shape, lines.P(), ws, N());
      PointerBounds(shape, lines.P(), ws, N(), k);
    }

    /** Invalidate an extent, given by its runs of grains page by page. */
    method Invalidate(l: nat, runs: seq<nat>)
      requires Valid() && l < lines.igc.Length && N().Has(l) && Total(runs) <= N().vgc[l]
      requires (forall i :: 0 <= i < |runs| ==> 0 < runs[i]) && (N().isMap[l] ==> |runs| <= 1)
      modifies lines, lines.queue, lines.queue.d, lines.queue.pos, lines.queue.pri, lines.igc
      ensures Valid() && StuckStay(old(lines.full), old(lines.igc[..]), lines.full, lines.igc[..])
      ensures lines.P() == if runs != [] && old(N()).vgc[l] == shape.Grains() then Requeued(old(lines.P()), l) else old(lines.P())
      ensures N() == old(N()).(vgc := old(N()).vgc[l := old(N()).vgc[l] - Total(runs)], igc := old(N()).igc[l := old(N()).igc[l] + Total(runs)])
      ensures old(lines.queue.IsHeap()) ==> lines.queue.IsHeap()
    {
      hide Partition, AllSound, Positioned, AllOk, StuckStay, Requeued, VictimHeap.InRange, VictimHeap.Placed, VictimHeap.Bag, VictimHeap.Ordered;
      ghost var p, n := lines.P(), N();
      AllValidLists(p, l, n.vgc, n.igc, n.isMap, lines.grains);
      lines.MarkInvalid(l, runs);
      Dropped(shape, p, lines.P(), ws, n, l, Total(runs));
    }

    /** A collection picks its victim, between stores and with no page of another pointer
        unfinished. It passes over the line of the open page of stores. */
    method PickVictim() returns (found: bool, l: nat)
      requires Valid() && |ws| == 4 && ws[1].rest == ws[2].rest == ws[3].rest == 0
      modifies lines, lines.queue, lines.queue.d, lines.queue.pos
      ensures Valid() && StuckStay(old(lines.full), lines.igc[..], lines.full, lines.igc[..])
      ensures found ==> l != ws[0].page && l in old(lines.P()).queue && lines.P() == Picked(old(lines.P()), l)
      ensures !found ==> lines.P() == old(lines.P()) && forall x :: x in old(lines.P()).queue ==> x == ws[0].page
      ensures found && old(lines.queue.IsHeap()) ==> Least(N().vgc, old(lines.P()).queue, ws[0].page, l)
    {
      hide Partition, AllSound, Positioned, AllOk, StuckStay, Picked, Least, VictimHeap.InRange, VictimHeap.Placed, VictimHeap.Bag, VictimHeap.Ordered;
      ghost var p, n := lines.P(), N();
      PageExists(shape, p, ws, n);
      QueuedOnceAll(lines.queue.d[..], lines.queue.pos[..], lines.queue.size);
      found, l := lines.SelectVictim(ws[0].page);
      if found {
        TakenAway(shape, p, ws, n, l);
      }
    }

    /** The collected line is free again. */
    method GiveBack(l: nat)
      requires Valid() && l in lines.taken
      modifies lines, lines.queue.pri, lines.igc
      ensures Valid() && StuckStay(old(lines.full), old(lines.igc[..]), lines.full, lines.igc[..])
      ensures lines.P() == Freed(old(lines.P()), l) && N() == Emptied(old(N()), l)
    {
      hide Partition, AllSound, Positioned, AllOk, StuckStay, Freed, VictimHeap.InRange, VictimHeap.Placed, VictimHeap.Bag, VictimHeap.Ordered;
      ghost var p, n := lines.P(), N();
      FreedOk(p, l, |n.vgc|);
      GivenBack(shape, p, ws, n, l);
      lines.FreeLine(l);
    }

    /** Invalidate an extent if its grains are valid. */
    method DropRuns(l: nat, runs: seq<nat>)
      requires Valid() && |ws| == 4
      modifies lines, lines.queue, lines.queue.d, lines.queue.pos, lines.queue.pri, lines.igc
      ensures Valid() && DidStep(shape, Drop(l, runs), old(Now()), Now())
      ensures StuckStay(old(lines.full), old(lines.igc[..]), lines.full, lines.igc[..])
    {
      hide Partition, AllSound, Positioned, AllOk, StuckStay, Requeued, VictimHeap.InRange, VictimHeap.Placed, VictimHeap.Bag, VictimHeap.Ordered;
      StuckSelf(lines.full, lines.igc[..]);
      if l < lines.igc.Length && Total(runs) <= lines.queue.pri[l] && (forall i :: 0 <= i < |runs| ==> 0 < runs[i])
         && (lines.isMap[l] ==> |runs| <= 1) {
        Invalidate(l, runs);
      }
    }

    /** One step, if the state allows it. */
    method Do(step: Step) returns (ok: bool)
      requires Valid() && step.Fine(shape)
      modifies this, lines, lines.queue, lines.queue.d, lines.queue.pos, lines.queue.pri, lines.igc, lines.isMap
      ensures ok ==> Valid() && StuckStay(old(lines.full), old(lines.igc[..]), lines.full, lines.igc[..])
      ensures ok ==> DidStep(shape, step, old(Now()), Now())
      ensures !ok ==> lines.free == [] || step.Long(shape)
    {
      hide Partition, AllSound, Positioned, AllOk, StuckStay, Picked, DidWrite, Opened, PageCleared, Requeued, Freed, VictimHeap.InRange, VictimHeap.Placed, VictimHeap.Bag, VictimHeap.Ordered;
      FourPointers(shape, lines.P(), ws, N());
      StuckSelf(lines.full, lines.igc[..]);
      ok := true;
      match step
      case Pair(gc, len) =>
        ok := WritePair(if gc then 3 else 0, len);
      case MapPage(gc) =>
        var k := if gc then 2 else 1;
        if ws[k].rest == 0 {
          ok := NewPage(k);
        }
      case MapFill(gc, len) =>
        var k := if gc then 2 else 1;
        if 0 < len <= ws[k].rest {
          Mark(k, len);
        }
      case PageDone(k) =>
        if k < 4 {
          ClearPage(k);
        }
      case Drop(l, runs) =>
        DropRuns(l, runs);
      case Pick =>
        if ws[1].rest == 0 && ws[2].rest == 0 && ws[3].rest == 0 {
          var found, l := PickVictim();
        }
      case Free(l) =>
        if l in lines.taken {
          GiveBack(l);
        }
    }

    /** Over any run every line stays in exactly one place with sound counters, no data line
        is ever closed without invalid grains, and a line that is stuck on the full list
        stays there. A run ends early only for want of a free line or with a pair too long for
        a LUN group. */
    method Run(steps: seq<Step>) returns (done: nat, ghost states: seq<Shot>)
      requires Valid() && forall i :: 0 <= i < |steps| ==> steps[i].Fine(shape)
      modifies this, lines, lines.queue, lines.queue.d, lines.queue.pos, lines.queue.pri, lines.igc, lines.isMap
      ensures done <= |steps| && |states| == done + 1 && states[0] == old(Now())
      ensures forall i :: 0 <= i < done ==> DidStep(shape, steps[i], states[i], states[i + 1])
      ensures (forall i :: 0 <= i <= done ==> Sane(states[i])) && Sum(states[done].n.vgc) == Sum(states[0].n.vgc) + AddedBy(steps, states, done)
      ensures done == |steps| ==> Valid() && Partition(lines.P(), lines.igc.Length) && states[done] == Now()
      ensures done == |steps| ==> StuckStay(old(lines.full), old(lines.igc[..]), lines.full, lines.igc[..])
      ensures done < |steps| ==> lines.free == [] || steps[done].Long(shape)
    {
      hide DidStep, Sane, Added, Sum, AllSound, Positioned, AllOk, StuckStay, VictimHeap.InRange, VictimHeap.Placed, VictimHeap.Bag, VictimHeap.Ordered;
      done, states := 0, [Now()];
      OkIsSane(shape, Now());
      StuckSelf(lines.full, lines.igc[..]);
      while done < |steps|
        invariant done <= |steps| && Valid() && |states| == done + 1 && states[0] == old(Now()) && states[done] == Now()
        invariant forall i :: 0 <= i < done ==> DidStep(shape, steps[i], states[i], states[i + 1])
        invariant forall i :: 0 <= i <= done ==> Sane(states[i])
        invariant Sum(states[done].n.vgc) == Sum(states[0].n.vgc) + AddedBy(steps, states, done)
        invariant StuckStay(old(lines.full), old(lines.igc[..]), lines.full, lines.igc[..])
        decreases |steps| - done
      {
        ghost var full, igc := lines.full, lines.igc[..];
        var ok := Do(steps[done]);
        if !ok { return; }
        StuckTrans(old(lines.full), old(lines.igc[..]), full, igc, lines.full, lines.igc[..]);
        OkIsSane(shape, Now());
        StepIsCounted(shape, steps[done], states[done], Now());
        AddedSame(steps, states, [Now()], done);
        done, states := done + 1, states + [Now()];
      }
    }
  }

  // ----- what such runs can lead to -----

  /** One-shot pages of eight pages on one channel, and two LUNs. */
  const DEVICE: Shape := Shape(8, 2)

  /** The state of a manager as far as mapping pages are concerned. */
  ghost predicate Stands(m: Manager, p: Places, n: Counts, w: Pointer)
    reads m, m.lines, m.lines.queue, m.lines.queue.d, m.lines.queue.pos, m.lines.queue.pri, m.lines.igc, m.lines.isMap
  {
    && m.Valid() && m.shape == DEVICE && m.lines.queue.IsHeap()
    && |m.ws| == 4 && m.ws[1] == w && m.lines.P() == p && m.N() == n
  }

  /** The write pointer after `i` pages of line `l` were filled. */
  function Filled(i: nat, l: nat, page: nat): Pointer
    requires i <= 15
  {
    if i == 0 then Pointer(0, 0, page, 0) else if i <= 8 then Pointer(1, 8 - i, l, 0) else Pointer(2, 16 - i, l, 0)
  }

  /** Take a page of a line that has more, and fill it with sections. */
  method FillPage(m: Manager, ghost p: Places, ghost n: Counts, ghost w: Pointer)
    requires Stands(m, p, n, w) && |p.wps| == 4 && w.rest == 0 && !UsedUp(Next(w, 8, p.wps[1]), 2)
    modifies m, m.lines, m.lines.queue, m.lines.queue.d, m.lines.queue.pos, m.lines.queue.pri, m.lines.isMap
    ensures Stands(m, p, n.(vgc := Plus(n.vgc, p.wps[1], 64)), Next(w, 8, p.wps[1]).(rest := 0))
  {
    hide Partition, AllSound, Positioned, AllOk, StuckStay, VictimHeap.InRange, VictimHeap.Placed, VictimHeap.Bag, VictimHeap.Ordered, VictimHeap.NotBelow;
    FourPointers(m.shape, m.lines.P(), m.ws, m.N());
    NotFree(m.shape, m.lines.P(), m.ws, m.N(), 1);
    var ok := m.TakePage(1);
    m.Mark(1, 64);
  }

  /** Fill all pages of a fresh line but the last, and take the last one. If the first page is
      for the first use of a section, all of it but the six grains of an empty table is
      invalidated at once. */
  method FillLine(m: Manager, ghost p: Places, ghost n: Counts, first: bool, ghost page: nat)
    requires Stands(m, p, n, Pointer(0, 0, page, 0)) && |p.wps| == 4 && p.free != []
    requires n.Has(p.wps[1]) && n.Has(p.free[0]) && n.vgc[p.wps[1]] == 0 && n.igc[p.wps[1]] == 0 && n.isMap[p.wps[1]]
    modifies m, m.lines, m.lines.queue, m.lines.queue.d, m.lines.queue.pos, m.lines.queue.pri, m.lines.igc, m.lines.isMap
    ensures var l, cut := p.wps[1], if first then 58 else 0;
      Stands(m, Closed(p, 1, !first),
             Counts(Plus(n.vgc, l, 960 - cut), Plus(n.igc, l, cut), n.isMap[p.free[0] := true]), Pointer(0, 0, l, 64))
  {
    hide Stands, Closed, Plus;
    ghost var l, cut := p.wps[1], if first then 58 else 0;
    FillPage(m, p, n, Pointer(0, 0, page, 0));
    ghost var n' := n.(vgc := Plus(n.vgc, l, 64));
    PlusIs(n.vgc, l, 64);
    if first {
      Forget(m, p, n', Filled(1, l, page), LineOf(m, p, n', Filled(1, l, page)), 58);
      PlusPlus(n.vgc, l, 64, -58);
    }
    PlusPlus(n.igc, l, 0, 0);
    n' := Counts(Plus(n.vgc, l, 64 - cut), Plus(n.igc, l, cut), n.isMap);
    for i := 1 to 15
      invariant Stands(m, p, n'.(vgc := Plus(n.vgc, l, 64 * i - cut)), Filled(i, l, page))
    {
      FillPage(m, p, n'.(vgc := Plus(n.vgc, l, 64 * i - cut)), Filled(i, l, page));
      PlusPlus(n.vgc, l, 64 * i - cut, 64);
    }
    PlusIs(n.vgc, l, 960 - cut);
    PlusIs(n.igc, l, cut);
    LastPage(m, p, n'.(vgc := Plus(n.vgc, l, 960 - cut)), Filled(15, l, page));
  }

  /** The line of the write pointer of mapping pages. */
  function LineOf(m: Manager, ghost p: Places, ghost n: Counts, ghost w: Pointer): (l: nat)
    requires Stands(m, p, n, w) && |p.wps| == 4
    reads m, m.lines, m.lines.queue, m.lines.queue.d, m.lines.queue.pos, m.lines.queue.pri, m.lines.igc, m.lines.isMap
    ensures l == p.wps[1]
  {
    m.lines.wps[1]
  }

  /** Take the last page of a line. */
  method LastPage(m: Manager, ghost p: Places, ghost n: Counts, ghost w: Pointer)
    requires Stands(m, p, n, w) && |p.wps| == 4 && w == Pointer(2, 1, p.wps[1], 0) && p.free != []
    requires n.Has(p.wps[1]) && n.Has(p.free[0])
    modifies m, m.lines, m.lines.queue, m.lines.queue.d, m.lines.queue.pos, m.lines.isMap
    ensures Stands(m, Closed(p, 1, n.igc[p.wps[1]] == 0), n.(isMap := n.isMap[p.free[0] := true]), Pointer(0, 0, p.wps[1], 64))
  {
    hide Partition, AllSound, Positioned, AllOk, StuckStay, Closed, VictimHeap.InRange, VictimHeap.Placed, VictimHeap.Bag, VictimHeap.Ordered;
    var ok := m.TakePage(1);
  }

  /** Invalidate grains of a line of mapping pages, within one page. */
  method Forget(m: Manager, ghost p: Places, ghost n: Counts, ghost w: Pointer, l: nat, len: nat)
    requires Stands(m, p, n, w) && n.Has(l) && 0 < len <= n.vgc[l] < 1024
    modifies m.lines, m.lines.queue, m.lines.queue.d, m.lines.queue.pos, m.lines.queue.pri, m.lines.igc
    ensures Stands(m, p, n.(vgc := Plus(n.vgc, l, 0 - len), igc := Plus(n.igc, l, len)), w)
  {
    hide Partition, AllSound, Positioned, AllOk, StuckStay, Requeued, VictimHeap.InRange, VictimHeap.Placed, VictimHeap.Bag, VictimHeap.Ordered;
    OneRun(len);
    m.Invalidate(l, [len]);
  }

  lemma OneQueued(d: seq<nat>, pri: seq<int>, n: nat, i: nat, p: int)
    requires VictimHeap.InRange(d, n, |pri|) && VictimHeap.Bag(d, n) == multiset{1}
    ensures VictimHeap.NotBelow(d, pri, n, i, p)
  {
    assert |multiset(d[1..n])| == n - 1;
  }

  lemma TwoQueued(d: seq<nat>, pri: seq<int>, pos: seq<nat>, n: nat, p: int)
    requires VictimHeap.InRange(d, n, |pri|) && |pos| == |pri| && VictimHeap.Placed(d, pos, n, 0) && VictimHeap.Ordered(d, pri, n)
    requires VictimHeap.Bag(d, n) == multiset{1, 4} && 4 < |pri| && pri[4] < pri[1] < p
    ensures !VictimHeap.NotBelow(d, pri, n, pos[4], p)
  {
    assert |multiset(d[1..n])| == n - 1;
    VictimHeap.QueuedAt(d, pos, n, 1);
    VictimHeap.QueuedAt(d, pos, n, 4);
    assert VictimHeap.Edge(d, pri, n, 2);
    assert d[pos[1]] == 1 && d[pos[4]] == 4 && pos[4] == 1 && pos[1] == 2;
  }

  /** Mark grains of the open page, on a line that is the only queued one or not queued. */
  method MarkPage(m: Manager, ghost p: Places, ghost n: Counts, ghost l: nat, rest: nat, len: nat)
    requires Stands(m, p, n, Pointer(0, 0, l, rest)) && n.Has(l) && 0 < len <= rest && p.queue == multiset{1}
    modifies m, m.lines.queue.pri
    ensures Stands(m, p, n.(vgc := Plus(n.vgc, l, len)), Pointer(0, 0, l, rest - len))
  {
    hide Partition, AllSound, Positioned, AllOk, StuckStay, VictimHeap.InRange, VictimHeap.Placed, VictimHeap.Bag, VictimHeap.Ordered, VictimHeap.NotBelow;
    OneQueued(m.lines.queue.d[..], m.N().vgc, m.lines.queue.size, m.lines.queue.pos[l], n.vgc[l] + len);
    m.Mark(1, len);
  }

  /** Mark the last page of line 4, which has fewer valid grains than line 1 until then. */
  method MarkSecond(m: Manager, ghost p: Places, ghost n: Counts)
    requires Stands(m, p, n, Pointer(0, 0, 4, 64)) && p.queue == multiset{1, 4} && n.Has(4)
    requires n.vgc[4] < n.vgc[1] < n.vgc[4] + 64
    modifies m, m.lines.queue.pri
    ensures m.Valid() && !m.lines.queue.IsHeap()
  {
    hide Partition, AllSound, Positioned, AllOk, StuckStay, VictimHeap.InRange, VictimHeap.Placed, VictimHeap.Bag, VictimHeap.Ordered, VictimHeap.NotBelow;
    TwoQueued(m.lines.queue.d[..], m.N().vgc, m.lines.queue.pos[..], m.lines.queue.size, n.vgc[4] + 64);
    m.Mark(1, 64);
  }

  /** A formatted device of six lines. */
  method SixLines() returns (m: Manager)
    ensures fresh(m) && fresh(m.lines) && fresh(m.lines.queue) && fresh(m.lines.queue.d) && fresh(m.lines.queue.pos)
    ensures fresh(m.lines.queue.pri) && fresh(m.lines.igc) && fresh(m.lines.isMap)
    ensures Stands(m, Places([4, 5], [], multiset{}, [0, 1, 2, 3], {}),
                   Counts([0, 0, 0, 0, 0, 0], [0, 0, 0, 0, 0, 0], [false, true, true, false, false, false]), Pointer(0, 0, 1, 0))
  {
    hide Partition, AllSound, Positioned, AllOk, StuckStay, VictimHeap.InRange, VictimHeap.Placed, VictimHeap.Bag, VictimHeap.Ordered;
    m := new Manager(6, DEVICE);
    assert seq(6 - 4, i => 4 + i) == [4, 5] && seq(6, _ => 0) == [0, 0, 0, 0, 0, 0];
    assert seq(6, l => l == 1 || l == 2) == [false, true, true, false, false, false];
  }

  /** Line 1 is filled with mapping pages, the first of them for the first use of a section,
      and comes to the queue. Then that section is written elsewhere. */
  method FirstQueued() returns (m: Manager)
    ensures fresh(m) && fresh(m.lines) && fresh(m.lines.queue) && fresh(m.lines.queue.d) && fresh(m.lines.queue.pos)
    ensures fresh(m.lines.queue.pri) && fresh(m.lines.igc) && fresh(m.lines.isMap)
    ensures Stands(m, Places([5], [], multiset{1}, [0, 4, 2, 3], {}),
                   Counts([0, 960, 0, 0, 0, 0], [0, 64, 0, 0, 0, 0], [false, true, true, false, true, false]), Pointer(0, 0, 1, 0))
  {
    hide Stands;
    m := SixLines();
    ghost var p := Places([4, 5], [], multiset{}, [0, 1, 2, 3], {});
    ghost var n := Counts([0, 0, 0, 0, 0, 0], [0, 0, 0, 0, 0, 0], [false, true, true, false, false, false]);
    FillLine(m, p, n, true, 1);
    ghost var p1, n1 := Closed(p, 1, false), Counts(Plus(n.vgc, 1, 902), Plus(n.igc, 1, 58), n.isMap[4 := true]);
    MarkPage(m, p1, n1, 1, 64, 64);
    ghost var n2 := n1.(vgc := Plus(n1.vgc, 1, 64));
    Forget(m, p1, n2, Pointer(0, 0, 1, 0), 1, 6);
    assert p1 == Places([5], [], multiset{1}, [0, 4, 2, 3], {});
    assert Plus(n2.vgc, 1, -6) == [0, 960, 0, 0, 0, 0] && Plus(n2.igc, 1, 6) == [0, 64, 0, 0, 0, 0];
    assert n1.isMap == [false, true, true, false, true, false];
  }

  /** Line 4 follows, every page full of sections. Its last page is handed out, so the line
      goes to the full list, and gets a first section of eight grains; the next section to
      come there has its old grains on the same line, which are invalidated before its new
      ones are marked valid. The line is stuck. */
  method StuckLine() returns (m: Manager)
    ensures fresh(m) && m.Valid() && Stuck(m.lines.full, m.lines.igc[..], 4)
  {
    m := FirstQueued();
    hide Stands;
    ghost var p := Places([5], [], multiset{1}, [0, 4, 2, 3], {});
    ghost var n := Counts([0, 960, 0, 0, 0, 0], [0, 64, 0, 0, 0, 0], [false, true, true, false, true, false]);
    FillLine(m, p, n, false, 1);
    ghost var p1, n1 := Closed(p, 1, true), Counts(Plus(n.vgc, 4, 960), Plus(n.igc, 4, 0), n.isMap[5 := true]);
    MarkPage(m, p1, n1, 4, 64, 8);
    ghost var n2 := n1.(vgc := Plus(n1.vgc, 4, 8));
    Forget(m, p1, n2, Pointer(0, 0, 4, 56), 4, 8);
    ghost var n3 := n2.(vgc := Plus(n2.vgc, 4, -8), igc := Plus(n2.igc, 4, 8));
    MarkPage(m, p1, n3, 4, 56, 8);
    ShowsStuck(m, p1, n3.(vgc := Plus(n3.vgc, 4, 8)), Pointer(0, 0, 4, 48), 4);
  }

  lemma ShowsStuck(m: Manager, p: Places, n: Counts, w: Pointer, l: nat)
    requires Stands(m, p, n, w) && l in p.full && n.Has(l) && 0 < n.igc[l]
    ensures m.Valid() && Stuck(m.lines.full, m.lines.igc[..], l)
  {
  }

  /** Line 4 follows, its first page for the first use of a section, with fewer valid grains
      than line 1. Its last page is marked valid then, which the queue does not see: it is
      out of order. */
  method BrokenOrder() returns (m: Manager)
    ensures fresh(m) && m.Valid() && !m.lines.queue.IsHeap()
  {
    hide Stands;
    m := FirstQueued();
    ghost var p := Places([5], [], multiset{1}, [0, 4, 2, 3], {});
    ghost var n := Counts([0, 960, 0, 0, 0, 0], [0, 64, 0, 0, 0, 0], [false, true, true, false, true, false]);
    FillLine(m, p, n, true, 1);
    assert Closed(p, 1, false).queue == multiset{1, 4};
    MarkSecond(m, Closed(p, 1, false), Counts(Plus(n.vgc, 4, 902), Plus(n.igc, 4, 58), n.isMap[5 := true]));
  }
}
