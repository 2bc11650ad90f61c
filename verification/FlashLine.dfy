/** The contents of one line (superblock) of flash: the pairs packed into it, the OOB
    words that describe them to garbage collection, and the grain accounting.

    Grains of a line are numbered in write order, 64 to a page. Where the pages lie on
    channels and LUNs is the business of module Geometry. */
module FlashLine {
  import opened Types

  // ----- OOB words -----

  /** `((uint64_t) glen << 32) | lpa`. */
  function Header(lpa: nat, len: nat): nat {
    len * 0x1_0000_0000 + lpa
  }

  /** `__lpa_from_oob`. */
  function LpaOf(w: nat): nat {
    w % 0x1_0000_0000
  }

  /** `__glen_from_oob`. */
  function LenOf(w: nat): nat {
    w / 0x1_0000_0000
  }

  lemma HeaderRoundTrip(lpa: nat, len: nat)
    requires lpa < UINT_MAX && 0 < len
    ensures LpaOf(Header(lpa, len)) == lpa && LenOf(Header(lpa, len)) == len
    ensures Header(lpa, len) > UINT_MAX
  {
  }

  // ----- segments -----

  /** What a run of grains was used for: a pair, or filler that was cleared. Filler is
      marked in the OOB area, but for page 0 of the device, which is never used. */
  datatype Kind = Pair(lpa: nat) | Gap(marked: bool)

  datatype Seg = Seg(start: nat, len: nat, kind: Kind) {
    function End(): nat {
      start + len
    }
  }

  /** The segments follow each other from grain 0 up to `fill`. */
  ghost predicate Chain(segs: seq<Seg>, fill: nat) {
    && (forall i :: 0 <= i < |segs| ==> segs[i].len > 0)
    && (forall i :: 0 <= i < |segs| - 1 ==> segs[i].End() == segs[i + 1].start)
    && (segs != [] ==> segs[0].start == 0 && segs[|segs| - 1].End() == fill)
    && (segs == [] ==> fill == 0)
  }

  lemma {:induction false} ChainOrdered(segs: seq<Seg>, fill: nat, i: nat, j: nat)
    requires Chain(segs, fill) && i < j < |segs|
    ensures segs[i].End() <= segs[j].start
    decreases j
  {
    if i < j - 1 {
      ChainOrdered(segs, fill, i, j - 1);
    }
  }

  lemma ChainBound(segs: seq<Seg>, fill: nat, i: nat)
    requires Chain(segs, fill) && i < |segs|
    ensures segs[i].End() <= fill
  {
    if i < |segs| - 1 {
      ChainOrdered(segs, fill, i, |segs| - 1);
    }
  }

  /** Every grain below `fill` lies in a segment. */
  lemma {:induction false} SegAt(segs: seq<Seg>, fill: nat, x: nat) returns (i: nat)
    requires Chain(segs, fill) && x < fill
    ensures i < |segs| && segs[i].start <= x < segs[i].End()
  {
    i := |segs| - 1;
    while segs[i].start > x
      invariant i < |segs| && x < segs[i].End()
    {
      i := i - 1;
    }
  }

  lemma ChainAppend(segs: seq<Seg>, fill: nat, len: nat, kind: Kind)
    requires Chain(segs, fill) && len > 0
    ensures Chain(segs + [Seg(fill, len, kind)], fill + len)
  {
  }

  // ----- how the OOB area describes segments -----

  /** Page `k` starts inside a pair that ends at `end`: it says how many grains to skip. */
  ghost predicate Continues(oob: seq<nat>, k: nat, end: nat) {
    && 64 * k + 63 < |oob|
    && 64 * k < end
    && var sz := if end - 64 * k < 64 then end - 64 * k else 64;
       if sz == 1 then oob[64 * k] == UINT_MAX - 11
       else oob[64 * k] == UINT_MAX - 10 && oob[64 * k + 1] == sz
  }

  ghost predicate PairWords(oob: seq<nat>, start: nat, len: nat, lpa: nat) {
    && start < |oob| && oob[start] == Header(lpa, len)
    && forall k: nat :: start < 64 * k < start + len ==> Continues(oob, k, start + len)
  }

  ghost predicate GapWords(oob: seq<nat>, start: nat, len: nat) {
    start + len <= |oob| && forall x :: start <= x < start + len ==> oob[x] == UINT_MAX
  }

  ghost predicate Described(oob: seq<nat>, s: Seg) {
    match s.kind
    case Pair(lpa) => lpa < UINT_MAX && PairWords(oob, s.start, s.len, lpa)
    case Gap(marked) => s.End() % 64 == 0 && (marked ==> GapWords(oob, s.start, s.len))
  }

  ghost predicate AllDescribed(oob: seq<nat>, segs: seq<Seg>) {
    |oob| % 64 == 0 && forall i :: 0 <= i < |segs| ==> Described(oob, segs[i])
  }

  /** Segments are described by their own words only. */
  lemma DescribedLocally(oob: seq<nat>, oob': seq<nat>, s: Seg)
    requires Described(oob, s) && s.len > 0 && |oob'| == |oob| && s.End() <= |oob|
    requires forall x :: s.start <= x < s.End() ==> oob'[x] == oob[x]
    ensures Described(oob', s)
  {
    if s.kind.Pair? {
      forall k: nat | s.start < 64 * k < s.End()
        ensures Continues(oob', k, s.End())
      {
        assert Continues(oob, k, s.End());
      }
    }
  }

  /** Say on page `k` how many of its first grains belong to the pair that ends at `end`. */
  function Continue(oob: seq<nat>, k: nat, sz: nat): (r: seq<nat>)
    requires 64 * k + 63 < |oob| && 1 <= sz <= 64
    ensures |r| == |oob|
    ensures forall x :: 0 <= x < |oob| && !(64 * k <= x < 64 * k + sz) ==> r[x] == oob[x]
  {
    if sz == 1 then oob[64 * k := UINT_MAX - 11]
    else oob[64 * k := UINT_MAX - 10][64 * k + 1 := sz]
  }

  /** The pages before page `k` that start inside the pair say so. */
  ghost predicate ContinuesUpTo(oob: seq<nat>, start: nat, end: nat, k: nat) {
    forall c: nat :: start < 64 * c < 64 * k ==> Continues(oob, c, end)
  }

  lemma ContinuesNone(oob: seq<nat>, start: nat, end: nat)
    ensures ContinuesUpTo(oob, start, end, start / 64 + 1)
  {
  }

  lemma AllContinue(oob: seq<nat>, start: nat, len: nat, lpa: nat, k: nat)
    requires start < |oob| && oob[start] == Header(lpa, len)
    requires ContinuesUpTo(oob, start, start + len, k) && start + len <= 64 * k
    ensures PairWords(oob, start, len, lpa)
  {
  }

  lemma ContinuesNext(oob: seq<nat>, r: seq<nat>, start: nat, end: nat, k: nat)
    requires |r| == |oob| && forall x :: 0 <= x < 64 * k ==> x < |oob| && r[x] == oob[x]
    requires ContinuesUpTo(oob, start, end, k) && Continues(r, k, end)
    ensures ContinuesUpTo(r, start, end, k + 1)
  {
    forall c: nat | start < 64 * c < 64 * (k + 1)
      ensures Continues(r, c, end)
    {
      if c < k {
        assert Continues(oob, c, end);
      }
    }
  }

  /** The OOB part of a store or of a GC copy: the header at the first grain, and on
      every further page the number of grains that belong to the pair. */
  method WriteOob(oob: seq<nat>, start: nat, len: nat, lpa: nat) returns (r: seq<nat>)
    requires |oob| % 64 == 0 && 0 < len && start + len <= |oob|
    ensures |r| == |oob| && PairWords(r, start, len, lpa)
    ensures forall x :: 0 <= x < |oob| && !(start <= x < start + len) ==> r[x] == oob[x]
  {
    hide ContinuesUpTo, Header;
    r := oob[start := Header(lpa, len)];
    var off := start % 64;
    var rem, k := 0, start / 64 + 1;
    if off + len > 64 {
      rem := len - (64 - off);
    }
    ContinuesNone(r, start, start + len);
    while rem > 0
      invariant |r| == |oob| && start < 64 * k && 0 <= rem
      invariant rem > 0 ==> 64 * k + rem == start + len
      invariant rem == 0 ==> start + len <= 64 * k
      invariant r[start] == Header(lpa, len)
      invariant ContinuesUpTo(r, start, start + len, k)
      invariant forall x :: 0 <= x < |oob| && !(start <= x < start + len) ==> r[x] == oob[x]
      decreases rem
    {
      var sz := if rem < 64 then rem else 64;
      ghost var before := r;
      r := Continue(r, k, sz);
      ContinuesNext(before, r, start, start + len, k);
      rem, k := rem - sz, k + 1;
    }
    AllContinue(r, start, len, lpa, k);
  }

  // ----- what garbage collection reads back -----

  /** The pairs whose first grain lies in [lo, hi), in order. */
  ghost function StartsIn(segs: seq<Seg>, lo: nat, hi: nat): seq<Seg> {
    if segs == [] then []
    else
      var s := segs[|segs| - 1];
      StartsIn(segs[..|segs| - 1], lo, hi) + if s.kind.Pair? && lo <= s.start < hi then [s] else []
  }

  lemma StartsNext(segs: seq<Seg>, n: nat, lo: nat, hi: nat)
    requires n < |segs|
    ensures StartsIn(segs[..n + 1], lo, hi) == StartsIn(segs[..n], lo, hi) + if segs[n].kind.Pair? && lo <= segs[n].start < hi then [segs[n]] else []
  {
    assert segs[..n + 1][..n] == segs[..n];
  }

  /** Nothing that starts outside [lo, hi) matters. */
  lemma {:induction false} StartsSame(segs: seq<Seg>, n: nat, m: nat, lo: nat, hi: nat)
    requires n <= m <= |segs|
    requires forall i :: n <= i < m ==> !(lo <= segs[i].start < hi)
    ensures StartsIn(segs[..m], lo, hi) == StartsIn(segs[..n], lo, hi)
  {
    if n < m {
      StartsSame(segs, n, m - 1, lo, hi);
      StartsNext(segs, m - 1, lo, hi);
    }
  }

  lemma {:induction false} StartsMembers(segs: seq<Seg>, lo: nat, hi: nat, s: Seg)
    ensures s in StartsIn(segs, lo, hi) <==> s in segs && s.kind.Pair? && lo <= s.start < hi
  {
    if segs != [] {
      StartsMembers(segs[..|segs| - 1], lo, hi, s);
      assert segs == segs[..|segs| - 1] + [segs[|segs| - 1]];
    }
  }

  lemma StartsBefore(segs: seq<Seg>, fill: nat, n: nat, lo: nat, hi: nat)
    requires Chain(segs, fill) && n < |segs| && segs[n].start <= lo
    ensures StartsIn(segs[..n], lo, hi) == []
  {
    forall i | 0 <= i < n
      ensures segs[i].start < lo
    {
      ChainOrdered(segs, fill, i, n);
    }
    StartsSame(segs, 0, n, lo, hi);
  }

  lemma StartsAfter(segs: seq<Seg>, fill: nat, n: nat, lo: nat, hi: nat)
    requires Chain(segs, fill) && n < |segs| && hi <= segs[n].End()
    ensures StartsIn(segs, lo, hi) == StartsIn(segs[..n + 1], lo, hi)
  {
    hide Chain, StartsIn;
    forall i | n + 1 <= i < |segs|
      ensures hi <= segs[i].start
    {
      ChainOrdered(segs, fill, n, i);
    }
    StartsSame(segs, n + 1, |segs|, lo, hi);
    assert segs[..|segs|] == segs;
  }

  /** No grain of page `k` belongs to filler without marks. */
  ghost predicate Readable(segs: seq<Seg>, k: nat) {
    forall i :: 0 <= i < |segs| && segs[i].kind == Gap(false) ==> segs[i].End() <= 64 * k || 64 * k + 64 <= segs[i].start
  }

  /** What the scan sees at grain `y`: a header exactly where a pair starts, the length
      of the continuation where a pair comes in from the page before, or filler. */
  lemma Sees(oob: seq<nat>, segs: seq<Seg>, fill: nat, k: nat, n: nat, y: nat)
    requires Chain(segs, fill) && fill <= |oob| && AllDescribed(oob, segs) && Readable(segs, k)
    requires n < |segs| && 64 * k <= y < 64 * k + 64 <= |oob|
    requires segs[n].start <= y < segs[n].End() && (y == segs[n].start || y == 64 * k)
    ensures var s := segs[n]; var w := oob[y];
            && (s.kind.Gap? ==> w == UINT_MAX && 64 * k + 64 <= s.End())
            && (s.kind.Pair? && y == s.start ==> w == Header(s.kind.lpa, s.len) && s.kind.lpa < UINT_MAX)
            && (s.kind.Pair? && y != s.start ==> y == 64 * k && Continues(oob, k, s.End()))
  {
    assert Described(oob, segs[n]);
    if segs[n].kind.Gap? {
      assert segs[n].End() > 64 * k && segs[n].End() % 64 == 0;
    }
  }

  /** The scan of one page by `clean_one_flashpg`. It finds the header of every pair that
      starts on the page, once and in order, and takes nothing else for a header. */
  method ScanPage(oob: seq<nat>, k: nat, ghost segs: seq<Seg>, ghost fill: nat) returns (found: seq<Seg>)
    requires Chain(segs, fill) && fill <= |oob| && AllDescribed(oob, segs)
    requires 64 * k + 64 <= fill && Readable(segs, k)
    ensures found == StartsIn(segs, 64 * k, 64 * k + 64)
  {
    hide AllDescribed, Readable, Chain;
    found := [];
    var i := 0;
    ghost var lo, hi := 64 * k, 64 * k + 64;
    ghost var n: nat := SegAt(segs, fill, lo);
    StartsBefore(segs, fill, n, lo, hi);
    while i < 64
      invariant i < 64 ==> n < |segs| && segs[n].start <= lo + i < segs[n].End() && (lo + i == segs[n].start || i == 0)
      invariant i < 64 ==> found == StartsIn(segs[..n], lo, hi)
      invariant i >= 64 ==> found == StartsIn(segs, lo, hi)
      decreases 64 - i
    {
      Sees(oob, segs, fill, k, n, lo + i);
      StartsNext(segs, n, lo, hi);
      if segs[n].End() < hi {
        NextSeg(segs, fill, n);
      } else {
        StartsAfter(segs, fill, n, lo, hi);
      }
      var w := oob[64 * k + i];
      if w == UINT_MAX - 11 {
        i := i + 1;
      } else if w == UINT_MAX - 10 {
        i := i + oob[64 * k + 1];
      } else if w == UINT_MAX {
        i := i + 64 + 1;
      } else {
        HeaderRoundTrip(segs[n].kind.lpa, segs[n].len);
        found := found + [Seg(64 * k + i, LenOf(w), Pair(LpaOf(w)))];
        i := i + LenOf(w);
      }
      if i < 64 {
        n := n + 1;
      }
    }
  }

  lemma NextSeg(segs: seq<Seg>, fill: nat, n: nat)
    requires Chain(segs, fill) && n < |segs| && segs[n].End() < fill
    ensures n + 1 < |segs| && segs[n + 1].start == segs[n].End() && segs[n + 1].len > 0
  {
  }

  // ----- grain accounting -----

  /** How many grains of [lo, hi) are marked in `d`. */
  ghost function Count(d: seq<bool>, lo: nat, hi: nat): nat
    requires lo <= hi <= |d|
    decreases hi
  {
    if lo == hi then 0 else Count(d, lo, hi - 1) + if d[hi - 1] then 1 else 0
  }

  lemma {:induction false} CountBound(d: seq<bool>, lo: nat, hi: nat)
    requires lo <= hi <= |d|
    ensures Count(d, lo, hi) <= hi - lo
    ensures Count(d, lo, hi) == hi - lo ==> forall x :: lo <= x < hi ==> d[x]
    decreases hi
  {
    if lo < hi {
      CountBound(d, lo, hi - 1);
    }
  }

  lemma {:induction false} CountNone(d: seq<bool>, lo: nat, hi: nat)
    requires lo <= hi <= |d| && forall x :: lo <= x < hi ==> !d[x]
    ensures Count(d, lo, hi) == 0
    decreases hi
  {
    if lo < hi {
      CountNone(d, lo, hi - 1);
    }
  }

  lemma {:induction false} CountSplit(d: seq<bool>, lo: nat, mid: nat, hi: nat)
    requires lo <= mid <= hi <= |d|
    ensures Count(d, lo, hi) == Count(d, lo, mid) + Count(d, mid, hi)
    decreases hi
  {
    if mid < hi {
      CountSplit(d, lo, mid, hi - 1);
    }
  }

  lemma {:induction false} CountSame(d: seq<bool>, d': seq<bool>, lo: nat, hi: nat)
    requires lo <= hi <= |d| && hi <= |d'| && forall x :: lo <= x < hi ==> d'[x] == d[x]
    ensures Count(d', lo, hi) == Count(d, lo, hi)
    decreases hi
  {
    if lo < hi {
      CountSame(d, d', lo, hi - 1);
    }
  }

  lemma {:induction false} CountAll(d: seq<bool>, lo: nat, hi: nat)
    requires lo <= hi <= |d| && forall x :: lo <= x < hi ==> d[x]
    ensures Count(d, lo, hi) == hi - lo
    decreases hi
  {
    if lo < hi {
      CountAll(d, lo, hi - 1);
    }
  }

  /** `d` with the grains of [a, b) marked. */
  ghost function Kill(d: seq<bool>, a: nat, b: nat): (r: seq<bool>)
    ensures |r| == |d| && forall x :: 0 <= x < |d| ==> r[x] == (d[x] || a <= x < b)
  {
    seq(|d|, x requires 0 <= x < |d| => d[x] || a <= x < b)
  }

  lemma CountKill(d: seq<bool>, a: nat, b: nat, lo: nat, hi: nat)
    requires lo <= a <= b <= hi <= |d| && forall x :: a <= x < b ==> !d[x]
    ensures Count(Kill(d, a, b), lo, hi) == Count(d, lo, hi) + (b - a)
  {
    var r := Kill(d, a, b);
    CountSplit(d, lo, a, hi);
    CountSplit(d, a, b, hi);
    CountSplit(r, lo, a, hi);
    CountSplit(r, a, b, hi);
    CountSame(d, r, lo, a);
    CountSame(d, r, b, hi);
    CountNone(d, a, b);
    CountAll(r, a, b);
  }

  /** The counters of a line, its pages' counts of invalid grains and its OOB words.
      `fill` is the number of grains marked valid since the last erase. */
  datatype Line = Line(oob: seq<nat>, fill: nat, vgc: int, igc: int, inv: seq<nat>)

  ghost predicate PagesCounted(inv: seq<nat>, dead: seq<bool>) {
    |dead| == 64 * |inv| && forall k :: 0 <= k < |inv| ==> inv[k] == Count(dead, 64 * k, 64 * k + 64)
  }

  /** `vgc + igc` are the grains marked valid since the last erase, `igc` those of them
      marked invalid since, and each page knows its share. */
  ghost predicate Counted(l: Line, dead: seq<bool>) {
    && |dead| == |l.oob| && l.fill <= |dead|
    && PagesCounted(l.inv, dead)
    && (forall x :: l.fill <= x < |dead| ==> !dead[x])
    && l.igc == Count(dead, 0, l.fill)
    && l.vgc + l.igc == l.fill
  }

  lemma PageKilled(inv: seq<nat>, dead: seq<bool>, k: nat, y: nat, n: nat)
    requires PagesCounted(inv, dead) && 64 * k <= y && y + n <= 64 * k + 64 && y + n <= |dead| && n > 0
    requires forall x :: y <= x < y + n ==> !dead[x]
    ensures k < |inv| && inv[k] + n <= 64
    ensures PagesCounted(inv[k := inv[k] + n], Kill(dead, y, y + n))
  {
    var r, inv' := Kill(dead, y, y + n), inv[k := inv[k] + n];
    CountKill(dead, y, y + n, 64 * k, 64 * k + 64);
    CountBound(r, 64 * k, 64 * k + 64);
    forall c | 0 <= c < |inv'|
      ensures inv'[c] == Count(r, 64 * c, 64 * c + 64)
    {
      if c != k {
        CountSame(dead, r, 64 * c, 64 * c + 64);
      }
    }
  }

  /** `mark_grain_invalid`: walk the run page by page, move its grains from valid to
      invalid and count them on their page. A page never counts past its 64 grains. */
  method MarkGrainInvalid(l: Line, start: nat, len: nat, ghost dead: seq<bool>) returns (r: Line)
    requires Counted(l, dead) && start + len <= l.fill
    requires forall x :: start <= x < start + len ==> !dead[x]
    ensures r == l.(vgc := l.vgc - len, igc := l.igc + len, inv := r.inv)
    ensures Counted(r, Kill(dead, start, start + len))
  {
    hide PagesCounted, Count;
    r := l;
    var rem, y := len, start;
    ghost var d := dead;
    while rem > 0
      invariant 0 <= rem && y + rem == start + len
      invariant d == Kill(dead, start, y)
      invariant PagesCounted(r.inv, d)
      invariant r == l.(vgc := l.vgc - (y - start), igc := l.igc + (y - start), inv := r.inv)
    {
      var n := if rem < 64 - y % 64 then rem else 64 - y % 64;
      PageKilled(r.inv, d, y / 64, y, n);
      r := r.(vgc := r.vgc - n, igc := r.igc + n, inv := r.inv[y / 64 := r.inv[y / 64] + n]);
      d := Kill(d, y, y + n);
      assert d == Kill(dead, start, y + n);
      rem, y := rem - n, y + n;
    }
    assert d == Kill(dead, start, start + len);
    CountKill(dead, start, start + len, 0, l.fill);
  }

  /** `mark_grain_valid` for each page that a run of `len` fresh grains touches. */
  method MarkGrainValid(l: Line, len: nat, ghost dead: seq<bool>) returns (r: Line)
    requires Counted(l, dead) && l.fill + len <= |l.oob|
    ensures r == l.(vgc := l.vgc + len, fill := l.fill + len)
    ensures Counted(r, dead)
  {
    hide PagesCounted, Count;
    r := l;
    var rem := len;
    while rem > 0
      invariant 0 <= rem <= len
      invariant r == l.(vgc := l.vgc + (len - rem), fill := l.fill + (len - rem))
    {
      var n := if rem < 64 - r.fill % 64 then rem else 64 - r.fill % 64;
      r := r.(vgc := r.vgc + n, fill := r.fill + n);
      rem := rem - n;
    }
    CountSplit(dead, 0, l.fill, r.fill);
    CountNone(dead, l.fill, r.fill);
  }
}
