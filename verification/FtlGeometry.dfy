/** The real geometry is one the FTL model works with: grain numbers, the group that a
    pair must fit in, and the order in which a collection visits the pages of a line. */
module FtlGeometry {
  import opened Arith
  import opened Geometry
  import opened FtlLine
  import Ftl

  /** A geometry the FTL can run on: two LUNs per channel at least, three pages per LUN
      group, no more channels than pages per channel, and grain numbers below 2^31. */
  predicate Usable(g: Geo) {
    && g.Ok() && 2 <= g.luns && 1 <= g.shots && 3 <= g.PgsPerGroup()
    && 0 < g.PgsPerBlk() && 0 < g.PgsPerLun() && 0 < g.PgsPerCh()
    && g.nchs <= g.PgsPerCh() && 64 * g.TtPgs() <= 0x8000_0000
  }

  function GrainOf(g: Geo, l: nat, x: nat): nat
    requires g.Ok()
  {
    64 * Index(g, At(g, l, x / 64)) + x % 64
  }

  function LineOf(g: Geo, grain: nat): nat
    requires Usable(g)
  {
    FromIndex(g, grain / 64).blk
  }

  function PosOf(g: Geo, grain: nat): nat
    requires Usable(g)
  {
    64 * LinePos(g, FromIndex(g, grain / 64)) + grain % 64
  }

  function Numbering(g: Geo): Config
    requires Usable(g)
  {
    Config(g.blks, 64 * g.PgsPerLine(), 64 * g.PgsPerGroup(), g.shots * g.luns,
           (l, x) => GrainOf(g, l, x), grain => LineOf(g, grain), grain => PosOf(g, grain))
  }

  /** A grain number determines the line and the position in it. */
  lemma GrainRoundTrip(g: Geo, l: nat, x: nat)
    requires Usable(g) && l < g.blks && x < 64 * g.PgsPerLine()
    ensures LineOf(g, GrainOf(g, l, x)) == l && PosOf(g, GrainOf(g, l, x)) == x && GrainOf(g, l, x) < 0x8000_0000
  {
    var k := x / 64;
    var p := At(g, l, k);
    AtInDevice(g, l, k);
    PosOfAt(g, l, k);
    AtBlk(g, l, k);
    IndexRoundTrip(g, p);
    RoundTripIff(g);
    hide At, LinePos, Index, FromIndex, Geo.TtPgs, Geo.PgsPerLine;
    assert GrainOf(g, l, x) / 64 == Index(g, p) && GrainOf(g, l, x) % 64 == x % 64;
  }

  lemma GroupsFill(g: Geo)
    requires 1 <= g.luns && 1 <= g.shots
    ensures (g.shots * g.luns) * (64 * g.PgsPerGroup()) == 64 * g.PgsPerLine() && 1 <= g.shots * g.luns
  {
    Multiples(1, g.shots, g.luns);
    var a, b := g.shots * g.luns, g.nchs * g.perShot;
    assert a * g.nchs * g.perShot == a * b;
    assert a * (64 * b) == 64 * (a * b);
  }

  lemma WholePages(n: nat)
    ensures (64 * n) % 64 == 0
  {
  }

  lemma NumberingOk(g: Geo)
    requires Usable(g)
    ensures Numbering(g).Ok()
  {
    var c := Numbering(g);
    GroupsFill(g);
    hide GrainOf, LineOf, PosOf, Geo.PgsPerLine, Geo.PgsPerGroup, Geo.PgsPerBlk, Geo.PgsPerCh, Geo.PgsPerLun, Geo.TtPgs;
    WholePages(g.PgsPerLine());
    WholePages(g.PgsPerGroup());
    forall l: nat, x: nat | l < c.lines && x < c.size
      ensures c.lineOf(c.grainOf(l, x)) == l && c.posOf(c.grainOf(l, x)) == x && c.grainOf(l, x) < 0x8000_0000
    {
      GrainRoundTrip(g, l, x);
    }
  }

  /** `enough_space_in_line` is the test of the FTL model: with the grains of the line up
      to the page and offset in use, it accepts a pair that fits before the last page of
      the LUN group. */
  method SpaceIsFits(g: Geo, p: Ppa, off: nat, len: nat) returns (ok: bool)
    requires g.Ok() && 2 <= g.luns && InDevice(g, p) && off < 64 && 0 < len
    ensures ok <==> Ftl.Fits(64 * LinePos(g, p) + off, 64 * GroupEndAt(g, p), len)
  {
    hide Geo.PgsPerGroup, LinePos, InGroup, GroupEndAt, InDevice;
    var had;
    ok, had := SpaceFrom(g, p, off, len);
    GroupAhead(g, p);
  }

  lemma GroupAhead(g: Geo, p: Ppa)
    requires g.Ok() && InDevice(g, p)
    ensures LinePos(g, p) + g.PgsPerGroup() == GroupEndAt(g, p) + InGroup(g, p)
  {
    GroupOfPos(g, p);
    hide LinePos, InGroup;
    NextMultiple(GroupNumber(g, p), g.PgsPerGroup());
  }

  /** The LUN group of a page, and the first position after it. */
  function GroupNumber(g: Geo, p: Ppa): nat
    requires g.Ok()
  {
    p.pg / g.perShot * g.luns + p.lun
  }

  function GroupEndAt(g: Geo, p: Ppa): nat
    requires g.Ok()
  {
    (GroupNumber(g, p) + 1) * g.PgsPerGroup()
  }

  lemma NextMultiple(a: nat, n: nat)
    ensures (a + 1) * n == a * n + n
  {
  }

  // ----- the order of a collection -----

  /** The page that a collection visits n-th: flash pages first, then channels, LUNs and
      the pages of the flash page. */
  function Visited(g: Geo, f: nat, ch: nat, lun: nat, i: nat): Ppa {
    Ppa(ch, lun, 0, f * g.perFlash + i)
  }

  /** Its rank. */
  function Rank(g: Geo, f: nat, ch: nat, lun: nat, i: nat): nat {
    ((f * g.nchs + ch) * g.luns + lun) * g.perFlash + i
  }

  /** The page at a rank. */
  function AtRank(g: Geo, n: nat): Ppa
    requires g.Ok()
  {
    var r: nat := n / g.perFlash;
    var s: nat := r / g.luns;
    Visited(g, s / g.nchs, s % g.nchs, r % g.luns, n % g.perFlash)
  }

  /** The positions of the pages of a line in the order of a collection. */
  ghost function OrderOf(g: Geo): seq<nat>
    requires g.Ok()
  {
    seq(Rank(g, g.flashes, 0, 0, 0), n requires 0 <= n => LinePos(g, AtRank(g, n)))
  }

  lemma AtRankOf(g: Geo, f: nat, ch: nat, lun: nat, i: nat)
    requires g.Ok() && ch < g.nchs && lun < g.luns && i < g.perFlash
    ensures AtRank(g, Rank(g, f, ch, lun, i)) == Visited(g, f, ch, lun, i)
  {
    var s: nat := f * g.nchs + ch;
    var r: nat := s * g.luns + lun;
    var n: nat := r * g.perFlash + i;
    assert Rank(g, f, ch, lun, i) == n;
    hide Rank;
    Split(n, r, i, g.perFlash);
    Split(r, s, lun, g.luns);
    Split(s, f, ch, g.nchs);
  }

  lemma Split(x: nat, a: nat, b: nat, n: nat)
    requires x == a * n + b && b < n
    ensures x / n == a && x % n == b
  {
    DivMod(a, b, n);
  }

  /** The positions of the pages in the order of `do_gc`. */
  method VisitOrder(g: Geo) returns (order: seq<nat>)
    requires g.Ok()
    ensures |order| == Rank(g, g.flashes, 0, 0, 0)
    ensures forall n :: 0 <= n < |order| ==> order[n] == LinePos(g, AtRank(g, n))
    ensures order == OrderOf(g)
  {
    hide LinePos, AtRank, Rank, Visited;
    order := [];
    RankEnds(g, 0, 0, 0);
    for f := 0 to g.flashes
      invariant |order| == Rank(g, f, 0, 0, 0)
      invariant forall n :: 0 <= n < |order| ==> order[n] == LinePos(g, AtRank(g, n))
    {
      for ch := 0 to g.nchs
        invariant |order| == Rank(g, f, ch, 0, 0)
        invariant forall n :: 0 <= n < |order| ==> order[n] == LinePos(g, AtRank(g, n))
      {
        for lun := 0 to g.luns
          invariant |order| == Rank(g, f, ch, lun, 0)
          invariant forall n :: 0 <= n < |order| ==> order[n] == LinePos(g, AtRank(g, n))
        {
          for i := 0 to g.perFlash
            invariant |order| == Rank(g, f, ch, lun, i)
            invariant forall n :: 0 <= n < |order| ==> order[n] == LinePos(g, AtRank(g, n))
          {
            AtRankOf(g, f, ch, lun, i);
            order := order + [LinePos(g, Visited(g, f, ch, lun, i))];
            RankNext(g, f, ch, lun, i);
          }
          RankEnds(g, f, ch, lun);
        }
        RankEnds(g, f, ch, 0);
      }
      RankEnds(g, f, 0, 0);
    }
  }

  lemma RankNext(g: Geo, f: nat, ch: nat, lun: nat, i: nat)
    ensures Rank(g, f, ch, lun, i + 1) == Rank(g, f, ch, lun, i) + 1
  {
  }

  lemma RankEnds(g: Geo, f: nat, ch: nat, lun: nat)
    ensures Rank(g, 0, 0, 0, 0) == 0
    ensures Rank(g, f, ch, lun, g.perFlash) == Rank(g, f, ch, lun + 1, 0)
    ensures Rank(g, f, ch, g.luns, 0) == Rank(g, f, ch + 1, 0, 0)
    ensures Rank(g, f, g.nchs, 0, 0) == Rank(g, f + 1, 0, 0, 0)
  {
    var s := f * g.nchs + ch;
    var r := s * g.luns + lun;
    assert (r + 1) * g.perFlash == r * g.perFlash + g.perFlash;
    assert (s + 1) * g.luns == s * g.luns + g.luns;
    assert (f + 1) * g.nchs == f * g.nchs + g.nchs;
  }

  /** The page at a rank has that rank, and every page has a rank. */
  lemma RankDigits(g: Geo, n: nat) returns (f: nat, ch: nat, lun: nat, i: nat)
    requires g.Ok() && n < Rank(g, g.flashes, 0, 0, 0)
    ensures f < g.flashes && ch < g.nchs && lun < g.luns && i < g.perFlash && n == Rank(g, f, ch, lun, i)
    ensures AtRank(g, n) == Visited(g, f, ch, lun, i)
  {
    var r: nat := n / g.perFlash;
    var s: nat := r / g.luns;
    f, ch, lun, i := s / g.nchs, s % g.nchs, r % g.luns, n % g.perFlash;
    DigitsOf(n, g.perFlash);
    DigitsOf(r, g.luns);
    DigitsOf(s, g.nchs);
    QuotientBound(n, g.perFlash, (g.flashes * g.nchs) * g.luns);
    QuotientBound(r, g.luns, g.flashes * g.nchs);
    QuotientBound(s, g.nchs, g.flashes);
  }

  /** The first page of the flash page of a page. */
  function FlashPage(g: Geo, p: Ppa): (first: nat)
    requires g.Ok()
    ensures first <= p.pg < first + g.perFlash && first % g.perFlash == 0
  {
    DigitsOf(p.pg, g.perFlash);
    Split(p.pg / g.perFlash * g.perFlash, p.pg / g.perFlash, 0, g.perFlash);
    p.pg / g.perFlash * g.perFlash
  }

  /** The page that is visited next is the next page of the flash page, and after its last one
      the first page of the same flash page on the next LUN, of the next channel, or of the
      next flash page. */
  lemma VisitedNext(g: Geo, n: nat)
    requires g.Ok() && n + 1 < Rank(g, g.flashes, 0, 0, 0)
    ensures var p, q := AtRank(g, n), AtRank(g, n + 1);
            var first := FlashPage(g, p);
            if p.pg + 1 < first + g.perFlash then q == p.(pg := p.pg + 1)
            else if p.lun + 1 < g.luns then q == p.(lun := p.lun + 1, pg := first)
            else if p.ch + 1 < g.nchs then q == p.(lun := 0, ch := p.ch + 1, pg := first)
            else q == p.(lun := 0, ch := 0, pg := p.pg + 1)
    ensures AtRank(g, 0) == Ppa(0, 0, 0, 0)
  {
    AtRankOf(g, 0, 0, 0, 0);
    var f, ch, lun, i := RankDigits(g, n);
    var pg := f * g.perFlash + i;
    assert (f + 1) * g.perFlash == f * g.perFlash + g.perFlash;
    RankNext(g, f, ch, lun, i);
    RankEnds(g, f, ch, lun);
    Split(pg, f, i, g.perFlash);
    hide AtRank, Rank;
    if i + 1 < g.perFlash {
      AtRankOf(g, f, ch, lun, i + 1);
    } else {
      if lun + 1 < g.luns {
        AtRankOf(g, f, ch, lun + 1, 0);
      } else if ch + 1 < g.nchs {
        AtRankOf(g, f, ch + 1, 0, 0);
      } else {
        AtRankOf(g, f + 1, 0, 0, 0);
      }
    }
  }

  lemma VisitedInDevice(g: Geo, f: nat, ch: nat, lun: nat, i: nat)
    requires g.Ok() && f < g.flashes && ch < g.nchs && lun < g.luns && i < g.perFlash
    ensures InDevice(g, Visited(g, f, ch, lun, i))
  {
    DigitBound(f, i, g.perFlash, g.flashes);
    assert g.flashes * g.perFlash == g.PgsPerBlk();
  }

  lemma RankOfPage(g: Geo, p: Ppa) returns (n: nat)
    requires g.Ok() && InDevice(g, p) && p.blk == 0
    ensures n < Rank(g, g.flashes, 0, 0, 0) && AtRank(g, n) == p
  {
    var f: nat, i: nat := p.pg / g.perFlash, p.pg % g.perFlash;
    DigitsOf(p.pg, g.perFlash);
    assert g.PgsPerBlk() == g.flashes * g.perFlash;
    QuotientBound(p.pg, g.perFlash, g.flashes);
    n := Rank(g, f, p.ch, p.lun, i);
    AtRankOf(g, f, p.ch, p.lun, i);
    DigitBound(f, p.ch, g.nchs, g.flashes);
    DigitBound(f * g.nchs + p.ch, p.lun, g.luns, g.flashes * g.nchs);
    DigitBound((f * g.nchs + p.ch) * g.luns + p.lun, i, g.perFlash, g.flashes * g.nchs * g.luns);
  }

  /** A collection visits every page of its line exactly once. */
  lemma OrderCovers(g: Geo, order: seq<nat>)
    requires g.Ok() && |order| == Rank(g, g.flashes, 0, 0, 0)
    requires forall n :: 0 <= n < |order| ==> order[n] == LinePos(g, AtRank(g, n))
    ensures Ftl.CoversPages(order, 64 * g.PgsPerLine())
  {
    hide LinePos, AtRank, Rank, InDevice, At, Geo.PgsPerLine, Visited;
    forall j | 0 <= j < |order|
      ensures 64 * order[j] + 64 <= 64 * g.PgsPerLine()
    {
      var p := PageAtRank(g, j);
      AtOfPos(g, p);
    }
    forall i, j | 0 <= i < j < |order|
      ensures order[i] != order[j]
    {
      RanksDiffer(g, i, j);
    }
    forall k: nat | 64 * k + 64 <= 64 * g.PgsPerLine()
      ensures k in order
    {
      AtInDevice(g, 0, k);
      PosOfAt(g, 0, k);
      AtBlk(g, 0, k);
      var n := RankOfPage(g, At(g, 0, k));
      assert order[n] == k;
    }
  }

  lemma PageAtRank(g: Geo, n: nat) returns (p: Ppa)
    requires g.Ok() && n < Rank(g, g.flashes, 0, 0, 0)
    ensures p == AtRank(g, n) && InDevice(g, p) && p.blk == 0
  {
    var f, ch, lun, i := RankDigits(g, n);
    VisitedInDevice(g, f, ch, lun, i);
    p := AtRank(g, n);
  }

  lemma RanksDiffer(g: Geo, n: nat, m: nat)
    requires g.Ok() && n < m < Rank(g, g.flashes, 0, 0, 0)
    ensures LinePos(g, AtRank(g, n)) != LinePos(g, AtRank(g, m))
  {
    var p := PageAtRank(g, n);
    var q := PageAtRank(g, m);
    AtOfPos(g, p);
    AtOfPos(g, q);
    var f, ch, lun, i := RankDigits(g, n);
    var f', ch', lun', i' := RankDigits(g, m);
    hide LinePos, AtRank, Rank, InDevice, At, Geo.PgsPerLine;
    if p == q {
      SameDigits(f, i, f', i', g.perFlash);
    }
  }
}
