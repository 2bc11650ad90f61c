/** Flash geometry: the order in which the write pointer visits the pages of a line, page
    numbers, and the order in which a collection visits them (demand_ftl.c, ssd.c). */
module Geometry {
  import opened Arith

  /** A page address, `struct ppa`; the device has one plane. */
  datatype Ppa = Ppa(ch: nat, lun: nat, blk: nat, pg: nat)

  /** Pages per one-shot program, channels, LUNs per channel, one-shot programs per block,
      blocks per plane, and pages per flash page. */
  datatype Geo = Geo(perShot: nat, nchs: nat, luns: nat, shots: nat, blks: nat, perFlash: nat, flashes: nat) {
    predicate Ok() {
      && 1 <= perShot && 1 <= nchs && 1 <= luns && 1 <= shots && 1 <= blks && 1 <= perFlash
      && perFlash * flashes == perShot * shots
    }

    function PgsPerBlk(): nat { perShot * shots }
    function PgsPerLun(): nat { PgsPerBlk() * blks }
    function PgsPerCh(): nat { PgsPerLun() * luns }
    function TtPgs(): nat { PgsPerCh() * nchs }

    /** Pages between two changes of LUN. */
    function PgsPerGroup(): nat { nchs * perShot }
    function PgsPerLine(): nat { (shots * luns) * nchs * perShot }
  }

  predicate InDevice(g: Geo, p: Ppa) {
    p.ch < g.nchs && p.lun < g.luns && p.blk < g.blks && p.pg < g.PgsPerBlk()
  }

  // ----- the order of a line -----

  /** The position of a page in its line: wordline, LUN, channel, page in the wordline. */
  function LinePos(g: Geo, p: Ppa): nat
    requires g.Ok()
  {
    ((p.pg / g.perShot * g.luns + p.lun) * g.nchs + p.ch) * g.perShot + p.pg % g.perShot
  }

  /** The page with given digits. */
  function Page(g: Geo, blk: nat, w: nat, lun: nat, ch: nat, q: nat): Ppa {
    Ppa(ch, lun, blk, w * g.perShot + q)
  }

  /** The page at a position of a line. */
  function At(g: Geo, line: nat, k: nat): Ppa
    requires g.Ok()
  {
    var r: nat := k / g.perShot;
    var s: nat := r / g.nchs;
    Page(g, line, s / g.luns, s % g.luns, r % g.nchs, k % g.perShot)
  }

  lemma AtInDevice(g: Geo, line: nat, k: nat)
    requires g.Ok() && line < g.blks && k < g.PgsPerLine()
    ensures InDevice(g, At(g, line, k))
  {
    var r := k / g.perShot;
    var s := r / g.nchs;
    QuotientBound(k, g.perShot, g.shots * g.luns * g.nchs);
    QuotientBound(r, g.nchs, g.shots * g.luns);
    QuotientBound(s, g.luns, g.shots);
    DigitBound(s / g.luns, k % g.perShot, g.perShot, g.shots);
    assert g.shots * g.perShot == g.perShot * g.shots;
  }

  /** Every position has its own page. */
  lemma PosOfAt(g: Geo, line: nat, k: nat)
    requires g.Ok()
    ensures LinePos(g, At(g, line, k)) == k
  {
    var r := k / g.perShot;
    var s := r / g.nchs;
    var p := At(g, line, k);
    DivMod(s / g.luns, k % g.perShot, g.perShot);
    DigitsOf(s, g.luns);
    DigitsOf(r, g.nchs);
    DigitsOf(k, g.perShot);
    assert p.pg / g.perShot * g.luns + p.lun == s;
    assert s * g.nchs + p.ch == r;
  }

  /** Every page of a line has a position. */
  lemma AtOfPos(g: Geo, p: Ppa)
    requires g.Ok() && InDevice(g, p)
    ensures At(g, p.blk, LinePos(g, p)) == p && LinePos(g, p) < g.PgsPerLine()
  {
    var w, q := p.pg / g.perShot, p.pg % g.perShot;
    var s := w * g.luns + p.lun;
    var r := s * g.nchs + p.ch;
    DigitsOf(p.pg, g.perShot);
    DivMod(r, q, g.perShot);
    DivMod(s, p.ch, g.nchs);
    DivMod(w, p.lun, g.luns);
    assert g.PgsPerBlk() == g.shots * g.perShot;
    QuotientBound(p.pg, g.perShot, g.shots);
    DigitBound(w, p.lun, g.luns, g.shots);
    DigitBound(s, p.ch, g.nchs, g.shots * g.luns);
    DigitBound(r, q, g.perShot, g.shots * g.luns * g.nchs);
  }

  /** `peek_next_page`, which is also how `advance_write_pointer` moves within a line. */
  function Next(g: Geo, p: Ppa): Ppa
    requires g.Ok()
  {
    if (p.pg + 1) % g.perShot != 0 then p.(pg := p.pg + 1)
    else
      var pg := p.pg + 1 - g.perShot;
      if p.ch + 1 != g.nchs then Ppa(p.ch + 1, p.lun, p.blk, Clip(pg))
      else if p.lun + 1 != g.luns then Ppa(0, p.lun + 1, p.blk, Clip(pg))
      else if pg + g.perShot != g.PgsPerBlk() then Ppa(0, 0, p.blk, Clip(pg + g.perShot))
      else Ppa(0, 0, p.blk + 1, 0)
  }

  function Clip(x: int): nat {
    if x < 0 then 0 else x
  }

  /** A mixed-radix number. */
  function Mixed(g: Geo, w: nat, lun: nat, ch: nat, q: nat): nat {
    ((w * g.luns + lun) * g.nchs + ch) * g.perShot + q
  }

  lemma CarryShot(g: Geo, w: nat, lun: nat, ch: nat)
    requires g.Ok()
    ensures Mixed(g, w, lun, ch, g.perShot - 1) + 1 == Mixed(g, w, lun, ch + 1, 0)
  {
    var r := (w * g.luns + lun) * g.nchs + ch;
    assert (r + 1) * g.perShot == r * g.perShot + g.perShot;
  }

  lemma CarryChannel(g: Geo, w: nat, lun: nat)
    requires g.Ok()
    ensures Mixed(g, w, lun, g.nchs, 0) == Mixed(g, w, lun + 1, 0, 0)
  {
    var s := w * g.luns + lun;
    assert (s + 1) * g.nchs == s * g.nchs + g.nchs;
  }

  lemma CarryLun(g: Geo, w: nat)
    requires g.Ok()
    ensures Mixed(g, w, g.luns, 0, 0) == Mixed(g, w + 1, 0, 0, 0)
  {
    assert (w + 1) * g.luns == w * g.luns + g.luns;
  }

  lemma MixedEnd(g: Geo)
    ensures Mixed(g, g.shots, 0, 0, 0) == g.PgsPerLine()
  {
  }

  lemma MixedNext(g: Geo, w: nat, lun: nat, ch: nat, q: nat)
    ensures Mixed(g, w, lun, ch, q + 1) == Mixed(g, w, lun, ch, q) + 1
  {
  }

  predicate Digits(g: Geo, w: nat, lun: nat, ch: nat, q: nat) {
    w < g.shots && lun < g.luns && ch < g.nchs && q < g.perShot
  }

  lemma MixedBound(g: Geo, w: nat, lun: nat, ch: nat, q: nat)
    requires g.Ok() && Digits(g, w, lun, ch, q)
    ensures Mixed(g, w, lun, ch, q) < g.PgsPerLine()
  {
    DigitBound(w, lun, g.luns, g.shots);
    DigitBound(w * g.luns + lun, ch, g.nchs, g.shots * g.luns);
    DigitBound((w * g.luns + lun) * g.nchs + ch, q, g.perShot, g.shots * g.luns * g.nchs);
  }

  lemma PosOfPage(g: Geo, blk: nat, w: nat, lun: nat, ch: nat, q: nat)
    requires g.Ok() && Digits(g, w, lun, ch, q) && blk < g.blks
    ensures InDevice(g, Page(g, blk, w, lun, ch, q))
    ensures LinePos(g, Page(g, blk, w, lun, ch, q)) == Mixed(g, w, lun, ch, q)
  {
    DivMod(w, q, g.perShot);
    DigitBound(w, q, g.perShot, g.shots);
    assert g.PgsPerBlk() == g.shots * g.perShot;
  }

  lemma PageOf(g: Geo, p: Ppa) returns (w: nat, q: nat)
    requires g.Ok() && InDevice(g, p)
    ensures Digits(g, w, p.lun, p.ch, q) && p == Page(g, p.blk, w, p.lun, p.ch, q)
  {
    w, q := p.pg / g.perShot, p.pg % g.perShot;
    DigitsOf(p.pg, g.perShot);
    assert g.PgsPerBlk() == g.shots * g.perShot;
    QuotientBound(p.pg, g.perShot, g.shots);
  }

  /** What a step does, digit by digit. */
  lemma NextInShot(g: Geo, blk: nat, w: nat, lun: nat, ch: nat, q: nat)
    requires g.Ok() && q + 1 < g.perShot
    ensures Next(g, Page(g, blk, w, lun, ch, q)) == Page(g, blk, w, lun, ch, q + 1)
  {
    DivMod(w, q + 1, g.perShot);
  }

  lemma NextAfterShot(g: Geo, blk: nat, w: nat, lun: nat, ch: nat)
    requires g.Ok() && Digits(g, w, lun, ch, 0)
    ensures Next(g, Page(g, blk, w, lun, ch, g.perShot - 1)) ==
      if ch + 1 < g.nchs then Page(g, blk, w, lun, ch + 1, 0)
      else if lun + 1 < g.luns then Page(g, blk, w, lun + 1, 0, 0)
      else if w + 1 < g.shots then Page(g, blk, w + 1, 0, 0, 0)
      else Ppa(0, 0, blk + 1, 0)
  {
    DivMod(w + 1, 0, g.perShot);
    var pg := w * g.perShot + g.perShot;
    assert pg == (w + 1) * g.perShot + 0;
    assert w * g.perShot >= 0;
    if w + 1 < g.shots {
      DigitBound(w + 1, 0, g.perShot, g.shots);
    }
    assert pg != g.PgsPerBlk() <==> w + 1 < g.shots;
  }

  /** The write pointer visits the pages of a line by position, and the step after the
      last one leads to the first page of the next line. */
  lemma NextIsNext(g: Geo, p: Ppa)
    requires g.Ok() && InDevice(g, p)
    ensures LinePos(g, p) < g.PgsPerLine()
    ensures LinePos(g, p) + 1 < g.PgsPerLine() ==>
      Next(g, p).blk == p.blk && InDevice(g, Next(g, p)) && LinePos(g, Next(g, p)) == LinePos(g, p) + 1
    ensures LinePos(g, p) + 1 == g.PgsPerLine() ==> Next(g, p) == Ppa(0, 0, p.blk + 1, 0)
  {
    var w, q := PageOf(g, p);
    var blk, lun, ch := p.blk, p.lun, p.ch;
    assert blk < g.blks;
    hide LinePos, Next, Mixed, InDevice, Geo.PgsPerLine, Page;
    PosOfPage(g, blk, w, lun, ch, q);
    MixedBound(g, w, lun, ch, q);
    if q + 1 < g.perShot {
      MixedNext(g, w, lun, ch, q);
      NextInShot(g, blk, w, lun, ch, q);
      PageAgain(g, blk, w, lun, ch, q + 1);
    } else {
      CarryShot(g, w, lun, ch);
      NextAfterShot(g, blk, w, lun, ch);
      if ch + 1 < g.nchs {
        PageAgain(g, blk, w, lun, ch + 1, 0);
      } else {
        CarryChannel(g, w, lun);
        if lun + 1 < g.luns {
          PageAgain(g, blk, w, lun + 1, 0, 0);
        } else {
          CarryLun(g, w);
          if w + 1 < g.shots {
            PageAgain(g, blk, w + 1, 0, 0, 0);
          } else {
            MixedEnd(g);
          }
        }
      }
    }
  }

  lemma PageAgain(g: Geo, blk: nat, w: nat, lun: nat, ch: nat, q: nat)
    requires g.Ok() && Digits(g, w, lun, ch, q) && blk < g.blks
    ensures var p := Page(g, blk, w, lun, ch, q);
            InDevice(g, p) && p.blk == blk && LinePos(g, p) == Mixed(g, w, lun, ch, q) < g.PgsPerLine()
  {
    PosOfPage(g, blk, w, lun, ch, q);
    MixedBound(g, w, lun, ch, q);
  }

  /** `k` steps of `peek_next_page`. */
  function Walk(g: Geo, p: Ppa, k: nat): Ppa
    requires g.Ok()
  {
    if k == 0 then p else Next(g, Walk(g, p, k - 1))
  }

  /** The walk from the first page of a line visits the page of every position in turn, so
      all pages once, and then leaves for the next line. */
  lemma {:induction false} WalkEnumerates(g: Geo, line: nat, k: nat)
    requires g.Ok() && line < g.blks && k <= g.PgsPerLine() && 0 < g.PgsPerLine()
    ensures k < g.PgsPerLine() ==> Walk(g, Ppa(0, 0, line, 0), k) == At(g, line, k)
    ensures k == g.PgsPerLine() ==> Walk(g, Ppa(0, 0, line, 0), k) == Ppa(0, 0, line + 1, 0)
  {
    hide Next, LinePos, At, InDevice, Geo.PgsPerLine;
    if k == 0 {
      AtFirst(g, line);
    } else {
      WalkEnumerates(g, line, k - 1);
      var p := At(g, line, k - 1);
      AtInDevice(g, line, k - 1);
      PosOfAt(g, line, k - 1);
      AtBlk(g, line, k - 1);
      NextIsNext(g, p);
      if k < g.PgsPerLine() {
        AtOfPos(g, Next(g, p));
      }
    }
  }

  lemma AtFirst(g: Geo, line: nat)
    requires g.Ok()
    ensures At(g, line, 0) == Ppa(0, 0, line, 0)
  {
    DivMod(0, 0, g.perShot);
    DivMod(0, 0, g.nchs);
    DivMod(0, 0, g.luns);
  }

  lemma AtBlk(g: Geo, line: nat, k: nat)
    requires g.Ok()
    ensures At(g, line, k).blk == line
  {
  }

  /** `advance_write_pointer`: the pointer moves like `peek_next_page` inside its line, and
      after the last page it goes to the first page of the free line it is given. */
  class WritePointer {
    const g: Geo
    var ch: nat
    var lun: nat
    var pg: nat
    var blk: nat

    ghost function At(): Ppa
      reads this
    {
      Ppa(ch, lun, blk, pg)
    }

    ghost predicate Valid()
      reads this
    {
      g.Ok() && InDevice(g, At())
    }

    constructor (g: Geo, line: nat)
      requires g.Ok() && line < g.blks && 0 < g.PgsPerBlk()
      ensures Valid() && At() == Ppa(0, 0, line, 0) && this.g == g
    {
      this.g, ch, lun, pg, blk := g, 0, 0, 0, line;
    }

    method Advance(spare: nat) returns (closed: bool)
      requires Valid() && spare < g.blks
      modifies this
      ensures Valid() && closed == (LinePos(g, old(At())) + 1 == g.PgsPerLine())
      ensures At() == if closed then Ppa(0, 0, spare, 0) else Next(g, old(At()))
      ensures !closed ==> At().blk == old(At()).blk && LinePos(g, At()) == LinePos(g, old(At())) + 1
    {
      ghost var p := At();
      assert Next(g, p).pg >= 0;
      AdvanceSteps(g, p);
      hide LinePos, Geo.PgsPerLine;
      closed := false;
      pg := pg + 1;
      if pg % g.perShot != 0 { return; }
      pg := pg - g.perShot;
      ch := ch + 1;
      if ch != g.nchs { return; }
      ch := 0;
      lun := lun + 1;
      if lun != g.luns { return; }
      lun := 0;
      pg := pg + g.perShot;
      if pg != g.perShot * g.shots { return; }
      pg := 0;
      closed := true;
      blk := spare;
    }
  }

  /** A step either stays in the line or starts over from the last page. */
  lemma AdvanceSteps(g: Geo, p: Ppa)
    requires g.Ok() && InDevice(g, p)
    ensures var last := LinePos(g, p) + 1 == g.PgsPerLine();
            && (last <==> Next(g, p).blk != p.blk)
            && (last ==> 0 < g.PgsPerBlk())
            && (!last ==> InDevice(g, Next(g, p)) && LinePos(g, Next(g, p)) == LinePos(g, p) + 1)
    ensures (p.pg + 1) % g.perShot == 0 ==> p.pg + 1 >= g.perShot
  {
    NextIsNext(g, p);
    var w, q := PageOf(g, p);
    if q + 1 < g.perShot {
      DivMod(w, q + 1, g.perShot);
    } else {
      assert w * g.perShot >= 0;
    }
  }

  // ----- page numbers -----

  /** `ppa2pgidx`. */
  function Index(g: Geo, p: Ppa): nat {
    p.ch * g.PgsPerCh() + p.lun * g.PgsPerLun() + p.blk * g.PgsPerBlk() + p.pg
  }

  /** Pages are numbered block by block, LUN by LUN, channel by channel, from 0 on: the first
      page of each comes right behind the last page of the one before. */
  lemma IndexConsecutive(g: Geo, p: Ppa)
    requires g.Ok() && 0 < g.PgsPerBlk()
    ensures Index(g, Ppa(0, 0, 0, 0)) == 0 && Index(g, p.(pg := p.pg + 1)) == Index(g, p) + 1
    ensures Index(g, Ppa(p.ch, p.lun, p.blk + 1, 0)) == Index(g, Ppa(p.ch, p.lun, p.blk, g.PgsPerBlk() - 1)) + 1
    ensures Index(g, Ppa(p.ch, p.lun + 1, 0, 0)) == Index(g, Ppa(p.ch, p.lun, g.blks - 1, g.PgsPerBlk() - 1)) + 1
    ensures Index(g, Ppa(p.ch + 1, 0, 0, 0)) == Index(g, Ppa(p.ch, g.luns - 1, g.blks - 1, g.PgsPerBlk() - 1)) + 1
  {
    SizesAre(g);
    hide Geo.PgsPerBlk, Geo.PgsPerLun, Geo.PgsPerCh, Geo.TtPgs;
    var b, l, c := g.PgsPerBlk(), g.PgsPerLun(), g.PgsPerCh();
    assert (p.blk + 1) * b == p.blk * b + b && (g.blks - 1) * b == l - b;
    assert (p.lun + 1) * l == p.lun * l + l && (g.luns - 1) * l == c - l;
    assert (p.ch + 1) * c == p.ch * c + c;
  }

  /** `ppa_to_struct`, which reduces the channel modulo the pages of a channel. */
  function FromIndex(g: Geo, x: nat): Ppa
    requires 0 < g.PgsPerBlk() && 0 < g.PgsPerLun() && 0 < g.PgsPerCh()
  {
    Ppa((x / g.PgsPerCh()) % g.PgsPerCh(), x % g.PgsPerCh() / g.PgsPerLun(), x % g.PgsPerLun() / g.PgsPerBlk(), x % g.PgsPerBlk())
  }

  lemma Sizes(g: Geo)
    requires g.Ok() && 0 < g.PgsPerBlk()
    ensures 0 < g.PgsPerLun() && 0 < g.PgsPerCh()
  {
    Multiples(1, g.blks, g.PgsPerBlk());
    Multiples(1, g.luns, g.PgsPerLun());
  }

  /** The page number of a page is below the number of pages, and the digits of the page
      number give the page back exactly if its channel is below the pages per channel. */
  lemma IndexRoundTrip(g: Geo, p: Ppa)
    requires g.Ok() && InDevice(g, p) && 0 < g.PgsPerLun() && 0 < g.PgsPerCh() && 0 < g.PgsPerBlk()
    ensures Index(g, p) < g.TtPgs()
    ensures FromIndex(g, Index(g, p)).(ch := p.ch) == p
    ensures FromIndex(g, Index(g, p)).ch == p.ch % g.PgsPerCh()
  {
    var b, l, c := g.PgsPerBlk(), g.PgsPerLun(), g.PgsPerCh();
    var inLun := p.blk * b + p.pg;
    var inCh := p.lun * l + inLun;
    SizesAre(g);
    hide Geo.PgsPerBlk, Geo.PgsPerLun, Geo.PgsPerCh, Geo.TtPgs;
    DigitBound(p.blk, p.pg, b, g.blks);
    DigitBound(p.lun, inLun, l, g.luns);
    DigitBound(p.ch, inCh, c, g.nchs);
    IndexDigits(p, g.luns, g.blks, b, l, c, inLun, inCh);
  }

  lemma SizesAre(g: Geo)
    ensures g.PgsPerLun() == g.blks * g.PgsPerBlk() && g.PgsPerCh() == g.luns * g.PgsPerLun() && g.TtPgs() == g.nchs * g.PgsPerCh()
  {
  }

  lemma IndexDigits(p: Ppa, luns: nat, blks: nat, b: nat, l: nat, c: nat, inLun: nat, inCh: nat)
    requires c == luns * l && l == blks * b
    requires p.pg < b && inLun == p.blk * b + p.pg < l && inCh == p.lun * l + inLun < c
    ensures var x := p.ch * c + inCh;
            x / c == p.ch && x % c == inCh && inCh / l == p.lun && x % l == inLun && inLun / b == p.blk && x % b == p.pg
  {
    DivMod(p.ch, inCh, c);
    DivMod(p.lun, inLun, l);
    DivMod(p.blk, p.pg, b);
    Regroup(p.ch, luns, l, p.lun);
    DivMod(p.ch * luns + p.lun, inLun, l);
    Regroup(p.ch * luns + p.lun, blks, b, p.blk);
    DivMod((p.ch * luns + p.lun) * blks + p.blk, p.pg, b);
  }

  lemma Regroup(a: nat, n: nat, m: nat, b: nat)
    ensures a * (n * m) + b * m == (a * n + b) * m
  {
    assert a * (n * m) == (a * n) * m;
  }

  /** `ppa2pgidx` and `ppa_to_struct` are inverse on the whole device exactly if there are
      no more channels than pages per channel. */
  lemma RoundTripIff(g: Geo)
    requires g.Ok() && 0 < g.PgsPerBlk()
    ensures 0 < g.PgsPerLun() && 0 < g.PgsPerCh()
    ensures g.nchs <= g.PgsPerCh() <==> forall p :: InDevice(g, p) ==> FromIndex(g, Index(g, p)) == p
  {
    Sizes(g);
    var c := g.PgsPerCh();
    if g.nchs <= c {
      forall p | InDevice(g, p)
        ensures FromIndex(g, Index(g, p)) == p
      {
        IndexRoundTrip(g, p);
        DivMod(0, p.ch, c);
        assert 0 * c + p.ch == p.ch;
      }
    } else {
      var p := Ppa(c, 0, 0, 0);
      assert InDevice(g, p);
      IndexRoundTrip(g, p);
      DivMod(1, 0, c);
      assert 1 * c + 0 == c;
    }
  }

  // ----- groups of pages on one LUN -----

  /** The position of a page among the pages before the next change of LUN. */
  function InGroup(g: Geo, p: Ppa): nat
    requires g.Ok()
  {
    p.ch * g.perShot + p.pg % g.perShot
  }

  lemma GroupOfPos(g: Geo, p: Ppa)
    requires g.Ok() && InDevice(g, p)
    ensures LinePos(g, p) == (p.pg / g.perShot * g.luns + p.lun) * g.PgsPerGroup() + InGroup(g, p)
    ensures InGroup(g, p) < g.PgsPerGroup()
  {
    var s := p.pg / g.perShot * g.luns + p.lun;
    assert (s * g.nchs + p.ch) * g.perShot == s * (g.nchs * g.perShot) + p.ch * g.perShot;
    DigitBound(p.ch, p.pg % g.perShot, g.perShot, g.nchs);
  }

  lemma GroupOfPage(g: Geo, blk: nat, w: nat, lun: nat, ch: nat, q: nat)
    requires g.Ok() && Digits(g, w, lun, ch, q) && blk < g.blks
    ensures var p := Page(g, blk, w, lun, ch, q);
            InDevice(g, p) && p.blk == blk && p.lun == lun && InGroup(g, p) == ch * g.perShot + q < g.PgsPerGroup()
  {
    PosOfPage(g, blk, w, lun, ch, q);
    DivMod(w, q, g.perShot);
    DigitBound(ch, q, g.perShot, g.nchs);
  }

  lemma GroupEnd(g: Geo)
    requires g.Ok()
    ensures (g.nchs - 1) * g.perShot + (g.perShot - 1) + 1 == g.PgsPerGroup()
  {
  }

  /** The LUN changes after the last page of a group and at no other page. */
  lemma NextInGroup(g: Geo, p: Ppa)
    requires g.Ok() && InDevice(g, p) && 2 <= g.luns
    ensures InGroup(g, p) + 1 <= g.PgsPerGroup()
    ensures Next(g, p).lun == p.lun <==> InGroup(g, p) + 1 < g.PgsPerGroup()
    ensures InGroup(g, p) + 1 < g.PgsPerGroup() ==>
      InGroup(g, Next(g, p)) == InGroup(g, p) + 1 && Next(g, p).blk == p.blk && InDevice(g, Next(g, p))
  {
    var w, q := PageOf(g, p);
    var blk, lun, ch := p.blk, p.lun, p.ch;
    assert blk < g.blks;
    hide InGroup, Next, InDevice, Geo.PgsPerGroup, Page;
    GroupOfPage(g, blk, w, lun, ch, q);
    if q + 1 < g.perShot {
      NextInShot(g, blk, w, lun, ch, q);
      GroupOfPage(g, blk, w, lun, ch, q + 1);
    } else {
      NextAfterShot(g, blk, w, lun, ch);
      if ch + 1 < g.nchs {
        GroupOfPage(g, blk, w, lun, ch + 1, 0);
        assert (ch + 1) * g.perShot == ch * g.perShot + g.perShot;
      } else {
        GroupEnd(g);
        if lun + 1 < g.luns {
          GroupOfPage(g, blk, w, lun + 1, 0, 0);
        } else if w + 1 < g.shots {
          GroupOfPage(g, blk, w + 1, 0, 0, 0);
        }
      }
    }
  }

  function Min(a: nat, b: nat): nat {
    if a < b then a else b
  }

  /** `enough_space_in_line`: the loop steps past every page that the grains would touch
      and gives up when a step changes the LUN, so it accepts a nonempty run exactly if
      the run ends before the last page of the group. `had` is what fits there, in bytes. */
  method EnoughSpace(g: Geo, start: Ppa, offset: nat, glen: nat) returns (ok: bool, had: nat)
    requires g.Ok() && InDevice(g, start) && 2 <= g.luns
    ensures ok <==> glen == 0 || 64 * InGroup(g, start) + offset % 64 + glen + 64 <= 64 * g.PgsPerGroup()
    ensures ok ==> had == 64 * glen
    ensures !ok && InGroup(g, start) + 1 == g.PgsPerGroup() ==> had == 0
    ensures !ok && InGroup(g, start) + 1 < g.PgsPerGroup() ==>
      had == 64 * (64 * g.PgsPerGroup() - 64 - (64 * InGroup(g, start) + offset % 64))
  {
    ok, had := SpaceFrom(g, start, offset % 64, glen);
  }

  /** The same from an offset inside the page. */
  method SpaceFrom(g: Geo, start: Ppa, off: nat, glen: nat) returns (ok: bool, had: nat)
    requires g.Ok() && InDevice(g, start) && 2 <= g.luns && off < 64
    ensures ok <==> glen == 0 || 64 * InGroup(g, start) + off + glen + 64 <= 64 * g.PgsPerGroup()
    ensures ok ==> had == 64 * glen
    ensures !ok && InGroup(g, start) + 1 == g.PgsPerGroup() ==> had == 0
    ensures !ok && InGroup(g, start) + 1 < g.PgsPerGroup() ==>
      had == 64 * (64 * g.PgsPerGroup() - 64 - (64 * InGroup(g, start) + off))
  {
    var p, rem: nat, grain := start, glen, off;
    had := 0;
    GroupOfPos(g, start);
    ghost var from, end: nat := 64 * InGroup(g, start) + off, 64 * g.PgsPerGroup();
    hide InDevice, Next, InGroup, Geo.PgsPerGroup, Min;
    while rem > 0
      invariant InDevice(g, p) && p.lun == start.lun && p.blk == start.blk
      invariant rem <= glen && 64 * InGroup(g, p) + 64 <= end
      invariant had == 64 * (glen - rem)
      invariant rem > 0 ==> 64 * InGroup(g, p) + grain == from + (glen - rem)
      invariant rem == 0 && 0 < glen ==> from + glen <= 64 * InGroup(g, p)
      invariant rem == glen ==> p == start
      invariant grain == (if rem == glen then off else 0)
    {
      var len := Min(rem, 64 - grain);
      MinOf(rem, 64 - grain);
      NextInGroup(g, p);
      p := Next(g, p);
      if p.lun != start.lun {
        return false, had;
      }
      had := had + 64 * len;
      grain := 0;
      rem := rem - len;
    }
    ok := p.blk == start.blk;
  }

  lemma MinOf(a: nat, b: nat)
    ensures (Min(a, b) == a <= b) || (Min(a, b) == b < a)
  {
  }

  // ----- runs of grains -----

  /** The grains that one page gives to an extent. */
  datatype Run = Run(page: Ppa, off: nat, len: nat)

  /** The runs that a loop over pages visits for `len` grains from offset `off` of `p`, as
      `mark_grain_invalid` and the OOB loop of a store do. */
  function Runs(g: Geo, p: Ppa, off: nat, len: nat): seq<Run>
    requires g.Ok() && off < 64
    decreases len
  {
    if len == 0 then []
    else var n := Min(len, 64 - off); [Run(p, off, n)] + Runs(g, Next(g, p), 0, len - n)
  }

  /** Allocation and invalidation walk the same grains of a line: the runs of an extent
      that stays in its line are consecutive from its first grain. */
  lemma {:induction false} RunsAreConsecutive(g: Geo, p: Ppa, off: nat, len: nat, i: nat)
    requires g.Ok() && InDevice(g, p) && off < 64 && i < |Runs(g, p, off, len)|
    requires 64 * LinePos(g, p) + off + len <= 64 * g.PgsPerLine()
    ensures var r := Runs(g, p, off, len)[i];
            && InDevice(g, r.page) && r.page.blk == p.blk && 0 < r.len && r.off + r.len <= 64
            && LinePos(g, r.page) == LinePos(g, p) + i && r.off == (if i == 0 then off else 0)
            && off + len > 64 * i
            && r.len == (if i == 0 then Min(len, 64 - off) else Min(len + off - 64 * i, 64))
            && (|Runs(g, p, off, len)| == i + 1 <==> off + len <= 64 * i + 64)
    decreases len
  {
    hide LinePos, Next, InDevice, Geo.PgsPerLine;
    NextIsNext(g, p);
    var n := Min(len, 64 - off);
    if len > n {
      var rest := Runs(g, Next(g, p), 0, len - n);
      if i > 0 {
        RunsAreConsecutive(g, Next(g, p), 0, len - n, i - 1);
      }
      assert Runs(g, p, off, len)[1..] == rest;
    }
  }

  /** Grains of so many bytes. */
  function Grains(bytes: nat): (r: nat)
    ensures 64 * r < bytes + 64 && bytes <= 64 * r
  {
    (bytes + 63) / 64
  }

  /** The store loop counts bytes and page space, `vlen` bytes in all; it marks exactly the
      runs that `mark_grain_invalid` will visit for the grains of those bytes. */
  method StoreRuns(g: Geo, start: Ppa, off: nat, vlen: nat) returns (runs: seq<Run>)
    requires g.Ok() && off < 64
    ensures runs == Runs(g, start, off, Grains(vlen))
  {
    var page, goff: nat, rem: nat, inPage := start, off, vlen, 4096 - 64 * off;
    runs := [];
    assert Grains(0) == 0;
    hide Next, Grains, Min;
    while rem > 0
      invariant goff < 64 && inPage == 4096 - 64 * goff
      invariant Runs(g, start, off, Grains(vlen)) == runs + Runs(g, page, goff, Grains(rem))
      decreases rem
    {
      var size: nat := Min(rem, inPage);
      var gsize: nat := if size % 64 != 0 then size / 64 + 1 else size / 64;
      GrainsOfRun(rem, goff, size, gsize);
      runs := runs + [Run(page, goff, gsize)];
      rem := rem - size;
      page := Next(g, page);
      goff, inPage := 0, 4096;
    }
  }

  /** The bytes and the grains of a run agree. */
  lemma GrainsOfRun(rem: nat, off: nat, size: nat, gsize: nat)
    requires 0 < rem && off < 64 && size == Min(rem, 4096 - 64 * off)
    requires gsize == if size % 64 != 0 then size / 64 + 1 else size / 64
    ensures 0 < size <= rem && 0 < Grains(rem) && gsize == Min(Grains(rem), 64 - off) && Grains(rem) - gsize == Grains(rem - size)
  {
  }
}
