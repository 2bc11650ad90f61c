/** The device put together: hashing, FTL and collection on the real geometry. */
module Assembly {
  import opened Arith
  import opened Types
  import opened Geometry
  import opened FtlLine
  import opened FtlGeometry
  import Ftl
  import Hashing
  import InvalidLog
  import StaleLog
  import Writers
  import opened Device

  /** `nr_valid_tentries`: one hash index per grain, and a page more. */
  function HashIndexes(g: Geo): nat {
    64 * g.TtPgs() + 64
  }

  lemma PagesOfLines(nchs: nat, luns: nat, blks: nat, perShot: nat, shots: nat)
    ensures perShot * shots * blks * luns * nchs == blks * ((shots * luns) * nchs * perShot)
    ensures (shots * luns) * nchs * perShot == (shots * luns) * (nchs * perShot)
  {
  }

  lemma FewLines(blks: nat, a: nat, group: nat)
    requires 4 <= blks && 2 <= a && 3 <= group
    ensures 24 <= blks * (a * group)
  {
    Multiples(2, a, group);
    Multiples(4, blks, a * group);
  }

  /** There is a hash index for every grain of every line, and enough for every search to end. */
  lemma EnoughIndexes(g: Geo)
    requires Usable(g) && 4 <= g.blks
    ensures 993 <= HashIndexes(g) <= UINT_MAX
    ensures HashIndexes(g) == Numbering(g).lines * Numbering(g).size + 64
  {
    var a, group, pages := g.shots * g.luns, g.PgsPerGroup(), g.PgsPerLine();
    assert g.TtPgs() == g.blks * pages && pages == a * group by {
      PagesOfLines(g.nchs, g.luns, g.blks, g.perShot, g.shots);
    }
    assert 2 <= a by { Multiples(1, g.shots, g.luns); }
    FewLines(g.blks, a, group);
    assert g.blks * (64 * pages) == 64 * (g.blks * pages);
  }

  /** `nr_valid_tpages`: the table sections that are allocated, enough for every grain. */
  function Sections(g: Geo): (r: nat)
    ensures r > 0 && EPP * (r - 1) <= 64 * g.TtPgs() < EPP * r
  {
    DigitsOf(64 * g.TtPgs(), EPP);
    64 * g.TtPgs() / EPP + 1
  }

  /** Every hash index has a section, unless the pages are 7 modulo 15. */
  lemma EnoughSections(g: Geo)
    requires Usable(g) && 4 <= g.blks && g.TtPgs() % 15 != 7
    ensures Sectioned(HashIndexes(g), Sections(g))
  {
    EnoughIndexes(g);
    hide Geo.TtPgs, Usable;
    Hashing.SectionsSuffice(g.TtPgs());
  }

  /** A formatted device on a usable geometry is a valid, empty store, if its hash indexes
      all have a table section. */
  method NewDevice(g: Geo, hashOf: Hashing.Key -> nat) returns (d: KvSsd)
    requires Usable(g) && 4 <= g.blks && g.TtPgs() % 15 != 7 && forall k: Hashing.Key :: hashOf(k) < 0x1_0000_0000
    ensures fresh(d) && fresh(d.shard) && d.Valid() && d.store == map[] && d.shard.c == Numbering(g)
    ensures d.n == HashIndexes(g) && d.sections == Sections(g) && d.hashOf == hashOf && d.home == map[] && d.shard.table == map[]
    ensures var c := Numbering(g);
            && Ftl.UserSpot(d.shard.Now()) == Ftl.Spot(0, c.group, c.groups - 1, 64, seq(c.lines - 4, i => 4 + i))
            && d.shard.gc == Ftl.Frontier(3, c.group, c.groups - 1, false) && d.shard.away == {1, 2}
            && d.shard.log == seq(c.lines, _ => InvalidLog.EMPTY)
  {
    hide Config.Ok, Ftl.Shard.Valid, Hashing.Holds, Backed, Geo.TtPgs, HashIndexes, Sections, Sectioned;
    NumberingOk(g);
    EnoughIndexes(g);
    EnoughSections(g);
    var shard := new Ftl.Shard(Numbering(g));
    d := new KvSsd(shard, HashIndexes(g), Sections(g), hashOf);
  }

  /** `do_gc` in its own order of pages. It keeps the store, unless it fails for want of a
      free line or its log convicts a pair that the table maps to. */
  method CollectInOrder(g: Geo, d: KvSsd, victim: nat) returns (ok: bool)
    requires Usable(g) && d.Valid() && d.shard.c == Numbering(g)
    modifies d.shard
    ensures ok ==> d.Valid() && d.store == old(d.store)
    ensures ok && old(d.shard.Closable(victim)) ==>
      && victim < |d.shard.line| && victim in d.shard.free && d.shard.line[victim].fill == 0
      && forall k :: k in d.shard.table ==> LineOf(g, d.shard.table[k]) != victim
    ensures ok == Ftl.CanStep(d.shard.c, Ftl.Clean(victim, OrderOf(g)), old(d.shard.Now()))
    ensures ok ==> Ftl.DidStep(d.shard.c, Ftl.Clean(victim, OrderOf(g)), old(d.shard.Now()), d.shard.Now())
    ensures !ok && d.shard.free != [] && !d.shard.HasLong() ==>
      exists k :: k in old(d.shard.table) && Ftl.Doomed(d.shard.c, old(d.shard.table), old(d.shard.log), victim, k)
  {
    hide Ftl.Shard.Valid, Hashing.Holds, Backed, Ftl.CoversPages, Ftl.Doomed;
    var order := VisitOrder(g);
    OrderCovers(g, order);
    ok := d.Collect(victim, order);
  }

  /** The write pointers of module Writers on a usable geometry: the same line, and the same
      test for space as the frontiers of module Ftl. */
  lemma WritersAgree(g: Geo, w: Writers.Pointer, fill: nat, len: nat)
    requires Usable(g) && w.rest <= 64 && 0 < len
    ensures var sh := Writers.Shape(g.PgsPerGroup(), g.shots * g.luns);
            && sh.Ok() && sh.Grains() == Numbering(g).size && 64 * sh.ppg == Numbering(g).group
            && (len <= Writers.Space(w) <==> Ftl.Fits(fill, fill + w.rest + 64 * w.left, len))
  {
    GroupsFill(g);
    Multiples(1, g.shots, g.luns);
  }

  /** One channel of two LUNs with six blocks of one wordline of eight pages. */
  const TINY: Geo := Geo(8, 1, 2, 1, 6, 8, 1)

  lemma TinyIsUsable()
    ensures Usable(TINY) && TINY.TtPgs() == 96 && HashIndexes(TINY) == 6208
    ensures Numbering(TINY).group == 512 && Numbering(TINY).size == 1024 && Numbering(TINY).groups == 2 && Numbering(TINY).lines == 6
  {
  }

  lemma TinyStands(d: KvSsd)
    requires d.Valid() && StaleLog.Small(d.shard.c) && StaleLog.Keyed(d.hashOf, d.n) && d.home == map[] && d.shard.table == map[]
    requires Ftl.UserSpot(d.shard.Now()) == Ftl.Spot(0, 512, 1, 64, seq(2, i => 4 + i))
    requires d.shard.gc == Ftl.Frontier(3, 512, 1, false) && d.shard.away == {1, 2}
    ensures StaleLog.Standing(d, map[], Ftl.Spot(0, 512, 1, 64, [4, 5]))
  {
    hide KvSsd.Valid, StaleLog.Small, StaleLog.Keyed, Ftl.UserSpot, Ftl.Shard.Now;
    assert seq(2, i => 4 + i) == [4, 5];
  }

  /** That device, formatted: stores go to line 0 behind page 0, lines 4 and 5 are free. */
  method TinyDevice() returns (d: KvSsd)
    ensures fresh(d) && fresh(d.shard) && d.shard.c == Numbering(TINY) && StaleLog.Small(d.shard.c) && d.store == map[]
    ensures StaleLog.Standing(d, map[], Ftl.Spot(0, 512, 1, 64, [4, 5])) && d.shard.log == seq(6, _ => InvalidLog.EMPTY)
  {
    TinyIsUsable();
    NumberingOk(TINY);
    hide Config.Ok, KvSsd.Valid, Usable, HashIndexes, Geo.TtPgs, Numbering, StaleLog.Standing, Ftl.UserSpot, Ftl.Shard.Now;
    d := NewDevice(TINY, k => if k == StaleLog.LOST then 484 else 486);
    TinyStands(d);
  }

  /** The run that loses a key, from a formatted device. */
  method LoseOnFlash() returns (d: KvSsd)
    ensures fresh(d) && fresh(d.shard) && d.shard.c == Numbering(TINY)
    ensures StaleLog.LOST in d.store && StaleLog.AT_LOST in d.shard.table && d.shard.Lost()
  {
    TinyIsUsable();
    hide Config.Ok, StaleLog.Standing, Ftl.CoversPages, Usable, HashIndexes, Geo.TtPgs, Ftl.Shard.Lost;
    var order := VisitOrder(TINY);
    OrderCovers(TINY, order);
    d := TinyDevice();
    StaleLog.LoseKey(d, order);
  }

  lemma NoPlace(c: Config)
    requires c.Ok() && c.group == 512 && c.size == 1024
    ensures !Ftl.Stores(c, Ftl.Spot(0, 512, 1, 64, [4, 5]), 513)
  {
    hide Config.Ok, Ftl.Stores;
    Ftl.MisfitSpot(c, Ftl.Spot(0, 512, 1, 64, [4, 5]), 513);
  }

  /** The first store of a formatted device, with two lines free, fails: the pair is longer than
      a LUN group, goes to the start of the second and last one and runs past the line. */
  method LongPairStops() returns (d: KvSsd, ok: bool, ghost free: seq<nat>)
    ensures fresh(d) && fresh(d.shard) && d.shard.c == Numbering(TINY) && free == [4, 5] && !ok
  {
    TinyIsUsable();
    NumberingOk(TINY);
    d := TinyDevice();
    free := d.shard.free;
    NoPlace(d.shard.c);
    StaleLog.GrainsOf(StaleLog.LOST, 513);
    hide Config.Ok, KvSsd.Valid, Usable, HashIndexes, Geo.TtPgs, Numbering, Ftl.Stores, Device.Grains, StaleLog.ValueOf;
    ok := d.Store(StaleLog.LOST, StaleLog.ValueOf(513));
  }

  /** The default geometry: eight channels of eight LUNs, blocks of four wordlines of eight
      pages. */
  function Default(blks: nat): Geo {
    Geo(8, 8, 8, 4, blks, 8, 4)
  }

  /** A value of 256 KB with a key of 16 bytes is longer than a LUN group there. Where it does
      not fit, it is stored exactly if the next LUN group is not the last of its line. */
  lemma LongestPair(blks: nat, s: Ftl.Spot, e: Hashing.Entry)
    requires Usable(Default(blks)) && |e.key| == 16 && |e.value| == 256 * 1024
    requires s.fill < s.gend <= s.fill + 4096 && s.gend % 64 == 0 && s.gend + s.left * 4096 == 131072
    ensures Numbering(Default(blks)).group == 4096 && Numbering(Default(blks)).size == 131072 && Device.Grains(e) == 4097
    ensures Ftl.Stores(Numbering(Default(blks)), s, 4097) <==> s.left >= 2 || (s.left == 0 && s.free != [])
  {
    var c := Numbering(Default(blks));
    assert c.group == 4096 && c.size == 131072;
    NumberingOk(Default(blks));
    hide Config.Ok, Ftl.Stores, Numbering, Usable;
    Ftl.MisfitSpot(c, s, 4097);
  }
}
