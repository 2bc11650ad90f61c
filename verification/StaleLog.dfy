/** A run that loses a key. `do_gc` reads back the log of a line only if the line has valid
    grains, so a line that was deleted empty keeps its words over the erase. Once the same
    hash index is stored at the same grain again, the next collection takes the pair that
    the table maps to for a dead one and erases it. */
module StaleLog {
  import opened Arith
  import opened InvalidLog
  import opened FtlLine
  import opened Ftl
  import opened Hashing
  import opened Device

  /** The smallest setting: six lines of two LUN groups. */
  ghost predicate Small(c: Config) {
    c.Ok() && c.lines == 6 && c.groups == 2 && 256 <= c.group
  }

  /** The key that is lost, and one to fill up lines with; their hashes and hash indexes. */
  const LOST: Key := [1]
  const FILL: Key := [2]
  const AT_LOST: nat := 485
  const AT_FILL: nat := 487

  ghost predicate Keyed(hashOf: Key -> nat, n: nat) {
    hashOf(LOST) == 484 && hashOf(FILL) == 486 && 1000 <= n
  }

  lemma FirstProbe(n: nat)
    requires 1000 <= n
    ensures Probe(n, 484, 0) == AT_LOST && Probe(n, 486, 0) == AT_FILL
  {
    SmallMod(484, n - 1);
    SmallMod(486, n - 1);
  }

  /** A value that makes a pair of `len` grains with a key of one byte. */
  function ValueOf(len: nat): Value
    requires 0 < len
  {
    seq(64 * len - 6, _ => 0)
  }

  lemma GrainsOf(key: Key, len: nat)
    requires |key| == 1 && 0 < len
    ensures Grains(Entry(key, ValueOf(len))) == len
  {
  }

  /** No key but these two, and each at its first probe. */
  ghost predicate AtFirst(home: map<Key, nat>) {
    forall k :: k in home ==> (k == LOST || k == FILL) && home[k] == 0
  }

  /** Between steps: stores stand at `h`, collection is idle on line 3, lines 1 and 2 hold
      mapping pages. */
  ghost predicate Standing(d: KvSsd, table: map<nat, nat>, h: Spot)
    reads d, d.shard
  {
    && d.Valid() && Small(d.shard.c) && Keyed(d.hashOf, d.n) && AtFirst(d.home)
    && d.shard.table == table && UserSpot(d.shard.Now()) == h
    && d.shard.gc.line == 3 && !d.shard.gc.open && d.shard.away == {1, 2}
  }

  /** A pair so long that a LUN group holds only one. */
  ghost function Big(c: Config): nat
    requires Small(c)
  {
    c.group - 128
  }

  /** The first probe of either key is open, so a store lands there. */
  lemma LandsFirst(s: Slots, hashOf: Key -> nat, m: map<Key, Value>, home: map<Key, nat>, key: Key)
    requires Holds(s, hashOf, m, home) && Keyed(hashOf, s.n) && AtFirst(home) && (key == LOST || key == FILL)
    ensures Open(s, hashOf(key), key, 0) && forall c: nat :: Lands(s, hashOf(key), key, c) ==> c == 0
  {
    FirstProbe(s.n);
    var at := Probe(s.n, hashOf(key), 0);
    hide Probe;
    if at in s.pairs {
      AtHome(s, hashOf, m, home, at);
    }
    NotBoth(s, hashOf(key), key, 0);
  }

  /** A store of one of the two keys. */
  method StoreAt(d: KvSsd, key: Key, at: nat, len: nat, ghost table: map<nat, nat>, ghost h: Spot)
    requires Standing(d, table, h) && 0 < len && Stores(d.shard.c, h, len)
    requires (key == LOST && at == AT_LOST) || (key == FILL && at == AT_FILL)
    modifies d, d.shard
    ensures var n := NextSpot(d.shard.c, h, len);
      Standing(d, table[at := d.shard.c.grainOf(n.line, n.fill)], Landed(d.shard.c, h, len))
    ensures d.shard.log == if at in table then Logged(d.shard.c, old(d.shard.log), at, table[at]) else old(d.shard.log)
    ensures d.store == old(d.store)[key := ValueOf(len)]
  {
    hide Shard.Valid, Holds, Backed, Stores, NextSpot, Landed, Logged, Lands, Open, Grains, Shown, Sectioned, Probe, ValueOf;
    LandsFirst(d.S(), d.hashOf, d.store, d.home, key);
    FirstProbe(d.n);
    GrainsOf(key, len);
    HoldsFacts(d.S(), d.hashOf, d.store, d.home, key);
    var ok := d.Store(key, ValueOf(len));
    assert ok;
  }

  /** A delete of LOST: nothing is behind its slot. */
  method DeleteLost(d: KvSsd, ghost table: map<nat, nat>, ghost h: Spot)
    requires Standing(d, table, h) && LOST in d.store
    modifies d, d.shard
    ensures AT_LOST in table && Standing(d, table - {AT_LOST}, h)
    ensures d.shard.log == Logged(d.shard.c, old(d.shard.log), AT_LOST, table[AT_LOST])
    ensures d.store == old(d.store) - {LOST}
  {
    hide Shard.Valid, Holds, Backed, Logged, Grains, Shown, Sectioned, Probe;
    FirstProbe(d.n);
    HoldsFacts(d.S(), d.hashOf, d.store, d.home, LOST);
    var r := d.Delete(LOST);
  }

  /** A line that nothing maps into is erased with its log unread. */
  method CollectDead(d: KvSsd, victim: nat, order: seq<nat>, ghost table: map<nat, nat>, ghost h: Spot)
    requires Standing(d, table, h) && CoversPages(order, d.shard.c.size)
    requires victim < 6 && victim != 1 && victim != 2 && victim != 3 && victim != h.line && victim !in h.free
    requires forall k :: k in table ==> d.shard.c.lineOf(table[k]) != victim
    modifies d.shard
    ensures Standing(d, table, h.(free := h.free + [victim])) && d.shard.log == old(d.shard.log)
  {
    hide LinesOk, FrontiersOk, Tabled, Words, CoversPages, Config.Ok, Holds, Backed, Shown, Sectioned;
    var s := d.shard;
    NothingMapped(s.c, s.W(), s.table, s.glen, victim);
    var ok := d.Collect(victim, order);
    assert ok;
  }

  lemma SpotFacts(d: KvSsd, table: map<nat, nat>, h: Spot)
    requires Standing(d, table, h)
    ensures Small(d.shard.c) && h.fill <= h.gend && h.gend + h.left * d.shard.c.group == d.shard.c.size
  {
    SpotOk(d.shard.c, d.shard.W(), d.shard.user, d.shard.gc, false);
  }

  /** A store of a long pair of key FILL: it goes to the next LUN group. */
  method Fill(d: KvSsd, ghost table: map<nat, nat>, ghost h: Spot)
    requires Standing(d, table, h) && CanRoll(h) && h.gend < h.fill + d.shard.c.group - 64
    modifies d, d.shard
    ensures var n := Rolled(d.shard.c, h);
      Standing(d, table[AT_FILL := d.shard.c.grainOf(n.line, n.fill)], n.(fill := n.fill + Big(d.shard.c)))
    ensures d.shard.log == if AT_FILL in table then Logged(d.shard.c, old(d.shard.log), AT_FILL, table[AT_FILL]) else old(d.shard.log)
    ensures d.store == old(d.store)[FILL := ValueOf(d.shard.c.group - 128)]
  {
    hide Standing, Logged, Rolled, Config.Ok, Stores, NextSpot, Landed, HasRoom, CanRoll, ValueOf;
    SpotFacts(d, table, h);
    ShortSpot(d.shard.c, h, d.shard.c.group - 128);
    StoreAt(d, FILL, AT_FILL, d.shard.c.group - 128, table, h);
  }

  /** A store of the pair of key LOST, of 65 grains. */
  method StoreLost(d: KvSsd, ghost table: map<nat, nat>, ghost h: Spot)
    requires Standing(d, table, h) && (Fits(h.fill, h.gend, 65) || CanRoll(h)) && AT_LOST !in table
    modifies d, d.shard
    ensures var n := if Fits(h.fill, h.gend, 65) then h else Rolled(d.shard.c, h);
      Standing(d, table[AT_LOST := d.shard.c.grainOf(n.line, n.fill)], n.(fill := n.fill + 65))
    ensures d.shard.log == old(d.shard.log) && d.store == old(d.store)[LOST := ValueOf(65)]
  {
    hide Standing, Logged, Rolled, Config.Ok, Stores, NextSpot, Landed, HasRoom, CanRoll, ValueOf;
    SpotFacts(d, table, h);
    ShortSpot(d.shard.c, h, 65);
    StoreAt(d, LOST, AT_LOST, 65, table, h);
  }

  /** Key LOST goes to grain 64 of line 0, is deleted, and line 0 is filled up: its log holds
      two words and it has no valid grain. */
  method FirstLife(d: KvSsd)
    requires Small(d.shard.c) && Standing(d, map[], Spot(0, d.shard.c.group, 1, 64, [4, 5])) && |d.shard.log| == 6 && d.shard.log[0] == EMPTY
    modifies d, d.shard
    ensures Standing(d, map[AT_FILL := d.shard.c.grainOf(4, 0)], Spot(4, d.shard.c.group, 1, Big(d.shard.c), [5])) && |d.shard.log| == 6
    ensures d.shard.log[0] == Log([Word(AT_LOST, d.shard.c.grainOf(0, 64)), Word(AT_FILL, d.shard.c.grainOf(0, d.shard.c.group))], [])
  {
    hide KvSsd.Valid, Word, Shard.Now, UserSpot, ValueOf;
    ghost var c := d.shard.c;
    assert c.size == 2 * c.group;
    StoreLost(d, map[], Spot(0, c.group, 1, 64, [4, 5]));
    DeleteLost(d, map[AT_LOST := c.grainOf(0, 64)], Spot(0, c.group, 1, 129, [4, 5]));
    assert map[AT_LOST := c.grainOf(0, 64)] - {AT_LOST} == map[];
    assert d.shard.log[0] == Log([Word(AT_LOST, c.grainOf(0, 64))], []);
    Fill(d, map[], Spot(0, c.group, 1, 129, [4, 5]));
    Fill(d, map[AT_FILL := c.grainOf(0, c.group)], Spot(0, 2 * c.group, 0, c.group + Big(c), [4, 5]));
  }

  /** Line 0 is erased with its log unread, and so is line 4 after it was filled. */
  method InBetween(d: KvSsd, order: seq<nat>)
    requires Small(d.shard.c) && CoversPages(order, d.shard.c.size) && |d.shard.log| == 6
    requires Standing(d, map[AT_FILL := d.shard.c.grainOf(4, 0)], Spot(4, d.shard.c.group, 1, Big(d.shard.c), [5]))
    modifies d, d.shard
    ensures Standing(d, map[AT_FILL := d.shard.c.grainOf(5, 0)], Spot(5, d.shard.c.group, 1, Big(d.shard.c), [0, 4]))
    ensures |d.shard.log| == 6 && d.shard.log[0] == old(d.shard.log[0])
  {
    hide KvSsd.Valid, Word, Shard.Now, UserSpot, CoversPages, Record, ValueOf;
    ghost var c, g := d.shard.c, d.shard.c.group;
    assert c.size == 2 * g;
    CollectDead(d, 0, order, map[AT_FILL := c.grainOf(4, 0)], Spot(4, g, 1, Big(c), [5]));
    Fill(d, map[AT_FILL := c.grainOf(4, 0)], Spot(4, g, 1, Big(c), [5, 0]));
    Fill(d, map[AT_FILL := c.grainOf(4, g)], Spot(4, 2 * g, 0, g + Big(c), [5, 0]));
    CollectDead(d, 4, order, map[AT_FILL := c.grainOf(5, 0)], Spot(5, g, 1, Big(c), [0]));
  }

  ghost function Both(lost: nat, fill: nat): map<nat, nat> {
    map[AT_LOST := lost, AT_FILL := fill]
  }

  lemma BothIs(lost: nat, fill: nat, fill': nat)
    ensures map[AT_FILL := fill][AT_LOST := lost] == Both(lost, fill) && Both(lost, fill)[AT_FILL := fill'] == Both(lost, fill')
    ensures AT_FILL in Both(lost, fill) && Both(lost, fill)[AT_FILL] == fill
  {
  }

  /** Line 0 comes back into use: LOST is stored and goes to grain 64 of it again. Then the
      line is filled up as before. */
  method SecondLife(d: KvSsd)
    requires Small(d.shard.c) && Standing(d, map[AT_FILL := d.shard.c.grainOf(5, 0)], Spot(5, d.shard.c.group, 1, Big(d.shard.c), [0, 4]))
    requires |d.shard.log| == 6 && |d.shard.log[0].buf| < PER_PAGE
    modifies d, d.shard
    ensures Standing(d, Both(d.shard.c.grainOf(0, 64), d.shard.c.grainOf(4, 0)), Spot(4, d.shard.c.group, 1, Big(d.shard.c), []))
    ensures |d.shard.log| == 6 && old(d.shard.log[0]).buf <= d.shard.log[0].buf && LOST in d.store
  {
    hide KvSsd.Valid, Word, Shard.Now, UserSpot, Both, ValueOf;
    ghost var c, g := d.shard.c, d.shard.c.group;
    assert c.size == 2 * g;
    BothIs(c.grainOf(0, 64), c.grainOf(5, g), c.grainOf(0, g));
    BothIs(c.grainOf(0, 64), c.grainOf(0, g), c.grainOf(4, 0));
    Fill(d, map[AT_FILL := c.grainOf(5, 0)], Spot(5, g, 1, Big(c), [0, 4]));
    StoreLost(d, map[AT_FILL := c.grainOf(5, g)], Spot(5, 2 * g, 0, g + Big(c), [0, 4]));
    Fill(d, Both(c.grainOf(0, 64), c.grainOf(5, g)), Spot(0, g, 1, 129, [4]));
    Fill(d, Both(c.grainOf(0, 64), c.grainOf(0, g)), Spot(0, 2 * g, 0, g + Big(c), [4]));
  }

  /** The log of line 0 convicts the pair of LOST. */
  lemma Convicts(d: KvSsd, table: map<nat, nat>, h: Spot)
    requires Standing(d, table, h) && |d.shard.log| == 6 && table == Both(d.shard.c.grainOf(0, 64), d.shard.c.grainOf(4, 0))
    requires Word(AT_LOST, d.shard.c.grainOf(0, 64)) in d.shard.log[0].buf
    ensures Doomed(d.shard.c, table, d.shard.log, 0, AT_LOST) && AllDoomed(d.shard.c, table, d.shard.log, 0)
    ensures !NoneDoomed(d.shard.c, table, d.shard.log, 0)
  {
    hide LinesOk, FrontiersOk, Tabled, Words, Word, Holds, Backed, Shown, Sectioned, Drained;
    var c, s := d.shard.c, d.shard;
    assert c.size == 2 * c.group;
    CountedLine(c, s.W(), 0, Words(table), Words(table), c.lines);
    DrainedIff(s.log[0], Word(AT_LOST, c.grainOf(0, 64)));
    assert Doomed(c, table, s.log, 0, AT_LOST);
  }

  lemma Sweepable(d: KvSsd, table: map<nat, nat>, h: Spot)
    requires Standing(d, table, h) && h.line == 4 && h.free == [5]
    ensures d.Valid() && d.shard.Closable(0) && d.shard.table == table && d.shard.free == [5]
  {
  }

  lemma SweptLost(s: Shard, p: State, lost: nat, fill: nat)
    requires DidSweep(p, s.Now(), 0) && p.table == Both(lost, fill) && s.c.lineOf(lost) == 0 && p.w.free == [5]
    ensures s.table == p.table && s.free == [5, 0] && s.Lost()
  {
    assert s.free == [5] + [0];
    assert AT_LOST in s.table && s.free[1] == 0;
  }

  /** The last collection. */
  method CollectLost(d: KvSsd, order: seq<nat>)
    requires Small(d.shard.c) && CoversPages(order, d.shard.c.size) && |d.shard.log| == 6
    requires Standing(d, Both(d.shard.c.grainOf(0, 64), d.shard.c.grainOf(4, 0)), Spot(4, d.shard.c.group, 1, Big(d.shard.c), [5]))
    requires Word(AT_LOST, d.shard.c.grainOf(0, 64)) in d.shard.log[0].buf
    modifies d.shard
    ensures d.shard.table == Both(d.shard.c.grainOf(0, 64), d.shard.c.grainOf(4, 0)) && d.shard.free == [5, 0] && d.shard.Lost()
  {
    ghost var c := d.shard.c;
    assert c.lineOf(c.grainOf(0, 64)) == 0 by { assert c.size == 2 * c.group; }
    ghost var p, h := d.shard.Now(), Spot(4, c.group, 1, Big(c), [5]);
    hide Config.Ok, KvSsd.Valid, CoversPages, Word, Doomed, AllDoomed, NoneDoomed, Shard.HasLong, Shard.Lost, DidSweep, Standing, Shard.Closable, Both;
    Sweepable(d, Both(c.grainOf(0, 64), c.grainOf(4, 0)), h);
    Convicts(d, d.shard.table, h);
    var ok := d.Collect(0, order);
    SweptLost(d.shard, p, c.grainOf(0, 64), c.grainOf(4, 0));
  }

  /** The whole run of stores, a delete and collections from an empty device. Each collection
      takes a line without valid grains while there is one; the last one erases line 0, which
      the table still maps LOST to. */
  method LoseKey(d: KvSsd, order: seq<nat>)
    requires Small(d.shard.c) && Standing(d, map[], Spot(0, d.shard.c.group, 1, 64, [4, 5])) && |d.shard.log| == 6 && d.shard.log[0] == EMPTY
    requires CoversPages(order, d.shard.c.size)
    modifies d, d.shard
    ensures LOST in d.store && AT_LOST in d.shard.table && d.shard.table[AT_LOST] == d.shard.c.grainOf(0, 64)
    ensures d.shard.free == [5, 0] && d.shard.Lost()
  {
    hide Standing, CoversPages, Word;
    ghost var c := d.shard.c;
    FirstLife(d);
    InBetween(d, order);
    SecondLife(d);
    assert d.shard.log[0].buf[0] == Word(AT_LOST, c.grainOf(0, 64));
    assert c.size == 2 * c.group;
    ghost var none: seq<nat> := [];
    CollectDead(d, 5, order, Both(c.grainOf(0, 64), c.grainOf(4, 0)), Spot(4, c.group, 1, Big(c), none));
    assert none + [5] == [5];
    CollectLost(d, order);
  }
}
