/** The log-structured FTL as a machine: stores, deletes and garbage collection of data
    lines, with no store inside a collection.

    The hash index to grain table is the union of the two-level tables. Every line has
    its OOB words, counters and log of invalid mappings; stores and collection each
    append at a frontier of their own. */
module Ftl {
  import opened Types
  import opened FlashLine
  import opened InvalidLog
  import opened FtlLine

  /** Where the next pair goes: the line, the end of its current LUN group in grains, the
      groups after that, and for collection whether the last page handed out is open. */
  datatype Frontier = Frontier(line: nat, gend: nat, left: nat, open: bool)

  /** All lines with their logs and histories. */
  datatype World = World(line: seq<Line>, log: seq<Log>, view: seq<View>, free: seq<nat>, away: set<nat>)

  /** Lines that hold no data: the free list, and the lines used for mapping pages. */
  ghost predicate Idle(w: World, l: nat) {
    l in w.free || l in w.away
  }

  ghost predicate Sized(c: Config, w: World) {
    |w.line| == |w.log| == |w.view| == c.lines
  }

  ghost predicate FreeOk(c: Config, w: World)
    requires Sized(c, w)
  {
    && (forall i :: 0 <= i < |w.free| ==> w.free[i] < c.lines)
    && (forall i, j :: 0 <= i < j < |w.free| ==> w.free[i] != w.free[j])
    && (forall l :: l in w.away ==> l < c.lines && l !in w.free)
    && (forall l: nat :: Idle(w, l) ==> l < c.lines && Blank(c, w.line[l], w.view[l]))
  }

  /** Every line but `skip` agrees with the words in `valid` and `live`. */
  ghost predicate LinesOk(c: Config, w: World, valid: set<nat>, live: set<nat>, skip: nat) {
    && Sized(c, w)
    && FreeOk(c, w)
    && forall l :: 0 <= l < c.lines && l != skip ==> LineOk(c, l, w.line[l], w.log[l], w.view[l], valid, live)
  }

  ghost predicate FrontierOk(c: Config, w: World, f: Frontier)
    requires Sized(c, w)
  {
    && f.line < c.lines && !Idle(w, f.line)
    && w.line[f.line].fill <= f.gend <= c.size
    && c.group <= f.gend && f.gend % 64 == 0 && f.gend + f.left * c.group == c.size
    && (Shorter(c, w.view[f.line].segs) && (Closing(f, w.line[f.line].fill) || (f.left == 0 && c.group < f.gend)) ==> 0 < w.line[f.line].igc)
  }

  /** The next page is of the last LUN group, or of the next line. */
  predicate Closing(f: Frontier, fill: nat) {
    f.left <= 1 && fill == f.gend
  }

  /** Lines that are neither free nor at a frontier are full, and have invalid grains if no pair
      of them is too long: some page before the last LUN group was cleared, or its last. */
  ghost predicate ClosedOk(c: Config, w: World, user: Frontier, gc: Frontier)
    requires Sized(c, w)
  {
    forall l :: 0 <= l < c.lines && !Idle(w, l) && l != user.line && l != gc.line ==>
      w.line[l].fill == c.size && (Shorter(c, w.view[l].segs) ==> 0 < w.line[l].igc)
  }

  ghost predicate FrontiersOk(c: Config, w: World, user: Frontier, gc: Frontier) {
    && Sized(c, w)
    && user.line != gc.line
    && FrontierOk(c, w, user) && FrontierOk(c, w, gc)
    && ClosedOk(c, w, user, gc)
    && (gc.open ==> w.line[gc.line].fill < gc.gend)
  }

  /** A hash index maps to the first grain of a pair of its own, with its length. */
  ghost predicate Mapped(c: Config, w: World, lpa: nat, grain: nat, len: nat)
    requires Sized(c, w)
  {
    && lpa < UINT_MAX
    && c.lineOf(grain) < c.lines && c.posOf(grain) < c.size && grain == c.grainOf(c.lineOf(grain), c.posOf(grain))
    && Seg(c.posOf(grain), len, Pair(lpa)) in w.view[c.lineOf(grain)].segs
  }

  ghost predicate Tabled(c: Config, w: World, table: map<nat, nat>, glen: map<nat, nat>)
  {
    && Sized(c, w)
    && glen.Keys == table.Keys
    && forall k :: k in table ==> Mapped(c, w, k, table[k], glen[k])
  }

  /** No pair starts at the grain. */
  ghost predicate NewGrain(c: Config, w: World, grain: nat)
  {
    && Sized(c, w) && c.lineOf(grain) < c.lines
    && forall s :: s in w.view[c.lineOf(grain)].segs ==> s.start != c.posOf(grain)
  }

  /** The words of the mappings of a table. */
  ghost function Words(table: map<nat, nat>): set<nat> {
    set k | k in table :: Word(k, table[k])
  }

  // ----- tables and their words -----

  lemma WordInTable(c: Config, w: World, table: map<nat, nat>, glen: map<nat, nat>, lpa: nat, grain: nat)
    requires Tabled(c, w, table, glen) && lpa < UINT_MAX
    ensures Word(lpa, grain) in Words(table) <==> lpa in table && table[lpa] == grain
  {
    if Word(lpa, grain) in Words(table) {
      var k :| k in table && Word(k, table[k]) == Word(lpa, grain);
      assert Mapped(c, w, k, table[k], glen[k]);
      WordInjective(k, table[k], lpa, grain);
    }
  }

  lemma WordsAre(c: Config, w: World, table: map<nat, nat>, glen: map<nat, nat>, lpa: nat)
    requires Tabled(c, w, table, glen) && lpa in table
    ensures forall k :: k in table && k != lpa ==> Word(k, table[k]) != Word(lpa, table[lpa])
    ensures lpa < UINT_MAX
  {
    assert Mapped(c, w, lpa, table[lpa], glen[lpa]);
    forall k | k in table && k != lpa
      ensures Word(k, table[k]) != Word(lpa, table[lpa])
    {
      assert Mapped(c, w, k, table[k], glen[k]);
      if Word(k, table[k]) == Word(lpa, table[lpa]) {
        WordInjective(k, table[k], lpa, table[lpa]);
      }
    }
  }

  /** Taking a hash index out of the table takes its word out. */
  lemma WordsRemove(c: Config, w: World, table: map<nat, nat>, glen: map<nat, nat>, lpa: nat)
    requires Tabled(c, w, table, glen) && lpa in table
    ensures Words(table - {lpa}) == Words(table) - {Word(lpa, table[lpa])}
  {
    hide Tabled, Word;
    WordsAre(c, w, table, glen, lpa);
    var r := table - {lpa};
    assert forall k :: k in r <==> k in table && k != lpa;
    assert forall k :: k in r ==> r[k] == table[k];
  }

  lemma WordsAdd(table: map<nat, nat>, lpa: nat, grain: nat)
    ensures Words(table[lpa := grain]) == Words(table - {lpa}) + {Word(lpa, grain)}
  {
    hide Word;
    var t', r := table[lpa := grain], table - {lpa};
    assert forall k :: k in t' <==> k in r || k == lpa;
    assert forall k :: k in r ==> t'[k] == r[k];
    forall q
      ensures q in Words(t') <==> q in Words(r) + {Word(lpa, grain)}
    {
      if q in Words(r) {
        var k :| k in r && Word(k, r[k]) == q;
        assert k in t' && Word(k, t'[k]) == q;
      }
      if q == Word(lpa, grain) {
        assert lpa in t' && Word(lpa, t'[lpa]) == q;
      }
    }
  }

  // ----- changing one line -----

  ghost function With(w: World, l: nat, line: Line, log: Log, v: View): World
    requires l < |w.line| == |w.log| == |w.view|
  {
    World(w.line[l := line], w.log[l := log], w.view[l := v], w.free, w.away)
  }

  /** A step on line `l` that changes only the word of a pair on `l` keeps all lines. */
  lemma LinesUpdate(c: Config, w: World, l: nat, line: Line, log: Log, v: View,
                    lpa: nat, grain: nat, valid: set<nat>, live: set<nat>, valid': set<nat>, live': set<nat>, skip: nat)
    requires c.Ok() && LinesOk(c, w, valid, live, skip) && l < c.lines && !Idle(w, l)
    requires LineOk(c, l, line, log, v, valid', live') || l == skip
    requires lpa < UINT_MAX && c.lineOf(grain) == l
    requires forall q :: q != Word(lpa, grain) ==> (q in valid <==> q in valid') && (q in live <==> q in live')
    ensures LinesOk(c, With(w, l, line, log, v), valid', live', skip)
  {
    var w' := With(w, l, line, log, v);
    forall m | 0 <= m < c.lines && m != skip
      ensures LineOk(c, m, w'.line[m], w'.log[m], w'.view[m], valid', live')
    {
      if m != l {
        forall s | s in w.view[m].segs && s.kind.Pair?
          ensures WordOf(c, m, s) != Word(lpa, grain)
        {
          WordsOfLines(c, m, w.line[m], w.view[m], s, Word(lpa, grain), lpa, grain);
        }
        LineFrame(c, m, w.line[m], w.log[m], w.view[m], valid, live, valid', live');
      }
    }
    assert FreeOk(c, w');
  }

  // ----- frontiers -----

  ghost predicate OnlyAt(w: World, w': World, l: nat) {
    && |w'.line| == |w.line| && |w'.view| == |w.view|
    && (forall m :: 0 <= m < |w.line| && m != l ==> w'.line[m] == w.line[m])
    && (forall m :: 0 <= m < |w.view| && m != l ==> w'.view[m] == w.view[m])
  }

  /** Lines only gain segments, the free list only loses its head, and line `skip` stays. */
  ghost predicate Grows(c: Config, w: World, w': World, skip: nat) {
    && Sized(c, w) && Sized(c, w')
    && (forall l :: 0 <= l < c.lines ==> w.view[l].segs <= w'.view[l].segs)
    && (forall l :: l in w'.free ==> l in w.free) && w'.away == w.away
    && (skip < c.lines ==> w'.view[skip] == w.view[skip] && w'.line[skip] == w.line[skip] && w'.log[skip] == w.log[skip])
  }

  lemma GrowsTrans(c: Config, w: World, w': World, w'': World, skip: nat)
    requires Grows(c, w, w', skip) && Grows(c, w', w'', skip)
    ensures Grows(c, w, w'', skip)
  {
  }

  lemma TabledGrows(c: Config, w: World, w': World, skip: nat, table: map<nat, nat>, glen: map<nat, nat>)
    requires Tabled(c, w, table, glen) && Grows(c, w, w', skip)
    ensures Tabled(c, w', table, glen)
  {
    forall k | k in table
      ensures Mapped(c, w', k, table[k], glen[k])
    {
      assert Mapped(c, w, k, table[k], glen[k]);
      var a, b := w.view[c.lineOf(table[k])].segs, w'.view[c.lineOf(table[k])].segs;
      var s := Seg(c.posOf(table[k]), glen[k], Pair(k));
      var i :| 0 <= i < |a| && a[i] == s;
      assert b[i] == s;
    }
  }

  /** The groups of a line are of one size: a group that is not the last has a next. */
  lemma NextGroup(size: nat, gend: nat, group: nat, left: nat)
    requires 0 < group && gend + left * group == size
    ensures left == 0 <==> gend == size
    ensures left > 0 ==> gend + group <= size && gend + group + (left - 1) * group == size
  {
    if left > 0 {
      assert left * group == (left - 1) * group + group;
    }
  }

  /** A pair fits at the frontier: `enough_space_in_line` looks one page ahead, so the
      last page of a LUN group is never used for pairs. */
  predicate Fits(fill: nat, gend: nat, len: nat) {
    fill + len + 64 <= gend
  }

  /** At the start of a group every pair of at most `group - 128` grains fits. */
  predicate AtGroupStart(c: Config, fill: nat, gend: nat) {
    fill + c.group <= gend + 64
  }

  /** Where a frontier stands: its line, the end of its LUN group, the groups after that,
      the grains used, and the lines it can go on to. */
  datatype Spot = Spot(line: nat, gend: nat, left: nat, fill: nat, free: seq<nat>)

  predicate CanRoll(s: Spot) {
    0 < s.left || s.free != []
  }

  /** The start of the next LUN group: of this line, or of the next free line, whose page 0
      is skipped if it is page 0 of the device. */
  function Rolled(c: Config, s: Spot): Spot
    requires CanRoll(s)
  {
    if 0 < s.left then s.(gend := s.gend + c.group, left := s.left - 1, fill := s.gend)
    else Spot(s.free[0], c.group, if 0 < c.groups then c.groups - 1 else 0, if s.free[0] == 0 then 64 else 0, s.free[1..])
  }

  /** A frontier that has used up its group goes to the next one first. */
  predicate Opens(s: Spot) {
    s.fill < s.gend || CanRoll(s)
  }

  function Opened(c: Config, s: Spot): Spot
    requires Opens(s)
  {
    if s.fill < s.gend then s else Rolled(c, s)
  }

  predicate HasRoom(c: Config, s: Spot, len: nat) {
    Opens(s) && (Fits(Opened(c, s).fill, Opened(c, s).gend, len) || CanRoll(Opened(c, s)))
  }

  /** Where a pair of `len` grains goes. There is no second look if it fits. */
  function NextSpot(c: Config, s: Spot, len: nat): Spot
    requires HasRoom(c, s, len)
  {
    var t := Opened(c, s);
    if Fits(t.fill, t.gend, len) then t else Rolled(c, t)
  }

  /** The LUN group in which a long pair ends. */
  function CatchUp(c: Config, f: Frontier, fill: nat): Frontier
    decreases f.left
  {
    if fill <= f.gend || f.left == 0 then f else CatchUp(c, f.(gend := f.gend + c.group, left := f.left - 1), fill)
  }

  /** The place behind a pair of `len` grains. */
  function Behind(c: Config, s: Spot, len: nat): Spot {
    var f := CatchUp(c, Frontier(s.line, s.gend, s.left, false), s.fill + len);
    s.(gend := f.gend, left := f.left, fill := s.fill + len)
  }

  /** A pair of `len` grains is stored: there is a place for it, it ends within the line, and
      if it uses up a LUN group there is a next one. */
  predicate Stores(c: Config, s: Spot, len: nat) {
    HasRoom(c, s, len) && NextSpot(c, s, len).fill + len <= c.size && Opens(Behind(c, NextSpot(c, s, len), len))
  }

  /** And this is where the frontier stands then. */
  function Landed(c: Config, s: Spot, len: nat): Spot
    requires Stores(c, s, len)
  {
    Opened(c, Behind(c, NextSpot(c, s, len), len))
  }

  /** A pair that does not fit goes to the start of the next LUN group, and is stored exactly if
      it ends before the end of that line, or with it and there is one more line. */
  lemma MisfitSpot(c: Config, s: Spot, len: nat)
    requires c.Ok() && s.fill < s.gend && s.gend + s.left * c.group == c.size && s.gend % 64 == 0 && !Fits(s.fill, s.gend, len) && 0 < len
    ensures var start := if 0 < s.left then s.gend else if s.free != [] && s.free[0] == 0 then 64 else 0;
            var lines := if 0 < s.left then |s.free| else |s.free| - 1;
            Stores(c, s, len) <==> 0 <= lines && (start + len < c.size || (start + len == c.size && 0 < lines))
  {
    hide Behind, Config.Ok;
    if CanRoll(s) {
      RolledOk(c, s);
      var n := Rolled(c, s);
      if n.fill + len <= c.size {
        EndsWithin(c, n, len);
      }
    }
  }

  lemma RolledOk(c: Config, s: Spot)
    requires c.Ok() && s.gend + s.left * c.group == c.size && s.gend % 64 == 0 && CanRoll(s)
    ensures var n := Rolled(c, s); n.gend + n.left * c.group == c.size && n.gend % 64 == 0
  {
    GroupsOfLine(c);
    NextGroup(c.size, s.gend, c.group, s.left);
    SumOfPages(s.gend, c.group);
  }

  lemma EndsWithin(c: Config, n: Spot, len: nat)
    requires c.Ok() && n.gend + n.left * c.group == c.size && n.gend % 64 == 0 && n.fill + len <= c.size
    ensures Opens(Behind(c, n, len)) <==> n.fill + len < c.size || n.free != []
  {
    var f := Frontier(n.line, n.gend, n.left, false);
    CatchUpOk(c, f, n.fill + len);
    var f' := CatchUp(c, f, n.fill + len);
    NextGroup(c.size, f'.gend, c.group, f'.left);
  }

  lemma CatchUpKeeps(c: Config, f: Frontier, fill: nat, open: bool)
    ensures CatchUp(c, f.(open := open), fill) == CatchUp(c, f, fill).(open := open)
    ensures CatchUp(c, f, fill).line == f.line && CatchUp(c, f, fill).open == f.open
    decreases f.left
  {
    if !(fill <= f.gend || f.left == 0) {
      CatchUpKeeps(c, f.(gend := f.gend + c.group, left := f.left - 1), fill, open);
    }
  }

  lemma {:induction false} CatchUpOk(c: Config, f: Frontier, fill: nat)
    requires c.Ok() && f.gend + f.left * c.group == c.size && f.gend % 64 == 0 && fill <= c.size
    ensures var f' := CatchUp(c, f, fill);
            && f.gend <= f'.gend <= c.size && fill <= f'.gend && f'.gend % 64 == 0 && f'.gend + f'.left * c.group == c.size
            && (if fill <= f.gend then f' == f else f'.gend < fill + c.group && f'.left < f.left)
    decreases f.left
  {
    NextGroup(c.size, f.gend, c.group, f.left);
    if !(fill <= f.gend || f.left == 0) {
      SumOfPages(f.gend, c.group);
      CatchUpOk(c, f.(gend := f.gend + c.group, left := f.left - 1), fill);
    }
  }

  /** A short pair is stored if it fits or there is a next group at all, and stays within it. */
  lemma ShortSpot(c: Config, s: Spot, len: nat)
    requires c.Ok() && s.fill <= s.gend && s.gend + s.left * c.group == c.size && 0 < len && len + 128 <= c.group
    ensures Stores(c, s, len) <==> Fits(s.fill, s.gend, len) || CanRoll(s)
    ensures HasRoom(c, s, len) <==> Stores(c, s, len)
    ensures Stores(c, s, len) ==>
      var n := if Fits(s.fill, s.gend, len) then s else Rolled(c, s);
      NextSpot(c, s, len) == n && Landed(c, s, len) == n.(fill := n.fill + len) && Fits(n.fill, n.gend, len)
  {
    NextGroup(c.size, s.gend, c.group, s.left);
    GroupsOfLine(c);
  }

  /** A step of the machine. */
  datatype Op =
    | Store(lpa: nat, len: nat)
    | Remove(lpa: nat)
    | Clean(victim: nat, order: seq<nat>)
    | Hand
    | Back(l: nat)
  {
    ghost predicate Fine(c: Config) {
      match this
      case Store(lpa, len) => lpa < UINT_MAX && 0 < len
      case Remove(lpa) => lpa < UINT_MAX
      case Clean(victim, order) => CoversPages(order, c.size)
      case Hand => true
      case Back(l) => true
    }
  }

  /** What a run means: only stores and deletes change the map from hash index to length. */
  ghost function Lengths(ops: seq<Op>, m: map<nat, nat>): map<nat, nat> {
    if ops == [] then m else After(ops[|ops| - 1], Lengths(ops[..|ops| - 1], m))
  }

  ghost function After(op: Op, m: map<nat, nat>): map<nat, nat> {
    match op
    case Store(lpa, len) => m[lpa := len]
    case Remove(lpa) => m - {lpa}
    case Clean(_, _) => m
    case Hand => m
    case Back(_) => m
  }

  lemma LengthsNext(ops: seq<Op>, n: nat, m: map<nat, nat>)
    requires n < |ops|
    ensures Lengths(ops[..n + 1], m) == After(ops[n], Lengths(ops[..n], m))
  {
    assert ops[..n + 1][..n] == ops[..n];
  }

  lemma TakeAll(ops: seq<Op>)
    ensures ops[..|ops|] == ops && ops[..0] == []
  {
  }

  /** A state of the machine. */
  datatype State = State(table: map<nat, nat>, glen: map<nat, nat>, w: World, user: Frontier, gc: Frontier)

  /** What a collection of `victim` keeps even if it fails: the indexes and their lengths,
      the lines of mapping pages, and the logs of the other lines. */
  ghost predicate Kept(p: State, q: State, victim: nat) {
    && q.glen == p.glen && q.table.Keys == p.table.Keys && q.w.away == p.w.away
    && |q.w.log| == |p.w.log| && forall l :: 0 <= l < |p.w.log| && l != victim ==> q.w.log[l] == p.w.log[l]
  }

  /** What it keeps up to the erase: also the frontier of stores, and the victim. */
  ghost predicate Since(p: State, q: State, victim: nat) {
    && Kept(p, q, victim) && q.user == p.user
    && |q.w.line| == |p.w.line| && |q.w.view| == |p.w.view|
    && (p.user.line < |p.w.line| ==> q.w.line[p.user.line].fill == p.w.line[p.user.line].fill)
    && (victim < |p.w.line| ==> q.w.line[victim] == p.w.line[victim])
    && (victim < |p.w.view| ==> q.w.view[victim] == p.w.view[victim])
  }

  /** Nothing but logs and histories has changed. */
  ghost predicate Still(p: State, q: State) {
    q.table == p.table && q.w.line == p.w.line && q.w.free == p.w.free && q.gc == p.gc
  }

  lemma SinceTrans(p: State, q: State, r: State, victim: nat)
    requires Since(p, q, victim) && (Since(q, r, victim) || Kept(q, r, victim))
    ensures Kept(p, r, victim) && (Since(q, r, victim) ==> Since(p, r, victim)) && (Still(p, q) && Still(q, r) ==> Still(p, r))
  {
  }

  lemma SinceSelf(p: State, victim: nat)
    ensures Since(p, p, victim) && Kept(p, p, victim) && Still(p, p)
  {
  }

  /** Where stores go on. */
  ghost function UserSpot(p: State): Spot {
    Spot(p.user.line, p.user.gend, p.user.left, if p.user.line < |p.w.line| then p.w.line[p.user.line].fill else 0, p.w.free)
  }

  /** A pair of `len` grains was stored under `lpa`. */
  ghost predicate DidPut(c: Config, p: State, q: State, lpa: nat, len: nat) {
    && Stores(c, UserSpot(p), len) && UserSpot(q) == Landed(c, UserSpot(p), len)
    && (var n := NextSpot(c, UserSpot(p), len); q.table == p.table[lpa := c.grainOf(n.line, n.fill)])
    && q.glen == p.glen[lpa := len] && q.gc == p.gc && q.w.away == p.w.away && GcSpot(q).(free := []) == GcSpot(p).(free := [])
    && q.w.log == if lpa in p.table then Logged(c, p.w.log, lpa, p.table[lpa]) else p.w.log
  }

  /** The pair of `lpa` was deleted. */
  ghost predicate DidDrop(c: Config, p: State, q: State, lpa: nat) {
    && lpa in p.table && q.table == p.table - {lpa} && q.glen == p.glen - {lpa}
    && UserSpot(q) == UserSpot(p) && GcSpot(q) == GcSpot(p) && q.gc == p.gc && q.w.away == p.w.away
    && q.w.log == Logged(c, p.w.log, lpa, p.table[lpa])
  }

  /** Where collection goes on. */
  ghost function GcSpot(p: State): Spot {
    Spot(p.gc.line, p.gc.gend, p.gc.left, if p.gc.line < |p.w.line| then p.w.line[p.gc.line].fill else 0, p.w.free)
  }

  /** Hash indexes of the pairs that a collection moves: those that were mapped, and that the
      log does not convict. */
  ghost function ToMove(c: Config, l: nat, was: set<nat>, dead: multiset<nat>, pairs: seq<Seg>): seq<nat> {
    if pairs == [] then []
    else
      var s := pairs[|pairs| - 1];
      ToMove(c, l, was, dead, pairs[..|pairs| - 1])
      + if s.kind.Pair? && WordOf(c, l, s) in was && WordOf(c, l, s) !in dead then [s.kind.lpa] else []
  }

  /** The words that it records again: of those that were neither mapped nor convicted. */
  ghost function ToLog(c: Config, l: nat, was: set<nat>, dead: multiset<nat>, pairs: seq<Seg>): seq<nat> {
    if pairs == [] then []
    else
      var s := pairs[|pairs| - 1];
      ToLog(c, l, was, dead, pairs[..|pairs| - 1])
      + if s.kind.Pair? && WordOf(c, l, s) !in was && WordOf(c, l, s) !in dead then [WordOf(c, l, s)] else []
  }

  /** The pairs of a line that a collection looks at, page by page; it passes over pages
      without valid grains. */
  ghost function Visits(segs: seq<Seg>, inv: seq<nat>, order: seq<nat>): seq<Seg> {
    if order == [] then [] else Visits(segs, inv, order[..|order| - 1]) + OnPage(segs, inv, order[|order| - 1])
  }

  ghost function OnPage(segs: seq<Seg>, inv: seq<nat>, k: nat): seq<Seg> {
    if k < |inv| && inv[k] == 64 then [] else StartsIn(segs, 64 * k, 64 * k + 64)
  }

  ghost function Viewed(p: State, victim: nat, order: seq<nat>): seq<Seg> {
    if victim < |p.w.view| && victim < |p.w.line| then Visits(p.w.view[victim].segs, p.w.line[victim].inv, order) else []
  }

  ghost function Dead(p: State, victim: nat): multiset<nat> {
    if victim < |p.w.log| then Drained(p.w.log[victim]) else multiset{}
  }

  ghost function Moves(c: Config, p: State, victim: nat, order: seq<nat>): seq<nat> {
    ToMove(c, victim, Words(p.table), Dead(p, victim), Viewed(p, victim, order))
  }

  ghost function BackIn(c: Config, p: State, victim: nat, order: seq<nat>): seq<nat> {
    ToLog(c, victim, Words(p.table), Dead(p, victim), Viewed(p, victim, order))
  }

  /** Where a frontier at `s` stands after the pairs of `moved`, one behind the other. */
  ghost function Trailed(c: Config, s: Spot, glen: map<nat, nat>, moved: seq<nat>): Spot {
    if moved == [] then s
    else
      var t, k := Trailed(c, s, glen, moved[..|moved| - 1]), moved[|moved| - 1];
      if k in glen && Stores(c, t, glen[k]) then Landed(c, t, glen[k]) else t
  }

  /** There is a place for each of them. */
  ghost predicate AllStored(c: Config, s: Spot, glen: map<nat, nat>, moved: seq<nat>) {
    forall i :: 0 <= i < |moved| ==> moved[i] in glen && Stores(c, Trailed(c, s, glen, moved[..i]), glen[moved[i]])
  }

  /** And there they are now; nothing else has moved. */
  ghost predicate Laid(c: Config, s: Spot, glen: map<nat, nat>, moved: seq<nat>, was: map<nat, nat>, now: map<nat, nat>) {
    && AllStored(c, s, glen, moved) && now.Keys == was.Keys
    && (forall i :: 0 <= i < |moved| ==> PutAt(c, Trailed(c, s, glen, moved[..i]), glen, moved[i], now))
    && (forall k :: k in was ==> (k in moved <==> now[k] != was[k]))
  }

  ghost predicate PutAt(c: Config, s: Spot, glen: map<nat, nat>, k: nat, now: map<nat, nat>) {
    && k in glen && k in now && HasRoom(c, s, glen[k])
    && var n := NextSpot(c, s, glen[k]); now[k] == c.grainOf(n.line, n.fill)
  }

  lemma LaidNext(c: Config, s: Spot, glen: map<nat, nat>, moved: seq<nat>, was: map<nat, nat>, now: map<nat, nat>, now': map<nat, nat>, k: nat)
    requires Laid(c, s, glen, moved, was, now) && k in was && k in now' && now[k] == was[k] != now'[k] && now' == now[k := now'[k]]
    requires k in glen && Stores(c, Trailed(c, s, glen, moved), glen[k]) && PutAt(c, Trailed(c, s, glen, moved), glen, k, now')
    ensures Laid(c, s, glen, moved + [k], was, now') && moved + [k] != []
    ensures Trailed(c, s, glen, moved + [k]) == Landed(c, Trailed(c, s, glen, moved), glen[k])
  {
    hide Stores, Landed, HasRoom, NextSpot;
    var all := moved + [k];
    assert all[..|moved|] == moved;
    forall i | 0 <= i < |all|
      ensures all[i] in glen && Stores(c, Trailed(c, s, glen, all[..i]), glen[all[i]]) && PutAt(c, Trailed(c, s, glen, all[..i]), glen, all[i], now')
    {
      if i < |moved| {
        assert all[..i] == moved[..i];
        assert PutAt(c, Trailed(c, s, glen, moved[..i]), glen, moved[i], now);
      }
    }
  }

  /** The pairs of `pairs` were visited between states `p` and `q`: those to move are behind
      each other at the frontier of collection, and those to record again are all that is in
      the log. */
  ghost predicate LaidOn(c: Config, p: State, q: State, victim: nat, pairs: seq<Seg>) {
    var moved := ToMove(c, victim, Words(p.table), Dead(p, victim), pairs);
    && q.glen == p.glen && Laid(c, GcSpot(p), p.glen, moved, p.table, q.table)
    && GcSpot(q) == Trailed(c, GcSpot(p), p.glen, moved) && (q.gc.open <==> p.gc.open || moved != [])
    && victim < |q.w.log| && Entries(q.w.log[victim]) == ToLog(c, victim, Words(p.table), Dead(p, victim), pairs)
  }

  lemma LaidOnIs(c: Config, p: State, q: State, victim: nat, pairs: seq<Seg>)
    requires LaidOn(c, p, q, victim, pairs)
    ensures var moved := ToMove(c, victim, Words(p.table), Dead(p, victim), pairs);
            && AllStored(c, GcSpot(p), p.glen, moved) && q.glen == p.glen && q.table.Keys == p.table.Keys
            && Laid(c, GcSpot(p), p.glen, moved, p.table, q.table)
            && GcSpot(q) == Trailed(c, GcSpot(p), p.glen, moved) && (q.gc.open <==> p.gc.open || moved != [])
            && victim < |q.w.log| && Entries(q.w.log[victim]) == ToLog(c, victim, Words(p.table), Dead(p, victim), pairs)
  {
    hide AllStored, Trailed, ToMove, ToLog, Dead, Entries;
    LaidStored(c, GcSpot(p), p.glen, ToMove(c, victim, Words(p.table), Dead(p, victim), pairs), p.table, q.table);
  }

  /** A pair was moved. */
  lemma LayMoved(c: Config, p: State, q: State, q': State, victim: nat, pairs: seq<Seg>, s: Seg)
    requires LaidOn(c, p, q, victim, pairs) && s.kind.Pair?
    requires WordOf(c, victim, s) in Words(p.table) && WordOf(c, victim, s) !in Dead(p, victim)
    requires var k := s.kind.lpa;
             && k in p.table && k in q.table && k in q'.table && q.table[k] == p.table[k] != q'.table[k] && q'.table == q.table[k := q'.table[k]]
             && k in q.glen && q.glen[k] == s.len && q'.glen == q.glen
             && Stores(c, GcSpot(q), s.len) && PutAt(c, GcSpot(q), q.glen, k, q'.table)
             && GcSpot(q') == Landed(c, GcSpot(q), s.len) && q'.gc.open && q'.w.log == q.w.log
    ensures LaidOn(c, p, q', victim, pairs + [s])
  {
    hide Stores, Landed, PutAt, Trailed, Laid, ToMove, ToLog, WordOf, Words, Dead, Entries;
    OneToMove(c, victim, Words(p.table), Dead(p, victim), pairs, s);
    LaidNext(c, GcSpot(p), p.glen, ToMove(c, victim, Words(p.table), Dead(p, victim), pairs), p.table, q.table, q'.table, s.kind.lpa);
  }

  /** A pair to move is moved exactly if there is a place for it. */
  lemma LayStops(c: Config, p: State, q: State, victim: nat, pairs: seq<Seg>, s: Seg)
    requires LaidOn(c, p, q, victim, pairs) && s.kind.Pair?
    requires WordOf(c, victim, s) in Words(p.table) && WordOf(c, victim, s) !in Dead(p, victim)
    requires s.kind.lpa in q.glen && q.glen[s.kind.lpa] == s.len
    ensures Stores(c, GcSpot(q), s.len) <==> AllStored(c, GcSpot(p), p.glen, ToMove(c, victim, Words(p.table), Dead(p, victim), pairs + [s]))
  {
    hide Stores, Landed, PutAt, Trailed, Laid, AllStored, ToMove, ToLog, WordOf, Words, Dead, Entries;
    var moved := ToMove(c, victim, Words(p.table), Dead(p, victim), pairs);
    OneToMove(c, victim, Words(p.table), Dead(p, victim), pairs, s);
    LaidStored(c, GcSpot(p), p.glen, moved, p.table, q.table);
    StoredNext(c, GcSpot(p), p.glen, moved, s.kind.lpa);
  }

  /** The word of a pair was recorded again. */
  lemma LayLogged(c: Config, p: State, q: State, q': State, victim: nat, pairs: seq<Seg>, s: Seg)
    requires LaidOn(c, p, q, victim, pairs) && s.kind.Pair?
    requires WordOf(c, victim, s) !in Words(p.table) && WordOf(c, victim, s) !in Dead(p, victim)
    requires q'.table == q.table && q'.glen == q.glen && GcSpot(q') == GcSpot(q) && q'.gc == q.gc
    requires victim < |q.w.log| == |q'.w.log| && Entries(q'.w.log[victim]) == Entries(q.w.log[victim]) + [WordOf(c, victim, s)]
    ensures LaidOn(c, p, q', victim, pairs + [s])
  {
    hide Laid, ToMove, ToLog, WordOf, Words, Dead, Entries, Trailed, GcSpot;
    OneToMove(c, victim, Words(p.table), Dead(p, victim), pairs, s);
  }

  /** A pair that the log convicts was passed over. */
  lemma LayPassed(c: Config, p: State, q: State, victim: nat, pairs: seq<Seg>, s: Seg)
    requires LaidOn(c, p, q, victim, pairs) && s.kind.Pair? && WordOf(c, victim, s) in Dead(p, victim)
    ensures LaidOn(c, p, q, victim, pairs + [s])
  {
    hide Laid, ToMove, ToLog, WordOf, Words, Dead, Entries, Trailed, GcSpot;
    OneToMove(c, victim, Words(p.table), Dead(p, victim), pairs, s);
  }

  lemma StoredNext(c: Config, s: Spot, glen: map<nat, nat>, moved: seq<nat>, k: nat)
    requires AllStored(c, s, glen, moved)
    ensures AllStored(c, s, glen, moved + [k]) <==> k in glen && Stores(c, Trailed(c, s, glen, moved), glen[k])
  {
    hide Stores, Landed;
    var all := moved + [k];
    assert all[..|moved|] == moved;
    forall i | 0 <= i < |moved|
      ensures all[i] in glen && Stores(c, Trailed(c, s, glen, all[..i]), glen[all[i]])
    {
      assert all[..i] == moved[..i];
    }
  }

  lemma StoredBefore(c: Config, s: Spot, glen: map<nat, nat>, moved: seq<nat>, more: seq<nat>)
    requires AllStored(c, s, glen, moved + more)
    ensures AllStored(c, s, glen, moved)
  {
    hide Stores, Landed;
    var all := moved + more;
    forall i | 0 <= i < |moved|
      ensures moved[i] in glen && Stores(c, Trailed(c, s, glen, moved[..i]), glen[moved[i]])
    {
      assert all[..i] == moved[..i] && all[i] == moved[i];
    }
  }

  lemma {:induction false} ToMoveMore(c: Config, l: nat, was: set<nat>, dead: multiset<nat>, pairs: seq<Seg>, more: seq<Seg>)
    ensures ToMove(c, l, was, dead, pairs + more) == ToMove(c, l, was, dead, pairs) + ToMove(c, l, was, dead, more)
  {
    hide WordOf;
    if more == [] {
      assert pairs + more == pairs;
    } else {
      var front := more[..|more| - 1];
      assert (pairs + more)[..|pairs + more| - 1] == pairs + front;
      ToMoveMore(c, l, was, dead, pairs, front);
    }
  }

  lemma OneToMove(c: Config, l: nat, was: set<nat>, dead: multiset<nat>, pairs: seq<Seg>, s: Seg)
    requires s.kind.Pair?
    ensures var move := WordOf(c, l, s) in was && WordOf(c, l, s) !in dead;
            ToMove(c, l, was, dead, pairs + [s]) == if move then ToMove(c, l, was, dead, pairs) + [s.kind.lpa] else ToMove(c, l, was, dead, pairs)
    ensures var back := WordOf(c, l, s) !in was && WordOf(c, l, s) !in dead;
            ToLog(c, l, was, dead, pairs + [s]) == if back then ToLog(c, l, was, dead, pairs) + [WordOf(c, l, s)] else ToLog(c, l, was, dead, pairs)
  {
    hide WordOf;
    assert (pairs + [s])[..|pairs|] == pairs;
    assert ToMove(c, l, was, dead, pairs) + [] == ToMove(c, l, was, dead, pairs);
    assert ToLog(c, l, was, dead, pairs) + [] == ToLog(c, l, was, dead, pairs);
  }

  lemma {:induction false} NoneToMove(c: Config, l: nat, was: set<nat>, dead: multiset<nat>, pairs: seq<Seg>)
    requires forall s :: s in pairs && s.kind.Pair? ==> WordOf(c, l, s) !in was
    ensures ToMove(c, l, was, dead, pairs) == []
  {
    if pairs != [] {
      NoneToMove(c, l, was, dead, pairs[..|pairs| - 1]);
    }
  }

  lemma {:induction false} VisitsIn(segs: seq<Seg>, inv: seq<nat>, order: seq<nat>, s: Seg)
    ensures s in Visits(segs, inv, order) ==> s in segs && s.kind.Pair?
  {
    if order != [] {
      var k := order[|order| - 1];
      VisitsIn(segs, inv, order[..|order| - 1], s);
      StartsMembers(segs, 64 * k, 64 * k + 64, s);
    }
  }

  lemma {:induction false} LoggedAre(c: Config, l: nat, was: set<nat>, dead: multiset<nat>, pairs: seq<Seg>, w: nat)
    ensures w in ToLog(c, l, was, dead, pairs) <==> exists s :: s in pairs && s.kind.Pair? && w == WordOf(c, l, s) && w !in was && w !in dead
  {
    hide WordOf;
    if pairs != [] {
      var front, s := pairs[..|pairs| - 1], pairs[|pairs| - 1];
      LoggedAre(c, l, was, dead, front, w);
      assert forall t :: t in pairs <==> t in front || t == s;
    }
  }

  /** The open page is filled up at the end of a collection. */
  ghost function Finished(s: Spot, open: bool): Spot {
    if open then s.(fill := (s.fill / 64 + 1) * 64) else s
  }

  function ErasedLine(c: Config): Line {
    Line(seq(c.size, _ => 2), 0, 0, 0, seq(c.size / 64, _ => 0))
  }

  /** A data line that can be collected: no store is on it, and if the write pointer of
      collection is, it is full. */
  ghost predicate Collectable(c: Config, p: State, victim: nat) {
    && victim < c.lines && victim !in p.w.free && victim !in p.w.away && victim != p.user.line
    && (victim == p.gc.line ==> victim < |p.w.line| && p.w.line[victim].fill == c.size && !p.gc.open)
  }

  /** Where the pairs of the victim go: if the write pointer of collection has just filled it,
      to the next line. */
  ghost function From(c: Config, p: State, victim: nat): Spot {
    if victim == p.gc.line && CanRoll(GcSpot(p)) then Rolled(c, GcSpot(p)) else GcSpot(p)
  }

  /** There is a place for every pair that a collection has to move. */
  ghost predicate CanClean(c: Config, p: State, victim: nat, order: seq<nat>) {
    (victim == p.gc.line ==> CanRoll(GcSpot(p))) && AllStored(c, From(c, p, victim), p.glen, Moves(c, p, victim, order))
  }

  /** Line `victim` was collected: its pairs are behind each other at the frontier of
      collection, and it is erased and at the end of the free list. */
  ghost predicate DidClean(c: Config, p: State, q: State, victim: nat, order: seq<nat>) {
    var from, moved := From(c, p, victim), Moves(c, p, victim, order);
    var to := Trailed(c, from, p.glen, moved);
    && Kept(p, q, victim) && Laid(c, from, p.glen, moved, p.table, q.table) && OnlyDoomed(c, q.table, p, victim)
    && GcSpot(q) == Finished(to, p.gc.open || moved != []).(free := to.free + [victim]) && !q.gc.open
    && UserSpot(q).(free := []) == UserSpot(p).(free := [])
    && victim < |q.w.line| && q.w.line[victim] == ErasedLine(c)
    && victim < |p.w.line| && victim < |p.w.log|
    && if p.w.line[victim].vgc > 0 then Entries(q.w.log[victim]) == BackIn(c, p, victim, order) else q.w.log[victim] == p.w.log[victim]
  }

  /** After the pairs of the victim were moved, the open page is finished and the line erased. */
  lemma CleanDone(c: Config, p: State, q: State, r: State, victim: nat, order: seq<nat>)
    requires victim != p.gc.line && Kept(p, r, victim) && OnlyDoomed(c, r.table, p, victim)
    requires Laid(c, GcSpot(p), p.glen, Moves(c, p, victim, order), p.table, q.table) && r.table == q.table && r.w.log == q.w.log
    requires GcSpot(q) == Trailed(c, GcSpot(p), p.glen, Moves(c, p, victim, order))
    requires q.gc.open <==> p.gc.open || Moves(c, p, victim, order) != []
    requires r.gc == q.gc.(open := false) && GcSpot(r) == Finished(GcSpot(q), q.gc.open).(free := q.w.free + [victim])
    requires UserSpot(r).(free := []) == UserSpot(p).(free := []) && victim < |r.w.line| && r.w.line[victim] == ErasedLine(c)
    requires victim < |p.w.line| && victim < |p.w.log|
    requires if p.w.line[victim].vgc > 0 then Entries(q.w.log[victim]) == BackIn(c, p, victim, order) else q.w.log == p.w.log
    ensures DidClean(c, p, r, victim, order)
  {
    hide Laid, Trailed, Moves, BackIn, OnlyDoomed, ErasedLine, Entries;
  }

  lemma NoNextLine(c: Config, p: State, victim: nat, order: seq<nat>)
    requires victim == p.gc.line && !CanRoll(GcSpot(p))
    ensures !CanClean(c, p, victim, order)
  {
  }

  /** A collection of the line that the write pointer of collection has just filled. */
  lemma CleanRolled(c: Config, p: State, p': State, victim: nat, order: seq<nat>)
    requires victim == p.gc.line != p'.gc.line && CanRoll(GcSpot(p)) && GcSpot(p') == Rolled(c, GcSpot(p)) && p'.gc.open == p.gc.open
    requires p'.table == p.table && p'.glen == p.glen && p'.w.log == p.w.log && p'.w.away == p.w.away
    requires UserSpot(p').(free := []) == UserSpot(p).(free := [])
    requires victim < |p.w.line| == |p'.w.line| && victim < |p.w.view| == |p'.w.view|
    requires p'.w.line[victim] == p.w.line[victim] && p'.w.view[victim] == p.w.view[victim]
    ensures CanClean(c, p, victim, order) <==> CanClean(c, p', victim, order)
    ensures forall q :: DidClean(c, p', q, victim, order) ==> DidClean(c, p, q, victim, order)
    ensures OnlyDoomed(c, p.table, p, victim) <==> OnlyDoomed(c, p'.table, p', victim)
  {
    hide Rolled, Visits, ToMove, ToLog, Drained, Words, Laid, Trailed, AllStored, ErasedLine, Entries;
    assert Moves(c, p', victim, order) == Moves(c, p, victim, order);
    assert BackIn(c, p', victim, order) == BackIn(c, p, victim, order);
    forall q | DidClean(c, p', q, victim, order)
      ensures DidClean(c, p, q, victim, order)
    {
      assert OnlyDoomed(c, q.table, p, victim);
    }
  }

  /** Line `victim` was collected though its log convicts every pair that is mapped into it. */
  ghost predicate DidSweep(p: State, q: State, victim: nat) {
    && q.table == p.table && q.w.away == p.w.away && q.gc == p.gc.(open := false)
    && UserSpot(q) == UserSpot(p).(free := p.w.free + [victim])
    && (victim < |p.w.line| && p.w.line[victim].vgc <= 0 ==> q.w.log == p.w.log)
  }

  /** All logs after a mapping was recorded in the log of its line. */
  function Logged(c: Config, log: seq<Log>, lpa: nat, grain: nat): seq<Log> {
    var l := c.lineOf(grain);
    if l < |log| && |log[l].buf| <= PER_PAGE then log[l := Record(log[l], lpa, grain)] else log
  }

  /** What a step is specified to do. */
  ghost predicate DidStep(c: Config, op: Op, p: State, q: State) {
    match op
    case Store(lpa, len) => DidPut(c, p, q, lpa, len)
    case Remove(lpa) => if lpa in p.table then DidDrop(c, p, q, lpa) else q == p
    case Clean(victim, order) => if Collectable(c, p, victim) then DidClean(c, p, q, victim, order) else q == p
    case Hand => q == if p.w.free == [] then p else p.(w := p.w.(free := p.w.free[1..], away := p.w.away + {p.w.free[0]}))
    case Back(l) => q == if l in p.w.away then p.(w := p.w.(free := p.w.free + [l], away := p.w.away - {l})) else p
  }

  /** And when it can be done, with no mapping lost. */
  ghost predicate CanStep(c: Config, op: Op, p: State) {
    match op
    case Store(lpa, len) => Stores(c, UserSpot(p), len)
    case Clean(victim, order) => Collectable(c, p, victim) ==> CanClean(c, p, victim, order) && NoneDoomed(c, p.table, p.w.log, victim)
    case _ => true
  }

  class Shard {
    const c: Config
    var table: map<nat, nat>
    var line: seq<Line>
    var log: seq<Log>
    var free: seq<nat>
    var away: set<nat>
    var user: Frontier
    var gc: Frontier
    ghost var view: seq<View>
    ghost var glen: map<nat, nat>

    ghost function W(): World
      reads this
    {
      World(line, log, view, free, away)
    }

    /** The frontier of stores or of collection. */
    function At(isGc: bool): Frontier
      reads this
    {
      if isGc then gc else user
    }

    ghost function Here(isGc: bool): Spot
      reads this
    {
      var f := At(isGc);
      Spot(f.line, f.gend, f.left, if f.line < |line| then line[f.line].fill else 0, free)
    }

    ghost function Now(): State
      reads this
    {
      State(table, glen, W(), user, gc)
    }

    ghost predicate Steady(valid: set<nat>, live: set<nat>, skip: nat)
      reads this
    {
      && c.Ok()
      && LinesOk(c, W(), valid, live, skip)
      && FrontiersOk(c, W(), user, gc)
      && skip != user.line && skip != gc.line
    }

    ghost predicate Valid()
      reads this
    {
      Steady(Words(table), Words(table), c.lines) && Tabled(c, W(), table, glen)
    }

    /** A formatted device: all lines erased, the first four handed to the write pointers
        for stores, mapping pages, collected mapping pages and collection; page 0 of the
        device is never used. */
    constructor (c: Config)
      requires c.Ok() && 4 <= c.lines
      ensures Valid() && this.c == c && table == map[] && glen == map[]
      ensures Here(false) == Spot(0, c.group, c.groups - 1, 64, seq(c.lines - 4, i => 4 + i))
      ensures gc == Frontier(3, c.group, c.groups - 1, false) && away == {1, 2} && log == seq(c.lines, _ => EMPTY)
    {
      hide Tabled, Words, LinesOk, FrontiersOk, Grows;
      var r := ErasedLine(c);
      this.c := c;
      table, glen := map[], map[];
      line, log := seq(c.lines, _ => r), seq(c.lines, _ => EMPTY);
      view := seq(c.lines, _ => View(NOTHING, seq(c.size, _ => false), []));
      free, away := seq(c.lines - 4, i => 4 + i), {1, 2};
      user, gc := Frontier(0, c.group, c.groups - 1, false), Frontier(3, c.group, c.groups - 1, false);
      new;
      Formatted(c, W(), r, View(NOTHING, seq(c.size, _ => false), []));
      ghost var w := W();
      LineAt(c, w, user, gc, false);
      Clear(false, 64, false, Words(table), Words(table), c.lines);
      TabledGrows(c, w, W(), c.lines, table, glen);
    }

    /** A write pointer for mapping pages takes a free line. */
    method Lend() returns (ok: bool)
      requires Valid()
      modifies this`free, this`away
      ensures Valid() && ok == (old(free) != [])
      ensures ok ==> free == old(free)[1..] && away == old(away) + {old(free)[0]}
      ensures !ok ==> free == old(free) && away == old(away)
    {
      hide Words;
      ok := free != [];
      if ok {
        Lent(c, W(), Words(table), user, gc, table, glen);
        away := away + {free[0]};
        free := free[1..];
      }
    }

    /** A line of mapping pages has been collected and erased. */
    method Return(l: nat)
      requires Valid() && l in away
      modifies this`free, this`away
      ensures Valid() && free == old(free) + [l] && away == old(away) - {l}
    {
      hide Words;
      Returned(c, W(), Words(table), user, gc, table, glen, l);
      free := free + [l];
      away := away - {l};
    }

    method SetAt(isGc: bool, f: Frontier)
      modifies this`user, this`gc
      ensures isGc ==> gc == f && user == old(user)
      ensures !isGc ==> user == f && gc == old(gc)
    {
      if isGc { gc := f; } else { user := f; }
    }

    /** Take filler up to `end` on the line of a frontier. */
    method Clear(isGc: bool, end: nat, marked: bool, ghost valid: set<nat>, ghost live: set<nat>, ghost skip: nat)
      requires Steady(valid, live, skip) && end % 64 == 0
      requires line[At(isGc).line].fill < end <= At(isGc).gend
      requires marked || (line[At(isGc).line].fill == 0 && end == 64 && At(isGc).line == 0)
      modifies this`line, this`view, this`user, this`gc
      ensures Steady(valid, live, skip) && Grows(c, old(W()), W(), skip)
      ensures line[At(isGc).line].fill == end && At(isGc) == old(At(isGc)).(open := false) && At(!isGc) == old(At(!isGc))
      ensures OnlyAt(old(W()), W(), At(isGc).line) && 0 < line[At(isGc).line].igc
    {
      hide LinesOk, FrontiersOk, LineOk, Counted, PairWords;
      LineAt(c, W(), user, gc, isGc);
      var l := At(isGc).line;
      ghost var w, v := W(), view[l];
      CountedLine(c, w, l, valid, live, skip);
      var r := ClearOnLine(line[l], end, marked, v);
      ghost var s := Seg(line[l].fill, end - line[l].fill, Gap(marked));
      ghost var v' := v.(segs := v.segs + [s], dead := Kill(v.dead, s.start, s.End()));
      LineCleared(c, l, line[l], r, log[l], v, valid, live, s);
      LinesUpdate(c, w, l, r, log[l], v', 0, c.grainOf(l, 0), valid, live, valid, live, skip);
      SpotOk(c, w, user, gc, isGc);
      FrontierGrown(c, w, user, gc, isGc, r, v', At(isGc).(open := false), skip);
      line := line[l := r];
      view := view[l := v'];
      SetAt(isGc, At(isGc).(open := false));
      assert W() == With(w, l, r, w.log[l], v');
    }

    /** The frontier is at the start of its line, or grains of that are invalid. */
    ghost predicate Begins(isGc: bool)
      reads this
    {
      && At(isGc).line < |line|
      && (0 < line[At(isGc).line].igc || (line[At(isGc).line].fill == 0 && At(isGc).gend == c.group))
    }

    /** The frontier has used up its LUN group: go to the next one, on a new line if it
        was the last. Without a free line the source stops (BUG_ON). */
    method Roll(isGc: bool, ghost valid: set<nat>, ghost live: set<nat>, ghost skip: nat) returns (ok: bool)
      requires Steady(valid, live, skip) && line[At(isGc).line].fill == At(isGc).gend && (isGc ==> !gc.open)
      requires !Idle(W(), skip)
      modifies this
      ensures table == old(table) && glen == old(glen) && log == old(log) && away == old(away)
      ensures ok ==> Steady(valid, live, skip) && Grows(c, old(W()), W(), skip) && !Idle(W(), skip)
      ensures ok ==> AtGroupStart(c, line[At(isGc).line].fill, At(isGc).gend) && line[At(isGc).line].fill + 64 < At(isGc).gend
      ensures At(!isGc) == old(At(!isGc)) && (ok ==> At(isGc).open == old(At(isGc)).open)
      ensures ok ==> OnlyAt(old(W()), W(), At(isGc).line)
      ensures ok == CanRoll(old(Here(isGc))) && (ok ==> Here(isGc) == Rolled(c, old(Here(isGc))))
      ensures ok && 0 < old(line[At(isGc).line].igc) ==> Begins(isGc)
      ensures !ok ==> free == []
    {
      hide LinesOk, FrontiersOk;
      var f := At(isGc);
      LineAt(c, W(), user, gc, isGc);
      LeftGroups(c, W(), user, gc, isGc);
      if f.left > 0 {
        GroupRolled(c, W(), user, gc, isGc, skip);
        SetAt(isGc, f.(gend := f.gend + c.group, left := f.left - 1));
        return true;
      }
      if free == [] {
        return false;
      }
      ok := true;
      StartLine(isGc, valid, live, skip);
    }

    /** Take a free line, but not page 0 of the device, which is never used. */
    method StartLine(isGc: bool, ghost valid: set<nat>, ghost live: set<nat>, ghost skip: nat)
      requires Steady(valid, live, skip) && line[At(isGc).line].fill == c.size && (isGc ==> !gc.open)
      requires !Idle(W(), skip) && free != []
      modifies this`line, this`view, this`free, this`user, this`gc
      ensures Steady(valid, live, skip) && Grows(c, old(W()), W(), skip) && !Idle(W(), skip)
      ensures At(isGc).gend == c.group && line[At(isGc).line].fill == (if At(isGc).line == 0 then 64 else 0)
      ensures At(isGc) == Frontier(old(free)[0], c.group, c.groups - 1, old(At(isGc)).open) && free == old(free)[1..]
      ensures At(!isGc) == old(At(!isGc)) && Begins(isGc) && OnlyAt(old(W()), W(), At(isGc).line)
    {
      hide LinesOk, FrontiersOk, Grows;
      var open := At(isGc).open;
      TakeLine(isGc, valid, live, skip);
      LineAt(c, W(), user, gc, isGc);
      if At(isGc).line == 0 {
        ghost var w := W();
        Clear(isGc, 64, false, valid, live, skip);
        GrowsTrans(c, old(W()), w, W(), skip);
        Reopened(c, W(), user, gc, isGc, open);
        SetAt(isGc, At(isGc).(open := open));
      }
    }

    method TakeLine(isGc: bool, ghost valid: set<nat>, ghost live: set<nat>, ghost skip: nat)
      requires Steady(valid, live, skip) && line[At(isGc).line].fill == c.size && (isGc ==> !gc.open)
      requires !Idle(W(), skip) && free != []
      modifies this`free, this`user, this`gc
      ensures Steady(valid, live, skip) && Grows(c, old(W()), W(), skip) && !Idle(W(), skip)
      ensures line[At(isGc).line].fill == 0 && At(isGc) == Frontier(old(free)[0], c.group, c.groups - 1, old(At(isGc)).open)
      ensures free == old(free)[1..]
      ensures At(isGc).open == old(At(isGc)).open && At(!isGc) == old(At(!isGc))
    {
      hide LineOk, Counted, Blank;
      NewLine(c, W(), user, gc, isGc, valid, live, skip);
      var l := free[0];
      free := free[1..];
      SetAt(isGc, Frontier(l, c.group, c.groups - 1, At(isGc).open));
    }

    /** Go to the next LUN group if this one is used up. */
    method OpenGroup(isGc: bool, ghost valid: set<nat>, ghost live: set<nat>, ghost skip: nat) returns (ok: bool)
      requires Steady(valid, live, skip) && !Idle(W(), skip)
      modifies this
      ensures table == old(table) && glen == old(glen) && log == old(log) && away == old(away)
      ensures ok ==> Steady(valid, live, skip) && !Idle(W(), skip) && Grows(c, old(W()), W(), skip)
      ensures At(!isGc) == old(At(!isGc)) && (ok ==> Here(!isGc).(free := []) == old(Here(!isGc)).(free := []))
      ensures ok == Opens(old(Here(isGc))) && (ok ==> Here(isGc) == Opened(c, old(Here(isGc))) && Here(isGc).fill < Here(isGc).gend)
      ensures !ok ==> free == []
    {
      hide LinesOk, FrontiersOk, Rolled;
      ok := true;
      LineAt(c, W(), user, gc, isGc);
      GrowsSelf(c, W(), skip);
      if line[At(isGc).line].fill == At(isGc).gend {
        ok := Roll(isGc, valid, live, skip);
        if ok {
          LineAt(c, W(), user, gc, isGc);
        }
      }
    }

    /** Clear what is left of the LUN group and go to the next. */
    method SkipGroup(isGc: bool, ghost valid: set<nat>, ghost live: set<nat>, ghost skip: nat) returns (ok: bool)
      requires Steady(valid, live, skip) && !Idle(W(), skip) && Here(isGc).fill < Here(isGc).gend
      modifies this
      ensures table == old(table) && glen == old(glen) && log == old(log) && away == old(away)
      ensures ok ==> Steady(valid, live, skip) && !Idle(W(), skip) && Grows(c, old(W()), W(), skip)
      ensures At(!isGc) == old(At(!isGc)) && (ok ==> Here(!isGc).(free := []) == old(Here(!isGc)).(free := []))
      ensures ok == CanRoll(old(Here(isGc))) && (ok ==> Here(isGc) == Rolled(c, old(Here(isGc))) && Here(isGc).fill < Here(isGc).gend)
      ensures ok ==> Begins(isGc)
      ensures !ok ==> free == []
    {
      hide LinesOk, FrontiersOk;
      LineAt(c, W(), user, gc, isGc);
      ghost var w := W();
      Clear(isGc, At(isGc).gend, true, valid, live, skip);
      ghost var w' := W();
      LineAt(c, w', user, gc, isGc);
      ok := Roll(isGc, valid, live, skip);
      if ok {
        GrowsTrans(c, w, w', W(), skip);
        LineAt(c, W(), user, gc, isGc);
      }
    }

    /** Find the place of a pair: go to the next LUN group if this one is used up, and skip to
        the next if the pair does not fit. The source does not look again if it fits there. */
    method MakeRoom(isGc: bool, len: nat, ghost valid: set<nat>, ghost live: set<nat>, ghost skip: nat) returns (ok: bool)
      requires Steady(valid, live, skip) && !Idle(W(), skip) && 0 < len
      modifies this
      ensures table == old(table) && glen == old(glen) && log == old(log) && away == old(away)
      ensures ok ==> Steady(valid, live, skip) && !Idle(W(), skip) && Grows(c, old(W()), W(), skip)
      ensures At(!isGc) == old(At(!isGc)) && (ok ==> Here(!isGc).(free := []) == old(Here(!isGc)).(free := []))
      ensures ok == HasRoom(c, old(Here(isGc)), len)
      ensures ok ==> Here(isGc) == NextSpot(c, old(Here(isGc)), len) && Here(isGc).fill < Here(isGc).gend
      ensures ok ==> Fits(Here(isGc).fill, Here(isGc).gend, len) || Begins(isGc)
      ensures !ok ==> free == []
    {
      hide LinesOk, FrontiersOk, Opened, Opens, Rolled, CanRoll, Grows;
      ok := OpenGroup(isGc, valid, live, skip);
      if !ok { return; }
      LineAt(c, W(), user, gc, isGc);
      if !Fits(line[At(isGc).line].fill, At(isGc).gend, len) {
        ghost var w := W();
        ok := SkipGroup(isGc, valid, live, skip);
        if !ok { return; }
        GrowsTrans(c, old(W()), w, W(), skip);
      }
    }

    /** Append a pair at a frontier. It fails for want of a free line, and if it would run past
        the end of its line (the source stops with an assertion). */
    method Place(isGc: bool, lpa: nat, len: nat, ghost valid: set<nat>, ghost live: set<nat>, ghost skip: nat)
      returns (ok: bool, grain: nat)
      requires Steady(valid, live, skip) && !Idle(W(), skip)
      requires lpa < UINT_MAX && 0 < len
      modifies this
      ensures table == old(table) && glen == old(glen) && log == old(log) && away == old(away)
      ensures ok ==> Steady(valid + {Word(lpa, grain)}, live + {Word(lpa, grain)}, skip) && !Idle(W(), skip)
      ensures ok ==> Grows(c, old(W()), W(), skip) && Mapped(c, W(), lpa, grain, len) && c.lineOf(grain) != skip
      ensures ok ==> NewGrain(c, old(W()), grain)
      ensures At(!isGc) == old(At(!isGc)) && (ok && isGc ==> gc.open)
      ensures ok ==> Here(!isGc).(free := []) == old(Here(!isGc)).(free := [])
      ensures ok == Stores(c, old(Here(isGc)), len)
      ensures ok ==> var n := NextSpot(c, old(Here(isGc)), len); grain == c.grainOf(n.line, n.fill) && Here(isGc) == Landed(c, old(Here(isGc)), len)
      ensures !ok ==> free == [] || len + 128 > c.group
    {
      hide LinesOk, FrontiersOk, Grows, Mapped, NewGrain, NextSpot, HasRoom, Opened, Opens, Behind, Rolled;
      ghost var w, h := W(), Here(isGc);
      SpotOk(c, w, user, gc, isGc);
      if len + 128 <= c.group {
        ShortSpot(c, h, len);
      }
      ok := MakeRoom(isGc, len, valid, live, skip);
      if !ok { return false, 0; }
      LineAt(c, W(), user, gc, isGc);
      if line[At(isGc).line].fill + len > c.size {
        return false, 0;
      }
      ghost var w' := W();
      grain := Append(isGc, lpa, len, valid, live, skip);
      GrowsTrans(c, w, w', W(), skip);
      StillNew(c, w, w', skip, grain);
      ghost var w'' := W();
      ok := NextPage(isGc, lpa, len, grain, valid + {Word(lpa, grain)}, live + {Word(lpa, grain)}, skip);
      if ok {
        GrowsTrans(c, w, w'', W(), skip);
      }
    }

    /** After a pair that ends with its LUN group, the next page is on the next group. */
    method NextPage(isGc: bool, ghost lpa: nat, ghost len: nat, ghost grain: nat, ghost valid: set<nat>, ghost live: set<nat>, ghost skip: nat)
      returns (ok: bool)
      requires Steady(valid, live, skip) && !Idle(W(), skip) && Mapped(c, W(), lpa, grain, len)
      requires At(isGc).open == (Here(isGc).fill < Here(isGc).gend)
      modifies this
      ensures table == old(table) && glen == old(glen) && log == old(log) && away == old(away)
      ensures ok ==> Steady(valid, live, skip) && !Idle(W(), skip) && Mapped(c, W(), lpa, grain, len) && Grows(c, old(W()), W(), skip)
      ensures At(!isGc) == old(At(!isGc)) && (ok ==> At(isGc).open && Here(!isGc).(free := []) == old(Here(!isGc)).(free := []))
      ensures ok == Opens(old(Here(isGc))) && (ok ==> Here(isGc) == Opened(c, old(Here(isGc))))
      ensures !ok ==> free == []
    {
      hide LinesOk, FrontiersOk, Mapped, Opened, Opens;
      ghost var w := W();
      SizedLines(c, w, valid, live, skip);
      ok := OpenGroup(isGc, valid, live, skip);
      if !ok { return; }
      LineAt(c, W(), user, gc, isGc);
      MappedGrows(c, w, W(), skip, lpa, grain, len);
      Reopened(c, W(), user, gc, isGc, true);
      SetAt(isGc, At(isGc).(open := true));
    }

    /** Append a pair that ends within the line. */
    method Append(isGc: bool, lpa: nat, len: nat, ghost valid: set<nat>, ghost live: set<nat>, ghost skip: nat)
      returns (grain: nat)
      requires Steady(valid, live, skip) && lpa < UINT_MAX && 0 < len
      requires Here(isGc).fill < Here(isGc).gend && Here(isGc).fill + len <= c.size
      requires Fits(Here(isGc).fill, Here(isGc).gend, len) || Begins(isGc)
      modifies this`line, this`view, this`user, this`gc
      ensures Steady(valid + {Word(lpa, grain)}, live + {Word(lpa, grain)}, skip)
      ensures Grows(c, old(W()), W(), skip) && Mapped(c, W(), lpa, grain, len) && c.lineOf(grain) == At(isGc).line
      ensures NewGrain(c, old(W()), grain)
      ensures At(isGc).open == (Here(isGc).fill < Here(isGc).gend) && At(!isGc) == old(At(!isGc)) && Here(isGc).fill <= Here(isGc).gend
      ensures grain == c.grainOf(old(Here(isGc)).line, old(Here(isGc)).fill) && Here(isGc) == Behind(c, old(Here(isGc)), len)
      ensures Here(!isGc) == old(Here(!isGc)) && free == old(free)
    {
      hide LinesOk, FrontiersOk, LineOk, Counted, PairWords, CatchUp, Behind;
      LineAt(c, W(), user, gc, isGc);
      var l := At(isGc).line;
      ghost var w, v := W(), view[l];
      CountedLine(c, w, l, valid, live, skip);
      grain := c.grainOf(l, line[l].fill);
      FillIsNew(c, w, l, valid, live, skip);
      ghost var s := Seg(line[l].fill, len, Pair(lpa));
      ghost var v' := v.(segs := v.segs + [s]);
      assert s in v'.segs;
      var r := PutOnLine(line[l], lpa, len, v);
      LinePlaced(c, l, line[l], r, log[l], v, valid, live, s);
      LinesUpdate(c, w, l, r, log[l], v', lpa, grain, valid, live, valid + {Word(lpa, grain)}, live + {Word(lpa, grain)}, skip);
      var f := CatchUp(c, At(isGc), r.fill);
      f := f.(open := r.fill < f.gend);
      FrontierPast(c, w, user, gc, isGc, r, v', s, skip);
      line := line[l := r];
      view := view[l := v'];
      SetAt(isGc, f);
      assert W() == With(w, l, r, w.log[l], v');
    }

    /** The length of the pair that `lpa` maps to, as its OOB header tells it. */
    method ReadLength(lpa: nat) returns (len: nat)
      requires Valid() && lpa in table
      ensures lpa in glen && len == glen[lpa]
    {
      hide LinesOk, FrontiersOk, Tabled, Words;
      HeaderOfMapped(c, W(), table, glen, lpa);
      len := LenOf(line[c.lineOf(table[lpa])].oob[c.posOf(table[lpa])]);
    }

    /** Invalidate the grains of the pair that `lpa` maps to. Its length comes from OOB. */
    method Invalidate(lpa: nat)
      requires Valid() && lpa in table
      modifies this`line, this`view
      ensures Steady(Words(table) - {Word(lpa, table[lpa])}, Words(table), c.lines) && Tabled(c, W(), table, glen)
      ensures Here(false) == old(Here(false)) && Here(true) == old(Here(true))
    {
      hide LinesOk, FrontiersOk, LineOk, Counted, LineShape, Words, Tabled, Mapped, Kill, Word;
      MappedLine(c, W(), table, glen, lpa, Words(table), Words(table));
      var l, x := c.lineOf(table[lpa]), c.posOf(table[lpa]);
      ghost var w, v, s := W(), view[l], Seg(x, glen[lpa], Pair(lpa));
      CountedLine(c, w, l, Words(table), Words(table), c.lines);
      InTable(table, lpa);
      Invalidatable(c, l, line[l], log[l], v, Words(table), Words(table), s);
      var r := MarkGrainInvalid(line[l], x, LenOf(line[l].oob[x]), v.dead);
      ghost var v' := v.(dead := Kill(v.dead, s.start, s.End()));
      LineKill(c, l, line[l], r, log[l], v, Words(table), Words(table), s);
      LinesUpdate(c, w, l, r, log[l], v', lpa, table[lpa], Words(table), Words(table),
                  Words(table) - {Word(lpa, table[lpa])}, Words(table), c.lines);
      SameFrontiers(c, w, user, gc, l, r, log[l], v');
      SameTable(c, w, table, glen, l, r, log[l], v');
      line := line[l := r];
      view := view[l := v'];
      assert W() == With(w, l, r, w.log[l], v');
    }

    /** Record the mapping of `lpa` to `grain` as invalid, in the log of the grain's line. */
    method RecordInvalid(lpa: nat, grain: nat, ghost len: nat, ghost valid: set<nat>, ghost live: set<nat>)
      requires Steady(valid, live, c.lines) && Mapped(c, W(), lpa, grain, len) && Word(lpa, grain) in live
      modifies this`log
      ensures Steady(valid, live - {Word(lpa, grain)}, c.lines) && Grows(c, old(W()), W(), c.lines)
      ensures log == Logged(c, old(log), lpa, grain)
    {
      hide LinesOk, FrontiersOk, LineOk;
      var l := c.lineOf(grain);
      ghost var w, s := W(), Seg(c.posOf(grain), len, Pair(lpa));
      SizedLines(c, w, valid, live, c.lines);
      CountedLine(c, w, l, valid, live, c.lines);
      Recordable(c, l, line[l], log[l], view[l], valid, live);
      LineRecord(c, l, line[l], log[l], view[l], valid, live, s);
      var r := Record(log[l], lpa, grain);
      NotFree(c, w, valid, live, c.lines, l, s);
      LinesUpdate(c, w, l, line[l], r, view[l], lpa, grain, valid, live, valid, live - {Word(lpa, grain)}, c.lines);
      SameFrontiers(c, w, user, gc, l, line[l], r, view[l]);
      log := log[l := r];
      assert line[l := line[l]] == line && view[l := view[l]] == view;
      assert W() == With(w, l, w.line[l], r, w.view[l]);
    }

    /** A store: invalidate the old pair, append the new one, log the old mapping and
        switch the table over. */
    method Put(lpa: nat, len: nat) returns (ok: bool)
      requires Valid() && lpa < UINT_MAX && 0 < len
      modifies this
      ensures ok ==> Valid()
      ensures ok ==> lpa in table && table == old(table)[lpa := table[lpa]] && glen == old(glen)[lpa := len]
      ensures ok == Stores(c, old(Here(false)), len) && gc == old(gc) && away == old(away)
      ensures ok ==> var n := NextSpot(c, old(Here(false)), len); table[lpa] == c.grainOf(n.line, n.fill) && Here(false) == Landed(c, old(Here(false)), len)
      ensures log == if ok && lpa in old(table) then Logged(c, old(log), lpa, old(table)[lpa]) else old(log)
      ensures ok ==> DidPut(c, old(Now()), Now(), lpa, len)
      ensures !ok ==> table == old(table) && glen == old(glen) && (free == [] || len + 128 > c.group)
    {
      hide LinesOk, FrontiersOk, Grows, Mapped, Words, Tabled, Word, Stores, Landed, NextSpot, HasRoom, Logged;
      ghost var words := Words(table);
      ghost var valid := if lpa in table then words - {Word(lpa, table[lpa])} else words;
      if lpa in table {
        Invalidate(lpa);
      } else {
        assert valid == words;
      }
      ghost var w := W();
      var grain;
      NoLineSkipped(c, w, valid, words);
      ok, grain := Place(false, lpa, len, valid, words, c.lines);
      if !ok { return; }
      TabledGrows(c, w, W(), c.lines, table, glen);
      ghost var q := Word(lpa, grain);
      assert words == Words(table);
      OldAndNew(c, w, table, glen, lpa, grain);
      if lpa in table {
        ghost var w' := W();
        TableAt(c, w', table, glen, lpa);
        InTable(table, lpa);
        RecordInvalid(lpa, table[lpa], glen[lpa], valid + {q}, words + {q});
        TabledGrows(c, w', W(), c.lines, table, glen);
        MappedGrows(c, w', W(), c.lines, lpa, grain, len);
        assert words + {q} - {Word(lpa, table[lpa])} == valid + {q};
      }
      TableMoved(c, W(), table, glen, lpa, grain, len);
      assert Words(table[lpa := grain]) == valid + {q};
      table := table[lpa := grain];
      glen := glen[lpa := len];
    }

    /** A full delete of the pair of `lpa`, if it has one. */
    method Delete(lpa: nat) returns (found: bool)
      requires Valid() && lpa < UINT_MAX
      modifies this
      ensures Valid() && found == (lpa in old(table))
      ensures table == old(table) - {lpa} && glen == old(glen) - {lpa}
      ensures Here(false) == old(Here(false)) && Here(true) == old(Here(true)) && gc == old(gc) && away == old(away)
      ensures log == if found then Logged(c, old(log), lpa, old(table)[lpa]) else old(log)
      ensures if found then DidDrop(c, old(Now()), Now(), lpa) else Now() == old(Now())
    {
      hide LinesOk, FrontiersOk, Grows, Mapped, Words, Tabled, Word;
      found := lpa in table;
      TableKeys(c, W(), table, glen);
      if found {
        ghost var words := Words(table);
        Invalidate(lpa);
        ghost var w := W();
        TableAt(c, w, table, glen, lpa);
        InTable(table, lpa);
        RecordInvalid(lpa, table[lpa], glen[lpa], words - {Word(lpa, table[lpa])}, words);
        TabledGrows(c, w, W(), c.lines, table, glen);
        WordsRemove(c, W(), table, glen, lpa);
        TableCut(c, W(), table, glen, lpa);
        table := table - {lpa};
        glen := glen - {lpa};
      }
    }

    // ----- garbage collection -----

    /** A mapped pair is long: it may have to run past the end of a line. */
    ghost predicate HasLong()
      reads this
    {
      exists k :: k in glen && glen[k] + 128 > c.group
    }

    /** The state in the middle of a collection: all lines but the victim agree with the
        table, and the victim still has the history it was selected with. */
    ghost predicate Collecting(victim: nat)
      reads this
    {
      && victim < c.lines && !Idle(W(), victim) && Sized(c, W())
      && Steady(Words(table), Words(table), victim)
      && Tabled(c, W(), table, glen)
      && LineShape(c, victim, line[victim], view[victim]) && Readback(log[victim])
    }

    /** `__copy_valid_pair`: append the pair at the frontier of collection and move its
        mapping there. */
    method Relocate(victim: nat, lpa: nat, len: nat, ghost s: Seg) returns (ok: bool)
      requires Collecting(victim) && s in view[victim].segs && s == Seg(s.start, len, Pair(lpa))
      requires WordOf(c, victim, s) in Words(table)
      modifies this
      ensures Kept(old(Now()), Now(), victim) && log == old(log) && (!ok ==> table == old(table))
      ensures ok == Stores(c, old(Here(true)), len) && lpa in glen && glen[lpa] == len && glen == old(glen)
      ensures ok ==> Here(true) == Landed(c, old(Here(true)), len) && PutAt(c, old(Here(true)), glen, lpa, table)
      ensures ok ==> Collecting(victim) && gc.open && Since(old(Now()), Now(), victim)
      ensures ok ==> lpa in table && table == old(table)[lpa := table[lpa]]
      ensures ok ==> c.lineOf(old(table)[lpa]) == victim != c.lineOf(table[lpa])
      ensures ok ==> forall t :: t in view[victim].segs && t.kind.Pair? && t != s ==>
        (WordOf(c, victim, t) in Words(table) <==> WordOf(c, victim, t) in Words(old(table)))
      ensures ok ==> WordOf(c, victim, s) !in Words(table)
      ensures !ok ==> free == [] || HasLong()
    {
      hide LinesOk, FrontiersOk, Mapped, Words, Tabled, Word, LineShape, Landed, NextSpot, HasRoom;
      ghost var words, w, old1 := Words(table), W(), table;
      SizedLines(c, w, words, words, victim);
      PairOnVictim(c, w, table, glen, victim, line[victim], s);
      LineAt(c, w, user, gc, false);
      var from := table[lpa];
      var grain;
      ok, grain := Place(true, lpa, len, words, words, victim);
      if !ok { return; }
      ghost var q := Word(lpa, grain);
      TabledGrows(c, w, W(), victim, table, glen);
      OldAndNew(c, w, table, glen, lpa, grain);
      assert words + {q} - {Word(lpa, from)} == Words(table[lpa := grain]);
      SizedLines(c, W(), words + {q}, words + {q}, victim);
      LinesUpdate(c, W(), victim, line[victim], log[victim], view[victim], lpa, from,
                  words + {q}, words + {q}, Words(table[lpa := grain]), Words(table[lpa := grain]), victim);
      SameWorld(W(), victim);
      TableMoved(c, W(), table, glen, lpa, grain, len);
      OtherWords(c, victim, line[victim], view[victim], s, lpa, grain);
      table := table[lpa := grain];
      assert table.Keys == old1.Keys;
      assert glen == glen[lpa := len];
    }

    /** The mapping of an unconvicted pair has moved: its word goes back to the log. */
    method RecordAgain(victim: nat, lpa: nat, grain: nat, ghost s: Seg)
      requires Collecting(victim) && s in view[victim].segs && s.kind == Pair(lpa) && grain == c.grainOf(victim, s.start)
      modifies this`log
      ensures Collecting(victim) && Since(old(Now()), Now(), victim) && Still(old(Now()), Now())
      ensures Entries(log[victim]) == old(Entries(log[victim])) + [WordOf(c, victim, s)]
      ensures Here(true) == old(Here(true))
    {
      hide LinesOk, FrontiersOk, Tabled, LineShape, Words, Entries;
      ghost var w, words := W(), Words(table);
      HeaderAt(c, victim, line[victim], view[victim], s);
      RecordMore(log[victim], lpa, grain, view[victim].(stale := []));
      var r := Record(log[victim], lpa, grain);
      LinesUpdate(c, w, victim, line[victim], r, view[victim], lpa, grain, words, words, words, words, victim);
      SameFrontiers(c, w, user, gc, victim, line[victim], r, view[victim]);
      SameTable(c, w, table, glen, victim, line[victim], r, view[victim]);
      log := log[victim := r];
      assert line[victim := line[victim]] == line && view[victim := view[victim]] == view;
      assert W() == With(w, victim, w.line[victim], r, w.view[victim]);
    }

    /** A collection under way: `dead` are the mappings that the log convicts, `left` the
        pairs that were not seen yet, `was` the table that it began with. */
    ghost predicate Cleaning(victim: nat, dead: multiset<nat>, left: set<Seg>, was: map<nat, nat>)
      reads this
    {
      && Collecting(victim) && Moved(c, victim, was, table) && AliveIn(c, victim, view[victim], Words(was))
      && Seen(c, victim, view[victim].segs, Words(table), Words(was), dead, left)
    }

    /** One pair of the victim: if the log does not convict it, relocate it if the table
        maps to it, and otherwise record its word again. */
    method CleanPair(victim: nat, s: Seg, dead: multiset<nat>, ghost left: set<Seg>, ghost p: State, ghost pairs: seq<Seg>) returns (ok: bool)
      requires Cleaning(victim, dead, left, p.table) && s in left && s in view[victim].segs && s.kind.Pair?
      requires LaidOn(c, p, Now(), victim, pairs) && dead == Dead(p, victim)
      modifies this
      ensures Kept(old(Now()), Now(), victim)
      ensures ok ==> Cleaning(victim, dead, left - {s}, p.table) && Since(old(Now()), Now(), victim)
      ensures ok ==> LaidOn(c, p, Now(), victim, pairs + [s])
      ensures ok == AllStored(c, GcSpot(p), p.glen, ToMove(c, victim, Words(p.table), dead, pairs + [s]))
      ensures Convicted(c, victim, old(view[victim]).segs, Words(p.table), dead) ==> ok && Still(old(Now()), Now())
      ensures !ok ==> free == [] || HasLong()
    {
      hide LinesOk, FrontiersOk, Tabled, LineShape, Seen, Words, WordOf, Moved, Convicted, Since, Kept, Still, Stores, Landed, AllStored, PutAt, Dead, Entries, LaidOn, ToMove, ToLog;
      ok := true;
      ghost var was, q := p.table, Now();
      ghost var segs, words, now := view[victim].segs, Words(table), table;
      SinceSelf(q, victim);
      LaidOnIs(c, p, q, victim, pairs);
      SeenAt(c, victim, segs, words, Words(was), dead, left, s);
      if Word(s.kind.lpa, c.grainOf(victim, s.start)) !in dead {
        LookedUp(c, W(), table, glen, victim, line[victim], s);
        if s.kind.lpa in table && table[s.kind.lpa] == c.grainOf(victim, s.start) {
          NotConvicted(c, victim, segs, Words(was), dead, s);
          ok := Relocate(victim, s.kind.lpa, s.len, s);
          LayStops(c, p, q, victim, pairs, s);
          if !ok { return; }
          SameVictim(q, Now(), victim);
          Unmoved(c, victim, was, now, s.kind.lpa);
          LayMoved(c, p, q, Now(), victim, pairs, s);
          MovedOne(c, victim, was, now, table, s.kind.lpa);
        } else {
          RecordAgain(victim, s.kind.lpa, c.grainOf(victim, s.start), s);
          SameVictim(q, Now(), victim);
          LayLogged(c, p, q, Now(), victim, pairs, s);
        }
      } else {
        LayPassed(c, p, q, victim, pairs, s);
      }
      OneSeen(c, victim, segs, words, Words(table), Words(was), dead, left, s);
      LaidOnIs(c, p, Now(), victim, pairs + [s]);
    }

    /** One page of the victim: every pair that starts on it, unless all its grains are
        invalid. */
    method CleanPage(victim: nat, k: nat, dead: multiset<nat>, ghost left: set<Seg>, ghost p: State, ghost pairs: seq<Seg>) returns (ok: bool)
      requires Cleaning(victim, dead, left, p.table) && LaidOn(c, p, Now(), victim, pairs) && dead == Dead(p, victim)
      requires line[victim].fill == c.size && 64 * k + 64 <= c.size && PairsOn(view[victim].segs, k) <= left
      modifies this
      ensures Kept(old(Now()), Now(), victim)
      ensures ok ==> Cleaning(victim, dead, left - PairsOn(old(view[victim]).segs, k), p.table) && Since(old(Now()), Now(), victim)
      ensures ok ==> LaidOn(c, p, Now(), victim, pairs + OnPage(old(view[victim]).segs, old(line[victim]).inv, k))
      ensures ok == AllStored(c, GcSpot(p), p.glen,
                              ToMove(c, victim, Words(p.table), dead, pairs + OnPage(old(view[victim]).segs, old(line[victim]).inv, k)))
      ensures Convicted(c, victim, old(view[victim]).segs, Words(p.table), dead) ==> ok && Still(old(Now()), Now())
      ensures !ok ==> free == [] || HasLong()
    {
      hide LinesOk, FrontiersOk, Tabled, LineShape, Seen, Words, WordOf, PairsOn, Moved, Convicted, Since, Kept, Still, AliveIn, AllStored, Laid, Trailed, ToMove, ToLog, LaidOn, Dead, StartsIn, GcSpot;
      ok := true;
      ghost var segs, was := view[victim].segs, p.table;
      SinceSelf(Now(), victim);
      LaidOnIs(c, p, Now(), victim, pairs);
      InvalidPage(c, victim, line[victim], view[victim], Words(was), k);
      VictimReadable(c, victim, line[victim], view[victim]);
      FoundAll(segs, c.size, k);
      if line[victim].inv[k] == 64 {
        // every grain of the page is invalid
        AllSeen(c, victim, segs, Words(table), Words(was), dead, left, PairsOn(segs, k));
        assert pairs + [] == pairs;
        return;
      }
      var found := ScanPage(line[victim].oob, k, segs, c.size);
      hide Cleaning, Steady;
      assert pairs + found[..0] == pairs;
      ghost var seen: set<Seg> := {};
      assert left - seen == left;
      for i := 0 to |found|
        invariant Cleaning(victim, dead, left - seen, was) && Since(old(Now()), Now(), victim) && LaidOn(c, p, Now(), victim, pairs + found[..i])
        invariant AllStored(c, GcSpot(p), p.glen, ToMove(c, victim, Words(was), dead, pairs + found[..i]))
        invariant |view| == |old(view)| && victim < |view| && view[victim].segs == segs
        invariant seen <= PairsOn(segs, k) && forall j :: 0 <= j < |found| ==> (found[j] in seen <==> j < i)
        invariant Convicted(c, victim, segs, Words(was), dead) ==> Still(old(Now()), Now())
      {
        var s := found[i];
        PairIn(segs, k, s);
        ghost var now := Now();
        ok := CleanPair(victim, s, dead, left - seen, p, pairs + found[..i]);
        SinceTrans(old(Now()), now, Now(), victim);
        assert pairs + found[..i] + [s] == pairs + found[..i + 1];
        if !ok {
          assert pairs + found[..i + 1] + found[i + 1..] == pairs + found;
          StoredPart(c, GcSpot(p), p.glen, victim, Words(was), dead, pairs + found[..i + 1], found[i + 1..]);
          return;
        }
        SameVictim(now, Now(), victim);
        assert left - seen - {s} == left - (seen + {s});
        seen := seen + {s};
      }
      assert seen == PairsOn(segs, k);
      assert found[..|found|] == found;
      SameVictim(old(Now()), Now(), victim);
    }

    /** Read back the log of the victim, as `do_gc` does for a data line with valid grains. */
    method ReadLog(victim: nat, ghost left: set<Seg>) returns (dead: multiset<nat>)
      requires Valid() && victim < c.lines && !Idle(W(), victim) && victim != user.line && victim != gc.line
      requires left == set s | s in view[victim].segs && s.kind.Pair?
      modifies this`log
      ensures dead == Drained(old(log[victim])) && Cleaning(victim, dead, left, table) && line[victim].fill == c.size
      ensures Since(old(Now()), Now(), victim) && Still(old(Now()), Now())
      ensures dead == Dead(old(Now()), victim) && LaidOn(c, old(Now()), Now(), victim, [])
    {
      hide LinesOk, FrontiersOk, Tabled, LineShape, Words, WordOf, Seen, LineOk, Moved, AliveIn;
      ghost var w, words := W(), Words(table);
      SizedLines(c, w, words, words, c.lines);
      ghost var segs := view[victim].segs;
      VictimStarts(c, w, victim, words, user, gc);
      var rest;
      dead, rest := Drain(log[victim]);
      log := log[victim := rest];
      assert W() == With(w, victim, line[victim], rest, view[victim]) by {
        assert line[victim := line[victim]] == line && view[victim := view[victim]] == view;
      }
      SameTable(c, w, table, glen, victim, line[victim], rest, view[victim]);
      SameFrontiers(c, w, user, gc, victim, line[victim], rest, view[victim]);
      VictimAside(c, w, victim, rest, words);
      AllLeft(c, victim, segs, words, dead, left);
      NoneMoved(c, victim, table);
      assert Readback(EMPTY);
    }

    /** Clean a line with valid grains, its pages in the given order. */
    method CleanLine(victim: nat, order: seq<nat>) returns (ok: bool)
      requires Valid() && victim < c.lines && !Idle(W(), victim) && victim != user.line && victim != gc.line
      requires CoversPages(order, c.size)
      modifies this
      ensures Kept(old(Now()), Now(), victim)
      ensures ok ==> Collecting(victim) && Since(old(Now()), Now(), victim)
      ensures ok ==> OnlyDoomed(c, table, old(Now()), victim)
      ensures ok == AllStored(c, old(Here(true)), old(glen), Moves(c, old(Now()), victim, order))
      ensures ok ==> LaidOn(c, old(Now()), Now(), victim, Viewed(old(Now()), victim, order))
      ensures AllDoomed(c, old(table), old(log), victim) ==> ok && Still(old(Now()), Now())
      ensures !ok ==> free == [] || HasLong()
    {
      hide LinesOk, FrontiersOk, Tabled, LineShape, Words, WordOf, Seen, PairsOn, LineOk, Moved, Convicted, AliveIn, Since, Kept, Still, OnlyDoomed, AllDoomed, Drained, AllStored, ToMove, LaidOn, Laid, Trailed, ToLog, Moves, Viewed, Visits;
      ghost var w, p := W(), Now();
      SizedLines(c, w, Words(table), Words(table), c.lines);
      ghost var segs := view[victim].segs;
      ghost var left := set s | s in segs && s.kind.Pair?;
      VictimStarts(c, w, victim, Words(table), user, gc);
      AllConvicted(c, w, table, glen, victim, line[victim]);
      AllLeft(c, victim, segs, {}, multiset{}, left);
      var dead := ReadLog(victim, left);
      ghost var q := Now();
      SameVictim(p, q, victim);
      MovesAre(c, p, victim, order);
      hide Cleaning, Steady, Dead, GcSpot;
      ok, left := CleanPages(victim, order, dead, left, p);
      SinceTrans(p, q, Now(), victim);
      if ok {
        SameVictim(p, Now(), victim);
        Cleaned(victim, order, dead, left, p);
      }
    }

    method CleanPages(victim: nat, order: seq<nat>, dead: multiset<nat>, ghost all: set<Seg>, ghost p: State) returns (ok: bool, ghost left: set<Seg>)
      requires Cleaning(victim, dead, all, p.table) && LaidOn(c, p, Now(), victim, []) && dead == Dead(p, victim) && CoversPages(order, c.size)
      requires |view| == |p.w.view| && |line| == |p.w.line| && victim < |view| && victim < |line| && line[victim] == p.w.line[victim] && view[victim] == p.w.view[victim]
      requires line[victim].fill == c.size && forall k: nat :: PairsOn(view[victim].segs, k) <= all
      modifies this
      ensures Kept(old(Now()), Now(), victim)
      ensures var pairs := Visits(p.w.view[victim].segs, p.w.line[victim].inv, order);
              && ok == AllStored(c, GcSpot(p), p.glen, ToMove(c, victim, Words(p.table), dead, pairs))
              && (ok ==> Cleaning(victim, dead, left, p.table) && Since(old(Now()), Now(), victim) && LaidOn(c, p, Now(), victim, pairs))
      ensures ok ==> forall j :: 0 <= j < |order| ==> PairsOn(p.w.view[victim].segs, order[j]) !! left
      ensures Convicted(c, victim, p.w.view[victim].segs, Words(p.table), dead) ==> ok && Still(old(Now()), Now())
      ensures !ok ==> free == [] || HasLong()
    {
      hide Cleaning, Words, PairsOn, Convicted, Since, Kept, Still, AllStored, ToMove, LaidOn, Laid, Trailed, ToLog, Dead, OnPage, GcSpot;
      ghost var segs, inv, q := view[victim].segs, line[victim].inv, Now();
      ok, left := true, all;
      LaidOnIs(c, p, q, victim, []);
      SinceSelf(q, victim);
      assert order[..0] == [] && Visits(segs, inv, []) == [];
      for n := 0 to |order|
        invariant Cleaning(victim, dead, left, p.table) && Since(q, Now(), victim)
        invariant LaidOn(c, p, Now(), victim, Visits(segs, inv, order[..n]))
        invariant AllStored(c, GcSpot(p), p.glen, ToMove(c, victim, Words(p.table), dead, Visits(segs, inv, order[..n])))
        invariant forall j :: n <= j < |order| ==> PairsOn(segs, order[j]) <= left
        invariant forall j :: 0 <= j < n ==> PairsOn(segs, order[j]) !! left
        invariant Convicted(c, victim, segs, Words(p.table), dead) ==> Still(q, Now())
      {
        ghost var now := Now();
        SameVictim(q, now, victim);
        ok := CleanPage(victim, order[n], dead, left, p, Visits(segs, inv, order[..n]));
        SinceTrans(q, now, Now(), victim);
        VisitsNext(segs, inv, order, n);
        if !ok {
          VisitsFirst(c, p, victim, dead, segs, inv, order, n + 1);
          return;
        }
        PagesApart(segs, order, n);
        left := left - PairsOn(segs, order[n]);
      }
      SameVictim(q, Now(), victim);
      assert order[..|order|] == order;
    }

    /** When every page was cleaned, only doomed mappings are left. */
    lemma Cleaned(victim: nat, order: seq<nat>, dead: multiset<nat>, left: set<Seg>, p: State)
      requires Cleaning(victim, dead, left, p.table) && Since(p, Now(), victim) && CoversPages(order, c.size)
      requires Tabled(c, p.w, p.table, p.glen) && dead == Drained(p.w.log[victim])
      requires forall j :: 0 <= j < |order| ==> PairsOn(view[victim].segs, order[j]) !! left
      ensures Collecting(victim) && OnlyDoomed(c, table, p, victim)
    {
      hide LinesOk, FrontiersOk, Tabled, LineShape, Words, WordOf, Seen, PairsOn, LineOk, Moved, AliveIn, Drained, CoversPages;
      SameSize(c, p.w, p.table, p.glen);
      AllPagesSeen(c, victim, line[victim], view[victim], order, left);
      DoomedLeft(c, p.w, W(), p.table, table, glen, victim, dead, left);
    }

    /** `do_gc` on a data line: clean its pages if it has valid grains, finish the open page
        of collection, erase the line and free it. It succeeds exactly if there is a place for
        every pair to move. The mappings that still point into the erased line are exactly
        those that its log convicts, and the invariant survives exactly if there are none. */
    method Collect(victim: nat, order: seq<nat>) returns (ok: bool)
      requires Valid() && victim < c.lines && !Idle(W(), victim) && victim != user.line
      requires victim == gc.line ==> line[victim].fill == c.size && !gc.open
      requires CoversPages(order, c.size)
      modifies this
      ensures Kept(old(Now()), Now(), victim) && ok == CanClean(c, old(Now()), victim, order)
      ensures ok ==> DidClean(c, old(Now()), Now(), victim, order) && user == old(user)
      ensures ok ==> (Valid() <==> NoneDoomed(c, old(table), old(log), victim))
      ensures victim != old(gc.line) && AllDoomed(c, old(table), old(log), victim) ==>
        ok && table == old(table) && free == old(free) + [victim] && gc == old(gc).(open := false)
      ensures !ok ==> free == [] || HasLong()
    {
      hide LinesOk, FrontiersOk, Tabled, LineShape, Words, WordOf, LineOk, Counted, Blank, AllDoomed, NoneDoomed, CanClean, DidClean;
      ok := true;
      ghost var p := Now();
      if victim == gc.line {
        // the write pointer of collection has gone on to a free line
        LastGroup(c, W(), user, gc, true);
        LeftGroups(c, W(), user, gc, true);
        LineAt(c, W(), user, gc, false);
        assert free != [] ==> free[0] in free;
        ghost var w := W();
        NoLineSkipped(c, w, Words(table), Words(table));
        ok := Roll(true, Words(table), Words(table), c.lines);
        if !ok {
          NoNextLine(c, p, victim, order);
          return;
        }
        TabledGrows(c, w, W(), c.lines, table, glen);
        CleanRolled(c, p, Now(), victim, order);
      }
      ok := CollectClosed(victim, order);
    }

    /** The same for a line that no frontier is on. */
    method CollectClosed(victim: nat, order: seq<nat>) returns (ok: bool)
      requires Valid() && victim < c.lines && !Idle(W(), victim) && victim != user.line && victim != gc.line
      requires CoversPages(order, c.size)
      modifies this
      ensures Kept(old(Now()), Now(), victim) && ok == CanClean(c, old(Now()), victim, order)
      ensures ok ==> DidClean(c, old(Now()), Now(), victim, order) && user == old(user)
      ensures ok ==> (Valid() <==> NoneDoomed(c, old(table), old(log), victim))
      ensures AllDoomed(c, old(table), old(log), victim) ==>
        ok && table == old(table) && free == old(free) + [victim] && gc == old(gc).(open := false)
      ensures !ok ==> free == [] || HasLong()
    {
      hide LinesOk, FrontiersOk, Tabled, LineShape, Words, WordOf, LineOk, Counted, Blank, AllDoomed, NoneDoomed, OnlyDoomed, Readback, Laid, AllStored, Trailed, ErasedLine, BackIn, Drained, Entries, LaidOn, CoversPages, Finished, DidClean, ToMove, ToLog, Viewed, Dead;
      ok := true;
      ghost var p := Now();
      SinceSelf(p, victim);
      SizedLines(c, W(), Words(table), Words(table), c.lines);
      LineAt(c, W(), user, gc, false);
      if line[victim].vgc > 0 {
        ok := CleanLine(victim, order);
        if !ok { return; }
        LaidOnIs(c, p, Now(), victim, Viewed(p, victim, order));
        BackIs(c, p, victim, order);
      } else {
        PutAside(victim, order);
        LaidStored(c, GcSpot(p), glen, [], table, table);
      }
      ghost var q := Now();
      FinishPage(victim);
      SinceTrans(p, q, Now(), victim);
      Counts(c, p, table, victim);
      Erase(victim);
      CleanDone(c, p, q, Now(), victim, order);
    }

    /** Nothing maps into a line without valid grains: it can be erased as it is. */
    lemma PutAside(victim: nat, order: seq<nat>)
      requires Valid() && victim < c.lines && !Idle(W(), victim) && victim != user.line && victim != gc.line
      requires line[victim].vgc <= 0
      ensures Collecting(victim) && OnlyDoomed(c, table, Now(), victim)
      ensures Moves(c, Now(), victim, order) == [] && Laid(c, GcSpot(Now()), glen, [], table, table)
      ensures Trailed(c, GcSpot(Now()), glen, []) == GcSpot(Now())
    {
      hide LinesOk, FrontiersOk, Tabled, LineShape, Words, WordOf, LineOk, Counted;
      var w := W();
      NothingVisited(victim, order);
      SizedLines(c, w, Words(table), Words(table), c.lines);
      NothingMapped(c, w, table, glen, victim);
      VictimStarts(c, w, victim, Words(table), user, gc);
      VictimAside(c, w, victim, log[victim], Words(table));
      SameWorld(w, victim);
    }

    lemma NothingVisited(victim: nat, order: seq<nat>)
      requires Valid() && victim < c.lines && !Idle(W(), victim) && line[victim].vgc <= 0
      ensures Moves(c, Now(), victim, order) == []
    {
      hide LinesOk, FrontiersOk, Tabled, LineShape, Words, WordOf, LineOk, Counted;
      var w, pairs := W(), Viewed(Now(), victim, order);
      SizedLines(c, w, Words(table), Words(table), c.lines);
      CountedLine(c, w, victim, Words(table), Words(table), c.lines);
      NothingValid(c, victim, w.line[victim], w.log[victim], w.view[victim], Words(table));
      forall s | s in pairs && s.kind.Pair?
        ensures WordOf(c, victim, s) !in Words(table)
      {
        VisitsIn(view[victim].segs, line[victim].inv, order, s);
      }
      NoneToMove(c, victim, Words(table), Dead(Now(), victim), pairs);
    }

    /** Fill up the open page of collection. */
    method FinishPage(victim: nat)
      requires Collecting(victim)
      modifies this`line, this`view, this`user, this`gc
      ensures Collecting(victim) && Since(old(Now()), Now(), victim) && gc == old(gc).(open := false)
      ensures Here(true) == Finished(old(Here(true)), old(gc).open)
    {
      hide LinesOk, FrontiersOk, Tabled, LineShape, Words;
      ghost var w := W();
      LineAt(c, w, user, gc, true);
      LineAt(c, w, user, gc, false);
      if gc.open {
        var end := (line[gc.line].fill / 64 + 1) * 64;
        PageEnd(line[gc.line].fill, gc.gend);
        Clear(true, end, true, Words(table), Words(table), victim);
        TabledGrows(c, w, W(), victim, table, glen);
      }
    }

    /** Any run of stores, deletes, collections and line hand-overs keeps the table in
        step with a plain map of lengths, up to the step that it stops at: for want of a
        free line or of room for a long pair, or over a collection whose log convicted a pair
        that the table maps to. */
    method Run(ops: seq<Op>) returns (done: nat, ok: bool, ghost states: seq<State>)
      requires Valid() && forall i :: 0 <= i < |ops| ==> ops[i].Fine(c)
      modifies this
      ensures done <= |ops| && ok == (done == |ops|)
      ensures |states| == done + 1 && states[0] == old(Now()) && (ok ==> states[done] == Now())
      ensures forall i :: 0 <= i < done ==> CanStep(c, ops[i], states[i]) && DidStep(c, ops[i], states[i], states[i + 1])
      ensures !ok ==> !CanStep(c, ops[done], states[done])
      ensures glen == Lengths(ops[..done], old(glen)) && table.Keys == glen.Keys
      ensures ok ==> Valid()
      ensures !ok ==> free == [] || Lost() || HasLong() || TooLong(ops[done])
    {
      hide Steady, Tabled, Words, CanStep, DidStep;
      done, ok, states := 0, true, [Now()];
      TakeAll(ops);
      TableKeys(c, W(), table, glen);
      while done < |ops|
        invariant done <= |ops| && Valid() && glen == Lengths(ops[..done], old(glen)) && table.Keys == glen.Keys
        invariant |states| == done + 1 && states[0] == old(Now()) && states[done] == Now()
        invariant forall i :: 0 <= i < done ==> CanStep(c, ops[i], states[i]) && DidStep(c, ops[i], states[i], states[i + 1])
        decreases |ops| - done
      {
        LengthsNext(ops, done, old(glen));
        ok := Step(ops[done]);
        if !ok { return; }
        done := done + 1;
        states := states + [Now()];
      }
    }

    /** A store of a long pair. */
    predicate TooLong(op: Op) {
      op.Store? && op.len + 128 > c.group
    }

    /** A mapping points into a freed line. */
    ghost predicate Lost()
      reads this
    {
      exists k :: k in table && c.lineOf(table[k]) in free
    }

    method Step(op: Op) returns (ok: bool)
      requires Valid() && op.Fine(c)
      modifies this
      ensures ok == CanStep(c, op, old(Now())) && (ok ==> DidStep(c, op, old(Now()), Now()))
      ensures ok ==> Valid() && glen == After(op, old(glen))
      ensures !ok ==> glen == old(glen)
      ensures table.Keys == glen.Keys
      ensures !ok ==> free == [] || Lost() || HasLong() || TooLong(op)
    {
      hide Steady, Tabled, Words, DidPut, DidDrop, DidClean, CanClean, Collectable, Stores, NoneDoomed, AllDoomed, Doomed, DidSweep;
      ok := true;
      TableKeys(c, W(), table, glen);
      match op
      case Store(lpa, len) =>
        ok := Put(lpa, len);
      case Remove(lpa) =>
        var found := Delete(lpa);
      case Clean(victim, order) =>
        ok := CleanStep(victim, order);
      case Hand =>
        var lent := Lend();
      case Back(l) =>
        if l in away {
          Return(l);
        }
    }

    /** A data line that no write pointer is on. */
    predicate Closable(victim: nat)
      reads this
    {
      victim < c.lines && victim !in free && victim !in away && victim != user.line && victim != gc.line
    }

    /** Collect a line if it can be collected. The result says if all mappings survived. */
    method CleanStep(victim: nat, order: seq<nat>) returns (ok: bool)
      requires Valid() && CoversPages(order, c.size)
      modifies this
      ensures glen == old(glen) && table.Keys == old(table).Keys
      ensures ok ==> Valid()
      ensures !Collectable(c, old(Now()), victim) ==> ok && Now() == old(Now())
      ensures Collectable(c, old(Now()), victim) ==>
        if CanClean(c, old(Now()), victim, order) then DidClean(c, old(Now()), Now(), victim, order) && ok == NoneDoomed(c, old(table), old(log), victim)
        else !ok && (free == [] || HasLong())
      ensures ok && old(Closable(victim)) ==>
        victim < |line| && victim in free && line[victim].fill == 0 && forall k :: k in table ==> c.lineOf(table[k]) != victim
      ensures !ok ==> free == [] || HasLong() || Lost()
      ensures old(Closable(victim)) && AllDoomed(c, old(table), old(log), victim) ==>
        DidSweep(old(Now()), Now(), victim) && ok == NoneDoomed(c, old(table), old(log), victim)
      ensures !ok && free != [] && !HasLong() ==> exists k :: k in old(table) && Doomed(c, old(table), old(log), victim, k)
    {
      hide LinesOk, FrontiersOk, Words, CoversPages, Idle, Doomed, Tabled, CanClean, Laid, Trailed, Moves, BackIn, From, Finished, Entries;
      ok := true;
      SizedLines(c, W(), Words(table), Words(table), c.lines);
      if victim >= c.lines || victim in free || victim in away || victim == user.line {
        return;
      }
      if victim == gc.line && (line[victim].fill < c.size || gc.open) {
        return;
      }
      LineAt(c, W(), user, gc, true);
      NotIdle(W(), victim);
      ok := Collect(victim, order);
      if ok {
        Counts(c, old(Now()), table, victim);
        ok := forall k :: k in table ==> c.lineOf(table[k]) != victim;
      }
    }

    /** `mark_block_free` for each block of the line, and `mark_line_free`. */
    method Erase(victim: nat)
      requires Collecting(victim)
      modifies this`line, this`view, this`free
      ensures free == old(free) + [victim] && |line| == |old(line)| && victim < |line| && line[victim] == ErasedLine(c)
      ensures forall l :: 0 <= l < |line| && l != victim ==> line[l] == old(line[l])
      ensures Valid() <==> forall k :: k in table ==> c.lineOf(table[k]) != victim
    {
      hide LinesOk, FrontiersOk, Tabled, LineShape, Words, WordOf, LineOk, Counted, Blank;
      ghost var w := W();
      var r := ErasedLine(c);
      ghost var v := View(NOTHING, seq(c.size, _ => false), Entries(log[victim]));
      ErasedIsBlank(c, r, v);
      Erased(c, w, victim, r, v, Words(table), user, gc);
      line := line[victim := r];
      view := view[victim := v];
      free := free + [victim];
      assert W() == World(w.line[victim := r], w.log, w.view[victim := v], w.free + [victim], w.away);
      StillTabled(c, w, W(), table, glen, victim);
      LineAt(c, W(), user, gc, true);
      LineAt(c, W(), user, gc, false);
    }
  }

  lemma CountedLine(c: Config, w: World, l: nat, valid: set<nat>, live: set<nat>, skip: nat)
    requires LinesOk(c, w, valid, live, skip) && l < c.lines && l != skip
    ensures LineOk(c, l, w.line[l], w.log[l], w.view[l], valid, live)
    ensures Counted(w.line[l], w.view[l].dead) && |w.line[l].oob| == c.size && 0 <= w.line[l].igc
  {
  }

  /** The head of the free list, taken off it, is an empty line like any other. */
  lemma NewLine(c: Config, w: World, user: Frontier, gc: Frontier, isGc: bool, valid: set<nat>, live: set<nat>, skip: nat)
    requires c.Ok() && LinesOk(c, w, valid, live, skip) && FrontiersOk(c, w, user, gc) && w.free != []
    requires w.line[(if isGc then gc else user).line].fill == c.size && (isGc ==> !gc.open)
    requires !Idle(w, skip) && skip != user.line && skip != gc.line
    ensures var w', f := w.(free := w.free[1..]), Frontier(w.free[0], c.group, c.groups - 1, (if isGc then gc else user).open);
            && LinesOk(c, w', valid, live, skip) && w.line[f.line].fill == 0 && f.line != skip && !Idle(w', skip)
            && FrontiersOk(c, w', if isGc then user else f, if isGc then f else gc)
            && Grows(c, w, w', skip)
  {
    hide LineOk, Counted;
    var w' := w.(free := w.free[1..]);
    assert w.free[0] in w.free;
    PoppedHead(w.free);
    GroupsOfLine(c);
  }

  lemma GroupsOfLine(c: Config)
    requires c.Ok()
    ensures c.group <= c.size && c.group + (c.groups - 1) * c.group == c.size
  {
    NextGroup(c.size, 0, c.group, c.groups);
  }

  lemma PoppedHead(free: seq<nat>)
    requires free != [] && forall i, j :: 0 <= i < j < |free| ==> free[i] != free[j]
    ensures free[0] !in free[1..] && forall l :: l in free <==> l in free[1..] || l == free[0]
  {
  }

  lemma LineAt(c: Config, w: World, user: Frontier, gc: Frontier, isGc: bool)
    requires c.Ok() && FrontiersOk(c, w, user, gc)
    ensures var f := if isGc then gc else user;
            && Sized(c, w) && f.line < c.lines && !Idle(w, f.line)
            && w.line[f.line].fill <= f.gend <= c.size && f.gend % 64 == 0 && 192 <= c.group
            && (isGc && gc.open ==> w.line[f.line].fill < f.gend)
            && user.line != gc.line && user.line < c.lines && gc.line < c.lines
  {
  }

  lemma SpotOk(c: Config, w: World, user: Frontier, gc: Frontier, isGc: bool)
    requires FrontiersOk(c, w, user, gc)
    ensures var f := if isGc then gc else user;
            f.line < |w.line| && w.line[f.line].fill <= f.gend && f.gend + f.left * c.group == c.size && f.gend % 64 == 0
  {
  }

  lemma ShorterLast(c: Config, segs: seq<Seg>, s: Seg)
    requires s.kind.Pair? && Shorter(c, segs + [s])
    ensures s.len + c.group < c.size
  {
    assert (segs + [s])[|segs|] == s;
  }

  lemma GrowsSelf(c: Config, w: World, skip: nat)
    requires Sized(c, w)
    ensures Grows(c, w, w, skip)
  {
  }

  /** The line of a frontier may fill up to the end of its group. */
  lemma FrontierGrown(c: Config, w: World, user: Frontier, gc: Frontier, isGc: bool, r: Line, v: View, f': Frontier, skip: nat)
    requires FrontiersOk(c, w, user, gc)
    requires var f := if isGc then gc else user;
             && f.line != skip && f'.line == f.line && f.gend <= f'.gend && r.fill <= f'.gend && w.view[f.line].segs <= v.segs
             && f'.gend <= c.size && f'.gend % 64 == 0 && f'.gend + f'.left * c.group == c.size && (f'.open ==> r.fill < f'.gend)
             && w.line[f.line].igc <= r.igc && (Closing(f', r.fill) || (f'.left == 0 && f.left != 0) ==> 0 < r.igc || !Shorter(c, v.segs))
    ensures var f := if isGc then gc else user; var w' := With(w, f.line, r, w.log[f.line], v);
            && Grows(c, w, w', skip)
            && FrontiersOk(c, w', if isGc then user else f', if isGc then f' else gc)
  {
    var f := if isGc then gc else user;
    ShorterBefore(c, w.view[f.line].segs, v.segs);
    hide Shorter, Closing;
  }

  /** A pair that fits its group or starts the line, and is shorter than all groups but one,
      leaves space before the last group. */
  lemma NotLast(c: Config, f: Frontier, start: nat, len: nat)
    requires c.Ok() && f.gend + f.left * c.group == c.size && f.gend % 64 == 0 && start + len <= c.size && len + c.group < c.size
    requires Fits(start, f.gend, len) || (start == 0 && f.gend == c.group)
    ensures var g := CatchUp(c, f, start + len); !Closing(g, start + len) && (g.left == 0 ==> f.left == 0)
  {
    CatchUpOk(c, f, start + len);
    hide CatchUp;
  }

  /** The frontier after a pair: in the group where the pair ends. */
  lemma FrontierPast(c: Config, w: World, user: Frontier, gc: Frontier, isGc: bool, r: Line, v: View, s: Seg, skip: nat)
    requires c.Ok() && FrontiersOk(c, w, user, gc)
    requires var f := if isGc then gc else user;
             && f.line != skip && s.kind.Pair? && v.segs == w.view[f.line].segs + [s] && s.start == w.line[f.line].fill
             && r.fill == s.End() <= c.size && w.line[f.line].igc <= r.igc
             && (Fits(s.start, f.gend, s.len) || 0 < w.line[f.line].igc || (s.start == 0 && f.gend == c.group))
    ensures var f := if isGc then gc else user; var g := CatchUp(c, f, r.fill); var f' := g.(open := r.fill < g.gend);
            var w' := With(w, f.line, r, w.log[f.line], v);
            && f'.line == f.line && r.fill <= f'.gend
            && Grows(c, w, w', skip) && FrontiersOk(c, w', if isGc then user else f', if isGc then f' else gc)
            && forall free :: Behind(c, Spot(f.line, f.gend, f.left, s.start, free), s.len) == Spot(f'.line, f'.gend, f'.left, r.fill, free)
  {
    var f := if isGc then gc else user;
    SpotOk(c, w, user, gc, isGc);
    CatchUpOk(c, f, r.fill);
    CatchUpKeeps(c, f, r.fill, false);
    hide CatchUp, FrontiersOk, Shorter, Closing, Config.Ok;
    if Shorter(c, v.segs) {
      ShorterLast(c, w.view[f.line].segs, s);
      if w.line[f.line].igc <= 0 {
        NotLast(c, f, s.start, s.len);
      }
    }
    var g := CatchUp(c, f, r.fill);
    FrontierGrown(c, w, user, gc, isGc, r, v, g.(open := r.fill < g.gend), skip);
  }

  lemma ShorterBefore(c: Config, segs: seq<Seg>, segs': seq<Seg>)
    requires segs <= segs'
    ensures Shorter(c, segs') ==> Shorter(c, segs)
  {
  }

  lemma FillIsNew(c: Config, w: World, l: nat, valid: set<nat>, live: set<nat>, skip: nat)
    requires c.Ok() && LinesOk(c, w, valid, live, skip) && l < c.lines && l != skip && w.line[l].fill < c.size
    ensures NewGrain(c, w, c.grainOf(l, w.line[l].fill))
  {
    assert LineOk(c, l, w.line[l], w.log[l], w.view[l], valid, live);
    SegsEnd(w.view[l].segs, w.line[l].fill);
    forall s | s in w.view[l].segs
      ensures s.start != w.line[l].fill
    {
      var i :| 0 <= i < |w.view[l].segs| && w.view[l].segs[i] == s;
    }
  }

  lemma StillNew(c: Config, w: World, w': World, skip: nat, grain: nat)
    requires Grows(c, w, w', skip) && NewGrain(c, w', grain)
    ensures NewGrain(c, w, grain)
  {
    var a, b := w.view[c.lineOf(grain)].segs, w'.view[c.lineOf(grain)].segs;
    forall s | s in a
      ensures s.start != c.posOf(grain)
    {
      var i :| 0 <= i < |a| && a[i] == s;
      assert b[i] == s;
    }
  }

  /** The grain of a stored pair is not the one it had, so the table swaps two words. */
  lemma OldAndNew(c: Config, w: World, table: map<nat, nat>, glen: map<nat, nat>, lpa: nat, grain: nat)
    requires Tabled(c, w, table, glen) && NewGrain(c, w, grain) && lpa < UINT_MAX
    ensures lpa in table ==> Word(lpa, table[lpa]) != Word(lpa, grain)
    ensures lpa in table ==> Words(table[lpa := grain]) == Words(table) - {Word(lpa, table[lpa])} + {Word(lpa, grain)}
    ensures lpa !in table ==> Words(table[lpa := grain]) == Words(table) + {Word(lpa, grain)}
  {
    WordsAdd(table, lpa, grain);
    if lpa in table {
      WordsRemove(c, w, table, glen, lpa);
      assert Mapped(c, w, lpa, table[lpa], glen[lpa]);
    } else {
      assert table - {lpa} == table;
    }
  }

  lemma TableKeys(c: Config, w: World, table: map<nat, nat>, glen: map<nat, nat>)
    requires Tabled(c, w, table, glen)
    ensures glen.Keys == table.Keys
  {
  }

  lemma TableAt(c: Config, w: World, table: map<nat, nat>, glen: map<nat, nat>, lpa: nat)
    requires Tabled(c, w, table, glen) && lpa in table
    ensures lpa in glen && Sized(c, w) && Mapped(c, w, lpa, table[lpa], glen[lpa])
  {
  }

  lemma InTable(table: map<nat, nat>, lpa: nat)
    requires lpa in table
    ensures Word(lpa, table[lpa]) in Words(table)
  {
  }

  lemma MappedGrows(c: Config, w: World, w': World, skip: nat, lpa: nat, grain: nat, len: nat)
    requires Sized(c, w) && Mapped(c, w, lpa, grain, len) && Grows(c, w, w', skip)
    ensures Mapped(c, w', lpa, grain, len)
  {
    TabledGrows(c, w, w', skip, map[lpa := grain], map[lpa := len]);
  }

  lemma TableMoved(c: Config, w: World, table: map<nat, nat>, glen: map<nat, nat>, lpa: nat, grain: nat, len: nat)
    requires Tabled(c, w, table, glen) && Mapped(c, w, lpa, grain, len)
    ensures Tabled(c, w, table[lpa := grain], glen[lpa := len])
  {
  }

  lemma NoLineSkipped(c: Config, w: World, valid: set<nat>, live: set<nat>)
    requires LinesOk(c, w, valid, live, c.lines)
    ensures !Idle(w, c.lines)
  {
  }

  lemma SizedLines(c: Config, w: World, valid: set<nat>, live: set<nat>, skip: nat)
    requires LinesOk(c, w, valid, live, skip)
    ensures Sized(c, w)
  {
  }

  lemma NotFree(c: Config, w: World, valid: set<nat>, live: set<nat>, skip: nat, l: nat, s: Seg)
    requires LinesOk(c, w, valid, live, skip) && l < c.lines && s in w.view[l].segs
    ensures !Idle(w, l)
  {
  }

  /** The pair that a hash index maps to lies on a line in use. */
  lemma MappedLine(c: Config, w: World, table: map<nat, nat>, glen: map<nat, nat>, lpa: nat, valid: set<nat>, live: set<nat>)
    requires Tabled(c, w, table, glen) && lpa in table && LinesOk(c, w, valid, live, c.lines)
    ensures lpa in glen && lpa < UINT_MAX
    ensures var l, x := c.lineOf(table[lpa]), c.posOf(table[lpa]);
            && Sized(c, w) && l < c.lines && !Idle(w, l) && x < c.size && table[lpa] == c.grainOf(l, x)
            && Seg(x, glen[lpa], Pair(lpa)) in w.view[l].segs
  {
    assert Mapped(c, w, lpa, table[lpa], glen[lpa]);
  }

  /** A valid pair can be invalidated: its header says how long it is, and none of its
      grains has been marked invalid before. */
  lemma Invalidatable(c: Config, l: nat, line: Line, log: Log, v: View, valid: set<nat>, live: set<nat>, s: Seg)
    requires LineOk(c, l, line, log, v, valid, live) && s in v.segs && s.kind.Pair? && WordOf(c, l, s) in valid
    ensures s.start < |line.oob| && LenOf(line.oob[s.start]) == s.len && s.End() <= line.fill
    ensures |v.dead| == |line.oob| && forall x :: s.start <= x < s.End() ==> x < |v.dead| && !v.dead[x]
  {
    HeaderAt(c, l, line, v, s);
    var i :| 0 <= i < |v.segs| && v.segs[i] == s;
    assert SegIs(v.dead, v.segs[i], false);
  }

  lemma Recordable(c: Config, l: nat, line: Line, log: Log, v: View, valid: set<nat>, live: set<nat>)
    requires LineOk(c, l, line, log, v, valid, live)
    ensures |log.buf| <= PER_PAGE
  {
  }

  /** Counters, logs and marks do not move the frontiers. */
  lemma SameFrontiers(c: Config, w: World, user: Frontier, gc: Frontier, l: nat, r: Line, log: Log, v: View)
    requires FrontiersOk(c, w, user, gc) && l < c.lines && r.fill == w.line[l].fill && v.segs == w.view[l].segs && w.line[l].igc <= r.igc
    ensures FrontiersOk(c, With(w, l, r, log, v), user, gc) && (r == w.line[l] && v == w.view[l] ==> Grows(c, w, With(w, l, r, log, v), c.lines))
  {
  }

  lemma SameTable(c: Config, w: World, table: map<nat, nat>, glen: map<nat, nat>, l: nat, r: Line, log: Log, v: View)
    requires Tabled(c, w, table, glen) && l < c.lines && v.segs == w.view[l].segs
    ensures Tabled(c, With(w, l, r, log, v), table, glen)
  {
    forall k | k in table
      ensures Mapped(c, With(w, l, r, log, v), k, table[k], glen[k])
    {
      assert Mapped(c, w, k, table[k], glen[k]);
    }
  }

  lemma TableCut(c: Config, w: World, table: map<nat, nat>, glen: map<nat, nat>, lpa: nat)
    requires Tabled(c, w, table, glen)
    ensures Tabled(c, w, table - {lpa}, glen - {lpa})
  {
    assert (table - {lpa}).Keys == table.Keys - {lpa} && (glen - {lpa}).Keys == glen.Keys - {lpa};
  }

  lemma SameWorld(w: World, l: nat)
    requires l < |w.line| == |w.log| == |w.view|
    ensures With(w, l, w.line[l], w.log[l], w.view[l]) == w
  {
  }

  /** A pair on the victim whose word is in the table is where its hash index maps to. */
  lemma PairOnVictim(c: Config, w: World, table: map<nat, nat>, glen: map<nat, nat>, victim: nat, line: Line, s: Seg)
    requires c.Ok() && Tabled(c, w, table, glen) && victim < c.lines && LineShape(c, victim, line, w.view[victim])
    requires s in w.view[victim].segs && s.kind.Pair? && WordOf(c, victim, s) in Words(table)
    ensures var lpa := s.kind.lpa;
            && lpa < UINT_MAX && 0 < s.len && lpa in table && table[lpa] == c.grainOf(victim, s.start)
            && c.lineOf(table[lpa]) == victim && WordOf(c, victim, s) == Word(lpa, table[lpa])
            && lpa in glen && glen[lpa] == s.len
  {
    var lpa := s.kind.lpa;
    HeaderAt(c, victim, line, w.view[victim], s);
    WordInTable(c, w, table, glen, lpa, c.grainOf(victim, s.start));
    assert Mapped(c, w, lpa, table[lpa], glen[lpa]);
    SameStart(line, w.view[victim].segs, s, Seg(s.start, glen[lpa], Pair(lpa)));
  }

  /** At most one pair starts at a grain. */
  lemma SameStart(line: Line, segs: seq<Seg>, s: Seg, t: Seg)
    requires Chain(segs, line.fill) && s in segs && t in segs && s.start == t.start
    ensures s == t
  {
    var i :| 0 <= i < |segs| && segs[i] == s;
    var j :| 0 <= j < |segs| && segs[j] == t;
    if i < j {
      ChainOrdered(segs, line.fill, i, j);
    } else if j < i {
      ChainOrdered(segs, line.fill, j, i);
    }
  }

  /** The word of one pair and the word of a grain elsewhere say nothing about the other
      pairs of a line. */
  lemma OtherWords(c: Config, l: nat, line: Line, v: View, s: Seg, lpa: nat, grain: nat)
    requires c.Ok() && l < c.lines && LineShape(c, l, line, v) && s in v.segs && s.kind.Pair?
    requires lpa < UINT_MAX && c.lineOf(grain) != l
    ensures forall t :: t in v.segs && t.kind.Pair? ==> WordOf(c, l, t) != Word(lpa, grain)
    ensures forall t :: t in v.segs && t.kind.Pair? && t != s ==> WordOf(c, l, t) != WordOf(c, l, s)
  {
    hide LineShape;
    forall t | t in v.segs && t.kind.Pair?
      ensures WordOf(c, l, t) != Word(lpa, grain)
    {
      WordsOfLines(c, l, line, v, t, Word(lpa, grain), lpa, grain);
    }
    var i :| 0 <= i < |v.segs| && v.segs[i] == s;
    forall t | t in v.segs && t.kind.Pair? && t != s
      ensures WordOf(c, l, t) != WordOf(c, l, s)
    {
      var j :| 0 <= j < |v.segs| && v.segs[j] == t;
      WordsDiffer(c, l, line, v, i, j);
    }
  }

  /** Of the pairs of the victim that were mapped, those are still mapped that were not seen
      yet or that the log convicts. */
  ghost predicate Seen(c: Config, l: nat, segs: seq<Seg>, words: set<nat>, was: set<nat>, dead: multiset<nat>, left: set<Seg>) {
    forall s :: s in segs && s.kind.Pair? ==>
      (WordOf(c, l, s) in words <==> WordOf(c, l, s) in was && (s in left || WordOf(c, l, s) in dead))
  }

  /** The log convicts every mapped pair of the line. */
  ghost predicate Convicted(c: Config, l: nat, segs: seq<Seg>, was: set<nat>, dead: multiset<nat>) {
    forall s :: s in segs && s.kind.Pair? && WordOf(c, l, s) in was ==> WordOf(c, l, s) in dead
  }

  /** Mappings only move off the victim. */
  ghost predicate Moved(c: Config, l: nat, was: map<nat, nat>, table: map<nat, nat>) {
    table.Keys == was.Keys && forall k :: k in table ==> table[k] == was[k] || c.lineOf(was[k]) == l != c.lineOf(table[k])
  }

  /** The guard `__valid_mapping` fails for the pair that `k` maps to, on line `l`. */
  ghost predicate Doomed(c: Config, table: map<nat, nat>, log: seq<Log>, l: nat, k: nat) {
    k in table && c.lineOf(table[k]) == l < |log| && Word(k, table[k]) in Drained(log[l])
  }

  ghost predicate AllDoomed(c: Config, table: map<nat, nat>, log: seq<Log>, l: nat) {
    forall k :: k in table && c.lineOf(table[k]) == l ==> Doomed(c, table, log, l, k)
  }

  ghost predicate NoneDoomed(c: Config, table: map<nat, nat>, log: seq<Log>, l: nat) {
    forall k :: k in table ==> !Doomed(c, table, log, l, k)
  }

  /** Exactly the mappings that were doomed in state `p` point into the line now. */
  ghost predicate OnlyDoomed(c: Config, table: map<nat, nat>, p: State, l: nat) {
    table.Keys == p.table.Keys && forall k :: k in table ==> (c.lineOf(table[k]) == l <==> Doomed(c, p.table, p.w.log, l, k))
  }

  lemma Counts(c: Config, p: State, table: map<nat, nat>, l: nat)
    requires OnlyDoomed(c, table, p, l)
    ensures NoneDoomed(c, p.table, p.w.log, l) <==> forall k :: k in table ==> c.lineOf(table[k]) != l
  {
  }

  lemma SameVictim(p: State, q: State, victim: nat)
    requires Since(p, q, victim)
    ensures Kept(p, q, victim) && q.glen == p.glen && q.table.Keys == p.table.Keys && |q.w.log| == |p.w.log|
    ensures |q.w.line| == |p.w.line| && |q.w.view| == |p.w.view|
    ensures victim < |p.w.line| ==> q.w.line[victim] == p.w.line[victim]
    ensures victim < |p.w.view| ==> q.w.view[victim] == p.w.view[victim]
  {
  }

  lemma SeenAt(c: Config, l: nat, segs: seq<Seg>, words: set<nat>, was: set<nat>, dead: multiset<nat>, left: set<Seg>, s: Seg)
    requires Seen(c, l, segs, words, was, dead, left) && s in segs && s.kind.Pair? && s in left
    ensures WordOf(c, l, s) in words <==> WordOf(c, l, s) in was
    ensures WordOf(c, l, s) == Word(s.kind.lpa, c.grainOf(l, s.start))
  {
  }

  lemma AllSeen(c: Config, l: nat, segs: seq<Seg>, words: set<nat>, was: set<nat>, dead: multiset<nat>, left: set<Seg>, on: set<Seg>)
    requires Seen(c, l, segs, words, was, dead, left)
    requires forall s :: s in on && s in segs && s.kind.Pair? ==> WordOf(c, l, s) !in was
    ensures Seen(c, l, segs, words, was, dead, left - on)
  {
  }

  lemma OneSeen(c: Config, l: nat, segs: seq<Seg>, words: set<nat>, words': set<nat>, was: set<nat>, dead: multiset<nat>, left: set<Seg>, s: Seg)
    requires Seen(c, l, segs, words, was, dead, left) && s in segs && s.kind.Pair?
    requires forall t :: t in segs && t.kind.Pair? && t != s ==> (WordOf(c, l, t) in words' <==> WordOf(c, l, t) in words)
    requires WordOf(c, l, s) in words' <==> WordOf(c, l, s) in was && WordOf(c, l, s) in dead
    ensures Seen(c, l, segs, words', was, dead, left - {s})
  {
  }

  lemma NotConvicted(c: Config, l: nat, segs: seq<Seg>, was: set<nat>, dead: multiset<nat>, s: Seg)
    requires s in segs && s.kind.Pair? && WordOf(c, l, s) in was && WordOf(c, l, s) !in dead
    ensures !Convicted(c, l, segs, was, dead)
  {
  }

  lemma MovedOne(c: Config, l: nat, was: map<nat, nat>, table: map<nat, nat>, table': map<nat, nat>, lpa: nat)
    requires Moved(c, l, was, table) && lpa in table && lpa in table' && table' == table[lpa := table'[lpa]]
    requires c.lineOf(table[lpa]) == l != c.lineOf(table'[lpa])
    ensures Moved(c, l, was, table')
  {
  }

  lemma NoneMoved(c: Config, l: nat, table: map<nat, nat>)
    ensures Moved(c, l, table, table)
  {
  }

  lemma LaidStored(c: Config, s: Spot, glen: map<nat, nat>, moved: seq<nat>, was: map<nat, nat>, now: map<nat, nat>)
    requires Laid(c, s, glen, moved, was, now)
    ensures AllStored(c, s, glen, moved) && now.Keys == was.Keys
  {
  }

  /** A mapping into the victim has not moved yet. */
  lemma Unmoved(c: Config, l: nat, was: map<nat, nat>, table: map<nat, nat>, k: nat)
    requires Moved(c, l, was, table) && k in table && c.lineOf(table[k]) == l
    ensures k in was && table[k] == was[k]
  {
  }

  lemma StoredPart(c: Config, s: Spot, glen: map<nat, nat>, l: nat, was: set<nat>, dead: multiset<nat>, pairs: seq<Seg>, more: seq<Seg>)
    requires !AllStored(c, s, glen, ToMove(c, l, was, dead, pairs))
    ensures !AllStored(c, s, glen, ToMove(c, l, was, dead, pairs + more))
  {
    hide AllStored, ToMove;
    ToMoveMore(c, l, was, dead, pairs, more);
    if AllStored(c, s, glen, ToMove(c, l, was, dead, pairs + more)) {
      StoredBefore(c, s, glen, ToMove(c, l, was, dead, pairs), ToMove(c, l, was, dead, more));
    }
  }

  lemma VisitsNext(segs: seq<Seg>, inv: seq<nat>, order: seq<nat>, n: nat)
    requires n < |order|
    ensures Visits(segs, inv, order[..n + 1]) == Visits(segs, inv, order[..n]) + OnPage(segs, inv, order[n])
  {
    assert order[..n + 1][..n] == order[..n];
  }

  lemma {:induction false} VisitsPrefix(segs: seq<Seg>, inv: seq<nat>, order: seq<nat>, n: nat)
    requires n <= |order|
    ensures Visits(segs, inv, order[..n]) <= Visits(segs, inv, order)
  {
    if n < |order| {
      var front := order[..|order| - 1];
      assert front[..n] == order[..n];
      VisitsPrefix(segs, inv, front, n);
    } else {
      assert order[..n] == order;
    }
  }

  lemma BackIs(c: Config, p: State, victim: nat, order: seq<nat>)
    ensures BackIn(c, p, victim, order) == ToLog(c, victim, Words(p.table), Dead(p, victim), Viewed(p, victim, order))
    ensures Moves(c, p, victim, order) == ToMove(c, victim, Words(p.table), Dead(p, victim), Viewed(p, victim, order))
  {
  }

  lemma MovesAre(c: Config, p: State, victim: nat, order: seq<nat>)
    requires victim < |p.w.view| == |p.w.line|
    ensures var pairs := Visits(p.w.view[victim].segs, p.w.line[victim].inv, order);
            Viewed(p, victim, order) == pairs && Moves(c, p, victim, order) == ToMove(c, victim, Words(p.table), Dead(p, victim), pairs)
  {
  }

  /** A collection that has to stop at a page has to stop. */
  lemma VisitsFirst(c: Config, p: State, victim: nat, dead: multiset<nat>, segs: seq<Seg>, inv: seq<nat>, order: seq<nat>, n: nat)
    requires n <= |order| && !AllStored(c, GcSpot(p), p.glen, ToMove(c, victim, Words(p.table), dead, Visits(segs, inv, order[..n])))
    ensures !AllStored(c, GcSpot(p), p.glen, ToMove(c, victim, Words(p.table), dead, Visits(segs, inv, order)))
  {
    hide AllStored, ToMove;
    VisitsPrefix(segs, inv, order, n);
    var a, b := Visits(segs, inv, order[..n]), Visits(segs, inv, order);
    assert b == a + b[|a|..];
    StoredPart(c, GcSpot(p), p.glen, victim, Words(p.table), dead, a, b[|a|..]);
  }

  /** The lookup in the mapping table tells if a pair of the victim is mapped. */
  lemma LookedUp(c: Config, w: World, table: map<nat, nat>, glen: map<nat, nat>, victim: nat, line: Line, s: Seg)
    requires Tabled(c, w, table, glen) && victim < c.lines && LineShape(c, victim, line, w.view[victim])
    requires s in w.view[victim].segs && s.kind.Pair?
    ensures WordOf(c, victim, s) in Words(table) <==> s.kind.lpa in table && table[s.kind.lpa] == c.grainOf(victim, s.start)
  {
    HeaderAt(c, victim, line, w.view[victim], s);
    WordInTable(c, w, table, glen, s.kind.lpa, c.grainOf(victim, s.start));
  }

  /** The pair that an index maps to, as a pair of its line. */
  lemma PairOf(c: Config, w: World, table: map<nat, nat>, glen: map<nat, nat>, k: nat) returns (s: Seg)
    requires Tabled(c, w, table, glen) && k in table
    ensures k < UINT_MAX && c.lineOf(table[k]) < |w.view| && s in w.view[c.lineOf(table[k])].segs && s.kind == Pair(k)
    ensures WordOf(c, c.lineOf(table[k]), s) == Word(k, table[k]) && Word(k, table[k]) in Words(table)
  {
    assert Mapped(c, w, k, table[k], glen[k]);
    s := Seg(c.posOf(table[k]), glen[k], Pair(k));
    InTable(table, k);
  }

  /** Every index that maps into the victim is doomed exactly if the log convicts every
      mapped pair. */
  lemma AllConvicted(c: Config, w: World, table: map<nat, nat>, glen: map<nat, nat>, victim: nat, line: Line)
    requires Tabled(c, w, table, glen) && victim < c.lines && LineShape(c, victim, line, w.view[victim]) && c.Ok()
    ensures AllDoomed(c, table, w.log, victim) ==> Convicted(c, victim, w.view[victim].segs, Words(table), Drained(w.log[victim]))
  {
    hide Words, LineShape, Drained, Tabled;
    SameSize(c, w, table, glen);
    if AllDoomed(c, table, w.log, victim) {
      forall s | s in w.view[victim].segs && s.kind.Pair? && WordOf(c, victim, s) in Words(table)
        ensures WordOf(c, victim, s) in Drained(w.log[victim])
      {
        PairOnVictim(c, w, table, glen, victim, line, s);
        assert Doomed(c, table, w.log, victim, s.kind.lpa);
      }
    }
  }

  /** When all pairs were seen, exactly the doomed indexes still map into the victim. */
  lemma DoomedLeft(c: Config, w: World, w': World, was: map<nat, nat>, table: map<nat, nat>, glen: map<nat, nat>,
                   victim: nat, dead: multiset<nat>, left: set<Seg>)
    requires Tabled(c, w, was, glen) && Tabled(c, w', table, glen) && victim < c.lines && w'.view[victim] == w.view[victim]
    requires Moved(c, victim, was, table) && dead == Drained(w.log[victim])
    requires Seen(c, victim, w.view[victim].segs, Words(table), Words(was), dead, left)
    requires forall s :: s in w.view[victim].segs && s.kind.Pair? ==> s !in left
    ensures OnlyDoomed(c, table, State(was, glen, w, Frontier(0, 0, 0, false), Frontier(0, 0, 0, false)), victim)
  {
    hide Words, Drained, Tabled;
    SameSize(c, w, was, glen);
    forall k | k in table
      ensures c.lineOf(table[k]) == victim <==> Doomed(c, was, w.log, victim, k)
    {
      if c.lineOf(table[k]) == victim {
        var s := PairOf(c, w', table, glen, k);
      } else if Doomed(c, was, w.log, victim, k) {
        var s := PairOf(c, w, was, glen, k);
        WordInTable(c, w', table, glen, k, was[k]);
      }
    }
  }

  lemma SameSize(c: Config, w: World, table: map<nat, nat>, glen: map<nat, nat>)
    requires Tabled(c, w, table, glen)
    ensures Sized(c, w)
  {
  }

  /** A collection of a line without left-overs in its log records nothing again. */
  lemma NothingAgain(c: Config, p: State, l: nat, order: seq<nat>)
    requires LinesOk(c, p.w, Words(p.table), Words(p.table), c.lines) && l < c.lines && l < |p.w.view| && p.w.view[l].stale == []
    ensures BackIn(c, p, l, order) == []
  {
    hide Drained, WordOf, LineOk, LinesOk, Words, Entries, ToLog, Visits;
    var w, words, back := p.w, Words(p.table), BackIn(c, p, l, order);
    SizedLines(c, w, words, words, c.lines);
    CountedLine(c, w, l, words, words, c.lines);
    if back != [] {
      LoggedAre(c, l, words, Dead(p, l), Viewed(p, l, order), back[0]);
      assert back[0] in back;
      var s :| s in Viewed(p, l, order) && s.kind.Pair? && back[0] == WordOf(c, l, s);
      VisitsIn(w.view[l].segs, w.line[l].inv, order, s);
      LogIsExact(c, l, w.line[l], w.log[l], w.view[l], words, s);
    }
  }

  /** A pair is lost only to a word that was left over from an earlier life of its line. */
  lemma OnlyLeftOvers(c: Config, w: World, table: map<nat, nat>, glen: map<nat, nat>, k: nat)
    requires LinesOk(c, w, Words(table), Words(table), c.lines) && Tabled(c, w, table, glen) && k in table
    ensures var l := c.lineOf(table[k]); l < |w.view| && (Doomed(c, table, w.log, l, k) ==> Word(k, table[k]) in w.view[l].stale)
  {
    hide LineOk, Words, Drained, LinesOk, Tabled;
    var l := c.lineOf(table[k]);
    var s := PairOf(c, w, table, glen, k);
    SameSize(c, w, table, glen);
    CountedLine(c, w, l, Words(table), Words(table), c.lines);
    if Word(k, table[k]) !in w.view[l].stale {
      LogIsExact(c, l, w.line[l], w.log[l], w.view[l], Words(table), s);
    }
  }

  /** A line has valid grains exactly if an index maps into it. */
  lemma NothingMapped(c: Config, w: World, table: map<nat, nat>, glen: map<nat, nat>, l: nat)
    requires LinesOk(c, w, Words(table), Words(table), c.lines) && Tabled(c, w, table, glen) && c.Ok() && l < c.lines
    ensures l < |w.line| && (w.line[l].vgc > 0 <==> exists k :: k in table && c.lineOf(table[k]) == l)
  {
    hide LineOk, Words, LinesOk, Tabled, LineShape;
    SameSize(c, w, table, glen);
    CountedLine(c, w, l, Words(table), Words(table), c.lines);
    ShapeOf(c, l, w.line[l], w.log[l], w.view[l], Words(table), Words(table));
    if w.line[l].vgc > 0 {
      ValidIsLive(c, l, w.line[l], w.log[l], w.view[l], Words(table));
      var s := SomeLive(c, l, w.view[l].segs, |w.view[l].segs|, Words(table));
      PairOnVictim(c, w, table, glen, l, w.line[l], s);
    } else {
      NothingValid(c, l, w.line[l], w.log[l], w.view[l], Words(table));
      forall k | k in table
        ensures c.lineOf(table[k]) != l
      {
        var s := PairOf(c, w, table, glen, k);
      }
    }
  }

  lemma {:induction false} SomeLive(c: Config, l: nat, segs: seq<Seg>, n: nat, words: set<nat>) returns (s: Seg)
    requires n <= |segs| && LiveGrains(c, l, segs, n, words) > 0
    ensures s in segs && s.kind.Pair? && WordOf(c, l, s) in words
  {
    s := segs[n - 1];
    if !(s.kind.Pair? && WordOf(c, l, s) in words) {
      s := SomeLive(c, l, segs, n - 1, words);
    }
  }

  lemma PairIn(segs: seq<Seg>, k: nat, s: Seg)
    requires s in PairsOn(segs, k)
    ensures s in segs && s.kind.Pair?
  {
  }

  lemma VictimReadable(c: Config, l: nat, line: Line, v: View)
    requires LineShape(c, l, line, v)
    ensures Chain(v.segs, line.fill) && |line.oob| == c.size && AllDescribed(line.oob, v.segs)
  {
  }

  /** Every page of a line once. */
  ghost predicate CoversPages(order: seq<nat>, size: nat) {
    && (forall j :: 0 <= j < |order| ==> 64 * order[j] + 64 <= size)
    && (forall i, j :: 0 <= i < j < |order| ==> order[i] != order[j])
    && (forall k: nat :: 64 * k + 64 <= size ==> k in order)
  }

  /** No pair of the line is mapped any more. */
  ghost predicate NoneLeft(c: Config, l: nat, segs: seq<Seg>, words: set<nat>) {
    forall s :: s in segs && s.kind.Pair? ==> WordOf(c, l, s) !in words
  }

  lemma VictimStarts(c: Config, w: World, victim: nat, words: set<nat>, user: Frontier, gc: Frontier)
    requires LinesOk(c, w, words, words, c.lines) && FrontiersOk(c, w, user, gc) && victim < c.lines && !Idle(w, victim)
    requires victim != user.line && victim != gc.line
    ensures LineShape(c, victim, w.line[victim], w.view[victim]) && w.line[victim].fill == c.size
    ensures AliveIn(c, victim, w.view[victim], words) && Readback(w.log[victim])
  {
    assert LineOk(c, victim, w.line[victim], w.log[victim], w.view[victim], words, words);
  }

  lemma VictimAside(c: Config, w: World, victim: nat, rest: Log, words: set<nat>)
    requires LinesOk(c, w, words, words, c.lines) && victim < c.lines && !Idle(w, victim)
    ensures LinesOk(c, With(w, victim, w.line[victim], rest, w.view[victim]), words, words, victim)
  {
  }

  lemma AllLeft(c: Config, l: nat, segs: seq<Seg>, words: set<nat>, dead: multiset<nat>, left: set<Seg>)
    requires left == set s | s in segs && s.kind.Pair?
    ensures Seen(c, l, segs, words, words, dead, left)
    ensures forall k: nat :: PairsOn(segs, k) <= left
  {
  }

  lemma PagesApart(segs: seq<Seg>, order: seq<nat>, n: nat)
    requires n < |order| && forall i, j :: 0 <= i < j < |order| ==> order[i] != order[j]
    ensures forall j :: 0 <= j < |order| && j != n ==> PairsOn(segs, order[j]) !! PairsOn(segs, order[n])
  {
  }

  lemma AllPagesSeen(c: Config, l: nat, line: Line, v: View, order: seq<nat>, left: set<Seg>)
    requires LineShape(c, l, line, v) && c.size % 64 == 0 && CoversPages(order, c.size)
    requires forall j :: 0 <= j < |order| ==> PairsOn(v.segs, order[j]) !! left
    ensures forall s :: s in v.segs && s.kind.Pair? ==> s !in left
  {
    hide LineShape, CoversPages;
    forall s | s in v.segs && s.kind.Pair?
      ensures s !in left
    {
      HeaderAt(c, l, line, v, s);
      var j := PageInOrder(order, c.size, s.start);
      assert s in PairsOn(v.segs, order[j]);
    }
  }

  lemma PageInOrder(order: seq<nat>, size: nat, x: nat) returns (j: nat)
    requires CoversPages(order, size) && size % 64 == 0 && x < size
    ensures j < |order| && 64 * order[j] <= x < 64 * order[j] + 64
  {
    var k: nat := x / 64;
    assert 64 * k + 64 <= size;
    assert k in order;
    j :| 0 <= j < |order| && order[j] == k;
  }

  /** A line without valid grains has no pair that the table maps to. */
  lemma NothingValid(c: Config, l: nat, line: Line, log: Log, v: View, words: set<nat>)
    requires LineOk(c, l, line, log, v, words, words) && line.vgc <= 0
    ensures NoneLeft(c, l, v.segs, words)
  {
    CountBound(v.dead, 0, line.fill);
    forall s | s in v.segs && s.kind.Pair?
      ensures WordOf(c, l, s) !in words
    {
      var i :| 0 <= i < |v.segs| && v.segs[i] == s;
      ChainBound(v.segs, line.fill, i);
      assert SegIs(v.dead, v.segs[i], WordOf(c, l, v.segs[i]) !in words);
      assert v.dead[s.start];
    }
  }

  lemma PageEnd(fill: nat, gend: nat)
    requires fill < gend && gend % 64 == 0
    ensures fill < (fill / 64 + 1) * 64 <= gend && ((fill / 64 + 1) * 64) % 64 == 0
  {
  }

  lemma ErasedIsBlank(c: Config, r: Line, v: View)
    requires c.Ok() && r == ErasedLine(c)
    requires v == View(NOTHING, seq(c.size, _ => false), v.stale)
    ensures Blank(c, r, v)
  {
  }

  /** The table survives an erase exactly if no index maps into the line. */
  lemma StillTabled(c: Config, w: World, w': World, table: map<nat, nat>, glen: map<nat, nat>, victim: nat)
    requires Tabled(c, w, table, glen) && victim < c.lines && Sized(c, w') && w'.view[victim].segs == NOTHING
    requires forall l :: 0 <= l < c.lines && l != victim ==> w'.view[l] == w.view[l]
    ensures Tabled(c, w', table, glen) <==> forall k :: k in table ==> c.lineOf(table[k]) != victim
  {
    forall k | k in table
      ensures Mapped(c, w', k, table[k], glen[k]) <==> c.lineOf(table[k]) != victim
    {
      assert Mapped(c, w, k, table[k], glen[k]);
    }
  }

  /** An erased line joins the free list; what is left in its log are left-overs. */
  lemma Erased(c: Config, w: World, victim: nat, r: Line, v: View, words: set<nat>, user: Frontier, gc: Frontier)
    requires c.Ok() && LinesOk(c, w, words, words, victim) && FrontiersOk(c, w, user, gc) && Blank(c, r, v)
    requires victim < c.lines && !Idle(w, victim) && victim != user.line && victim != gc.line
    requires Sized(c, w) && Readback(w.log[victim]) && v.stale == Entries(w.log[victim])
    ensures var w' := World(w.line[victim := r], w.log, w.view[victim := v], w.free + [victim], w.away);
            FrontiersOk(c, w', user, gc) && LinesOk(c, w', words, words, c.lines)
  {
    hide LinesOk, FrontiersOk, LineOk, Blank, Readback, Entries;
    ErasedFrontiers(c, w, victim, r, v, user, gc);
    BlankOk(c, victim, r, w.log[victim], v, words, words);
    ErasedLines(c, w, victim, r, v, words);
  }

  lemma ErasedFrontiers(c: Config, w: World, victim: nat, r: Line, v: View, user: Frontier, gc: Frontier)
    requires FrontiersOk(c, w, user, gc) && victim < c.lines && victim != user.line && victim != gc.line
    ensures FrontiersOk(c, World(w.line[victim := r], w.log, w.view[victim := v], w.free + [victim], w.away), user, gc)
  {
  }

  lemma ErasedLines(c: Config, w: World, victim: nat, r: Line, v: View, words: set<nat>)
    requires LinesOk(c, w, words, words, victim) && Blank(c, r, v)
    requires victim < c.lines && !Idle(w, victim)
    requires LineOk(c, victim, r, w.log[victim], v, words, words)
    ensures LinesOk(c, World(w.line[victim := r], w.log, w.view[victim := v], w.free + [victim], w.away), words, words, c.lines)
  {
    hide LineOk, Blank;
    var w' := World(w.line[victim := r], w.log, w.view[victim := v], w.free + [victim], w.away);
    assert forall l :: l in w'.free ==> l in w.free || l == victim;
    assert FreeOk(c, w');
  }

  lemma NotIdle(w: World, l: nat)
    requires l !in w.free && l !in w.away
    ensures !Idle(w, l)
  {
  }

  /** A full line at a frontier is in its last group. */
  lemma LastGroup(c: Config, w: World, user: Frontier, gc: Frontier, isGc: bool)
    requires FrontiersOk(c, w, user, gc) && w.line[(if isGc then gc else user).line].fill == c.size
    ensures (if isGc then gc else user).gend == c.size
  {
  }

  lemma LeftGroups(c: Config, w: World, user: Frontier, gc: Frontier, isGc: bool)
    requires c.Ok() && FrontiersOk(c, w, user, gc)
    ensures var f := if isGc then gc else user; f.left == 0 <==> f.gend == c.size
    ensures Sized(c, w) && (if isGc then gc else user).line < c.lines
  {
    var f := if isGc then gc else user;
    NextGroup(c.size, f.gend, c.group, f.left);
  }

  lemma GroupRolled(c: Config, w: World, user: Frontier, gc: Frontier, isGc: bool, skip: nat)
    requires c.Ok() && FrontiersOk(c, w, user, gc) && (if isGc then gc else user).left > 0 && (isGc ==> !gc.open)
    requires var f := if isGc then gc else user; w.line[f.line].fill == f.gend
    ensures var f := if isGc then gc else user; var f' := f.(gend := f.gend + c.group, left := f.left - 1);
            && FrontiersOk(c, w, if isGc then user else f', if isGc then f' else gc)
            && Grows(c, w, w, skip)
            && AtGroupStart(c, w.line[f.line].fill, f'.gend) && w.line[f.line].fill + 64 < f'.gend
  {
    SpotOk(c, w, user, gc, isGc);
    hide FrontierOk;
    FrontierRolled(c, w, if isGc then gc else user);
  }

  /** The write pointer leaves a line with the last page of its last LUN group. By then the
      frontier is in that group, so with two groups at least, and no pair on the line as long as
      all of them but one, some grains are invalid. */
  lemma ClosingLineHasInvalid(c: Config, w: World, user: Frontier, gc: Frontier, isGc: bool)
    requires c.Ok() && 2 <= c.groups && FrontiersOk(c, w, user, gc) && (if isGc then gc else user).left == 0
    requires Shorter(c, w.view[(if isGc then gc else user).line].segs)
    ensures var f := if isGc then gc else user; Sized(c, w) && f.line < c.lines && 0 < w.line[f.line].igc
  {
    GroupsOfLine(c);
    NextGroup(c.size - c.group, 0, c.group, c.groups - 1);
    Multiple(c.group, c.groups - 1);
  }

  lemma Multiple(a: nat, b: nat)
    requires 0 < a && 0 < b
    ensures 0 < b * a
  {
  }

  lemma FrontierRolled(c: Config, w: World, f: Frontier)
    requires c.Ok() && Sized(c, w) && FrontierOk(c, w, f) && f.left > 0 && f.line < c.lines && w.line[f.line].fill == f.gend
    ensures FrontierOk(c, w, f.(gend := f.gend + c.group, left := f.left - 1)) && 192 <= c.group
  {
    NextGroup(c.size, f.gend, c.group, f.left);
    SumOfPages(f.gend, c.group);
  }

  lemma SumOfPages(a: nat, b: nat)
    requires a % 64 == 0 && b % 64 == 0
    ensures (a + b) % 64 == 0
  {
  }

  lemma Reopened(c: Config, w: World, user: Frontier, gc: Frontier, isGc: bool, open: bool)
    requires FrontiersOk(c, w, user, gc) && w.line[(if isGc then gc else user).line].fill < (if isGc then gc else user).gend
    ensures FrontiersOk(c, w, if isGc then user else user.(open := open), if isGc then gc.(open := open) else gc)
  {
  }

  /** The state of a formatted device. */
  lemma Formatted(c: Config, w: World, r: Line, v: View)
    requires c.Ok() && 4 <= c.lines && Sized(c, w)
    requires r == ErasedLine(c) && v == View(NOTHING, seq(c.size, _ => false), [])
    requires forall l :: 0 <= l < c.lines ==> w.line[l] == r && w.log[l] == EMPTY && w.view[l] == v
    requires w.free == seq(c.lines - 4, i => 4 + i) && w.away == {1, 2}
    ensures LinesOk(c, w, {}, {}, c.lines) && Words(map[]) == {} && Tabled(c, w, map[], map[])
    ensures FrontiersOk(c, w, Frontier(0, c.group, c.groups - 1, false), Frontier(3, c.group, c.groups - 1, false))
  {
    hide FrontiersOk, Blank, LineOk;
    ErasedIsBlank(c, r, v);
    forall l | 0 <= l < c.lines
      ensures LineOk(c, l, w.line[l], w.log[l], w.view[l], {}, {})
    {
      BlankOk(c, l, r, EMPTY, v, {}, {});
    }
    FreeTail(c.lines, w.free);
    FirstFrontiers(c, w);
  }

  lemma FirstFrontiers(c: Config, w: World)
    requires c.Ok() && 4 <= c.lines && Sized(c, w) && w.away == {1, 2} && forall l: nat :: l in w.free <==> 4 <= l < c.lines
    requires w.line[0].fill == w.line[3].fill == 0
    ensures FrontiersOk(c, w, Frontier(0, c.group, c.groups - 1, false), Frontier(3, c.group, c.groups - 1, false))
  {
    GroupsOfLine(c);
  }

  lemma FreeTail(lines: nat, free: seq<nat>)
    requires 4 <= lines && free == seq(lines - 4, i => 4 + i)
    ensures forall l: nat :: l in free <==> 4 <= l < lines
  {
    forall l: nat | 4 <= l < lines
      ensures l in free
    {
      assert free[l - 4] == l;
    }
  }

  lemma Lent(c: Config, w: World, words: set<nat>, user: Frontier, gc: Frontier, table: map<nat, nat>, glen: map<nat, nat>)
    requires LinesOk(c, w, words, words, c.lines) && FrontiersOk(c, w, user, gc) && Tabled(c, w, table, glen) && w.free != []
    ensures var w' := w.(free := w.free[1..], away := w.away + {w.free[0]});
            LinesOk(c, w', words, words, c.lines) && FrontiersOk(c, w', user, gc) && Tabled(c, w', table, glen)
  {
    hide LineOk, Blank;
    var w' := w.(free := w.free[1..], away := w.away + {w.free[0]});
    PoppedHead(w.free);
    assert forall l: nat :: Idle(w', l) <==> Idle(w, l);
    SameViews(c, w, w', table, glen);
  }

  lemma Returned(c: Config, w: World, words: set<nat>, user: Frontier, gc: Frontier, table: map<nat, nat>, glen: map<nat, nat>, l: nat)
    requires LinesOk(c, w, words, words, c.lines) && FrontiersOk(c, w, user, gc) && Tabled(c, w, table, glen) && l in w.away
    ensures var w' := w.(free := w.free + [l], away := w.away - {l});
            LinesOk(c, w', words, words, c.lines) && FrontiersOk(c, w', user, gc) && Tabled(c, w', table, glen)
  {
    hide LineOk, Blank;
    var w' := w.(free := w.free + [l], away := w.away - {l});
    assert forall m: nat :: Idle(w', m) <==> Idle(w, m);
    SameViews(c, w, w', table, glen);
  }

  lemma SameViews(c: Config, w: World, w': World, table: map<nat, nat>, glen: map<nat, nat>)
    requires Tabled(c, w, table, glen) && Sized(c, w') && w'.view == w.view
    ensures Tabled(c, w', table, glen)
  {
    forall k | k in table
      ensures Mapped(c, w', k, table[k], glen[k])
    {
      assert Mapped(c, w, k, table[k], glen[k]);
    }
  }

  // ----- what the invariant means for the pairs on flash -----

  /** Every mapped hash index finds a header with itself and its length at its grain, and
      none of the grains of the pair is marked invalid. */
  lemma HeaderOfMapped(c: Config, w: World, table: map<nat, nat>, glen: map<nat, nat>, lpa: nat)
    requires c.Ok() && LinesOk(c, w, Words(table), Words(table), c.lines) && Tabled(c, w, table, glen) && lpa in table
    ensures var l, x := c.lineOf(table[lpa]), c.posOf(table[lpa]);
            && l < |w.line| && x < |w.line[l].oob| && lpa in glen
            && LpaOf(w.line[l].oob[x]) == lpa && LenOf(w.line[l].oob[x]) == glen[lpa]
            && x + glen[lpa] <= w.line[l].fill && l < |w.view| && |w.view[l].dead| == |w.line[l].oob| && w.line[l].fill <= |w.line[l].oob|
            && forall y :: x <= y < x + glen[lpa] ==> !w.view[l].dead[y]
  {
    var l, x := c.lineOf(table[lpa]), c.posOf(table[lpa]);
    MappedLine(c, w, table, glen, lpa, Words(table), Words(table));
    CountedLine(c, w, l, Words(table), Words(table), c.lines);
    InTable(table, lpa);
    var s := Seg(x, glen[lpa], Pair(lpa));
    HeaderAt(c, l, w.line[l], w.view[l], s);
    Invalidatable(c, l, w.line[l], w.log[l], w.view[l], Words(table), Words(table), s);
    DeadSize(w.line[l], w.view[l].dead);
  }

  /** Pairs of different hash indexes never share a grain. */
  lemma MappedApart(c: Config, w: World, table: map<nat, nat>, glen: map<nat, nat>, j: nat, k: nat)
    requires c.Ok() && LinesOk(c, w, Words(table), Words(table), c.lines) && Tabled(c, w, table, glen)
    requires j in table && k in table && j != k && c.lineOf(table[j]) == c.lineOf(table[k])
    ensures j in glen && k in glen
    ensures var x, y := c.posOf(table[j]), c.posOf(table[k]); x + glen[j] <= y || y + glen[k] <= x
  {
    hide LinesOk, Tabled, LineOk, LineShape, Words, Counted;
    var l := c.lineOf(table[j]);
    MappedLine(c, w, table, glen, j, Words(table), Words(table));
    MappedLine(c, w, table, glen, k, Words(table), Words(table));
    CountedLine(c, w, l, Words(table), Words(table), c.lines);
    ShapeOf(c, l, w.line[l], w.log[l], w.view[l], Words(table), Words(table));
    VictimReadable(c, l, w.line[l], w.view[l]);
    SegsApart(w.view[l].segs, w.line[l].fill, Seg(c.posOf(table[j]), glen[j], Pair(j)), Seg(c.posOf(table[k]), glen[k], Pair(k)));
  }

  lemma ShapeOf(c: Config, l: nat, line: Line, log: Log, v: View, valid: set<nat>, live: set<nat>)
    requires LineOk(c, l, line, log, v, valid, live)
    ensures LineShape(c, l, line, v)
  {
  }

  lemma SegsApart(segs: seq<Seg>, fill: nat, s: Seg, t: Seg)
    requires Chain(segs, fill) && s in segs && t in segs && s != t
    ensures s.End() <= t.start || t.End() <= s.start
  {
    var a :| 0 <= a < |segs| && segs[a] == s;
    var b :| 0 <= b < |segs| && segs[b] == t;
    hide Chain;
    if a < b {
      ChainOrdered(segs, fill, a, b);
    } else {
      ChainOrdered(segs, fill, b, a);
    }
  }
}
