/** What a line, its log of invalid mappings and the mapping table agree on, and how
    each step of the FTL keeps that agreement. */
module FtlLine {
  import opened Types
  import opened Lists
  import opened FlashLine
  import opened InvalidLog

  /** How the device numbers its grains, proved of the real geometry in module FtlGeometry.
      A line has `size` grains in `groups` runs of `group` grains on one LUN each. */
  datatype Config = Config(lines: nat, size: nat, group: nat, groups: nat,
                           grainOf: (nat, nat) -> nat, lineOf: nat -> nat, posOf: nat -> nat) {
    ghost predicate Ok() {
      && group % 64 == 0 && 192 <= group && 1 <= groups && size == groups * group && size % 64 == 0
      && (forall l: nat, x: nat :: l < lines && x < size ==>
            lineOf(grainOf(l, x)) == l && posOf(grainOf(l, x)) == x && grainOf(l, x) < 0x8000_0000)
    }
  }

  /** The history of a line since its last erase: what its grains were used for, which of
      them have been marked invalid, and the words that were left in its log. */
  datatype View = View(segs: seq<Seg>, dead: seq<bool>, stale: seq<nat>)

  const NOTHING: seq<Seg> := []

  /** The log word of a pair on line `l`. */
  function WordOf(c: Config, l: nat, s: Seg): nat
    requires s.kind.Pair?
  {
    Word(s.kind.lpa, c.grainOf(l, s.start))
  }

  ghost predicate LineShape(c: Config, l: nat, line: Line, v: View) {
    && |line.oob| == c.size
    && Counted(line, v.dead)
    && Chain(v.segs, line.fill)
    && AllDescribed(line.oob, v.segs)
    && (forall i :: 0 <= i < |v.segs| && v.segs[i].kind == Gap(false) ==> v.segs[i] == Seg(0, 64, Gap(false)) && l == 0)
  }

  /** Every pair is shorter than the LUN groups of a line but for one. */
  ghost predicate Shorter(c: Config, segs: seq<Seg>) {
    forall i :: 0 <= i < |segs| && segs[i].kind.Pair? ==> segs[i].len + c.group < c.size
  }

  ghost predicate SegIs(dead: seq<bool>, s: Seg, isDead: bool) {
    s.End() <= |dead| && forall x :: s.start <= x < s.End() ==> dead[x] == isDead
  }

  /** The grains of a pair are invalid exactly when its word is not in `live`. */
  ghost predicate AliveIn(c: Config, l: nat, v: View, live: set<nat>) {
    forall i :: 0 <= i < |v.segs| ==>
      SegIs(v.dead, v.segs[i], v.segs[i].kind.Gap? || WordOf(c, l, v.segs[i]) !in live)
  }

  ghost predicate IsPairWord(c: Config, l: nat, segs: seq<Seg>, w: nat) {
    exists i :: 0 <= i < |segs| && segs[i].kind.Pair? && w == WordOf(c, l, segs[i])
  }

  /** The entries of a log since the last erase of its line. */
  ghost function Fresh(log: Log, v: View): seq<nat>
    requires |v.stale| <= |Entries(log)|
  {
    Entries(log)[|v.stale|..]
  }

  /** Behind the words that were left over, the log of a line holds the words of its pairs
      that are not in `live`, once each. */
  ghost predicate LoggedIn(c: Config, l: nat, v: View, log: Log, live: set<nat>) {
    && Readback(log)
    && v.stale <= Entries(log)
    && Distinct(Fresh(log, v))
    && (forall w :: w in Fresh(log, v) ==> IsPairWord(c, l, v.segs, w))
    && (forall i :: 0 <= i < |v.segs| && v.segs[i].kind.Pair? ==>
          (WordOf(c, l, v.segs[i]) in Fresh(log, v) <==> WordOf(c, l, v.segs[i]) !in live))
  }

  /** Only full pages of a log are flushed, and none of its words looks like a marker. */
  ghost predicate Readback(log: Log) {
    Packed(log) && Clean(Entries(log))
  }

  ghost predicate LineOk(c: Config, l: nat, line: Line, log: Log, v: View, valid: set<nat>, live: set<nat>) {
    LineShape(c, l, line, v) && AliveIn(c, l, v, valid) && LoggedIn(c, l, v, log, live)
  }

  /** An erased line. */
  ghost predicate Blank(c: Config, line: Line, v: View) {
    && |line.oob| == |v.dead| == c.size && 64 * |line.inv| == c.size
    && line.fill == 0 && line.vgc == 0 && line.igc == 0
    && (forall k :: 0 <= k < |line.inv| ==> line.inv[k] == 0)
    && v.segs == NOTHING
    && (forall x :: 0 <= x < |v.dead| ==> !v.dead[x])
  }

  lemma BlankOk(c: Config, l: nat, line: Line, log: Log, v: View, valid: set<nat>, live: set<nat>)
    requires Blank(c, line, v) && c.Ok() && Readback(log) && v.stale == Entries(log)
    ensures LineOk(c, l, line, log, v, valid, live)
  {
    CountNone(v.dead, 0, 0);
    forall k | 0 <= k < |line.inv|
      ensures line.inv[k] == Count(v.dead, 64 * k, 64 * k + 64)
    {
      CountNone(v.dead, 64 * k, 64 * k + 64);
    }
    assert Fresh(log, v) == [];
  }

  // ----- facts about one line -----

  lemma WordsDiffer(c: Config, l: nat, line: Line, v: View, i: nat, j: nat)
    requires c.Ok() && l < c.lines && LineShape(c, l, line, v)
    requires i < |v.segs| && j < |v.segs| && i != j && v.segs[i].kind.Pair? && v.segs[j].kind.Pair?
    ensures WordOf(c, l, v.segs[i]) != WordOf(c, l, v.segs[j])
  {
    var s, t := v.segs[i], v.segs[j];
    if i < j {
      ChainOrdered(v.segs, line.fill, i, j);
    } else {
      ChainOrdered(v.segs, line.fill, j, i);
    }
    ChainBound(v.segs, line.fill, i);
    ChainBound(v.segs, line.fill, j);
    assert Described(line.oob, s) && Described(line.oob, t);
    assert c.posOf(c.grainOf(l, s.start)) == s.start && c.posOf(c.grainOf(l, t.start)) == t.start;
    if WordOf(c, l, s) == WordOf(c, l, t) {
      WordInjective(s.kind.lpa, c.grainOf(l, s.start), t.kind.lpa, c.grainOf(l, t.start));
    }
  }

  /** Words of pairs on different lines differ. */
  lemma WordsOfLines(c: Config, l: nat, line: Line, v: View, s: Seg, w: nat, lpa: nat, grain: nat)
    requires c.Ok() && l < c.lines && LineShape(c, l, line, v) && s in v.segs && s.kind.Pair?
    requires w == Word(lpa, grain) && lpa < UINT_MAX && c.lineOf(grain) != l
    ensures WordOf(c, l, s) != w
  {
    var i :| 0 <= i < |v.segs| && v.segs[i] == s;
    ChainBound(v.segs, line.fill, i);
    assert Described(line.oob, s);
    assert c.lineOf(c.grainOf(l, s.start)) == l;
    if WordOf(c, l, s) == w {
      WordInjective(s.kind.lpa, c.grainOf(l, s.start), lpa, grain);
    }
  }

  /** Only the words of its own pairs matter to a line. */
  lemma LineFrame(c: Config, l: nat, line: Line, log: Log, v: View, valid: set<nat>, live: set<nat>, valid': set<nat>, live': set<nat>)
    requires LineOk(c, l, line, log, v, valid, live)
    requires forall s :: s in v.segs && s.kind.Pair? ==>
      (WordOf(c, l, s) in valid <==> WordOf(c, l, s) in valid') && (WordOf(c, l, s) in live <==> WordOf(c, l, s) in live')
    ensures LineOk(c, l, line, log, v, valid', live')
  {
    forall i | 0 <= i < |v.segs|
      ensures SegIs(v.dead, v.segs[i], v.segs[i].kind.Gap? || WordOf(c, l, v.segs[i]) !in valid')
    {
      assert v.segs[i] in v.segs;
    }
    forall i | 0 <= i < |v.segs| && v.segs[i].kind.Pair?
      ensures WordOf(c, l, v.segs[i]) in Fresh(log, v) <==> WordOf(c, l, v.segs[i]) !in live'
    {
      assert v.segs[i] in v.segs;
    }
  }

  /** The header of a pair gives back its hash index and length. */
  lemma HeaderAt(c: Config, l: nat, line: Line, v: View, s: Seg)
    requires LineShape(c, l, line, v) && s in v.segs && s.kind.Pair?
    ensures s.start < |line.oob| && 0 < s.len && s.End() <= line.fill <= c.size && s.kind.lpa < UINT_MAX
    ensures LpaOf(line.oob[s.start]) == s.kind.lpa && LenOf(line.oob[s.start]) == s.len
  {
    var i :| 0 <= i < |v.segs| && v.segs[i] == s;
    ChainBound(v.segs, line.fill, i);
    assert Described(line.oob, v.segs[i]);
    HeaderRoundTrip(s.kind.lpa, s.len);
  }

  // ----- steps on one line -----

  /** Marking the grains of a pair invalid takes its word out of `valid`. */
  lemma LineKill(c: Config, l: nat, line: Line, line': Line, log: Log, v: View, valid: set<nat>, live: set<nat>, s: Seg)
    requires c.Ok() && l < c.lines && LineOk(c, l, line, log, v, valid, live)
    requires s in v.segs && s.kind.Pair? && WordOf(c, l, s) in valid
    requires line'.oob == line.oob && line'.fill == line.fill && Counted(line', Kill(v.dead, s.start, s.End()))
    ensures LineOk(c, l, line', log, v.(dead := Kill(v.dead, s.start, s.End())), valid - {WordOf(c, l, s)}, live)
  {
    var w, d := WordOf(c, l, s), Kill(v.dead, s.start, s.End());
    var n :| 0 <= n < |v.segs| && v.segs[n] == s;
    forall i | 0 <= i < |v.segs|
      ensures SegIs(d, v.segs[i], v.segs[i].kind.Gap? || WordOf(c, l, v.segs[i]) !in valid - {w})
    {
      assert SegIs(v.dead, v.segs[i], v.segs[i].kind.Gap? || WordOf(c, l, v.segs[i]) !in valid);
      if i < n {
        ChainOrdered(v.segs, line.fill, i, n);
      } else if n < i {
        ChainOrdered(v.segs, line.fill, n, i);
      }
      if i != n && v.segs[i].kind.Pair? {
        WordsDiffer(c, l, line, v, i, n);
      }
    }
    assert Fresh(log, v.(dead := d)) == Fresh(log, v);
    assert LoggedIn(c, l, v.(dead := d), log, live);
  }

  /** Recording a pair in the log takes its word out of `live`. */
  lemma LineRecord(c: Config, l: nat, line: Line, log: Log, v: View, valid: set<nat>, live: set<nat>, s: Seg)
    requires c.Ok() && l < c.lines && LineOk(c, l, line, log, v, valid, live)
    requires s in v.segs && s.kind.Pair? && WordOf(c, l, s) in live
    ensures LineOk(c, l, line, Record(log, s.kind.lpa, c.grainOf(l, s.start)), v, valid, live - {WordOf(c, l, s)})
  {
    var w, log' := WordOf(c, l, s), Record(log, s.kind.lpa, c.grainOf(l, s.start));
    var n :| 0 <= n < |v.segs| && v.segs[n] == s;
    HeaderAt(c, l, line, v, s);
    RecordMore(log, s.kind.lpa, c.grainOf(l, s.start), v);
    hide Record, Fresh, Entries, LineShape, Readback;
    forall i | 0 <= i < |v.segs| && v.segs[i].kind.Pair?
      ensures WordOf(c, l, v.segs[i]) in Fresh(log', v) <==> WordOf(c, l, v.segs[i]) !in live - {w}
    {
      if i != n {
        WordsDiffer(c, l, line, v, i, n);
      }
    }
    forall q | q in Fresh(log', v)
      ensures IsPairWord(c, l, v.segs, q)
    {
      assert q in Fresh(log, v) || q == WordOf(c, l, v.segs[n]);
    }
  }

  /** A record adds one word at the end. */
  lemma RecordMore(log: Log, lpa: nat, grain: nat, v: View)
    requires Readback(log) && v.stale <= Entries(log) && lpa < UINT_MAX && grain < 0x8000_0000
    ensures var log' := Record(log, lpa, grain);
            && Readback(log') && v.stale <= Entries(log')
            && Fresh(log', v) == Fresh(log, v) + [Word(lpa, grain)]
            && (Distinct(Fresh(log, v)) && Word(lpa, grain) !in Fresh(log, v) ==> Distinct(Fresh(log', v)))
  {
    hide Record, Entries, Word;
    PlainWord(lpa, grain);
    OneMore(Entries(log), v.stale, Word(lpa, grain));
  }

  lemma OneMore(all: seq<nat>, stale: seq<nat>, w: nat)
    requires Clean(all) && stale <= all && LpaIn(w) != UINT_MAX && !Marked(w)
    ensures Clean(all + [w]) && stale <= all + [w] && (all + [w])[|stale|..] == all[|stale|..] + [w]
    ensures Distinct(all[|stale|..]) && w !in all[|stale|..] ==> Distinct(all[|stale|..] + [w])
  {
    hide LpaIn, Marked;
  }

  /** Appending a segment leaves the description of the others alone. */
  lemma DescribedAppend(oob: seq<nat>, oob': seq<nat>, segs: seq<Seg>, fill: nat, s: Seg)
    requires AllDescribed(oob, segs) && Chain(segs, fill) && fill <= |oob| == |oob'|
    requires forall x :: 0 <= x < fill ==> oob'[x] == oob[x]
    requires Described(oob', s)
    ensures AllDescribed(oob', segs + [s])
  {
    forall i | 0 <= i < |segs|
      ensures Described(oob', segs[i])
    {
      ChainBound(segs, fill, i);
      DescribedLocally(oob, oob', segs[i]);
    }
  }

  /** A word of a pair that is not on the line yet is new to the line and its log. */
  lemma FreshWord(c: Config, l: nat, line: Line, log: Log, v: View, live: set<nat>, s: Seg)
    requires c.Ok() && l < c.lines && LineShape(c, l, line, v) && LoggedIn(c, l, v, log, live)
    requires s.kind.Pair? && s.kind.lpa < UINT_MAX && s.start == line.fill < c.size
    ensures forall i :: 0 <= i < |v.segs| && v.segs[i].kind.Pair? ==> WordOf(c, l, v.segs[i]) != WordOf(c, l, s)
    ensures WordOf(c, l, s) !in Fresh(log, v)
  {
    forall i | 0 <= i < |v.segs| && v.segs[i].kind.Pair?
      ensures WordOf(c, l, v.segs[i]) != WordOf(c, l, s)
    {
      var t := v.segs[i];
      ChainBound(v.segs, line.fill, i);
      assert Described(line.oob, t);
      assert c.posOf(c.grainOf(l, s.start)) == s.start && c.posOf(c.grainOf(l, t.start)) == t.start;
      if WordOf(c, l, t) == WordOf(c, l, s) {
        WordInjective(s.kind.lpa, c.grainOf(l, s.start), t.kind.lpa, c.grainOf(l, t.start));
      }
    }
  }

  /** Words stay pair words when a segment is appended. */
  lemma LoggedAppend(c: Config, l: nat, v: View, log: Log, live: set<nat>, s: Seg, dead: seq<bool>, live': set<nat>)
    requires LoggedIn(c, l, v, log, live)
    requires forall i :: 0 <= i < |v.segs| && v.segs[i].kind.Pair? ==>
      (WordOf(c, l, v.segs[i]) in live <==> WordOf(c, l, v.segs[i]) in live')
    requires s.kind.Pair? ==> WordOf(c, l, s) !in Fresh(log, v) && WordOf(c, l, s) in live'
    ensures LoggedIn(c, l, v.(segs := v.segs + [s], dead := dead), log, live')
  {
    var segs' := v.segs + [s];
    var v' := v.(segs := segs', dead := dead);
    assert Fresh(log, v') == Fresh(log, v);
    forall w | w in Fresh(log, v)
      ensures IsPairWord(c, l, segs', w)
    {
      var i :| 0 <= i < |v.segs| && v.segs[i].kind.Pair? && w == WordOf(c, l, v.segs[i]);
      assert segs'[i] == v.segs[i];
    }
  }

  /** Placing a new pair adds its word on both sides. */
  lemma LinePlaced(c: Config, l: nat, line: Line, line': Line, log: Log, v: View, valid: set<nat>, live: set<nat>, s: Seg)
    requires c.Ok() && l < c.lines && LineOk(c, l, line, log, v, valid, live)
    requires s.kind.Pair? && s.kind.lpa < UINT_MAX && s.start == line.fill && 0 < s.len && s.End() <= c.size
    requires Counted(line', v.dead) && line'.fill == s.End() && |line'.oob| == c.size
    requires PairWords(line'.oob, s.start, s.len, s.kind.lpa)
    requires forall x :: 0 <= x < line.fill ==> line'.oob[x] == line.oob[x]
    ensures LineOk(c, l, line', log, v.(segs := v.segs + [s]), valid + {WordOf(c, l, s)}, live + {WordOf(c, l, s)})
  {
    var v' := v.(segs := v.segs + [s]);
    hide PairWords, Counted;
    FreshWord(c, l, line, log, v, live, s);
    ChainAppend(v.segs, line.fill, s.len, s.kind);
    assert s == Seg(line.fill, s.len, s.kind);
    DescribedAppend(line.oob, line'.oob, v.segs, line.fill, s);
    assert LineShape(c, l, line', v');
    LoggedAppend(c, l, v, log, live, s, v.dead, live + {WordOf(c, l, s)});
    SegsEnd(v.segs, line.fill);
    DeadSize(line, v.dead);
    NotDeadYet(line, v.dead, s);
    AliveAppend(c, l, v, valid, s, v.dead, valid + {WordOf(c, l, s)});
  }

  lemma NotDeadYet(line: Line, dead: seq<bool>, s: Seg)
    requires Counted(line, dead) && line.fill <= s.start && s.End() <= |dead|
    ensures SegIs(dead, s, false)
  {
  }

  lemma AliveAppend(c: Config, l: nat, v: View, valid: set<nat>, s: Seg, dead: seq<bool>, valid': set<nat>)
    requires AliveIn(c, l, v, valid)
    requires forall i :: 0 <= i < |v.segs| ==> v.segs[i].End() <= s.start
    requires |dead| == |v.dead| && forall x :: 0 <= x < s.start && x < |dead| ==> dead[x] == v.dead[x]
    requires forall i :: 0 <= i < |v.segs| && v.segs[i].kind.Pair? ==>
      (WordOf(c, l, v.segs[i]) in valid <==> WordOf(c, l, v.segs[i]) in valid')
    requires SegIs(dead, s, s.kind.Gap? || WordOf(c, l, s) !in valid')
    ensures AliveIn(c, l, v.(segs := v.segs + [s], dead := dead), valid')
  {
    forall i | 0 <= i < |v.segs|
      ensures SegIs(dead, v.segs[i], v.segs[i].kind.Gap? || WordOf(c, l, v.segs[i]) !in valid')
    {
      assert SegIs(v.dead, v.segs[i], v.segs[i].kind.Gap? || WordOf(c, l, v.segs[i]) !in valid);
    }
  }

  lemma SegsEnd(segs: seq<Seg>, fill: nat)
    requires Chain(segs, fill)
    ensures forall i :: 0 <= i < |segs| ==> segs[i].End() <= fill
  {
    forall i | 0 <= i < |segs|
      ensures segs[i].End() <= fill
    {
      ChainBound(segs, fill, i);
    }
  }

  /** Clearing grains leaves all words as they are. */
  lemma LineCleared(c: Config, l: nat, line: Line, line': Line, log: Log, v: View, valid: set<nat>, live: set<nat>, s: Seg)
    requires c.Ok() && l < c.lines && LineOk(c, l, line, log, v, valid, live)
    requires s.kind.Gap? && s.start == line.fill && 0 < s.len && s.End() <= c.size && s.End() % 64 == 0
    requires s.kind.marked || (s == Seg(0, 64, Gap(false)) && l == 0)
    requires Counted(line', Kill(v.dead, s.start, s.End())) && line'.fill == s.End() && |line'.oob| == c.size
    requires s.kind.marked ==> GapWords(line'.oob, s.start, s.len)
    requires forall x :: 0 <= x < line.fill ==> line'.oob[x] == line.oob[x]
    ensures LineOk(c, l, line', log, v.(segs := v.segs + [s], dead := Kill(v.dead, s.start, s.End())), valid, live)
  {
    var d := Kill(v.dead, s.start, s.End());
    var v' := v.(segs := v.segs + [s], dead := d);
    hide Counted;
    ChainAppend(v.segs, line.fill, s.len, s.kind);
    assert s == Seg(line.fill, s.len, s.kind);
    DescribedAppend(line.oob, line'.oob, v.segs, line.fill, s);
    assert LineShape(c, l, line', v');
    LoggedAppend(c, l, v, log, live, s, d, live);
    SegsEnd(v.segs, line.fill);
    DeadSize(line, v.dead);
    AliveAppend(c, l, v, valid, s, d, valid);
  }

  lemma DeadSize(line: Line, dead: seq<bool>)
    requires Counted(line, dead)
    ensures |dead| == |line.oob| && line.fill <= |dead|
  {
  }

  // ----- the operations themselves -----

  /** Write a pair at the fill point: mark its grains valid, then describe it. */
  method PutOnLine(line: Line, lpa: nat, len: nat, ghost v: View) returns (r: Line)
    requires Counted(line, v.dead) && |line.oob| % 64 == 0 && 0 < len && line.fill + len <= |line.oob|
    ensures r == Line(r.oob, line.fill + len, line.vgc + len, line.igc, line.inv)
    ensures Counted(r, v.dead) && |r.oob| == |line.oob|
    ensures PairWords(r.oob, line.fill, len, lpa)
    ensures forall x :: 0 <= x < line.fill ==> r.oob[x] == line.oob[x]
  {
    hide PairWords, PagesCounted, Count;
    r := MarkGrainValid(line, len, v.dead);
    var oob := WriteOob(line.oob, line.fill, len, lpa);
    r := r.(oob := oob);
  }

  /** `clear_rest_of_line` and its like: mark the grains up to `end` valid and at once
      invalid, and write filler words over them if `marked`. */
  method ClearOnLine(line: Line, end: nat, marked: bool, ghost v: View) returns (r: Line)
    requires Counted(line, v.dead) && line.fill < end <= |line.oob|
    ensures r == Line(r.oob, end, line.vgc, line.igc + (end - line.fill), r.inv)
    ensures Counted(r, Kill(v.dead, line.fill, end)) && |r.oob| == |line.oob|
    ensures marked ==> GapWords(r.oob, line.fill, end - line.fill)
    ensures forall x :: 0 <= x < |line.oob| && (!marked || x < line.fill || end <= x) ==> r.oob[x] == line.oob[x]
  {
    hide PagesCounted, Count;
    r := MarkGrainValid(line, end - line.fill, v.dead);
    r := MarkGrainInvalid(r, line.fill, end - line.fill, v.dead);
    if marked {
      var oob := r.oob;
      for x := line.fill to end
        invariant |oob| == |line.oob|
        invariant forall y :: line.fill <= y < x ==> oob[y] == UINT_MAX
        invariant forall y :: 0 <= y < |oob| && (y < line.fill || x <= y) ==> oob[y] == line.oob[y]
      {
        oob := oob[x := UINT_MAX];
      }
      r := r.(oob := oob);
    }
  }

  // ----- conservation -----

  /** The grains of the pairs among the first `n` segments whose words are in `words`. */
  ghost function LiveGrains(c: Config, l: nat, segs: seq<Seg>, n: nat, words: set<nat>): nat
    requires n <= |segs|
  {
    if n == 0 then 0
    else
      var s := segs[n - 1];
      LiveGrains(c, l, segs, n - 1, words) + if s.kind.Pair? && WordOf(c, l, s) in words then s.len else 0
  }

  /** The valid grains of a line are the grains of the pairs on it that the table maps to. */
  lemma ValidIsLive(c: Config, l: nat, line: Line, log: Log, v: View, words: set<nat>)
    requires LineOk(c, l, line, log, v, words, words)
    ensures line.vgc == LiveGrains(c, l, v.segs, |v.segs|, words)
  {
    ValidUpTo(c, l, line, v, words, |v.segs|);
  }

  lemma {:induction false} ValidUpTo(c: Config, l: nat, line: Line, v: View, words: set<nat>, n: nat)
    requires LineShape(c, l, line, v) && AliveIn(c, l, v, words) && n <= |v.segs|
    ensures var end := if n == 0 then 0 else v.segs[n - 1].End();
            end <= |v.dead| && end - Count(v.dead, 0, end) == LiveGrains(c, l, v.segs, n, words)
  {
    if n > 0 {
      ValidUpTo(c, l, line, v, words, n - 1);
      var s := v.segs[n - 1];
      ChainBound(v.segs, line.fill, n - 1);
      assert SegIs(v.dead, s, s.kind.Gap? || WordOf(c, l, s) !in words);
      assert n > 1 ==> v.segs[n - 2].End() == s.start;
      hide LineShape, AliveIn;
      CountSplit(v.dead, 0, s.start, s.End());
      if s.kind.Gap? || WordOf(c, l, s) !in words {
        CountAll(v.dead, s.start, s.End());
      } else {
        CountNone(v.dead, s.start, s.End());
      }
    }
  }

  // ----- what a collection knows of its victim -----

  /** Log-based liveness is direct lookup: the log of a line, read back, convicts a pair
      whose word was not left over exactly if the table no longer maps to it. */
  lemma LogIsExact(c: Config, l: nat, line: Line, log: Log, v: View, words: set<nat>, s: Seg)
    requires LineOk(c, l, line, log, v, words, words) && s in v.segs && s.kind.Pair? && WordOf(c, l, s) !in v.stale
    ensures WordOf(c, l, s) in words <==> WordOf(c, l, s) !in Drained(log)
  {
    var w := WordOf(c, l, s);
    var i :| 0 <= i < |v.segs| && v.segs[i] == s;
    assert w in Fresh(log, v) <==> w !in words;
    hide Entries, WordOf, Drained;
    NotLeftOver(Entries(log), v.stale, w);
    DrainedOnce(log, w);
  }

  lemma NotLeftOver(all: seq<nat>, stale: seq<nat>, w: nat)
    requires stale <= all && Distinct(all[|stale|..]) && w !in stale
    ensures AtMostOnce(all, w) && (w in all <==> w in all[|stale|..])
  {
    var rest := all[|stale|..];
    assert forall i :: 0 <= i < |stale| ==> all[i] == stale[i];
    assert forall i :: |stale| <= i < |all| ==> all[i] == rest[i - |stale|];
  }

  lemma PlainWord(lpa: nat, grain: nat)
    requires lpa < UINT_MAX && grain < 0x8000_0000
    ensures LpaIn(Word(lpa, grain)) == lpa && !Marked(Word(lpa, grain))
  {
  }

  /** The pairs that start on page `k`. */
  ghost function PairsOn(segs: seq<Seg>, k: nat): set<Seg> {
    set s | s in segs && s.kind.Pair? && 64 * k <= s.start < 64 * k + 64
  }

  /** No pair that starts on a page is mapped if all grains of the page are invalid. */
  lemma InvalidPage(c: Config, l: nat, line: Line, v: View, words: set<nat>, k: nat)
    requires LineShape(c, l, line, v) && AliveIn(c, l, v, words) && 64 * k + 64 <= c.size
    ensures k < |line.inv|
    ensures line.inv[k] == 64 ==> forall s :: s in PairsOn(v.segs, k) ==> WordOf(c, l, s) !in words
    ensures line.inv[k] != 64 ==> Readable(v.segs, k)
  {
    hide Count, PagesCounted, AllDescribed, Chain;
    PageCount(line, v.dead, k);
    if line.inv[k] == 64 {
      DeadPage(c, l, line, v, words, k);
    } else {
      ReadablePage(c, l, line, v, words, k);
    }
  }

  lemma DeadPage(c: Config, l: nat, line: Line, v: View, words: set<nat>, k: nat)
    requires LineShape(c, l, line, v) && AliveIn(c, l, v, words)
    requires 64 * k + 64 <= |v.dead| && forall x :: 64 * k <= x < 64 * k + 64 ==> v.dead[x]
    ensures forall s :: s in PairsOn(v.segs, k) ==> WordOf(c, l, s) !in words
  {
    hide Counted, AllDescribed;
    forall s | s in PairsOn(v.segs, k)
      ensures WordOf(c, l, s) !in words
    {
      var i :| 0 <= i < |v.segs| && v.segs[i] == s;
      assert SegIs(v.dead, v.segs[i], WordOf(c, l, s) !in words);
      assert v.dead[s.start];
    }
  }

  /** The gap without OOB words covers a whole page, and all its grains are invalid. */
  lemma ReadablePage(c: Config, l: nat, line: Line, v: View, words: set<nat>, k: nat)
    requires LineShape(c, l, line, v) && AliveIn(c, l, v, words) && 64 * k + 64 <= |v.dead|
    requires exists x :: 64 * k <= x < 64 * k + 64 && !v.dead[x]
    ensures Readable(v.segs, k)
  {
    hide Counted, AllDescribed, Chain;
    forall i | 0 <= i < |v.segs| && v.segs[i].kind == Gap(false)
      ensures v.segs[i].End() <= 64 * k || 64 * k + 64 <= v.segs[i].start
    {
      assert SegIs(v.dead, v.segs[i], true);
    }
  }

  /** A page has as many invalid grains as it counts. */
  lemma PageCount(line: Line, dead: seq<bool>, k: nat)
    requires Counted(line, dead) && 64 * k + 64 <= |dead|
    ensures k < |line.inv|
    ensures line.inv[k] == 64 <==> forall x :: 64 * k <= x < 64 * k + 64 ==> dead[x]
  {
    assert line.inv[k] == Count(dead, 64 * k, 64 * k + 64);
    CountBound(dead, 64 * k, 64 * k + 64);
    if forall x :: 64 * k <= x < 64 * k + 64 ==> dead[x] {
      CountAll(dead, 64 * k, 64 * k + 64);
    }
  }

  lemma {:induction false} StartsDistinct(segs: seq<Seg>, fill: nat, n: nat, lo: nat, hi: nat)
    requires Chain(segs, fill) && n <= |segs|
    ensures Distinct(StartsIn(segs[..n], lo, hi))
    ensures forall s :: s in StartsIn(segs[..n], lo, hi) ==> exists m :: 0 <= m < n && segs[m] == s
  {
    if n > 0 {
      StartsDistinct(segs, fill, n - 1, lo, hi);
      StartsNext(segs, n - 1, lo, hi);
      var front := StartsIn(segs[..n - 1], lo, hi);
      forall s | s in front
        ensures s != segs[n - 1]
      {
        var m :| 0 <= m < n - 1 && segs[m] == s;
        ChainOrdered(segs, fill, m, n - 1);
      }
      assert forall i :: 0 <= i < |front| ==> front[i] in front;
    }
  }

  /** What the scan of a page finds, as a set. */
  lemma FoundAll(segs: seq<Seg>, fill: nat, k: nat)
    requires Chain(segs, fill)
    ensures var found := StartsIn(segs, 64 * k, 64 * k + 64);
            && (forall s :: s in found <==> s in PairsOn(segs, k))
            && Distinct(found)
  {
    StartsDistinct(segs, fill, |segs|, 64 * k, 64 * k + 64);
    assert segs[..|segs|] == segs;
    forall s
      ensures s in StartsIn(segs, 64 * k, 64 * k + 64) <==> s in PairsOn(segs, k)
    {
      StartsMembers(segs, 64 * k, 64 * k + 64, s);
    }
  }
}
