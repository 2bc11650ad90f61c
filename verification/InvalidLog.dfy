/** The per-line log of invalid mappings (`__record_inv_mapping`, `__get_inv_mappings`).

    An overwrite or delete of a pair appends a word with its hash index and old grain to
    the buffer of the line it was on; a full buffer is flushed to a page. Before a line
    is collected, pages and buffer are read back into a hash table of dead mappings. */
module InvalidLog {
  import opened Types
  import opened Lists

  /** INV_PAGE_SZ / INV_ENTRY_SZ. */
  const PER_PAGE: nat := 512

  /** Hash index in the low half, grain in the high half; also the key of the table. */
  function Word(lpa: nat, grain: nat): nat {
    grain * 0x1_0000_0000 + lpa
  }

  /** Bit 63 tells the marker of a partial delete from an entry. */
  predicate Marked(w: nat) {
    w >= 0x8000_0000_0000_0000
  }

  function LpaIn(w: nat): nat {
    w % 0x1_0000_0000
  }

  lemma WordInjective(lpa: nat, grain: nat, lpa': nat, grain': nat)
    requires lpa <= UINT_MAX && lpa' <= UINT_MAX && Word(lpa, grain) == Word(lpa', grain')
    ensures lpa == lpa' && grain == grain'
  {
  }

  /** An entry is taken for a marker exactly when its grain does not fit 31 bits. */
  lemma MarkedGrain(lpa: nat, grain: nat)
    requires lpa <= UINT_MAX
    ensures Marked(Word(lpa, grain)) <==> grain >= 0x8000_0000
  {
  }

  datatype Log = Log(buf: seq<nat>, pages: seq<seq<nat>>)

  const EMPTY: Log := Log([], [])

  ghost function Flat(pages: seq<seq<nat>>): seq<nat> {
    if pages == [] then [] else Flat(pages[..|pages| - 1]) + pages[|pages| - 1]
  }

  /** All entries of a log, oldest first. */
  ghost function Entries(log: Log): seq<nat> {
    Flat(log.pages) + log.buf
  }

  /** Every page that was flushed was full, and the last word is in the buffer. */
  ghost predicate Packed(log: Log) {
    && |log.buf| <= PER_PAGE && (log.buf == [] ==> log.pages == [])
    && forall i :: 0 <= i < |log.pages| ==> |log.pages[i]| == PER_PAGE
  }

  lemma {:induction false} FullPages(pages: seq<seq<nat>>)
    requires forall i :: 0 <= i < |pages| ==> |pages[i]| == PER_PAGE
    ensures |Flat(pages)| == PER_PAGE * |pages|
  {
    if pages != [] {
      FullPages(pages[..|pages| - 1]);
    }
  }

  lemma {:induction false} SamePages(a: seq<seq<nat>>, b: seq<seq<nat>>)
    requires |a| == |b| && Flat(a) == Flat(b)
    requires forall i :: 0 <= i < |a| ==> |a[i]| == |b[i]| == PER_PAGE
    ensures a == b
  {
    if a != [] {
      var a', b' := a[..|a| - 1], b[..|b| - 1];
      FullPages(a');
      FullPages(b');
      assert Flat(a)[..|Flat(a')|] == Flat(a') && Flat(b)[..|Flat(b')|] == Flat(b');
      assert Flat(a)[|Flat(a')|..] == a[|a| - 1] && Flat(b)[|Flat(b')|..] == b[|b| - 1];
      SamePages(a', b');
      assert a == a' + [a[|a| - 1]] && b == b' + [b[|b| - 1]];
    }
  }

  /** What is in the buffer and on which page follows from the entries. */
  lemma PackedIs(a: Log, b: Log)
    requires Packed(a) && Packed(b) && Entries(a) == Entries(b)
    ensures a == b
  {
    FullPages(a.pages);
    FullPages(b.pages);
    assert |a.pages| == |b.pages|;
    assert Entries(a)[..|Flat(a.pages)|] == Flat(a.pages) && Entries(b)[..|Flat(b.pages)|] == Flat(b.pages);
    assert Entries(a)[|Flat(a.pages)|..] == a.buf && Entries(b)[|Flat(b.pages)|..] == b.buf;
    SamePages(a.pages, b.pages);
  }

  /** `__record_inv_mapping`: flush the buffer if it is full, then append. */
  function Record(log: Log, lpa: nat, grain: nat): (r: Log)
    requires |log.buf| <= PER_PAGE
    ensures |r.buf| <= PER_PAGE
    ensures Entries(r) == Entries(log) + [Word(lpa, grain)]
    ensures Packed(log) ==> Packed(r)
  {
    if |log.buf| + 1 > PER_PAGE then
      assert (log.pages + [log.buf])[..|log.pages|] == log.pages;
      Log([Word(lpa, grain)], log.pages + [log.buf])
    else
      log.(buf := log.buf + [Word(lpa, grain)])
  }

  // ----- reading back -----

  /** A flushed page: an entry that is already in the table removes it again. */
  function Toggle(h: multiset<nat>, w: nat): multiset<nat> {
    if w in h then h - multiset{w} else h + multiset{w}
  }

  predicate NextMarked(words: seq<nat>, j: nat) {
    j + 1 < |words| && Marked(words[j + 1])
  }

  function PageFold(words: seq<nat>, j: nat, h: multiset<nat>): multiset<nat>
    requires j <= |words|
    decreases |words| - j
  {
    if j == |words| then h
    else PageFold(words, j + 1, if LpaIn(words[j]) == UINT_MAX || NextMarked(words, j) then h else Toggle(h, words[j]))
  }

  function PagesFold(pages: seq<seq<nat>>): multiset<nat> {
    if pages == [] then multiset{} else PageFold(pages[|pages| - 1], 0, PagesFold(pages[..|pages| - 1]))
  }

  /** The buffer: every entry is added, an entry with a marker is skipped with it. */
  function BufferFold(words: seq<nat>, j: nat): multiset<nat>
    decreases |words| - j
  {
    if j >= |words| then multiset{}
    else if LpaIn(words[j]) == UINT_MAX then BufferFold(words, j + 1)
    else if NextMarked(words, j) then BufferFold(words, j + 2)
    else multiset{words[j]} + BufferFold(words, j + 1)
  }

  function Drained(log: Log): multiset<nat> {
    PagesFold(log.pages) + BufferFold(log.buf, 0)
  }

  /** The flushed pages are read in the order in which they were flushed. */
  method DrainPages(log: Log) returns (h: multiset<nat>)
    ensures h == PagesFold(log.pages)
  {
    h := multiset{};
    for p := 0 to |log.pages|
      invariant h == PagesFold(log.pages[..p])
    {
      var words := log.pages[p];
      ghost var h0 := h;
      for j := 0 to |words|
        invariant PageFold(words, j, h) == PageFold(words, 0, h0)
      {
        if LpaIn(words[j]) != UINT_MAX && !NextMarked(words, j) {
          h := Toggle(h, words[j]);
        }
      }
      assert log.pages[..p + 1][..p] == log.pages[..p];
    }
    assert log.pages[..|log.pages|] == log.pages;
  }

  /** `__get_inv_mappings`: the table of dead mappings of a line; the log is then empty. */
  method Drain(log: Log) returns (h: multiset<nat>, rest: Log)
    ensures h == Drained(log) && rest == EMPTY
  {
    h := DrainPages(log);
    var j := 0;
    while j < |log.buf|
      invariant j <= |log.buf| + 1
      invariant h + BufferFold(log.buf, j) == Drained(log)
    {
      if LpaIn(log.buf[j]) == UINT_MAX {
        j := j + 1;
      } else if NextMarked(log.buf, j) {
        j := j + 2;
      } else {
        h := h + multiset{log.buf[j]};
        j := j + 1;
      }
    }
    rest := EMPTY;
  }

  ghost predicate Clean(words: seq<nat>) {
    forall j :: 0 <= j < |words| ==> LpaIn(words[j]) != UINT_MAX && !Marked(words[j])
  }

  lemma {:induction false} PageFoldExact(words: seq<nat>, j: nat, h: multiset<nat>)
    requires Clean(words) && Distinct(words) && j <= |words|
    requires forall i :: j <= i < |words| ==> words[i] !in h
    ensures PageFold(words, j, h) == h + multiset(words[j..])
    decreases |words| - j
  {
    if j < |words| {
      assert words[j..] == [words[j]] + words[j + 1..];
      PageFoldExact(words, j + 1, h + multiset{words[j]});
    } else {
      assert words[j..] == [];
    }
  }

  lemma {:induction false} BufferFoldExact(words: seq<nat>, j: nat)
    requires Clean(words) && j <= |words|
    ensures BufferFold(words, j) == multiset(words[j..])
    decreases |words| - j
  {
    if j < |words| {
      assert words[j..] == [words[j]] + words[j + 1..];
      BufferFoldExact(words, j + 1);
    } else {
      assert words[j..] == [];
    }
  }

  lemma {:induction false} PagesFoldExact(pages: seq<seq<nat>>)
    requires Clean(Flat(pages)) && Distinct(Flat(pages))
    ensures PagesFold(pages) == multiset(Flat(pages))
  {
    if pages != [] {
      var front, last := Flat(pages[..|pages| - 1]), pages[|pages| - 1];
      var all := front + last;
      assert forall i :: 0 <= i < |front| ==> all[i] == front[i];
      assert forall i :: 0 <= i < |last| ==> all[|front| + i] == last[i];
      PagesFoldExact(pages[..|pages| - 1]);
      forall i | 0 <= i < |last|
        ensures last[i] !in multiset(front)
      {
        assert all[|front| + i] == last[i];
      }
      PageFoldExact(last, 0, multiset(front));
      assert last[0..] == last;
    }
  }

  /** Reading back a log whose entries are distinct and none of which looks like a
      marker yields exactly its entries, each once. */
  lemma DrainExact(log: Log)
    requires Clean(Entries(log)) && Distinct(Entries(log))
    ensures Drained(log) == multiset(Entries(log))
  {
    var front := Flat(log.pages);
    assert forall i :: 0 <= i < |front| ==> Entries(log)[i] == front[i];
    assert forall i :: 0 <= i < |log.buf| ==> Entries(log)[|front| + i] == log.buf[i];
    PagesFoldExact(log.pages);
    BufferFoldExact(log.buf, 0);
    assert log.buf[0..] == log.buf;
  }

  /** A buffer is read back completely if and only if no entry after the first looks
      like a marker. */
  lemma {:induction false} BufferFoldComplete(words: seq<nat>, j: nat)
    requires forall i :: 0 <= i < |words| ==> LpaIn(words[i]) != UINT_MAX
    requires j <= |words|
    ensures |BufferFold(words, j)| <= |words| - j
    ensures |BufferFold(words, j)| == |words| - j <==> NoneMarked(words, j)
    decreases |words| - j
  {
    hide Marked, LpaIn, NoneMarked;
    NoneMarkedNext(words, j);
    if j < |words| {
      if NextMarked(words, j) {
        BufferFoldComplete(words, j + 2);
      } else {
        BufferFoldComplete(words, j + 1);
      }
    }
  }

  ghost predicate NoneMarked(words: seq<nat>, j: nat) {
    forall i :: j < i < |words| ==> !Marked(words[i])
  }

  lemma NoneMarkedNext(words: seq<nat>, j: nat)
    ensures NoneMarked(words, j) <==> |words| <= j || (!NextMarked(words, j) && NoneMarked(words, j + 1))
  {
    hide Marked;
  }

  // ----- reading back any log -----

  /** A word occurs an odd number of times from `j` on. */
  ghost predicate OddFrom(words: seq<nat>, j: nat, w: nat)
    decreases |words| - j
  {
    j < |words| && (OddFrom(words, j + 1, w) != (words[j] == w))
  }

  ghost predicate OddIn(pages: seq<seq<nat>>, w: nat) {
    pages != [] && (OddIn(pages[..|pages| - 1], w) != OddFrom(pages[|pages| - 1], 0, w))
  }

  lemma {:induction false} PageFoldOdd(words: seq<nat>, j: nat, h: multiset<nat>, w: nat)
    requires Clean(words) && j <= |words| && h[w] <= 1
    ensures PageFold(words, j, h)[w] <= 1 && (w in PageFold(words, j, h) <==> (w in h) != OddFrom(words, j, w))
    decreases |words| - j
  {
    hide Toggle, LpaIn, Marked;
    if j < |words| {
      ToggleIs(h, words[j], w);
      PageFoldOdd(words, j + 1, Toggle(h, words[j]), w);
    }
  }

  lemma ToggleIs(h: multiset<nat>, x: nat, w: nat)
    requires h[w] <= 1
    ensures Toggle(h, x)[w] <= 1 && (w in Toggle(h, x) <==> (w in h) != (x == w))
  {
  }

  lemma {:induction false} PagesFoldOdd(pages: seq<seq<nat>>, w: nat)
    requires forall p :: 0 <= p < |pages| ==> Clean(pages[p])
    ensures PagesFold(pages)[w] <= 1 && (w in PagesFold(pages) <==> OddIn(pages, w))
  {
    if pages != [] {
      PagesFoldOdd(pages[..|pages| - 1], w);
      PageFoldOdd(pages[|pages| - 1], 0, PagesFold(pages[..|pages| - 1]), w);
    }
  }

  /** Every page of a log is a run of its entries. */
  lemma {:induction false} PageOfFlat(pages: seq<seq<nat>>, p: nat, i: nat)
    requires p < |pages| && i < |pages[p]|
    ensures pages[p][i] in Flat(pages)
  {
    var front := pages[..|pages| - 1];
    if p < |front| {
      PageOfFlat(front, p, i);
      assert front[p] == pages[p];
    }
  }

  lemma CleanParts(log: Log)
    requires Clean(Entries(log))
    ensures Clean(log.buf) && forall p :: 0 <= p < |log.pages| ==> Clean(log.pages[p])
  {
    var all := Entries(log);
    forall j | 0 <= j < |log.buf|
      ensures LpaIn(log.buf[j]) != UINT_MAX && !Marked(log.buf[j])
    {
      assert all[|Flat(log.pages)| + j] == log.buf[j];
    }
    forall p, i | 0 <= p < |log.pages| && 0 <= i < |log.pages[p]|
      ensures LpaIn(log.pages[p][i]) != UINT_MAX && !Marked(log.pages[p][i])
    {
      PageOfFlat(log.pages, p, i);
      var j :| 0 <= j < |Flat(log.pages)| && Flat(log.pages)[j] == log.pages[p][i];
      assert all[j] == log.pages[p][i];
    }
  }

  /** What a log convicts: the words that its pages hold an odd number of times, and those
      in its buffer. */
  lemma DrainedIff(log: Log, w: nat)
    requires Clean(Entries(log))
    ensures w in Drained(log) <==> OddIn(log.pages, w) || w in log.buf
  {
    CleanParts(log);
    PagesFoldOdd(log.pages, w);
    BufferFoldExact(log.buf, 0);
    assert log.buf[0..] == log.buf;
    assert w in log.buf <==> w in multiset(log.buf);
  }

  ghost predicate AtMostOnce(words: seq<nat>, w: nat) {
    forall i, j :: 0 <= i < j < |words| ==> words[i] != w || words[j] != w
  }

  lemma {:induction false} OddOnce(words: seq<nat>, j: nat, w: nat)
    requires AtMostOnce(words, w) && j <= |words|
    ensures OddFrom(words, j, w) <==> w in words[j..]
    decreases |words| - j
  {
    if j < |words| {
      OddOnce(words, j + 1, w);
      assert words[j..] == [words[j]] + words[j + 1..];
    }
  }

  lemma {:induction false} OddInOnce(pages: seq<seq<nat>>, w: nat)
    requires AtMostOnce(Flat(pages), w)
    ensures OddIn(pages, w) <==> w in Flat(pages)
  {
    if pages != [] {
      var front, last := Flat(pages[..|pages| - 1]), pages[|pages| - 1];
      Halves(front, last, w);
      OddInOnce(pages[..|pages| - 1], w);
      OddOnce(last, 0, w);
      assert last[0..] == last;
    }
  }

  lemma Halves(a: seq<nat>, b: seq<nat>, w: nat)
    requires AtMostOnce(a + b, w)
    ensures AtMostOnce(a, w) && AtMostOnce(b, w) && !(w in a && w in b)
  {
    var s := a + b;
    assert forall i :: 0 <= i < |a| ==> s[i] == a[i];
    assert forall i :: 0 <= i < |b| ==> s[|a| + i] == b[i];
  }

  /** A word that was recorded at most once is convicted exactly if it was recorded. */
  lemma DrainedOnce(log: Log, w: nat)
    requires Clean(Entries(log)) && AtMostOnce(Entries(log), w)
    ensures w in Drained(log) <==> w in Entries(log)
  {
    DrainedIff(log, w);
    Halves(Flat(log.pages), log.buf, w);
    OddInOnce(log.pages, w);
  }

  /** A word that is recorded twice is meant to cancel out. It does on flushed pages, but not
      in the buffer. */
  lemma DuplicateInBuffer(w: nat)
    requires LpaIn(w) != UINT_MAX && !Marked(w)
    ensures w !in Drained(Log([], [[w], [w]])) && w in Drained(Log([w, w], []))
  {
    var flushed, buffered := Log([], [[w], [w]]), Log([w, w], []);
    var pages := flushed.pages;
    assert [[w]][..0] == [] && pages[..1] == [[w]];
    assert Flat([[w]]) == Flat([[w]][..0]) + [w] == [w];
    assert Flat(pages) == Flat(pages[..1]) + [w] == [w, w];
    assert Entries(flushed) == [w, w] == Entries(buffered);
    assert !OddFrom([w], 1, w) && OddFrom([w], 0, w);
    assert OddIn([[w]], w) == (OddIn([[w]][..0], w) != OddFrom([w], 0, w));
    assert OddIn(pages, w) == (OddIn(pages[..1], w) != OddFrom([w], 0, w));
    DrainedIff(flushed, w);
    DrainedIff(buffered, w);
  }
}
