/** The demand cache of table sections: a collector thread picks victims, a store or
    retrieve that finds the cache full evicts them, and all the while sections are loaded,
    changed and expanded (__collect_victims, __evict_one, __get_one, __update_map and
    __expand_map_entry in demand_ftl.c).

    Every step touches at most one section and holds its `outgoing` lock, so a run is a
    sequence of atomic steps in any order. */
module Eviction {
  import opened Types
  import opened Lists

  /** Leaves of a fresh table. */
  const FRESH: nat := 2

  /** Size of the ring behind the victim buffer, and its length from which the collector
      leaves it alone. */
  const RING: nat := 131072
  const PLENTY: nat := 640

  datatype Mark = Clean | Dirty | CleanCandidate | DirtyCandidate {
    predicate Candidate() {
      CleanCandidate? || DirtyCandidate?
    }

    /** `__mark_dirty`. */
    function Dirtied(): Mark {
      if Candidate() then DirtyCandidate else Dirty
    }
  }

  /** A section: whether it was ever used, whether its table is in memory, the leaves of
      the table and its length on flash in grains. Its contents are counted by updates:
      `version` in memory and `flash` as it was last written back (which the source does not
      record). */
  datatype Section = Section(used: bool, cached: bool, mark: Mark, leaves: nat, len: nat, version: nat, flash: nat) {
    predicate Changed() {
      version != flash
    }
  }

  /** What the collector is doing: nothing, looking at the length of the buffer, about to
      dequeue, holding a section, comparing the grains collected after each section, and
      comparing them once more before it hands the buffer over. */
  datatype Collector = Idle | Checking | Fetching | Holding | Weighing | Deciding

  /** `vb` is the victim buffer, `hand` the section between FIFO and buffer, `have` the flag
      that hands the buffer back and forth, `candidates` the grains collected, `base` those
      that were in the buffer before (which the source does not record), `evicted`
      the grains the current evictor has freed, `cached` the grains in the cache. */
  datatype State = State(secs: seq<Section>, vb: seq<nat>, hand: seq<nat>, fifo: seq<nat>, have: nat,
                         collector: Collector, candidates: nat, base: nat, evicted: nat, cached: int, max: int)

  datatype Action =
    | Begin
    | Plenty
    | Search
    | Dequeue
    | Starve
    | Choose
    | More
    | Enough
    | Again
    | HandOver
    | Claim
    | Evict
    | Release
    | Load(id: nat)
    | Update(id: nat, grows: bool)

  /** All cached sections, in the order in which they will be evicted. */
  function All(s: State): seq<nat> {
    s.vb + s.hand + s.fifo
  }

  predicate Enabled(s: State, a: Action) {
    match a
    case Begin => s.have == 0 && s.collector == Idle
    case Plenty => s.collector == Checking && |s.vb| > PLENTY
    case Search => s.collector == Checking && |s.vb| <= PLENTY
    case Dequeue => s.collector == Fetching && s.fifo != []
    case Starve => s.collector == Fetching && s.fifo == []
    case Choose => s.collector == Holding && s.hand != [] && s.hand[0] < |s.secs|
    case More => s.collector == Weighing && s.candidates < GRAIN_PER_PAGE
    case Enough => s.collector == Weighing && s.candidates >= GRAIN_PER_PAGE
    case Again => s.collector == Deciding && s.candidates < GRAIN_PER_PAGE
    case HandOver => s.collector == Deciding && s.candidates >= GRAIN_PER_PAGE
    case Claim => s.have == 1
    case Evict => s.have == 2 && s.cached > s.max - GRAIN_PER_PAGE && s.evicted < GRAIN_PER_PAGE && s.vb != [] && s.vb[0] < |s.secs|
    case Release => s.have == 2 && (s.cached <= s.max - GRAIN_PER_PAGE || s.evicted >= GRAIN_PER_PAGE)
    case Load(id) => id < |s.secs| && !s.secs[id].cached
    case Update(id, grows) => id < |s.secs| && s.secs[id].cached && (grows ==> s.secs[id].leaves < IN_ROOT)
  }

  function Apply(s: State, a: Action): State
    requires Enabled(s, a)
  {
    match a
    case Begin => s.(candidates := 0, base := Total(s.vb, s.secs), collector := Checking)
    case Plenty => s.(have := 1, collector := Idle)
    case Search => s.(collector := Fetching)
    case Dequeue => s.(hand := [s.fifo[0]], fifo := s.fifo[1..], collector := Holding)
    case Starve => s.(collector := Deciding)
    case Choose =>
      var id := s.hand[0];
      var sec := s.secs[id];
      s.(secs := s.secs[id := sec.(mark := if sec.mark == Dirty then DirtyCandidate else CleanCandidate)],
         vb := s.vb + [id], hand := s.hand[1..], candidates := s.candidates + (ROOT_G + sec.leaves), collector := Weighing)
    case More => s.(collector := Fetching)
    case Enough => s.(collector := Deciding)
    case Again => s.(collector := Fetching)
    case HandOver => s.(have := 1, collector := Idle)
    case Claim => s.(have := 2, evicted := 0)
    case Evict =>
      var id := s.vb[0];
      var sec := s.secs[id];
      var grains := ROOT_G + sec.leaves;
      s.(secs := s.secs[id := Evicted(sec)], vb := s.vb[1..], evicted := s.evicted + grains, cached := s.cached - grains)
    case Release => s.(have := 0)
    case Load(id) =>
      var sec := Loaded(s.secs[id]);
      s.(secs := s.secs[id := sec], fifo := s.fifo + [id], cached := s.cached + sec.len)
    case Update(id, grows) =>
      var sec := s.secs[id];
      if grows
      then s.(secs := s.secs[id := sec.(mark := sec.mark.Dirtied(), leaves := sec.leaves + 1, len := sec.len + 1, version := sec.version + 1)],
              cached := s.cached + 1, candidates := s.candidates + if sec.mark.Candidate() then 1 else 0)
      else s.(secs := s.secs[id := sec.(mark := sec.mark.Dirtied(), version := sec.version + 1)])
  }

  /** A dirty candidate is written back; a clean one is dropped as it is. */
  function Evicted(sec: Section): Section {
    if sec.mark == DirtyCandidate
    then sec.(cached := false, mark := Clean, len := ROOT_G + sec.leaves, flash := sec.version)
    else sec.(cached := false, mark := Clean)
  }

  /** `__get_one`: the first use of a section makes an empty table of two leaves. */
  function Loaded(sec: Section): Section {
    if sec.used then sec.(cached := true)
    else Section(true, true, Clean, FRESH, ROOT_G + FRESH, sec.version, sec.flash)
  }

  // ----- grains of a list of sections -----

  function Total(ids: seq<nat>, secs: seq<Section>): nat {
    if ids == [] then 0 else Total(ids[..|ids| - 1], secs) + Len(secs, ids[|ids| - 1])
  }

  function Len(secs: seq<Section>, id: nat): nat {
    if id < |secs| then secs[id].len else 0
  }

  lemma TotalAppend(ids: seq<nat>, secs: seq<Section>, id: nat)
    ensures Total(ids + [id], secs) == Total(ids, secs) + Len(secs, id)
  {
    assert (ids + [id])[..|ids|] == ids;
  }

  lemma {:induction false} TotalConcat(a: seq<nat>, b: seq<nat>, secs: seq<Section>)
    ensures Total(a + b, secs) == Total(a, secs) + Total(b, secs)
  {
    if b == [] {
      assert a + b == a;
    } else {
      TotalConcat(a, b[..|b| - 1], secs);
      assert (a + b)[..|a + b| - 1] == a + b[..|b| - 1];
    }
  }

  lemma TotalFirst(ids: seq<nat>, secs: seq<Section>)
    requires ids != []
    ensures Total(ids, secs) == Len(secs, ids[0]) + Total(ids[1..], secs)
  {
    TotalConcat(ids[..1], ids[1..], secs);
    assert ids[..1] + ids[1..] == ids;
    assert ids[..1][..0] == [];
  }

  lemma {:induction false} TotalSame(ids: seq<nat>, secs: seq<Section>, secs': seq<Section>)
    requires forall id :: id in ids ==> Len(secs', id) == Len(secs, id)
    ensures Total(ids, secs') == Total(ids, secs)
  {
    if ids != [] {
      TotalSame(ids[..|ids| - 1], secs, secs');
    }
  }

  lemma {:induction false} TotalGrows(ids: seq<nat>, secs: seq<Section>, secs': seq<Section>, id: nat)
    requires Distinct(ids) && id in ids && Len(secs', id) == Len(secs, id) + 1
    requires forall x :: x in ids && x != id ==> Len(secs', x) == Len(secs, x)
    ensures Total(ids, secs') == Total(ids, secs) + 1
  {
    var n := |ids| - 1;
    if ids[n] == id {
      TotalSame(ids[..n], secs, secs');
    } else {
      TotalGrows(ids[..n], secs, secs', id);
    }
  }

  lemma {:induction false} TotalAtLeast(ids: seq<nat>, secs: seq<Section>)
    requires forall id :: id in ids ==> Len(secs, id) >= ROOT_G
    ensures Total(ids, secs) >= ROOT_G * |ids|
  {
    if ids != [] {
      TotalAtLeast(ids[..|ids| - 1], secs);
    }
  }

  // ----- the invariant -----

  ghost predicate SectionOk(sec: Section, queued: bool, chosen: bool) {
    && sec.cached == queued
    && sec.mark.Candidate() == chosen
    && (sec.used ==> sec.len == ROOT_G + sec.leaves && FRESH <= sec.leaves <= IN_ROOT)
    && (sec.cached ==> sec.used)
    && (!sec.cached ==> sec.mark == Clean) && (!sec.used ==> sec.version == 0)
    && sec.flash <= sec.version && (sec.Changed() <==> sec.mark == Dirty || sec.mark == DirtyCandidate)
  }

  /** Each cached section is in exactly one of victim buffer, hand and FIFO, others in none;
      it is a candidate exactly while in the buffer. */
  ghost predicate Placed(s: State) {
    && |s.hand| <= 1 && Distinct(All(s))
    && (forall id :: id in All(s) ==> id < |s.secs|)
    && (forall id :: 0 <= id < |s.secs| ==> SectionOk(s.secs[id], id in All(s), id in s.vb))
  }

  /** The flag says whose the buffer is; whoever waits for it finds a page worth in it. */
  ghost predicate Handed(s: State) {
    && s.have <= 2
    && (s.collector != Idle ==> s.have == 0)
    && (s.collector == Holding <==> s.hand != [])
    && (s.collector != Idle ==> s.base + s.candidates == Total(s.vb, s.secs))
    && (s.have == 1 ==> Total(s.vb, s.secs) >= GRAIN_PER_PAGE)
    && (s.have == 2 ==> Total(s.vb, s.secs) + s.evicted >= GRAIN_PER_PAGE)
  }

  /** The buffer never comes near the size of its ring, also if sections grow between the
      comparison and the next dequeue. */
  ghost predicate Fits(s: State) {
    && |s.vb| <= PLENTY + 17
    && (s.collector.Fetching? || s.collector.Holding? || s.collector.Weighing? || s.collector.Deciding? ==>
          |s.vb| <= PLENTY || ROOT_G * (|s.vb| - PLENTY) <= s.candidates)
    && (s.collector.Fetching? || s.collector.Holding? ==> |s.vb| <= PLENTY + 16)
  }

  ghost predicate Inv(s: State) {
    Placed(s) && Handed(s) && Fits(s) && s.cached == Total(All(s), s.secs)
  }

  ghost predicate Init(s: State) {
    && (forall id :: 0 <= id < |s.secs| ==> s.secs[id] == Section(false, false, Clean, 0, 0, 0, 0))
    && s.vb == [] && s.hand == [] && s.fifo == [] && s.have == 0 && s.collector == Idle
    && s.candidates == 0 && s.base == 0 && s.evicted == 0 && s.cached == 0
  }

  lemma InitOk(s: State)
    requires Init(s)
    ensures Inv(s)
  {
    assert All(s) == [];
  }

  // ----- every step keeps it -----

  /** A step that changes one section keeps the others in their places. */
  lemma OneChanged(s: State, s': State, id: nat)
    requires Placed(s) && id < |s.secs| == |s'.secs| && s'.secs == s.secs[id := s'.secs[id]]
    requires |s'.hand| <= 1 && Distinct(All(s')) && forall x :: x in All(s') ==> x in All(s) || x == id
    requires forall x :: x != id && x in All(s) ==> x in All(s')
    requires forall x :: x != id ==> (x in s'.vb <==> x in s.vb)
    requires SectionOk(s'.secs[id], id in All(s'), id in s'.vb)
    ensures Placed(s')
  {
    hide SectionOk, Distinct, All;
    forall x | 0 <= x < |s'.secs|
      ensures SectionOk(s'.secs[x], x in All(s'), x in s'.vb)
    {
      if x != id {
        assert SectionOk(s.secs[x], x in All(s), x in s.vb);
      }
    }
  }

  lemma SectionAt(s: State, id: nat)
    requires Placed(s) && id < |s.secs|
    ensures SectionOk(s.secs[id], id in All(s), id in s.vb)
  {
  }

  lemma Lengths(s: State)
    requires Placed(s)
    ensures forall id :: id in All(s) ==> Len(s.secs, id) >= ROOT_G
  {
    forall id | id in All(s)
      ensures Len(s.secs, id) >= ROOT_G
    {
      SectionAt(s, id);
    }
  }

  /** Steps that move no section and change none. */
  ghost predicate Quiet(a: Action) {
    || a.Begin? || a.Plenty? || a.Search? || a.Starve? || a.More? || a.Enough? || a.Again? || a.HandOver? || a.Claim? || a.Release?
  }

  lemma QuietKeeps(s: State, a: Action)
    requires Inv(s) && Enabled(s, a) && Quiet(a)
    ensures Inv(Apply(s, a))
  {
    hide SectionOk, Distinct, All, Total;
    QuietAll(s, a);
    if a.Plenty? {
      VbFirst(s);
      Lengths(s);
      TotalAtLeast(s.vb, s.secs);
    }
  }

  lemma QuietAll(s: State, a: Action)
    requires Enabled(s, a) && Quiet(a)
    ensures All(Apply(s, a)) == All(s)
  {
  }

  lemma VbFirst(s: State)
    ensures forall id :: id in s.vb ==> id in All(s)
    ensures forall id :: id in s.hand ==> id in All(s)
  {
    forall id | id in s.vb
      ensures id in All(s)
    {
      var i :| 0 <= i < |s.vb| && s.vb[i] == id;
      assert All(s)[i] == id;
    }
    forall id | id in s.hand
      ensures id in All(s)
    {
      var i :| 0 <= i < |s.hand| && s.hand[i] == id;
      assert All(s)[|s.vb| + i] == id;
    }
  }

  lemma DequeueKeeps(s: State)
    requires Inv(s) && Enabled(s, Dequeue)
    ensures Inv(Apply(s, Dequeue))
  {
    assert All(Apply(s, Dequeue)) == All(s);
    hide SectionOk, Distinct, All, Total;
  }

  lemma ChooseKeeps(s: State)
    requires Inv(s) && Enabled(s, Choose)
    ensures Inv(Apply(s, Choose))
  {
    hide Distinct, All, Total;
    var s', id := Apply(s, Choose), s.hand[0];
    assert All(s') == All(s) by { ChooseAll(s); }
    NotInBoth(s);
    VbFirst(s);
    SectionAt(s, id);
    TotalAppend(s.vb, s'.secs, id);
    TotalSame(s.vb, s.secs, s'.secs);
    TotalSame(All(s), s.secs, s'.secs);
    OneChanged(s, s', id);
  }

  lemma ChooseAll(s: State)
    requires Inv(s) && Enabled(s, Choose)
    ensures All(Apply(s, Choose)) == All(s)
  {
  }

  lemma NotInBoth(s: State)
    requires Distinct(All(s)) && s.hand != []
    ensures s.hand[0] !in s.vb
  {
    var n := |s.vb|;
    assert All(s)[n] == s.hand[0];
    assert forall i :: 0 <= i < n ==> All(s)[i] == s.vb[i];
  }

  lemma EvictKeeps(s: State)
    requires Inv(s) && Enabled(s, Evict)
    ensures Inv(Apply(s, Evict))
  {
    hide Distinct, All, Total;
    var s', id := Apply(s, Evict), s.vb[0];
    EvictAll(s);
    PoppedFirst(All(s));
    VbDistinct(s);
    PoppedFirst(s.vb);
    VbFirst(s);
    SectionAt(s, id);
    TotalFirst(All(s), s.secs);
    TotalFirst(s.vb, s.secs);
    TotalSame(All(s'), s.secs, s'.secs);
    TotalSame(s'.vb, s.secs, s'.secs);
    OneChanged(s, s', id);
  }

  lemma EvictAll(s: State)
    requires Enabled(s, Evict)
    ensures All(s) != [] && All(s)[0] == s.vb[0] && All(Apply(s, Evict)) == All(s)[1..]
  {
  }

  lemma LoadKeeps(s: State, id: nat)
    requires Inv(s) && Enabled(s, Load(id))
    ensures Inv(Apply(s, Load(id)))
  {
    hide Distinct, All, Total;
    var s' := Apply(s, Load(id));
    SectionAt(s, id);
    LoadAll(s, id);
    PutLast(All(s), id);
    VbFirst(s);
    TotalAppend(All(s), s'.secs, id);
    TotalSame(All(s), s.secs, s'.secs);
    TotalSame(s.vb, s.secs, s'.secs);
    OneChanged(s, s', id);
  }

  lemma LoadAll(s: State, id: nat)
    requires Enabled(s, Load(id))
    ensures All(Apply(s, Load(id))) == All(s) + [id]
  {
  }

  lemma UpdateKeeps(s: State, id: nat, grows: bool)
    requires Inv(s) && Enabled(s, Update(id, grows))
    ensures Inv(Apply(s, Update(id, grows)))
  {
    hide Distinct, All, Total;
    var s' := Apply(s, Update(id, grows));
    SectionAt(s, id);
    UpdateAll(s, id, grows);
    VbFirst(s);
    if !grows {
      TotalSame(All(s), s.secs, s'.secs);
      TotalSame(s.vb, s.secs, s'.secs);
    } else {
      TotalGrows(All(s), s.secs, s'.secs, id);
      if id in s.vb {
        VbDistinct(s);
        TotalGrows(s.vb, s.secs, s'.secs, id);
      } else {
        TotalSame(s.vb, s.secs, s'.secs);
      }
    }
    OneChanged(s, s', id);
  }

  lemma UpdateAll(s: State, id: nat, grows: bool)
    requires Enabled(s, Update(id, grows))
    ensures All(Apply(s, Update(id, grows))) == All(s)
  {
  }

  lemma VbDistinct(s: State)
    requires Distinct(All(s))
    ensures Distinct(s.vb)
  {
    assert forall i :: 0 <= i < |s.vb| ==> All(s)[i] == s.vb[i];
  }

  lemma StepKeeps(s: State, a: Action)
    requires Inv(s) && Enabled(s, a)
    ensures Inv(Apply(s, a))
  {
    match a
    case Begin => QuietKeeps(s, a);
    case Plenty => QuietKeeps(s, a);
    case Search => QuietKeeps(s, a);
    case Dequeue => DequeueKeeps(s);
    case Starve => QuietKeeps(s, a);
    case Choose => ChooseKeeps(s);
    case More => QuietKeeps(s, a);
    case Enough => QuietKeeps(s, a);
    case Again => QuietKeeps(s, a);
    case HandOver => QuietKeeps(s, a);
    case Claim => QuietKeeps(s, a);
    case Evict => EvictKeeps(s);
    case Release => QuietKeeps(s, a);
    case Load(id) => LoadKeeps(s, id);
    case Update(id, grows) => UpdateKeeps(s, id, grows);
  }

  // ----- all runs -----

  /** The states of a run: each by an enabled step from the one before. */
  ghost predicate IsRun(states: seq<State>, acts: seq<Action>) {
    && |states| == |acts| + 1 && Init(states[0])
    && forall i :: 0 <= i < |acts| ==> Enabled(states[i], acts[i]) && states[i + 1] == Apply(states[i], acts[i])
  }

  /** In every state of every interleaving the invariant holds. */
  lemma {:induction false} RunsKeep(states: seq<State>, acts: seq<Action>, n: nat)
    requires IsRun(states, acts) && n < |states|
    ensures Inv(states[n])
  {
    if n == 0 {
      InitOk(states[0]);
    } else {
      RunsKeep(states, acts, n - 1);
      StepKeeps(states[n - 1], acts[n - 1]);
    }
  }

  /** In every run the evictor never reads past the victims it was handed, every victim is a
      cached candidate of at most a page, and the ring behind the buffer does not overflow. */
  lemma EvictorIsSafe(states: seq<State>, acts: seq<Action>, n: nat)
    requires IsRun(states, acts) && n < |states| && states[n].have == 2 && states[n].evicted < GRAIN_PER_PAGE
    ensures var s := states[n];
            && s.vb != [] && s.vb[0] < |s.secs| && |s.vb| < RING
            && var sec := s.secs[s.vb[0]]; sec.cached && sec.mark.Candidate() && sec.len == ROOT_G + sec.leaves <= GRAIN_PER_PAGE
  {
    hide Init;
    RunsKeep(states, acts, n);
    var s := states[n];
    assert Total(s.vb, s.secs) > 0;
    VbFirst(s);
    assert s.vb[0] in s.vb;
    SectionAt(s, s.vb[0]);
  }

  // ----- what the actions of a run have done to a section -----

  ghost function Updates(acts: seq<Action>, id: nat): nat {
    if acts == [] then 0
    else Updates(acts[..|acts| - 1], id) + var a := acts[|acts| - 1]; if a.Update? && a.id == id then 1 else 0
  }

  ghost function Expansions(acts: seq<Action>, id: nat): nat {
    if acts == [] then 0
    else Expansions(acts[..|acts| - 1], id) + var a := acts[|acts| - 1]; if a == Update(id, true) then 1 else 0
  }

  /** The evictor takes section `id`. */
  ghost predicate Takes(s: State, a: Action, id: nat) {
    a == Evict && s.vb != [] && s.vb[0] == id
  }

  /** What one step does to one section. */
  lemma SectionStep(s: State, a: Action, id: nat)
    requires Inv(s) && Enabled(s, a) && id < |s.secs|
    ensures |Apply(s, a).secs| == |s.secs|
    ensures var c, c' := s.secs[id], Apply(s, a).secs[id];
            if a.Update? && a.id == id then
              c'.version == c.version + 1 && c'.flash == c.flash && c'.used && c.used && c'.cached && c'.leaves == c.leaves + if a.grows then 1 else 0
            else if Takes(s, a, id) then
              c'.version == c.version == c'.flash && c'.used == c.used && c'.leaves == c.leaves && !c'.cached && c.mark.Candidate()
            else if a == Load(id) then
              c'.version == c.version && c'.flash == c.flash && c'.used && c'.cached && c'.leaves == if c.used then c.leaves else FRESH
            else
              c'.version == c.version && c'.flash == c.flash && c'.used == c.used && c'.cached == c.cached && c'.leaves == c.leaves
  {
    hide Total;
    SectionAt(s, id);
    VbFirst(s);
  }

  lemma StepOf(states: seq<State>, acts: seq<Action>, i: nat)
    requires IsRun(states, acts) && i < |acts|
    ensures i + 1 < |states| && Enabled(states[i], acts[i]) && states[i + 1] == Apply(states[i], acts[i]) && acts[..i + 1][..i] == acts[..i]
  {
  }

  lemma CountsNext(acts: seq<Action>, i: nat, id: nat)
    requires i < |acts|
    ensures var a := acts[i];
            && Updates(acts[..i + 1], id) == Updates(acts[..i], id) + (if a.Update? && a.id == id then 1 else 0)
            && Expansions(acts[..i + 1], id) == Expansions(acts[..i], id) + (if a == Update(id, true) then 1 else 0)
            && (Load(id) in acts[..i + 1] <==> Load(id) in acts[..i] || a == Load(id))
  {
    assert acts[..i + 1][..i] == acts[..i] && acts[..i + 1] == acts[..i] + [acts[i]];
  }

  /** In every run a section has as many updates in it as there were, it is used from its
      first load on, and it has two leaves and one for each expansion. */
  lemma {:induction false} HistoryOf(states: seq<State>, acts: seq<Action>, n: nat, id: nat)
    requires IsRun(states, acts) && n < |states| && id < |states[0].secs|
    ensures |states[n].secs| == |states[0].secs|
    ensures var sec := states[n].secs[id];
            && sec.version == Updates(acts[..n], id) && (sec.used <==> Load(id) in acts[..n])
            && (if sec.used then sec.leaves == FRESH + Expansions(acts[..n], id) else Expansions(acts[..n], id) == 0)
  {
    if n > 0 {
      var i: nat := n - 1;
      HistoryOf(states, acts, i, id);
      RunsKeep(states, acts, i);
      StepOf(states, acts, i);
      SectionStep(states[i], acts[i], id);
      CountsNext(acts, i, id);
      hide Inv, IsRun, Apply, Enabled, Takes, Updates, Expansions;
    } else {
      assert acts[..n] == [];
    }
  }

  /** In every run a section that is not in memory is on flash with every update that was ever
      made to it. When the evictor takes a section it is written back exactly if there was an
      update since it was written last, and is on flash with every update then. */
  lemma NoLostUpdate(states: seq<State>, acts: seq<Action>, n: nat, id: nat)
    requires IsRun(states, acts) && n < |states| && id < |states[0].secs|
    ensures id < |states[n].secs|
    ensures !states[n].secs[id].cached ==> states[n].secs[id].flash == Updates(acts[..n], id)
    ensures n < |acts| && Takes(states[n], acts[n], id) ==>
      && id < |states[n + 1].secs| && states[n + 1].secs[id].flash == Updates(acts[..n], id)
      && (states[n].secs[id].mark == DirtyCandidate <==> states[n].secs[id].flash != Updates(acts[..n], id))
      && states[n].secs[id].mark.Candidate() && !states[n + 1].secs[id].cached
  {
    hide Init, Total;
    HistoryOf(states, acts, n, id);
    RunsKeep(states, acts, n);
    SectionAt(states[n], id);
    if n < |acts| && Takes(states[n], acts[n], id) {
      StepOf(states, acts, n);
      VbFirst(states[n]);
    }
  }

  /** In every run an updated section is dirty, or a dirty candidate in the buffer, until the
      evictor takes it, and is written back then. */
  lemma {:induction false} StaysDirty(states: seq<State>, acts: seq<Action>, i: nat, n: nat, id: nat)
    requires IsRun(states, acts) && i < n < |states| && acts[i].Update? && acts[i].id == id
    requires forall j :: i < j < n ==> !Takes(states[j], acts[j], id)
    ensures id < |states[n].secs| && states[n].secs[id].cached
    ensures states[n].secs[id].mark == Dirty || states[n].secs[id].mark == DirtyCandidate
    ensures n < |acts| && Takes(states[n], acts[n], id) ==>
      && states[n].secs[id].mark == DirtyCandidate && id < |states[n + 1].secs|
      && states[n + 1].secs[id].flash == Updates(acts[..n], id) > states[n].secs[id].flash
    decreases n
  {
    var m: nat := n - 1;
    RunsKeep(states, acts, m);
    RunsKeep(states, acts, n);
    StepOf(states, acts, m);
    SameCount(states, acts, i);
    SameCount(states, acts, m);
    SameCount(states, acts, n);
    StepOf(states, acts, i);
    assert id < |states[i].secs|;
    if i < m {
      StaysDirty(states, acts, i, m, id);
    }
    SectionStep(states[m], acts[m], id);
    SectionAt(states[m], id);
    SectionAt(states[n], id);
    NoLostUpdate(states, acts, n, id);
    HistoryOf(states, acts, n, id);
    hide IsRun, Inv, Apply, Takes, Updates;
  }

  /** In every run sections are evicted in the order in which they were loaded. */
  lemma FirstInFirstOut(states: seq<State>, acts: seq<Action>, n: nat)
    requires IsRun(states, acts) && n < |acts|
    ensures var before, after := All(states[n]), All(states[n + 1]);
            match acts[n]
            case Load(id) => after == before + [id]
            case Evict => before != [] && before[0] == states[n].vb[0] && after == before[1..]
            case _ => after == before
  {
    var s, a := states[n], acts[n];
    RunsKeep(states, acts, n);
    StepOf(states, acts, n);
    hide All, Inv;
    match a
    case Load(id) => LoadAll(s, id);
    case Evict => EvictAll(s);
    case Update(id, grows) => UpdateAll(s, id, grows);
    case Choose => ChooseAll(s);
    case Dequeue => DequeueAll(s);
    case _ => QuietAll(s, a);
  }

  lemma DequeueAll(s: State)
    requires Inv(s) && Enabled(s, Dequeue)
    ensures All(Apply(s, Dequeue)) == All(s)
  {
  }

  /** In every run the evictor, while it has the buffer, can do exactly one thing: take the next
      victim, if the cache is too full and it has not freed a page yet, and otherwise give the
      buffer back. What it counts is what it frees, and it starts from 0. */
  lemma EvictorCounts(states: seq<State>, acts: seq<Action>, n: nat)
    requires IsRun(states, acts) && n < |states|
    ensures var s := states[n];
            && (s.have == 2 ==> (Enabled(s, Evict) <==> s.cached > s.max - GRAIN_PER_PAGE && s.evicted < GRAIN_PER_PAGE))
            && (s.have == 2 ==> (Enabled(s, Release) <==> !Enabled(s, Evict)))
            && (n < |acts| && acts[n] == Evict ==>
                  states[n + 1].evicted - s.evicted == s.cached - states[n + 1].cached == s.secs[s.vb[0]].len)
            && (n < |acts| && acts[n] == Claim ==> states[n + 1].evicted == 0)
            && (n < |acts| && acts[n] != Evict && acts[n] != Claim ==> states[n + 1].evicted == s.evicted)
  {
    hide Total, Init;
    RunsKeep(states, acts, n);
    if states[n].have == 2 && states[n].evicted < GRAIN_PER_PAGE {
      EvictorIsSafe(states, acts, n);
    }
    if n < |acts| {
      StepOf(states, acts, n);
      CountStep(states[n], acts[n]);
    }
    hide IsRun, Inv, Apply;
  }

  lemma CountStep(s: State, a: Action)
    requires Inv(s) && Enabled(s, a)
    ensures a == Evict ==> Apply(s, a).evicted - s.evicted == s.cached - Apply(s, a).cached == s.secs[s.vb[0]].len
    ensures a == Claim ==> Apply(s, a).evicted == 0
    ensures a != Evict && a != Claim ==> Apply(s, a).evicted == s.evicted
  {
    hide Total;
    if a == Evict {
      VbFirst(s);
      SectionAt(s, s.vb[0]);
    }
  }

  /** In every run the collector, once it has begun, can always do exactly one thing, whatever
      the others do: it never gets stuck. */
  lemma CollectorMoves(states: seq<State>, acts: seq<Action>, n: nat)
    requires IsRun(states, acts) && n < |states|
    ensures var s := states[n];
            match s.collector
            case Idle => Enabled(s, Begin) <==> s.have == 0
            case Checking => Enabled(s, Plenty) <==> !Enabled(s, Search)
            case Fetching => Enabled(s, Dequeue) <==> !Enabled(s, Starve)
            case Holding => Enabled(s, Choose)
            case Weighing => Enabled(s, More) <==> !Enabled(s, Enough)
            case Deciding => Enabled(s, Again) <==> !Enabled(s, HandOver)
  {
    hide Total, Init;
    RunsKeep(states, acts, n);
    VbFirst(states[n]);
    var s := states[n];
    if s.collector == Holding {
      assert s.hand[0] in s.hand;
    }
  }

  /** In every run the collector hands the buffer over with at least a page of grains more than
      it found in it, unless there was plenty. */
  lemma {:induction false} CollectedAPage(states: seq<State>, acts: seq<Action>, i: nat, n: nat)
    requires IsRun(states, acts) && i < n < |acts| && acts[i] == Begin && forall j :: i < j < n ==> acts[j] != Begin
    ensures states[n].base == Total(states[i].vb, states[i].secs)
    ensures acts[n] == HandOver ==> Total(states[n].vb, states[n].secs) >= Total(states[i].vb, states[i].secs) + GRAIN_PER_PAGE
    decreases n
  {
    hide Total, IsRun, Apply, Enabled, Inv;
    StepOf(states, acts, n - 1);
    StepOf(states, acts, n);
    RunsKeep(states, acts, n);
    BaseStep(states[n - 1], acts[n - 1]);
    HandedOver(states[n]);
    if i < n - 1 {
      CollectedAPage(states, acts, i, n - 1);
    }
  }

  lemma BaseStep(s: State, a: Action)
    requires Enabled(s, a)
    ensures Apply(s, a).base == if a == Begin then Total(s.vb, s.secs) else s.base
  {
    hide Total;
  }

  lemma HandedOver(s: State)
    requires Inv(s)
    ensures Enabled(s, HandOver) ==> Total(s.vb, s.secs) >= s.base + GRAIN_PER_PAGE
  {
    hide Total;
  }

  lemma SameCount(states: seq<State>, acts: seq<Action>, n: nat)
    requires IsRun(states, acts) && n < |states|
    ensures |states[n].secs| == |states[0].secs|
  {
    if n > 0 {
      SameCount(states, acts, n - 1);
      StepOf(states, acts, n - 1);
    }
  }

  /** In every run the buffer passes from collector to evictor and back: the flag only goes
      0, 1, 2, 0, the collector adds to the buffer only at 0, the evictor takes from it only
      at 2. */
  lemma BufferHasOneOwner(states: seq<State>, acts: seq<Action>, n: nat)
    requires IsRun(states, acts) && n < |acts|
    ensures var s, a, s' := states[n], acts[n], states[n + 1];
            && (s'.have == s.have || (s.have == 0 && s'.have == 1) || (s.have == 1 && s'.have == 2) || (s.have == 2 && s'.have == 0))
            && (s'.vb != s.vb && s.have == 0 ==> a == Choose && s'.vb == s.vb + s.hand)
            && (s'.vb != s.vb && s.have == 2 ==> a == Evict && s'.vb == s.vb[1..])
            && (s.have == 1 ==> s'.vb == s.vb)
  {
    RunsKeep(states, acts, n);
    hide Placed, Fits, Total, Init;
    var s, a := states[n], acts[n];
    assert Enabled(s, a);
    if a == Choose {
      assert |s.hand| == 1 by { HandIsOne(s); }
      assert s.hand == [s.hand[0]];
    }
  }

  lemma HandIsOne(s: State)
    requires Inv(s) && s.hand != []
    ensures |s.hand| == 1
  {
  }

  /** In every state of every run the cache counter is the sum of what the cached sections
      take, each counted once. */
  lemma CacheIsAccounted(states: seq<State>, acts: seq<Action>, n: nat)
    requires IsRun(states, acts) && n < |states|
    ensures var s := states[n];
            && s.cached == Total(All(s), s.secs) && Distinct(All(s))
            && (forall id :: 0 <= id < |s.secs| ==> (id in All(s) <==> s.secs[id].cached))
            && (forall id :: 0 <= id < |s.secs| && s.secs[id].cached ==> s.secs[id].len == ROOT_G + s.secs[id].leaves)
            && (forall id :: 0 <= id < |s.secs| ==> (s.secs[id].mark.Candidate() <==> id in s.vb))
  {
    hide All, Total, Distinct, Init;
    RunsKeep(states, acts, n);
    var s := states[n];
    forall id | 0 <= id < |s.secs|
      ensures SectionOk(s.secs[id], id in All(s), id in s.vb)
    {
      SectionAt(s, id);
    }
  }
}
