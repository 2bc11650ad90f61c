/** The mapping table of the device as the union of its two-level tables, one per section
    of 480 hash indexes. */
module Directory {
  import opened Arith
  import opened Types
  import opened TwoLevelTable
  import Ftl

  /** The union of the maps of the sections. */
  ghost function Union(ms: seq<map<nat, nat>>): map<nat, nat> {
    map lpa: nat | lpa < EPP * |ms| && InMap(ms, lpa) :: ms[lpa / EPP][lpa]
  }

  ghost predicate InMap(ms: seq<map<nat, nat>>, lpa: nat) {
    lpa / EPP < |ms| && lpa in ms[lpa / EPP]
  }

  ghost predicate Sectioned(ms: seq<map<nat, nat>>) {
    forall i :: 0 <= i < |ms| ==> InSection(ms[i], i)
  }

  lemma HomeSection(lpa: nat, n: nat)
    requires lpa < EPP * n
    ensures lpa / EPP < n && EPP * (lpa / EPP) <= lpa < EPP * (lpa / EPP) + EPP
  {
    QuotientBound(lpa, EPP, n);
    DigitsOf(lpa, EPP);
  }

  /** An operation on the section of an index is that operation on the union. */
  lemma UnionStep(ms: seq<map<nat, nat>>, op: Op)
    requires Sectioned(ms) && op.lpa < EPP * |ms|
    ensures var i := op.lpa / EPP;
            && i < |ms| && Sectioned(ms[i := Apply(ms[i], op)])
            && Union(ms[i := Apply(ms[i], op)]) == Apply(Union(ms), op)
            && Lookup(ms[i], op.lpa) == Lookup(Union(ms), op.lpa)
  {
    HomeSection(op.lpa, |ms|);
    var i: nat := op.lpa / EPP;
    var ms' := ms[i := Apply(ms[i], op)];
    assert InSection(ms[i], i) && InSection(ms'[i], i);
    var a, b := Union(ms'), Apply(Union(ms), op);
    forall k: nat
      ensures k in a <==> k in b
      ensures k in a && k in b ==> a[k] == b[k]
    {
      if k / EPP == i && k != op.lpa {
        assert InMap(ms', k) <==> InMap(ms, k);
      }
      assert InMap(ms, op.lpa) <==> op.lpa in ms[i];
    }
    assert a == b;
  }

  /** No two sections share a table or its memory. */
  ghost predicate Disjoint(a: Section, b: Section) {
    a != b && a.table != b.table && a.table.entries != b.table.entries && a.table.leaf != b.table.leaf
  }

  ghost predicate SectionOk(s: Section, i: nat)
    reads s, s.table, s.table.entries, s.table.leaf
  {
    s.Valid() && s.idx == i
  }

  /** All sections of a device. */
  class Sections {
    const secs: seq<Section>
    ghost var ms: seq<map<nat, nat>>  // the map of each section

    ghost predicate Valid()
      reads this
      reads set s | s in secs
      reads set s | s in secs :: s.table
      reads set s | s in secs :: s.table.entries
      reads set s | s in secs :: s.table.leaf
    {
      && |ms| == |secs|
      && (forall i :: 0 <= i < |secs| ==> SectionOk(secs[i], i) && secs[i].table.M == ms[i])
      && (forall i, j :: 0 <= i < |secs| && 0 <= j < |secs| && i != j ==> Disjoint(secs[i], secs[j]))
    }

    lemma Count()
      requires Valid()
      ensures |ms| == |secs|
    {
    }

    /** `init_cache`: all sections, with nothing mapped. */
    constructor (n: nat)
      requires EPP * n <= UINT_MAX
      ensures Valid() && |secs| == n && Union(ms) == map[]
      ensures forall s :: s in secs ==> fresh(s) && fresh(s.table) && fresh(s.table.entries) && fresh(s.table.leaf)
    {
      hide Section.Valid, Union, SectionOk;
      var all: seq<Section> := [];
      for i := 0 to n
        invariant |all| == i
        invariant forall j :: 0 <= j < i ==> SectionOk(all[j], j) && all[j].table.M == map[]
        invariant forall j :: 0 <= j < i ==> fresh(all[j]) && fresh(all[j].table) && fresh(all[j].table.entries) && fresh(all[j].table.leaf)
        invariant forall j, k :: 0 <= j < i && 0 <= k < i && j != k ==> Disjoint(all[j], all[k])
      {
        var s := new Section(i);
        OkIs(s, i);
        all := all + [s];
      }
      secs := all;
      ms := seq(n, _ => map[]);
      new;
      NothingMapped(ms);
    }

    /** A store, delete or lookup goes to the section of its index and is one on the union. */
    method Do(op: Op) returns (answer: nat)
      requires Valid() && op.lpa < EPP * |secs| && op.lpa / EPP < |secs| && (op.Put? ==> op.grain < UINT_MAX)
      modifies this, secs[op.lpa / EPP], secs[op.lpa / EPP].table, secs[op.lpa / EPP].table.entries, secs[op.lpa / EPP].table.leaf
      ensures Valid() && Union(ms) == Apply(old(Union(ms)), op) && answer == Lookup(old(Union(ms)), op.lpa)
    {
      hide Section.Valid, Union, Apply, Lookup, SectionOk;
      HomeSection(op.lpa, |secs|);
      var i: nat := op.lpa / EPP;
      AllInSection();
      UnionStep(ms, op);
      assert SectionOk(secs[i], i);
      OkIs(secs[i], i);
      answer := secs[i].Step(op);
      OkIs(secs[i], i);
      ms := ms[i := Apply(ms[i], op)];
      forall j | 0 <= j < |secs| && j != i
        ensures SectionOk(secs[j], j) && secs[j].table.M == ms[j]
      {
        assert Disjoint(secs[i], secs[j]) && old(SectionOk(secs[j], j));
      }
    }

    lemma AllInSection()
      requires Valid()
      ensures Sectioned(ms)
    {
      forall i | 0 <= i < |secs|
        ensures InSection(ms[i], i)
      {
        assert SectionOk(secs[i], i);
      }
    }
  }

  lemma NothingMapped(ms: seq<map<nat, nat>>)
    requires forall i :: 0 <= i < |ms| ==> ms[i] == map[]
    ensures Union(ms) == map[]
  {
  }

  lemma OkIs(s: Section, i: nat)
    ensures SectionOk(s, i) <==> s.Valid() && s.idx == i
  {
  }

  /** The FTL with its mapping table in sections. */
  class Mapper {
    const shard: Ftl.Shard
    const dir: Sections

    ghost predicate Valid()
      reads this, shard, dir
      reads set s | s in dir.secs
      reads set s | s in dir.secs :: s.table
      reads set s | s in dir.secs :: s.table.entries
      reads set s | s in dir.secs :: s.table.leaf
    {
      shard.Valid() && dir.Valid() && Union(dir.ms) == shard.table
    }

    constructor (shard: Ftl.Shard, n: nat)
      requires shard.Valid() && shard.table == map[] && EPP * n <= UINT_MAX
      ensures Valid() && this.shard == shard && |dir.secs| == n
    {
      hide Union;
      this.shard := shard;
      dir := new Sections(n);
    }

    /** The index is in a section. */
    predicate Fine(op: Ftl.Op) {
      match op
      case Store(lpa, _) => lpa < EPP * |dir.secs|
      case Remove(lpa) => lpa < EPP * |dir.secs|
      case _ => true
    }

    /** Bring the sections up to date with the mappings that a step has moved or added, each
        by a find and an update of its own section. */
    method Follow()
      requires shard.Valid() && dir.Valid() && Union(dir.ms).Keys <= shard.table.Keys
      requires forall k :: k in shard.table ==> k < EPP * |dir.secs|
      modifies dir
      modifies set s | s in dir.secs
      modifies set s | s in dir.secs :: s.table
      modifies set s | s in dir.secs :: s.table.entries
      modifies set s | s in dir.secs :: s.table.leaf
      ensures dir.Valid() && Union(dir.ms) == shard.table
    {
      hide Ftl.Shard.Valid, Union, Sections.Valid;
      var todo := shard.table.Keys;
      while todo != {}
        invariant dir.Valid() && Union(dir.ms).Keys <= shard.table.Keys && todo <= shard.table.Keys
        invariant forall k :: k in shard.table && k !in todo ==> k in Union(dir.ms) && Union(dir.ms)[k] == shard.table[k]
        modifies dir
        modifies set s | s in dir.secs
        modifies set s | s in dir.secs :: s.table
        modifies set s | s in dir.secs :: s.table.entries
        modifies set s | s in dir.secs :: s.table.leaf
        decreases |todo|
      {
        var k :| k in todo;
        HomeSection(k, |dir.secs|);
        GrainSize(shard, k);
        var was := dir.Do(Get(k));
        if was != shard.table[k] {
          var found := dir.Do(Put(k, shard.table[k]));
        }
        todo := todo - {k};
      }
    }

    method CatchUp(op: Ftl.Op)
      requires shard.Valid() && dir.Valid() && Fine(op) && forall k :: k in shard.table ==> k < EPP * |dir.secs|
      requires if op.Remove? then shard.table.Keys == Union(dir.ms).Keys - {op.lpa} else Union(dir.ms).Keys <= shard.table.Keys
      modifies dir
      modifies set s | s in dir.secs
      modifies set s | s in dir.secs :: s.table
      modifies set s | s in dir.secs :: s.table.entries
      modifies set s | s in dir.secs :: s.table.leaf
      ensures dir.Valid() && Union(dir.ms) == shard.table
    {
      hide Ftl.Shard.Valid, Union, Sections.Valid, Apply;
      if op.Remove? {
        HomeSection(op.lpa, |dir.secs|);
        DropKeys(Union(dir.ms), op.lpa);
        var grain := dir.Do(Drop(op.lpa));
      }
      Follow();
    }

    /** What a step of the FTL leaves for the sections to catch up with. */
    method Advance(op: Ftl.Op) returns (ok: bool)
      requires Valid() && op.Fine(shard.c) && Fine(op)
      modifies shard
      ensures ok == Ftl.CanStep(shard.c, op, old(shard.Now())) && (ok ==> Ftl.DidStep(shard.c, op, old(shard.Now()), shard.Now()))
      ensures ok ==> shard.Valid() && dir.Valid() && shard.glen == Ftl.After(op, old(shard.glen))
      ensures ok ==> forall k :: k in shard.table ==> k < EPP * |dir.secs|
      ensures ok ==> if op.Remove? then shard.table.Keys == Union(dir.ms).Keys - {op.lpa} else Union(dir.ms).Keys <= shard.table.Keys
      ensures !ok ==> shard.free == [] || shard.Lost() || shard.HasLong() || shard.TooLong(op)
    {
      hide Ftl.Shard.Valid, Union, Sections.Valid, Ftl.After, Ftl.Shard.Lost, Ftl.Shard.HasLong, Ftl.Shard.TooLong, Ftl.CanStep, Ftl.DidStep, Ftl.Op.Fine;
      dir.Count();
      KeysBound(dir.ms);
      SameKeys(shard);
      KeysAfter(op, shard.glen, EPP * |dir.secs|);
      ok := shard.Step(op);
      if ok {
        SameKeys(shard);
      }
    }

    /** One step of the FTL, and `__update_map` for each index that it added, removed or moved
        (the last in `__copy_valid_pair`). */
    method Step(op: Ftl.Op) returns (ok: bool)
      requires Valid() && op.Fine(shard.c) && Fine(op)
      modifies shard, dir
      modifies set s | s in dir.secs
      modifies set s | s in dir.secs :: s.table
      modifies set s | s in dir.secs :: s.table.entries
      modifies set s | s in dir.secs :: s.table.leaf
      ensures ok == Ftl.CanStep(shard.c, op, old(shard.Now())) && (ok ==> Ftl.DidStep(shard.c, op, old(shard.Now()), shard.Now()))
      ensures ok ==> Valid() && shard.glen == Ftl.After(op, old(shard.glen))
      ensures !ok ==> shard.free == [] || shard.Lost() || shard.HasLong() || shard.TooLong(op)
    {
      hide Ftl.Shard.Valid, Union, Sections.Valid, Ftl.After, Ftl.Shard.Lost, Ftl.Shard.HasLong, Ftl.Shard.TooLong, Ftl.CanStep, Ftl.DidStep;
      ok := Advance(op);
      if !ok { return; }
      CatchUp(op);
    }

    /** Any run of the FTL: its mapping table is the union of the tables of the sections. */
    method Run(ops: seq<Ftl.Op>) returns (done: nat, ghost states: seq<Ftl.State>)
      requires Valid() && forall i :: 0 <= i < |ops| ==> ops[i].Fine(shard.c) && Fine(ops[i])
      modifies shard, dir
      modifies set s | s in dir.secs
      modifies set s | s in dir.secs :: s.table
      modifies set s | s in dir.secs :: s.table.entries
      modifies set s | s in dir.secs :: s.table.leaf
      ensures done <= |ops| && |states| == done + 1 && states[0] == old(shard.Now())
      ensures forall i :: 0 <= i < done ==> Ftl.DidStep(shard.c, ops[i], states[i], states[i + 1])
      ensures done == |ops| ==> states[done] == shard.Now()
      ensures done == |ops| ==> Valid() && shard.glen == Ftl.Lengths(ops, old(shard.glen))
      ensures done < |ops| ==> shard.free == [] || shard.Lost() || shard.HasLong() || shard.TooLong(ops[done])
    {
      hide Ftl.Shard.Valid, Union, Sections.Valid, Ftl.DidStep, Ftl.CanStep;
      done, states := 0, [shard.Now()];
      Ftl.TakeAll(ops);
      while done < |ops|
        invariant done <= |ops| && |states| == done + 1 && states[0] == old(shard.Now()) && states[done] == shard.Now()
        invariant forall i :: 0 <= i < done ==> Ftl.DidStep(shard.c, ops[i], states[i], states[i + 1])
        invariant Valid() && shard.glen == Ftl.Lengths(ops[..done], old(shard.glen))
        decreases |ops| - done
      {
        Ftl.LengthsNext(ops, done, old(shard.glen));
        var ok := Step(ops[done]);
        if !ok { return; }
        done, states := done + 1, states + [shard.Now()];
      }
    }
  }

  lemma KeysBound(ms: seq<map<nat, nat>>)
    ensures forall k :: k in Union(ms) ==> k < EPP * |ms|
  {
  }

  lemma KeysAfter(op: Ftl.Op, m: map<nat, nat>, n: nat)
    requires forall k :: k in m ==> k < n
    requires (op.Store? || op.Remove?) ==> op.lpa < n
    ensures forall k :: k in Ftl.After(op, m) ==> k < n
    ensures if op.Remove? then Ftl.After(op, m).Keys == m.Keys - {op.lpa} else m.Keys <= Ftl.After(op, m).Keys
  {
  }

  lemma DropKeys(m: map<nat, nat>, lpa: nat)
    ensures Apply(m, Drop(lpa)).Keys == m.Keys - {lpa}
  {
  }

  lemma SameKeys(shard: Ftl.Shard)
    requires shard.Valid()
    ensures shard.table.Keys == shard.glen.Keys
  {
  }

  lemma GrainSize(shard: Ftl.Shard, k: nat)
    requires shard.Valid() && k in shard.table
    ensures shard.table[k] < UINT_MAX
  {
    assert Ftl.Mapped(shard.c, shard.W(), k, shard.table[k], shard.glen[k]);
  }
}
