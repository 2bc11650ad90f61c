/** The key-value device: hashing of keys on top of the log-structured FTL. Presence of a
    pair is read from the mapping table and its length from OOB; only then is its memory
    looked at. In every run it answers like a map from keys to values. */
module Device {
  import opened Types
  import opened Ftl
  import opened Hashing

  /** The grains of a pair: key length, key, value length and value, in units of 64 bytes. */
  function Grains(e: Entry): (r: nat)
    ensures 64 * r - 64 < 1 + |e.key| + 4 + |e.value| <= 64 * r
  {
    (1 + |e.key| + 4 + |e.value| + 63) / 64
  }

  /** The memory of the pairs goes with their mappings and their grains on flash. */
  ghost predicate Backed(pairs: map<nat, Entry>, table: map<nat, nat>, glen: map<nat, nat>) {
    && pairs.Keys == table.Keys == glen.Keys
    && forall lpa :: lpa in pairs ==> glen[lpa] == Grains(pairs[lpa])
  }

  lemma BackedPut(pairs: map<nat, Entry>, table: map<nat, nat>, glen: map<nat, nat>, lpa: nat, e: Entry, grain: nat)
    requires Backed(pairs, table, glen)
    ensures Backed(pairs[lpa := e], table[lpa := grain], glen[lpa := Grains(e)])
  {
    assert pairs[lpa := e].Keys == pairs.Keys + {lpa};
    assert table[lpa := grain].Keys == table.Keys + {lpa};
    assert glen[lpa := Grains(e)].Keys == glen.Keys + {lpa};
  }

  lemma BackedCut(pairs: map<nat, Entry>, table: map<nat, nat>, glen: map<nat, nat>, lpa: nat)
    requires Backed(pairs, table, glen)
    ensures Backed(pairs - {lpa}, table - {lpa}, glen - {lpa})
  {
    assert (pairs - {lpa}).Keys == pairs.Keys - {lpa};
    assert (table - {lpa}).Keys == table.Keys - {lpa};
    assert (glen - {lpa}).Keys == glen.Keys - {lpa};
  }

  /** The pairs that the mapping table shows. */
  function Shown(pairs: map<nat, Entry>, table: map<nat, nat>): map<nat, Entry> {
    map lpa | lpa in table && lpa in pairs :: pairs[lpa]
  }

  lemma ShownAll(pairs: map<nat, Entry>, table: map<nat, nat>, glen: map<nat, nat>)
    requires Backed(pairs, table, glen)
    ensures Shown(pairs, table) == pairs && pairs.Keys == table.Keys == glen.Keys
  {
  }

  /** Every hash index has a table section. */
  ghost predicate Sectioned(n: nat, sections: nat) {
    forall lpa: nat :: 1 <= lpa < n ==> lpa / EPP < sections
  }

  lemma HoldsFacts(s: Slots, hashOf: Key -> nat, m: map<Key, Value>, home: map<Key, nat>, key: Key)
    requires Holds(s, hashOf, m, home)
    ensures 993 <= s.n <= UINT_MAX && hashOf(key) < 0x1_0000_0000 && home.Keys == m.Keys
  {
  }

  /** A slot that holds a key is the home of the key, and holds its value. */
  lemma AtHome(s: Slots, hashOf: Key -> nat, m: map<Key, Value>, home: map<Key, nat>, lpa: nat)
    requires Holds(s, hashOf, m, home) && lpa in s.pairs
    ensures var key := s.pairs[lpa].key;
            key in m && key in home && s.pairs[lpa] == Entry(key, m[key]) && lpa == Probe(s.n, hashOf(key), home[key]) && lpa < UINT_MAX
  {
    hide Probe;
    var key := s.pairs[lpa].key;
    assert Settled(s, hashOf(key), key, m[key], home[key]);
  }

  datatype Command =
    | Set(key: Key, value: Value)
    | Get(key: Key)
    | Del(key: Key)
    | Gc(victim: nat, order: seq<nat>)
    | TakeMapLine
    | FreeMapLine(l: nat)

  /** What a command is specified to leave in the store. */
  ghost function Effect(cmd: Command, m: map<Key, Value>): map<Key, Value> {
    match cmd
    case Set(key, value) => m[key := value]
    case Del(key) => m - {key}
    case _ => m
  }

  /** And to answer. */
  ghost function Answer(cmd: Command, m: map<Key, Value>): seq<Reply> {
    match cmd
    case Get(key) => [if key in m then Found(m[key]) else NotFound]
    case Del(key) => [if key in m then Gone else NotFound]
    case _ => []
  }

  ghost function Contents(cmds: seq<Command>, m: map<Key, Value>): map<Key, Value> {
    if cmds == [] then m else Effect(cmds[|cmds| - 1], Contents(cmds[..|cmds| - 1], m))
  }

  ghost function Answers(cmds: seq<Command>, m: map<Key, Value>): seq<Reply> {
    if cmds == [] then []
    else
      var front := cmds[..|cmds| - 1];
      Answers(front, m) + Answer(cmds[|cmds| - 1], Contents(front, m))
  }

  lemma RunNext(cmds: seq<Command>, i: nat, m: map<Key, Value>)
    requires i < |cmds|
    ensures Contents(cmds[..i + 1], m) == Effect(cmds[i], Contents(cmds[..i], m))
    ensures Answers(cmds[..i + 1], m) == Answers(cmds[..i], m) + Answer(cmds[i], Contents(cmds[..i], m))
  {
    assert cmds[..i + 1][..i] == cmds[..i];
  }

  lemma NoneTaken(cmds: seq<Command>)
    ensures cmds[..0] == []
  {
  }

  class KvSsd {
    const shard: Shard
    const n: nat
    const sections: nat
    const hashOf: Key -> nat
    var pairs: map<nat, Entry>
    var used: set<nat>
    var maxTry: nat
    ghost var store: map<Key, Value>
    ghost var home: map<Key, nat>

    /** The slots as the mapping table shows them. */
    function S(): Slots
      reads this, shard
    {
      Slots(n, Shown(pairs, shard.table), used, maxTry)
    }

    ghost predicate Valid()
      reads this, shard
    {
      && shard.Valid() && Sectioned(n, sections)
      && Holds(S(), hashOf, store, home) && Backed(pairs, shard.table, shard.glen)
    }

    constructor (shard: Shard, n: nat, sections: nat, hashOf: Key -> nat)
      requires shard.Valid() && shard.table == map[] && shard.glen == map[] && 993 <= n <= UINT_MAX && Sectioned(n, sections)
      requires forall k: Key :: hashOf(k) < 0x1_0000_0000
      ensures Valid() && store == map[] && home == map[] && this.shard == shard && this.n == n && this.sections == sections && this.hashOf == hashOf
    {
      this.shard, this.n, this.sections, this.hashOf := shard, n, sections, hashOf;
      pairs, used, maxTry := map[], {}, 0;
      store, home := map[], map[];
    }

    /** The search of `__retrieve` for the slot of a key; `len` are the grains that the OOB
        header of the pair gives. */
    method Find(key: Key) returns (found: bool, lpa: nat, len: nat)
      requires Valid()
      ensures found == (key in store)
      ensures found ==> key in home && lpa == Probe(n, hashOf(key), home[key]) && lpa in shard.table && lpa < UINT_MAX
      ensures found ==> lpa in pairs && pairs[lpa] == Entry(key, store[key]) && len == Grains(pairs[lpa])
    {
      hide Search, Probe, Settled, Holds, Shard.Valid, Grains, Shown, Sectioned;
      var hash, cnt := hashOf(key), 0;
      ShownAll(pairs, shard.table, shard.glen);
      HoldsFacts(S(), hashOf, store, home, key);
      SearchAgrees(S(), hashOf, store, home, key);
      len := 0;
      while true
        invariant Search(S(), hash, key, 0) == Search(S(), hash, key, cnt)
        decreases maxTry + 1 - cnt
      {
        var c: nat;
        c, lpa := HashIdx(n, hash, cnt);
        SkipSearch(S(), hash, key, cnt, c);
        SearchStep(S(), hash, key, c);
        HasSection(n, sections, lpa);
        assert lpa / EPP < sections;
        if c > maxTry {
          return false, lpa, len;
        }
        if lpa / EPP !in used {
          cnt := c + 1;
        } else if lpa in shard.table {
          len := shard.ReadLength(lpa);
          if pairs[lpa].key == key {
            AtHome(S(), hashOf, store, home, lpa);
            return true, lpa, len;
          }
          cnt := c + 1;
        } else {
          return false, lpa, len;
        }
      }
    }

    /** `__retrieve` of a whole pair: the value last stored under the key, if any, and the
        grains that are read for it. */
    method Retrieve(key: Key) returns (r: Reply, len: nat)
      requires Valid()
      ensures r == if key in store then Found(store[key]) else NotFound
      ensures key in store ==> len == Grains(Entry(key, store[key]))
    {
      hide Holds, Shard.Valid, Grains, Probe, Shown;
      var found, lpa;
      found, lpa, len := Find(key);
      r := if found then Found(pairs[lpa].value) else NotFound;
    }

    /** The probing loop of `__store`. It ends if any probe is open; otherwise the source
        probes forever. `len` is the length of the old pair of the key, if it has one. */
    method FindSlot(key: Key) returns (c: nat, lpa: nat, len: nat)
      requires Valid() && 2 <= n && exists c: nat :: Open(S(), hashOf(key), key, c)
      ensures Lands(S(), hashOf(key), key, c) && lpa == Probe(n, hashOf(key), c)
      ensures lpa in shard.table ==> lpa in pairs && len == Grains(pairs[lpa])
    {
      var hash := hashOf(key);
      ghost var s: Slots := S();
      ghost var stop := SomeOpen(s, hash, key);
      hide Probe, Holds, Shard.Valid, Shown, Sectioned, Grains, Open, Passed, Lands, Good, PassedTo;
      ShownAll(pairs, shard.table, shard.glen);
      HoldsFacts(s, hashOf, store, home, key);
      var cnt := 0;
      len := 0;
      while true
        invariant cnt <= stop && PassedTo(s, hash, key, cnt)
        decreases stop - cnt
      {
        c, lpa := HashIdx(n, hash, cnt);
        NotBeyond(n, hash, cnt, c, stop);
        HasSection(n, sections, lpa);
        assert lpa / EPP < sections;
        Arrived(s, hash, key, cnt, c);
        if lpa !in shard.table {
          return;
        }
        len := shard.ReadLength(lpa);
        if pairs[lpa].key == key {
          return;
        }
        NotYet(s, hash, key, c, stop);
        cnt := c + 1;
      }
    }

    /** `__store`. It fails for want of a free line (the source stops with BUG_ON), if the pair
        would run past the end of its line (an assertion stops it), and if every probe of the
        key is taken by another key (it probes forever). */
    method Store(key: Key, value: Value) returns (ok: bool)
      requires Valid() && 2 <= n
      modifies this, shard
      ensures ok ==> Valid() && store == old(store)[key := value]
      ensures ok ==> key in home && Lands(old(S()), hashOf(key), key, home[key]) && home == old(home)[key := home[key]]
      ensures ok ==> DidPut(shard.c, old(shard.Now()), shard.Now(), Probe(n, hashOf(key), home[key]), Grains(Entry(key, value)))
      ensures ok ==> S() == Stored(old(S()), hashOf(key), key, value, home[key])
      ensures ok <==>
        (exists c: nat :: Open(old(S()), hashOf(key), key, c)) && Stores(shard.c, old(shard.Here(false)), Grains(Entry(key, value)))
      ensures !ok ==> S() == old(S()) && store == old(store)
      ensures !ok ==> shard.free == [] || Grains(Entry(key, value)) + 128 > shard.c.group || !exists c: nat :: Open(old(S()), hashOf(key), key, c)
    {
      hide Probe, Holds, Lands, Open, Shard.Valid, Backed, Grains, Shown, Stored, DidPut, Stores, HasRoom, NextSpot, Landed, Logged, Shard.Here, Shard.Now, Shard.HasLong;
      var hash, e := hashOf(key), Entry(key, value);
      ghost var s, p, t, g := S(), pairs, shard.table, shard.glen;
      ShownAll(p, t, g);
      HoldsFacts(s, hashOf, store, home, key);
      OpenWithin(s, hash, key);
      if !exists c: nat :: c < 0x1_0000_0000 && Open(S(), hash, key, c) {
        return false;
      }
      var c: nat, lpa: nat, len: nat := FindSlot(key);
      LandsInside(s, hash, key, c);
      GrainsPositive(e);
      ok := shard.Put(lpa, Grains(e));
      if !ok { return; }
      StoreHolds(s, hashOf, store, home, key, value, c);
      BackedPut(p, t, g, lpa, e, shard.table[lpa]);
      pairs := pairs[lpa := e];
      used := used + {lpa / EPP};
      maxTry := if c > maxTry then c else maxTry;
      store := store[key := value];
      home := home[key := c];
      ShownAll(pairs, shard.table, shard.glen);
      StoredIs(s, hash, key, value, c);
    }

    /** A full delete. The device is valid after it, and so still answers like a map, exactly
        if the emptied slot was on the way of no other key. */
    method Delete(key: Key) returns (r: Reply)
      requires Valid() && 2 <= n
      modifies this, shard
      ensures r == (if key in old(store) then Gone else NotFound) && store == old(store) - {key} && home == old(home) - {key}
      ensures key !in old(store) ==> Valid() && S() == old(S()) && shard.Now() == old(shard.Now())
      ensures key in old(store) ==> key in old(home) && S() == Deleted(old(S()), Probe(n, hashOf(key), old(home)[key]))
      ensures key in old(store) ==> key in old(home) && (Valid() <==> NoneBehind(n, hashOf, old(home), key))
      ensures key in old(store) ==> DidDrop(shard.c, old(shard.Now()), shard.Now(), Probe(n, hashOf(key), old(home)[key]))
      ensures Valid() <==> AllFound(S(), hashOf)
    {
      hide Probe, Holds, Shard.Valid, Backed, Grains, Shown, AllFound, NoneBehind, DidDrop;
      ghost var s, p, t, g := S(), pairs, shard.table, shard.glen;
      ShownAll(p, t, g);
      HoldsFacts(s, hashOf, store, home, key);
      var found, lpa, len := Find(key);
      if !found {
        assert store - {key} == store && home - {key} == home;
        HeldAllFound(s, hashOf, store, home);
        return NotFound;
      }
      r := Gone;
      var gone := shard.Delete(lpa);
      DeleteHoldsIff(s, hashOf, store, home, key);
      AllFoundIff(s, hashOf, store, home, key);
      BackedCut(p, t, g, lpa);
      pairs := pairs - {lpa};
      store := store - {key};
      home := home - {key};
      ShownAll(pairs, shard.table, shard.glen);
      assert S() == Deleted(s, lpa);
    }

    /** A collection keeps the store, unless it fails for want of a free line or of room for a
        long pair, or loses a pair to a word that was left over in its log. The victim is free
        after it, and nothing is left on it. */
    method Collect(victim: nat, order: seq<nat>) returns (ok: bool)
      requires Valid() && CoversPages(order, shard.c.size)
      modifies shard
      ensures ok ==> Valid()
      ensures ok == CanStep(shard.c, Clean(victim, order), old(shard.Now())) && S() == old(S())
      ensures ok ==> DidStep(shard.c, Clean(victim, order), old(shard.Now()), shard.Now())
      ensures ok && old(shard.Closable(victim)) ==>
        && victim < |shard.line| && victim in shard.free && shard.line[victim].fill == 0
        && forall k :: k in shard.table ==> shard.c.lineOf(shard.table[k]) != victim
      ensures !ok ==> shard.free == [] || shard.HasLong() || shard.Lost()
      ensures old(shard.Closable(victim)) && AllDoomed(shard.c, old(shard.table), old(shard.log), victim) ==>
        DidSweep(old(shard.Now()), shard.Now(), victim) && ok == NoneDoomed(shard.c, old(shard.table), old(shard.log), victim)
      ensures !ok && shard.free != [] && !shard.HasLong() ==>
        exists k :: k in old(shard.table) && Doomed(shard.c, old(shard.table), old(shard.log), victim, k)
    {
      hide Holds, Shard.Valid, Backed, Shown, Doomed, CoversPages, AllDoomed, NoneDoomed, DidSweep, Shard.Closable, Collectable, CanClean, DidClean;
      ghost var s, p, t, g := S(), pairs, shard.table, shard.glen;
      ShownAll(p, t, g);
      ok := shard.CleanStep(victim, order);
      BackedKept(p, t, shard.table, g);
      ShownAll(p, shard.table, shard.glen);
      assert S() == s;
    }

    /** Every probe of the key is taken by another key. */
    ghost predicate NoRoom(s: Slots, cmd: Command) {
      cmd.Set? && 2 <= s.n && !exists c: nat :: Open(s, hashOf(cmd.key), cmd.key, c)
    }

    /** A delete has cut another key off. */
    ghost predicate CutOff(cmd: Command)
      reads this, shard
    {
      cmd.Del? && 2 <= n && !AllFound(S(), hashOf)
    }

    /** A collection visits every page once. */
    ghost predicate Fine(cmd: Command) {
      cmd.Gc? ==> CoversPages(cmd.order, shard.c.size)
    }

    /** The pair is long: it may have to run past the end of a line. */
    predicate Long(cmd: Command) {
      cmd.Set? && Grains(Entry(cmd.key, cmd.value)) + 128 > shard.c.group
    }

    /** What a command is specified to do on flash. */
    ghost predicate Served(cmd: Command, p: State, q: State) {
      match cmd
      case Set(key, value) => 2 <= n && exists at :: DidPut(shard.c, p, q, Probe(n, hashOf(key), at), Grains(Entry(key, value)))
      case Get(_) => q == p
      case Del(key) => q == p || (2 <= n && exists at :: DidDrop(shard.c, p, q, Probe(n, hashOf(key), at)))
      case Gc(victim, order) => DidStep(shard.c, Clean(victim, order), p, q)
      case TakeMapLine => DidStep(shard.c, Hand, p, q)
      case FreeMapLine(l) => DidStep(shard.c, Back(l), p, q)
    }

    /** Why a command can fail. */
    ghost predicate Halted(cmd: Command)
      reads this, shard
    {
      shard.free == [] || Long(cmd) || shard.HasLong() || NoRoom(S(), cmd) || shard.Lost() || CutOff(cmd)
    }

    /** Over any run the device answers like a map, up to the command that it stops at: for
        want of a free line, of room for a long pair or of a slot for a key, or after a
        collection that lost a pair or a delete that cut a key off. */
    method Run(cmds: seq<Command>) returns (replies: seq<Reply>, done: nat, ok: bool, ghost states: seq<State>)
      requires Valid() && forall i :: 0 <= i < |cmds| ==> Fine(cmds[i])
      modifies this, shard
      ensures |states| > 0 && states[0] == old(shard.Now()) && (ok ==> |states| == done + 1 && states[done] == shard.Now())
      ensures |states| <= |cmds| + 1 && forall i :: 0 <= i < |states| - 1 ==> Served(cmds[i], states[i], states[i + 1])
      ensures done <= |cmds| && replies == Answers(cmds[..done], old(store)) && store == Contents(cmds[..done], old(store))
      ensures ok ==> Valid() && done == |cmds|
      ensures !ok ==> exists i :: 0 <= i < |cmds| && Halted(cmds[i])
    {
      hide Holds, Backed, Shard.Valid, CoversPages, Halted, Shown, Fine, Served;
      replies, done, ok, states := [], 0, true, [shard.Now()];
      NoneTaken(cmds);
      while done < |cmds|
        invariant done <= |cmds| && Valid()
        invariant store == Contents(cmds[..done], old(store)) && replies == Answers(cmds[..done], old(store))
        invariant |states| == done + 1 && states[0] == old(shard.Now()) && states[done] == shard.Now()
        invariant forall i :: 0 <= i < done ==> Served(cmds[i], states[i], states[i + 1])
        decreases |cmds| - done
      {
        RunNext(cmds, done, old(store));
        ghost var i := done;
        var did, r;
        ok, did, r := Step(cmds[done]);
        if did {
          replies := replies + r;
          done := done + 1;
        }
        if !ok {
          assert Halted(cmds[i]);
          return;
        }
        states := states + [shard.Now()];
      }
    }

    /** One command. `did` says if it took effect, `ok` if the run can go on. */
    method Step(cmd: Command) returns (ok: bool, did: bool, r: seq<Reply>)
      requires Valid() && Fine(cmd)
      modifies this, shard
      ensures ok ==> did && Valid() && Served(cmd, old(shard.Now()), shard.Now())
      ensures did ==> store == Effect(cmd, old(store)) && r == Answer(cmd, old(store))
      ensures !did ==> store == old(store)
      ensures !ok ==> Halted(cmd)
    {
      hide Holds, Shard.Valid, CoversPages, Backed, Shown, AllFound, NoneBehind, Open, DidPut, DidDrop, DidSweep, DidClean, CanClean, Collectable, Stores, Lands, Shard.HasLong, Shard.Lost, Grains, AllDoomed, NoneDoomed, Doomed, Stored, Deleted, Probe;
      HoldsFacts(S(), hashOf, store, home, []);
      ok, did, r := true, true, [];
      match cmd
      case Set(key, value) =>
        ok := Store(key, value);
        did := ok;
      case Get(key) =>
        var reply, len := Retrieve(key);
        r := [reply];
      case Del(key) =>
        var reply := Delete(key);
        r := [reply];
        ok := AllFound(S(), hashOf);
      case Gc(victim, order) =>
        ok := Collect(victim, order);
      case TakeMapLine =>
        var lent := shard.Lend();
      case FreeMapLine(l) =>
        if l in shard.away {
          shard.Return(l);
        }
    }
  }

  lemma BackedKept(pairs: map<nat, Entry>, table: map<nat, nat>, table': map<nat, nat>, glen: map<nat, nat>)
    requires Backed(pairs, table, glen) && table'.Keys == table.Keys
    ensures Backed(pairs, table', glen)
  {
  }

  lemma GrainsPositive(e: Entry)
    ensures 0 < Grains(e)
  {
  }

  lemma StoredIs(s: Slots, hash: nat, key: Key, value: Value, c: nat)
    requires 2 <= s.n
    ensures var lpa := Probe(s.n, hash, c);
            Stored(s, hash, key, value, c) ==
            Slots(s.n, s.pairs[lpa := Entry(key, value)], s.used + {lpa / EPP}, if c > s.maxTry then c else s.maxTry)
  {
  }

  lemma LandsInside(s: Slots, hash: nat, key: Key, c: nat)
    requires 2 <= s.n <= UINT_MAX && Lands(s, hash, key, c)
    ensures EPP < Probe(s.n, hash, c) < UINT_MAX
  {
    ProbeBound(s.n, hash, c);
  }

  lemma HasSection(n: nat, sections: nat, lpa: nat)
    requires Sectioned(n, sections) && 1 <= lpa < n
    ensures lpa / EPP < sections
  {
  }

  ghost predicate PassedTo(s: Slots, hash: nat, key: Key, c: nat)
    requires 2 <= s.n
  {
    forall d :: 0 <= d < c ==> Passed(s, hash, key, d)
  }

  lemma SomeOpen(s: Slots, hash: nat, key: Key) returns (stop: nat)
    requires 2 <= s.n && exists c: nat :: Open(s, hash, key, c)
    ensures Open(s, hash, key, stop) && Good(s.n, hash, stop) && PassedTo(s, hash, key, 0)
  {
    stop :| Open(s, hash, key, stop);
  }

  lemma NotYet(s: Slots, hash: nat, key: Key, c: nat, stop: nat)
    requires 2 <= s.n && c <= stop && Open(s, hash, key, stop) && PassedTo(s, hash, key, c + 1)
    ensures c < stop
  {
    hide Probe;
    assert Passed(s, hash, key, c);
  }

  /** A search that passed all probes before `cnt` and skipped to `c` lands there, or passes. */
  lemma Arrived(s: Slots, hash: nat, key: Key, cnt: nat, c: nat)
    requires 2 <= s.n && cnt <= c && PassedTo(s, hash, key, cnt) && Probe(s.n, hash, c) > EPP
    requires forall d :: cnt <= d < c ==> !Good(s.n, hash, d)
    ensures var lpa := Probe(s.n, hash, c);
            && (lpa !in s.pairs || s.pairs[lpa].key == key ==> Lands(s, hash, key, c))
            && (lpa in s.pairs && s.pairs[lpa].key != key ==> PassedTo(s, hash, key, c + 1))
  {
    hide Probe;
    forall d | 0 <= d < c
      ensures Passed(s, hash, key, d)
    {
      if cnt <= d {
        assert !Good(s.n, hash, d);
      }
    }
  }

  /** One step of a search, at a probe that is not skipped. */
  lemma SearchStep(s: Slots, hash: nat, key: Key, c: nat)
    requires 2 <= s.n && Good(s.n, hash, c)
    ensures var lpa := Probe(s.n, hash, c);
            Search(s, hash, key, c) ==
            if c > s.maxTry then NotFound
            else if lpa / EPP !in s.used then Search(s, hash, key, c + 1)
            else if lpa !in s.pairs then NotFound
            else if s.pairs[lpa].key == key then Found(s.pairs[lpa].value)
            else Search(s, hash, key, c + 1)
  {
    hide Probe;
  }

  lemma HeldAllFound(s: Slots, hashOf: Key -> nat, m: map<Key, Value>, home: map<Key, nat>)
    requires Holds(s, hashOf, m, home)
    ensures 2 <= s.n && AllFound(s, hashOf)
  {
    hide Probe, Search, Holds;
    HoldsFacts(s, hashOf, m, home, []);
    forall lpa | lpa in s.pairs
      ensures Search(s, hashOf(s.pairs[lpa].key), s.pairs[lpa].key, 0) == Found(s.pairs[lpa].value)
    {
      AtHome(s, hashOf, m, home, lpa);
      SearchAgrees(s, hashOf, m, home, s.pairs[lpa].key);
    }
  }
}
