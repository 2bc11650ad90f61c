/** Open addressing of keys: quadratic probing over the hash indexes of the device
    (get_hash_idx and the probing loops of __store and __retrieve in demand_ftl.c). */
module Hashing {
  import opened Types
  import opened Arith

  type Key = seq<nat>
  type Value = seq<nat>

  /** What the memory of a hash index holds. */
  datatype Entry = Entry(key: Key, value: Value)

  /** The hash indexes: their number, the pairs they hold, the table sections in use, and
      the most collisions of any store so far. */
  datatype Slots = Slots(n: nat, pairs: map<nat, Entry>, used: set<nat>, maxTry: nat)

  datatype Reply = Found(value: Value) | NotFound | Gone

  /** The hash index of the c-th probe, computed in 32 bits; hash index 0 does not exist. */
  function Probe(n: nat, hash: nat, c: nat): nat
    requires 2 <= n
  {
    ((hash + c + c * c) % 0x1_0000_0000) % (n - 1) + 1
  }

  /** Probes into section 0, and the first index of section 1, are skipped. */
  predicate Good(n: nat, hash: nat, c: nat)
    requires 2 <= n
  {
    Probe(n, hash, c) > EPP
  }

  /** The first probe is the hash, and every collision moves on by two more than the last. */
  lemma ProbeStep(n: nat, hash: nat, c: nat)
    requires 2 <= n && hash + (c + 1) + (c + 1) * (c + 1) < 0x1_0000_0000
    ensures Probe(n, hash, 0) == hash % (n - 1) + 1
    ensures (Probe(n, hash, c) - 1 + 2 * (c + 1)) % (n - 1) == Probe(n, hash, c + 1) - 1
  {
    var m: nat := n - 1;
    var x: nat := hash + c + c * c;
    assert hash + (c + 1) + (c + 1) * (c + 1) == x + 2 * (c + 1);
    SmallMod(hash, 0x1_0000_0000);
    SmallMod(x, 0x1_0000_0000);
    SmallMod(x + 2 * (c + 1), 0x1_0000_0000);
    assert x + 2 * (c + 1) == (x % m + 2 * (c + 1)) + (x / m) * m;
    ModAdd(x % m + 2 * (c + 1), x / m, m);
  }

  // ----- every search for a hash index ends -----

  lemma PeriodicProbe(n: nat, hash: nat, c: nat, k: nat)
    requires 2 <= n
    ensures Probe(n, hash, c + k * 0x1_0000_0000) == Probe(n, hash, c)
  {
    var p, d := 0x1_0000_0000, c + k * 0x1_0000_0000;
    var m := k + 2 * c * k + k * k * p;
    assert d * d == c * c + (2 * c * k + k * k * p) * p by {
      assert d * d == c * c + 2 * c * (k * p) + (k * p) * (k * p);
      assert 2 * c * (k * p) == (2 * c * k) * p;
      assert (k * p) * (k * p) == (k * k * p) * p;
    }
    assert hash + d + d * d == (hash + c + c * c) + m * p;
    ModAdd(hash + c + c * c, m, p);
  }

  /** Of the probes 0, 22 and 31 one is good, as they are 506 and 992 apart. */
  lemma OneOfThree(n: nat, hash: nat)
    requires 993 <= n && hash < 0x1_0000_0000
    ensures Good(n, hash, 0) || Good(n, hash, 22) || Good(n, hash, 31)
  {
    var p, m: nat := 0x1_0000_0000, n - 1;
    ThreeProbes(n, hash);
    hide Probe;
    SmallMod(hash, p);
    if hash % m < 480 {
      if hash + 506 < p {
        SmallMod(hash + 506, p);
        LowStep(hash, 506, m);
      } else {
        Wrapped(hash + 506 - p, m);
        ModAdd(hash + 506 - p, 1, p);
        ModAdd(hash + 992 - p, 1, p);
        SmallMod(hash + 506 - p, p);
        SmallMod(hash + 992 - p, p);
      }
    }
  }

  lemma ThreeProbes(n: nat, hash: nat)
    requires 2 <= n
    ensures Probe(n, hash, 0) == hash % 0x1_0000_0000 % (n - 1) + 1
    ensures Probe(n, hash, 22) == (hash + 506) % 0x1_0000_0000 % (n - 1) + 1
    ensures Probe(n, hash, 31) == (hash + 992) % 0x1_0000_0000 % (n - 1) + 1
  {
  }

  lemma Wrapped(x: nat, m: nat)
    requires x < 506 && 992 <= m
    ensures x % m >= 480 || (x + 486) % m >= 480
  {
    SmallMod(x, m);
    SmallMod(x + 486, m);
  }

  lemma LowStep(x: nat, d: nat, m: nat)
    requires 0 < m && x % m < 480 && x % m + d < m
    ensures (x + d) % m == x % m + d
  {
    var q := x / m;
    assert x + d == (x % m + d) + q * m;
    ModAdd(x % m + d, q, m);
    SmallMod(x % m + d, m);
  }

  /** After any number of collisions there is a good probe left. */
  lemma GoodAhead(n: nat, hash: nat, c: nat) returns (stop: nat)
    requires 993 <= n && hash < 0x1_0000_0000
    ensures c <= stop && Good(n, hash, stop)
  {
    OneOfThree(n, hash);
    var first: nat := if Good(n, hash, 0) then 0 else if Good(n, hash, 22) then 22 else 31;
    stop := first + c * 0x1_0000_0000;
    PeriodicProbe(n, hash, first, c);
  }

  /** `get_hash_idx`: the next probe that is not skipped. */
  method HashIdx(n: nat, hash: nat, cnt: nat) returns (c: nat, lpa: nat)
    requires 993 <= n && hash < 0x1_0000_0000
    ensures cnt <= c && lpa == Probe(n, hash, c) && EPP < lpa < n
    ensures forall d :: cnt <= d < c ==> !Good(n, hash, d)
  {
    ghost var stop := GoodAhead(n, hash, cnt);
    hide Probe;
    c := cnt;
    while true
      invariant cnt <= c <= stop
      invariant forall d :: cnt <= d < c ==> !Good(n, hash, d)
      decreases stop - c
    {
      lpa := Probe(n, hash, c);
      ProbeBound(n, hash, c);
      if lpa > EPP {
        return;
      }
      c := c + 1;
    }
  }

  lemma ProbeBound(n: nat, hash: nat, c: nat)
    requires 2 <= n
    ensures 1 <= Probe(n, hash, c) < n
  {
  }

  // ----- what a search finds -----

  /** A store of the key would take the slot of probe c: it is free, or holds the key. */
  predicate Open(s: Slots, hash: nat, key: Key, c: nat)
    requires 2 <= s.n
  {
    var lpa := Probe(s.n, hash, c);
    lpa > EPP && (lpa !in s.pairs || s.pairs[lpa].key == key)
  }

  /** The search for a key passes probe c: it is skipped, or holds another key. */
  predicate Passed(s: Slots, hash: nat, key: Key, c: nat)
    requires 2 <= s.n
  {
    var lpa := Probe(s.n, hash, c);
    lpa <= EPP || (lpa in s.pairs && s.pairs[lpa].key != key)
  }

  /** What `__retrieve` answers from probe c on. */
  function Search(s: Slots, hash: nat, key: Key, c: nat): Reply
    requires 2 <= s.n
    decreases s.maxTry + 1 - c
  {
    if c > s.maxTry then NotFound
    else
      var lpa := Probe(s.n, hash, c);
      if lpa <= EPP || lpa / EPP !in s.used then Search(s, hash, key, c + 1)
      else if lpa !in s.pairs then NotFound
      else if s.pairs[lpa].key == key then Found(s.pairs[lpa].value)
      else Search(s, hash, key, c + 1)
  }

  lemma {:induction false} SkipSearch(s: Slots, hash: nat, key: Key, c: nat, d: nat)
    requires 2 <= s.n && c <= d && forall e :: c <= e < d ==> !Good(s.n, hash, e)
    ensures Search(s, hash, key, c) == Search(s, hash, key, d)
    decreases d - c
  {
    hide Probe;
    if c < d {
      assert !Good(s.n, hash, c);
      SkipSearch(s, hash, key, c + 1, d);
    }
  }

  /** The probe at which a store of the key ends. */
  predicate Lands(s: Slots, hash: nat, key: Key, c: nat)
    requires 2 <= s.n
  {
    Open(s, hash, key, c) && forall d :: 0 <= d < c ==> Passed(s, hash, key, d)
  }

  /** A key has an open probe at all exactly if it has one among the first 2^32. */
  lemma OpenWithin(s: Slots, hash: nat, key: Key)
    requires 2 <= s.n
    ensures (exists c: nat :: Open(s, hash, key, c)) <==> exists c: nat :: c < 0x1_0000_0000 && Open(s, hash, key, c)
  {
    if c: nat :| Open(s, hash, key, c) {
      var k: nat, d: nat := c / 0x1_0000_0000, c % 0x1_0000_0000;
      DigitsOf(c, 0x1_0000_0000);
      PeriodicProbe(s.n, hash, d, k);
      hide Probe;
      assert Open(s, hash, key, d);
    }
  }

  lemma NotBeyond(n: nat, hash: nat, cnt: nat, c: nat, stop: nat)
    requires 2 <= n && cnt <= stop && Good(n, hash, stop) && forall d :: cnt <= d < c ==> !Good(n, hash, d)
    ensures c <= stop
  {
  }

  // ----- refinement of a map -----

  /** The slots hold a map: every key sits where its last store ended, and all probes
      before that are taken by other keys. `home` is the probe of each key. */
  ghost predicate Holds(s: Slots, hashOf: Key -> nat, m: map<Key, Value>, home: map<Key, nat>) {
    && 993 <= s.n <= UINT_MAX && home.Keys == m.Keys
    && (forall k: Key :: hashOf(k) < 0x1_0000_0000)
    && (forall lpa :: lpa in s.pairs ==> EPP < lpa < s.n && lpa / EPP in s.used)
    && (forall k :: k in m ==> Settled(s, hashOf(k), k, m[k], home[k]))
    && (forall lpa :: lpa in s.pairs ==>
          s.pairs[lpa].key in m && Probe(s.n, hashOf(s.pairs[lpa].key), home[s.pairs[lpa].key]) == lpa)
  }

  ghost predicate Settled(s: Slots, hash: nat, k: Key, v: Value, c: nat)
    requires 2 <= s.n
  {
    var lpa := Probe(s.n, hash, c);
    && c <= s.maxTry && lpa > EPP && lpa in s.pairs && s.pairs[lpa] == Entry(k, v)
    && forall d :: 0 <= d < c ==> Passed(s, hash, k, d)
  }

  /** Retrieve agrees with the map: a stored key is found with its last value within
      `maxTry`, a key never stored is reported missing. */
  lemma SearchAgrees(s: Slots, hashOf: Key -> nat, m: map<Key, Value>, home: map<Key, nat>, key: Key)
    requires Holds(s, hashOf, m, home)
    ensures Search(s, hashOf(key), key, 0) == if key in m then Found(m[key]) else NotFound
  {
    if key in m {
      SearchFinds(s, hashOf, m, home, key, 0);
    } else {
      SearchMisses(s, hashOf, m, home, key, 0);
    }
  }

  lemma {:induction false} SearchFinds(s: Slots, hashOf: Key -> nat, m: map<Key, Value>, home: map<Key, nat>, key: Key, c: nat)
    requires Holds(s, hashOf, m, home) && key in m && c <= home[key]
    ensures Search(s, hashOf(key), key, c) == Found(m[key])
    decreases home[key] - c
  {
    hide Probe;
    assert Settled(s, hashOf(key), key, m[key], home[key]);
    if c < home[key] {
      assert Passed(s, hashOf(key), key, c);
      SearchFinds(s, hashOf, m, home, key, c + 1);
    }
  }

  lemma {:induction false} SearchMisses(s: Slots, hashOf: Key -> nat, m: map<Key, Value>, home: map<Key, nat>, key: Key, c: nat)
    requires Holds(s, hashOf, m, home) && key !in m
    ensures Search(s, hashOf(key), key, c) == NotFound
    decreases s.maxTry + 1 - c
  {
    hide Probe;
    if c <= s.maxTry {
      SearchMisses(s, hashOf, m, home, key, c + 1);
    }
  }

  /** What a store does to the slots. */
  function Stored(s: Slots, hash: nat, key: Key, value: Value, c: nat): Slots
    requires 2 <= s.n
  {
    var lpa := Probe(s.n, hash, c);
    s.(pairs := s.pairs[lpa := Entry(key, value)], used := s.used + {lpa / EPP}, maxTry := if c > s.maxTry then c else s.maxTry)
  }

  lemma StoreHolds(s: Slots, hashOf: Key -> nat, m: map<Key, Value>, home: map<Key, nat>, key: Key, value: Value, c: nat)
    requires Holds(s, hashOf, m, home) && Lands(s, hashOf(key), key, c)
    ensures Holds(Stored(s, hashOf(key), key, value, c), hashOf, m[key := value], home[key := c])
  {
    var s', m', home' := Stored(s, hashOf(key), key, value, c), m[key := value], home[key := c];
    ProbeBound(s.n, hashOf(key), c);
    hide Probe;
    if key in m {
      SameHome(s, hashOf(key), key, m[key], home[key], c);
    }
    assert home'.Keys == m'.Keys;
    forall k | k in m'
      ensures Settled(s', hashOf(k), k, m'[k], home'[k])
    {
      if k == key {
        SettledNew(s, hashOf(key), key, value, c);
      } else {
        SettledKept(s, hashOf(key), key, value, c, hashOf(k), k, m[k], home[k]);
      }
    }
    forall lpa | lpa in s'.pairs
      ensures EPP < lpa < s.n && lpa / EPP in s'.used
      ensures s'.pairs[lpa].key in m' && Probe(s.n, hashOf(s'.pairs[lpa].key), home'[s'.pairs[lpa].key]) == lpa
    {
      OwnSlot(s, hashOf, m, home, key, value, c, lpa);
    }
  }

  lemma OwnSlot(s: Slots, hashOf: Key -> nat, m: map<Key, Value>, home: map<Key, nat>, key: Key, value: Value, c: nat, lpa: nat)
    requires Holds(s, hashOf, m, home) && Lands(s, hashOf(key), key, c) && (key in m ==> c == home[key])
    requires lpa in Stored(s, hashOf(key), key, value, c).pairs
    ensures var s' := Stored(s, hashOf(key), key, value, c);
            && EPP < lpa < s.n && lpa / EPP in s'.used && (s'.pairs[lpa].key == key || s'.pairs[lpa].key in m)
            && Probe(s.n, hashOf(s'.pairs[lpa].key), home[key := c][s'.pairs[lpa].key]) == lpa
  {
    ProbeBound(s.n, hashOf(key), c);
    hide Probe, Settled;
  }

  lemma SettledNew(s: Slots, hash: nat, key: Key, value: Value, c: nat)
    requires 2 <= s.n && Lands(s, hash, key, c)
    ensures Settled(Stored(s, hash, key, value, c), hash, key, value, c)
  {
    hide Probe;
    var s', at := Stored(s, hash, key, value, c), Probe(s.n, hash, c);
    forall d | 0 <= d < c
      ensures Passed(s', hash, key, d)
    {
      assert Passed(s, hash, key, d);
    }
  }

  /** A store never frees a slot, nor changes the key of one. */
  lemma SettledKept(s: Slots, hash: nat, key: Key, value: Value, c: nat, hash': nat, k: Key, v: Value, home: nat)
    requires 2 <= s.n && Lands(s, hash, key, c) && Settled(s, hash', k, v, home) && k != key
    ensures Settled(Stored(s, hash, key, value, c), hash', k, v, home)
  {
    hide Probe;
    var s' := Stored(s, hash, key, value, c);
    forall d | 0 <= d < home
      ensures Passed(s', hash', k, d)
    {
      assert Passed(s, hash', k, d);
    }
  }

  lemma SameHome(s: Slots, hash: nat, key: Key, v: Value, home: nat, c: nat)
    requires 2 <= s.n && Settled(s, hash, key, v, home) && Lands(s, hash, key, c)
    ensures c == home
  {
    hide Probe;
    NotBoth(s, hash, key, c);
    NotBoth(s, hash, key, home);
  }

  lemma NotBoth(s: Slots, hash: nat, key: Key, c: nat)
    requires 2 <= s.n
    ensures Passed(s, hash, key, c) <==> !Open(s, hash, key, c)
  {
  }

  // ----- deletes leave no tombstone -----

  /** A full delete empties the slot of the key. */
  function Deleted(s: Slots, lpa: nat): Slots {
    s.(pairs := s.pairs - {lpa})
  }

  /** The slot is on the way of a key to its own. */
  ghost predicate OnTheWay(n: nat, hash: nat, home: nat, lpa: nat)
    requires 2 <= n
  {
    exists d :: 0 <= d < home && Probe(n, hash, d) == lpa
  }

  /** After a delete, another key is still found exactly if the emptied slot was not on the
      way to it. */
  lemma DeleteKeepsIff(s: Slots, hashOf: Key -> nat, m: map<Key, Value>, home: map<Key, nat>, gone: Key, key: Key)
    requires Holds(s, hashOf, m, home) && gone in m && key in m && key != gone
    ensures var lpa := Probe(s.n, hashOf(gone), home[gone]);
            Search(Deleted(s, lpa), hashOf(key), key, 0) == Found(m[key]) <==> !OnTheWay(s.n, hashOf(key), home[key], lpa)
  {
    var lpa := Probe(s.n, hashOf(gone), home[gone]);
    assert Settled(s, hashOf(key), key, m[key], home[key]);
    assert Settled(s, hashOf(gone), gone, m[gone], home[gone]);
    hide Probe;
    DeletedSearch(s, hashOf, m, home, lpa, key, 0);
  }

  lemma {:induction false} DeletedSearch(s: Slots, hashOf: Key -> nat, m: map<Key, Value>, home: map<Key, nat>, lpa: nat, key: Key, c: nat)
    requires Holds(s, hashOf, m, home) && key in m && c <= home[key]
    requires lpa in s.pairs && lpa != Probe(s.n, hashOf(key), home[key])
    ensures Search(Deleted(s, lpa), hashOf(key), key, c) ==
      if exists d :: c <= d < home[key] && Probe(s.n, hashOf(key), d) == lpa then NotFound else Found(m[key])
    decreases home[key] - c
  {
    hide Probe;
    assert Settled(s, hashOf(key), key, m[key], home[key]);
    if c < home[key] {
      assert Passed(s, hashOf(key), key, c);
      DeletedSearch(s, hashOf, m, home, lpa, key, c + 1);
      if Probe(s.n, hashOf(key), c) != lpa {
        assert (exists d :: c <= d < home[key] && Probe(s.n, hashOf(key), d) == lpa)
          <==> exists d :: c + 1 <= d < home[key] && Probe(s.n, hashOf(key), d) == lpa;
      }
    }
  }

  /** The slot of a key is on the way of no other key. */
  ghost predicate NoneBehind(n: nat, hashOf: Key -> nat, home: map<Key, nat>, gone: Key)
    requires 2 <= n && gone in home
  {
    forall k :: k in home && k != gone ==> !OnTheWay(n, hashOf(k), home[k], Probe(n, hashOf(gone), home[gone]))
  }

  /** The slots still hold the map after a delete exactly if the emptied slot was on the way
      of no other key. */
  lemma DeleteHoldsIff(s: Slots, hashOf: Key -> nat, m: map<Key, Value>, home: map<Key, nat>, gone: Key)
    requires Holds(s, hashOf, m, home) && gone in m
    ensures Holds(Deleted(s, Probe(s.n, hashOf(gone), home[gone])), hashOf, m - {gone}, home - {gone})
      <==> NoneBehind(s.n, hashOf, home, gone)
  {
    var lpa := Probe(s.n, hashOf(gone), home[gone]);
    var s', m', home' := Deleted(s, lpa), m - {gone}, home - {gone};
    hide Probe;
    assert Settled(s, hashOf(gone), gone, m[gone], home[gone]);
    assert home'.Keys == m'.Keys;
    forall k | k in m'
      ensures Settled(s', hashOf(k), k, m'[k], home'[k]) <==> !OnTheWay(s.n, hashOf(k), home[k], lpa)
    {
      DeleteSettled(s, hashOf(k), k, m[k], home[k], lpa);
    }
    forall q | q in s'.pairs
      ensures s'.pairs[q].key in m' && Probe(s.n, hashOf(s'.pairs[q].key), home'[s'.pairs[q].key]) == q
    {
      assert q in s.pairs && q != lpa;
    }
  }

  lemma DeleteSettled(s: Slots, hash: nat, k: Key, v: Value, home: nat, lpa: nat)
    requires 2 <= s.n && Settled(s, hash, k, v, home) && lpa > EPP && lpa in s.pairs && s.pairs[lpa].key != k
    ensures Settled(Deleted(s, lpa), hash, k, v, home) <==> !OnTheWay(s.n, hash, home, lpa)
  {
    hide Probe;
    var s' := Deleted(s, lpa);
    forall d | 0 <= d < home
      ensures Passed(s', hash, k, d) <==> Probe(s.n, hash, d) != lpa
    {
      assert Passed(s, hash, k, d);
    }
  }

  /** Every pair left is found. */
  predicate AllFound(s: Slots, hashOf: Key -> nat)
    requires 2 <= s.n
  {
    forall lpa :: lpa in s.pairs ==> Search(s, hashOf(s.pairs[lpa].key), s.pairs[lpa].key, 0) == Found(s.pairs[lpa].value)
  }

  /** A delete loses no key exactly if the emptied slot was on the way of none. */
  lemma AllFoundIff(s: Slots, hashOf: Key -> nat, m: map<Key, Value>, home: map<Key, nat>, gone: Key)
    requires Holds(s, hashOf, m, home) && gone in m
    ensures AllFound(Deleted(s, Probe(s.n, hashOf(gone), home[gone])), hashOf) <==> NoneBehind(s.n, hashOf, home, gone)
  {
    var lpa := Probe(s.n, hashOf(gone), home[gone]);
    var s' := Deleted(s, lpa);
    hide Probe, Search;
    forall q | q in s'.pairs
      ensures s'.pairs[q].key in m && s'.pairs[q].key != gone && s'.pairs[q].value == m[s'.pairs[q].key]
    {
      assert q in s.pairs && q != lpa;
      assert Settled(s, hashOf(s.pairs[q].key), s.pairs[q].key, m[s.pairs[q].key], home[s.pairs[q].key]);
    }
    forall k | k in m && k != gone
      ensures Search(s', hashOf(k), k, 0) == Found(m[k]) <==> !OnTheWay(s.n, hashOf(k), home[k], lpa)
      ensures exists q :: q in s'.pairs && s'.pairs[q] == Entry(k, m[k])
    {
      DeleteKeepsIff(s, hashOf, m, home, gone, k);
      assert Settled(s, hashOf(k), k, m[k], home[k]);
      assert Settled(s, hashOf(gone), gone, m[gone], home[gone]);
      assert Probe(s.n, hashOf(k), home[k]) in s'.pairs;
    }
  }

  /** Two keys with one hash, stored one after the other. */
  lemma Colliding(hashOf: Key -> nat, a: Key, b: Key) returns (s: Slots, m: map<Key, Value>, home: map<Key, nat>)
    requires a != b && forall k: Key :: hashOf(k) == 1000
    ensures Holds(s, hashOf, m, home) && s.n == 10000 && m.Keys == {a, b} && home[a] == 0 && home[b] == 1
    ensures Probe(10000, 1000, 0) == 1001 && Probe(10000, 1000, 1) == 1003
  {
    var s0, none: map<Key, Value>, no: map<Key, nat> := Slots(10000, map[], {}, 0), map[], map[];
    assert Probe(10000, 1000, 0) == 1001 && Probe(10000, 1000, 1) == 1003;
    hide Probe;
    assert Holds(s0, hashOf, none, no);
    StoreHolds(s0, hashOf, none, no, a, [], 0);
    var s1 := Stored(s0, 1000, a, [], 0);
    assert Passed(s1, 1000, b, 0);
    StoreHolds(s1, hashOf, none[a := []], no[a := 0], b, [], 1);
    s, m, home := Stored(s1, 1000, b, [], 1), none[a := []][b := []], no[a := 0][b := 1];
  }

  /** Deleting one of them loses the other. */
  lemma DeleteLosesKey()
    ensures exists s: Slots, hashOf: Key -> nat, m: map<Key, Value>, home: map<Key, nat>, a: Key, b: Key ::
      && Holds(s, hashOf, m, home) && a in m && b in m && a != b
      && Search(s, hashOf(b), b, 0) == Found(m[b])
      && Search(Deleted(s, Probe(s.n, hashOf(a), home[a])), hashOf(b), b, 0) == NotFound
  {
    var hashOf: Key -> nat := _ => 1000;
    var a: Key, b: Key := [1], [2];
    var s, m, home := Colliding(hashOf, a, b);
    hide Probe, Search;
    SearchAgrees(s, hashOf, m, home, b);
    assert Settled(s, hashOf(a), a, m[a], home[a]);
    DeletedSearch(s, hashOf, m, home, Probe(s.n, hashOf(a), home[a]), b, 0);
  }

  // ----- table sections -----

  /** `init_cache` gives one section more than fit in the grains of the device, and 64 hash
      indexes more. Every hash index then has a section exactly unless the number of pages
      leaves a remainder of 7 modulo 15. */
  lemma SectionsSuffice(pages: nat)
    requires 0 < pages
    ensures (forall lpa: nat :: 1 <= lpa < 64 * pages + 64 ==> lpa / EPP < 64 * pages / EPP + 1) <==> pages % 15 != 7
  {
    var q: nat, r: nat := pages / 15, pages % 15;
    var t: nat := if r < 8 then 2 * q else 2 * q + 1;
    var u: nat := if r < 8 then 64 * r else 64 * r - 480;
    DigitsOf(pages, 15);
    assert 64 * pages == t * 480 + u;
    DivMod(t, u, 480);
    if r == 7 {
      DivMod(t + 1, 31, 480);
      assert 64 * pages + 63 == (t + 1) * 480 + 31;
    } else {
      forall lpa: nat | 1 <= lpa < 64 * pages + 64
        ensures lpa / EPP < t + 1
      {
        QuotientBound(lpa, 480, t + 1);
      }
    }
  }
}
