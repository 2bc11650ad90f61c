/** The recency list of append buffers: a doubly linked list with an index by id (lru.c). */
module LruList {
  import opened Lists

  const MAX_CAPACITY: nat := 128

  class Item {
    const id: nat
    var prev: Item?
    var next: Item?

    constructor (id: nat)
      ensures this.id == id
    {
      this.id, prev, next := id, null, null;
    }
  }

  function At(o: seq<Item>, i: int): Item? {
    if 0 <= i < |o| then o[i] else null
  }

  ghost predicate LinkOk(o: seq<Item>, i: nat)
    reads o
  {
    i < |o| ==> o[i].next == At(o, i + 1) && o[i].prev == At(o, i - 1)
  }

  /** Read forwards and backwards, the links give the same list. */
  ghost predicate Linked(o: seq<Item>)
    reads o
  {
    forall i: nat :: LinkOk(o, i)
  }

  /** The index holds exactly the members, each under its id. */
  ghost predicate Indexed(o: seq<Item>, items: seq<Item?>) {
    && |items| == MAX_CAPACITY
    && (forall i :: 0 <= i < |o| ==> o[i].id < MAX_CAPACITY && items[o[i].id] == o[i])
    && (forall k :: 0 <= k < |items| ==> (items[k] != null ==> items[k] in o && items[k].id == k))
  }

  /** The list without its `k`-th item. */
  function Removed(o: seq<Item>, k: nat): seq<Item>
    requires k < |o|
  {
    o[..k] + o[k + 1..]
  }

  lemma RemovedAt(o: seq<Item>, k: nat)
    requires k < |o|
    ensures |Removed(o, k)| == |o| - 1
    ensures forall i :: 0 <= i < |o| - 1 ==> Removed(o, k)[i] == if i < k then o[i] else o[i + 1]
  {
  }

  lemma RemovedOk(o: seq<Item>, items: seq<Item?>, k: nat)
    requires Distinct(o) && Indexed(o, items) && k < |o|
    ensures o[k].id < |items| && Distinct(Removed(o, k)) && Indexed(Removed(o, k), items[o[k].id := null])
    ensures o[k] !in Removed(o, k)
  {
    RemovedAt(o, k);
    var r, items' := Removed(o, k), items[o[k].id := null];
    forall j | 0 <= j < |items'| && items'[j] != null
      ensures items'[j] in r && items'[j].id == j
    {
      var i :| 0 <= i < |o| && o[i] == items[j];
      assert i != k;
      assert r[if i < k then i else i - 1] == items[j];
    }
  }

  lemma AddedOk(o: seq<Item>, items: seq<Item?>, x: Item)
    requires Distinct(o) && Indexed(o, items) && x.id < |items| && items[x.id] == null
    ensures Distinct([x] + o) && Indexed([x] + o, items[x.id := x]) && x !in o
  {
    var r, items' := [x] + o, items[x.id := x];
    forall i | 0 <= i < |o|
      ensures o[i] != x
    {
    }
    forall j | 0 <= j < |items'| && items'[j] != null
      ensures items'[j] in r && items'[j].id == j
    {
      if j != x.id {
        var i :| 0 <= i < |o| && o[i] == items[j];
        assert r[i + 1] == items[j];
      } else {
        assert r[0] == x;
      }
    }
  }

  lemma Find(o: seq<Item>, items: seq<Item?>, id: nat) returns (k: nat)
    requires Indexed(o, items) && id < |items| && items[id] != null
    ensures k < |o| && o[k] == items[id] && items[id].id == id
  {
    k :| 0 <= k < |o| && o[k] == items[id];
  }

  /** The list with its `k`-th item moved to the front. */
  lemma Front(o: seq<Item>, k: nat, items: seq<Item?>)
    requires Distinct(o) && Indexed(o, items) && k < |o|
    ensures var r := [o[k]] + Removed(o, k);
            Distinct(r) && Indexed(r, items) && Distinct(Removed(o, k)) && o[k] !in Removed(o, k) && (o[k] == o[0] <==> k == 0)
    ensures |Removed(o, k)| == |o| - 1
    ensures forall i :: 0 <= i < |Removed(o, k)| ==> Removed(o, k)[i] in o
  {
    RemovedOk(o, items, k);
    AddedOk(Removed(o, k), items[o[k].id := null], o[k]);
    assert items[o[k].id := null][o[k].id := o[k]] == items;
  }

  lemma Apart(o: seq<Item>, i: nat, j: nat)
    requires Distinct(o) && i < |o| && j < |o|
    ensures o[i] == o[j] <==> i == j
  {
  }

  class LruCache {
    var head: Item?
    var tail: Item?
    const capacity: nat
    var size: nat
    const items: array<Item?>
    /** The members, most recently touched first. */
    ghost var order: seq<Item>

    ghost predicate Valid()
      reads this, items, order
    {
      && 2 <= capacity && size == |order| <= capacity && Distinct(order) && items.Length == MAX_CAPACITY
      && head == At(order, 0) && tail == At(order, |order| - 1)
      && Linked(order) && Indexed(order, items[..])
    }

    constructor (capacity: nat)
      requires 2 <= capacity
      ensures Valid() && order == [] && this.capacity == capacity && fresh(items)
    {
      head, tail, size := null, null, 0;
      this.capacity := capacity;
      items := new Item?[MAX_CAPACITY](_ => null);
      order := [];
    }

    /** Take the `k`-th item out of the list: relink its neighbours. */
    method Unlink(item: Item, ghost k: nat)
      requires Valid() && k < |order| && item == order[k]
      modifies this`head, this`tail, order
      ensures head == At(Removed(order, k), 0) && tail == At(Removed(order, k), |order| - 2)
      ensures Linked(Removed(order, k))
    {
      hide Distinct, Indexed;
      RemovedAt(order, k);
      assert LinkOk(order, k);
      forall i: nat, j: nat | i < |order| && j < |order|
        ensures order[i] == order[j] <==> i == j
      {
        Apart(order, i, j);
      }
      ghost var r, o := Removed(order, k), order;
      if item == head {
        head := item.next;
        if head != null {
          head.prev := null;
        } else {
          tail := null;
        }
      } else if item == tail {
        tail := item.prev;
        tail.next := null;
      } else {
        item.prev.next := item.next;
        item.next.prev := item.prev;
      }
      forall i: nat
        ensures LinkOk(r, i)
      {
        if i < |r| {
          assert old(LinkOk(o, i)) && old(LinkOk(o, i + 1));
        }
      }
    }

    /** Put an item that is not in the list in front of `o`. */
    method PushFront(item: Item, ghost o: seq<Item>)
      requires Distinct(o) && Linked(o) && item !in o && head == At(o, 0) && tail == At(o, |o| - 1)
      modifies this`head, this`tail, item, o
      ensures head == item && tail == At([item] + o, |o|) && Linked([item] + o)
    {
      ghost var r := [item] + o;
      assert o != [] ==> o[0] in o;
      item.prev := null;
      item.next := head;
      if head != null {
        head.prev := item;
      } else {
        tail := item;
      }
      head := item;
      forall i: nat
        ensures LinkOk(r, i)
      {
        if 0 < i < |r| {
          assert old(LinkOk(o, i - 1));
          assert o[i - 1] in o;
        }
      }
    }

    /** The item under an id, if the cache has any item; the source asserts that an id it is
        asked for is present. */
    method Lookup(id: nat) returns (item: Item?, ghost k: nat)
      requires Valid() && (order != [] && id < MAX_CAPACITY ==> items[id] != null)
      ensures item == null <==> order == [] || id >= MAX_CAPACITY
      ensures item != null ==> k < |order| && order[k] == item == items[id] && item.id == id
    {
      item, k := null, 0;
      if size != 0 && id < MAX_CAPACITY {
        item := items[id];
        k := Find(order, items[..], id);
      }
    }

    /** `lru_cache_get`: move the item to the front. */
    method Get(id: nat) returns (item: Item?, ghost k: nat)
      requires Valid() && (order != [] && id < MAX_CAPACITY ==> items[id] != null)
      modifies this, order
      ensures Valid() && (item == null <==> old(order) == [] || id >= MAX_CAPACITY)
      ensures item == null ==> order == old(order)
      ensures item != null ==> item.id == id && k < |old(order)| && old(order)[k] == item && order == [item] + Removed(old(order), k)
    {
      hide Distinct, Indexed, Linked;
      item, k := Lookup(id);
      if item == null { return; }
      Front(order, k, items[..]);
      if item != head {
        MoveToFront(item, k);
      } else {
        assert [item] + Removed(order, 0) == order;
      }
    }

    method MoveToFront(item: Item, ghost k: nat)
      requires Valid() && 0 < k < |order| && item == order[k]
      modifies this, order
      ensures Valid() && order == [item] + Removed(old(order), k)
    {
      hide Distinct, Indexed, Linked, Removed;
      Front(order, k, items[..]);
      ghost var r := Removed(order, k);
      Unlink(item, k);
      PushFront(item, r);
      order := [item] + r;
    }

    /** `lru_cache_remove`. */
    method Remove(id: nat) returns (ghost k: nat)
      requires Valid() && order != [] && id < MAX_CAPACITY && items[id] != null
      modifies this, items, order
      ensures Valid() && k < |old(order)| && old(order)[k] == old(items[id]) && order == Removed(old(order), k)
    {
      hide Distinct, Indexed, Linked;
      var item;
      item, k := Lookup(id);
      TakeOut(item, k);
    }

    method TakeOut(item: Item, ghost k: nat)
      requires Valid() && k < |order| && item == order[k]
      modifies this, items, order
      ensures Valid() && order == Removed(old(order), k)
      ensures item.id < items.Length && items[..] == old(items[..])[item.id := null]
    {
      hide Distinct, Indexed, Linked;
      RemovedOk(order, items[..], k);
      RemovedAt(order, k);
      ghost var o, was := order, items[..];
      Unlink(item, k);
      items[item.id] := null;
      assert items[..] == was[item.id := null];
      size := size - 1;
      order := Removed(o, k);
    }

    /** `lru_cache_get_oldest`: remove and return the least recently touched item. */
    method GetOldest() returns (oldest: Item?)
      requires Valid()
      modifies this, items, order
      ensures Valid() && oldest == At(old(order), |old(order)| - 1)
      ensures order == if old(order) == [] then [] else old(order)[..|old(order)| - 1]
    {
      hide Distinct, Indexed, Linked;
      if size == 0 {
        return null;
      }
      oldest := tail;
      assert Removed(order, |order| - 1) == order[..|order| - 1];
      TakeOut(oldest, |order| - 1);
    }

    /** `lru_cache_set`: put a new item in front; at capacity the oldest one goes. */
    method Set(item: Item)
      requires Valid() && item !in order && item.id < MAX_CAPACITY && items[item.id] == null
      modifies this, items, order, item
      ensures Valid()
      ensures order == [item] + if |old(order)| == capacity then old(order)[..|old(order)| - 1] else old(order)
    {
      hide Distinct, Indexed, Linked;
      if size == capacity {
        var lru := tail;
        assert Removed(order, |order| - 1) == order[..|order| - 1];
        TakeOut(lru, |order| - 1);
      }
      AddedOk(order, items[..], item);
      ghost var o, was := order, items[..];
      PushFront(item, o);
      items[item.id] := item;
      assert items[..] == was[item.id := item];
      size := size + 1;
      order := [item] + o;
    }
  }
}
