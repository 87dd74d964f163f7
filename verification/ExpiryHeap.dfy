/** A min-heap of list elements by expiry, from which any element can be taken out by ID. */
module ExpiryHeaps {
  import opened Bytes
  import opened Heaps
  import opened LinkedList

  /** An item of the mempool. */
  datatype Item = Item(id: ID, expiry: int, sponsor: nat, size: nat)

  /** The heap holds the elements of the mempool's list, by the IDs of their values. */
  type Held = map<ID, Element<Item>>

  function Unexpired(m: Held, t: int): Held {
    map id | id in m && m[id].value.expiry >= t :: m[id]
  }

  lemma UnexpiredIs(m: Held, t: int)
    ensures forall id :: id in Unexpired(m, t) <==> id in m && m[id].value.expiry >= t
  {
  }

  /** On the way from `m0` to its part that has not expired, with what was taken out in order. */
  ghost predicate Evicting(m0: Held, m: Held, t: int, removed: seq<Element<Item>>) {
    && (forall id | id in m :: id in m0 && m0[id] == m[id])
    && (forall id | id in m0 && id !in m :: m0[id].value.expiry < t && m0[id] in removed)
    && (forall i | 0 <= i < |removed| ::
          var id := removed[i].value.id; id in m0 && id !in m && m0[id] == removed[i])
    && (forall i, j | 0 <= i < j < |removed| :: removed[i].value.id != removed[j].value.id)
  }

  /** `removed` lists exactly the elements of `m` that expire before `t`, each once. */
  ghost predicate Evicted(m: Held, t: int, removed: seq<Element<Item>>) {
    && (forall x | x in removed :: x.value.id in m && m[x.value.id] == x && x.value.expiry < t)
    && (forall id | id in m && m[id].value.expiry < t :: m[id] in removed)
    && (forall i, j | 0 <= i < j < |removed| :: removed[i].value.id != removed[j].value.id)
  }

  lemma EvictNone(m: Held, t: int)
    ensures Evicting(m, m, t, [])
  {
  }

  lemma EvictOne(m0: Held, m: Held, t: int, removed: seq<Element<Item>>, x: Element<Item>)
    requires Evicting(m0, m, t, removed) && x.value.id in m && m[x.value.id] == x && x.value.expiry < t
    ensures Evicting(m0, m - {x.value.id}, t, removed + [x])
  {
    forall id | id in m0 && id !in m - {x.value.id}
      ensures m0[id].value.expiry < t && m0[id] in removed + [x]
    {
      assert id == x.value.id ==> (removed + [x])[|removed|] == x;
    }
  }

  lemma EvictedAll(m0: Held, m: Held, t: int, removed: seq<Element<Item>>)
    requires Evicting(m0, m, t, removed) && forall id | id in m :: m[id].value.expiry >= t
    ensures m == Unexpired(m0, t)
    ensures Evicted(m0, t, removed)
  {
  }

  class ExpiryHeap {
    const minHeap: Heap<Element<Item>>

    ghost function Contents(): Held
      reads minHeap
    {
      map id | id in minHeap.lookup :: minHeap.lookup[id].item
    }

    ghost predicate Valid()
      reads minHeap, minHeap.items
    {
      && minHeap.Valid() && minHeap.isMinHeap
      && forall id | id in minHeap.lookup ::
           var e := minHeap.lookup[id]; e.item.value.id == id && e.item.value.expiry == e.val
    }

    constructor ()
      ensures Valid() && fresh(minHeap) && Contents() == map[] && minHeap.items == []
    {
      minHeap := new Heap(true);
    }

    method Push(e: Entry<Element<Item>>)
      requires Valid() && e.index == |minHeap.items| && e.id == e.item.value.id && e.val == e.item.value.expiry
      modifies minHeap, minHeap.items, e
      ensures Valid()
      ensures minHeap.lookup
              == if e.id in old(minHeap.lookup) then old(minHeap.lookup) else old(minHeap.lookup)[e.id := e]
      ensures forall x | x in minHeap.items :: x in old(minHeap.items) || x == e
    {
      minHeap.Push(e);
      assert forall x | x in minHeap.items ::
          x in multiset(old(minHeap.items) + [e]) || x in multiset(old(minHeap.items));
    }

    method Add(item: Element<Item>)
      requires Valid()
      modifies minHeap, minHeap.items
      ensures Valid()
      ensures Contents()
              == if item.value.id in old(Contents()) then old(Contents()) else old(Contents())[item.value.id := item]
      ensures forall e | e in minHeap.items :: e in old(minHeap.items) || fresh(e)
    {
      var e := new Entry(item.value.id, item, item.value.expiry, |minHeap.items|);
      Push(e);
    }

    method Remove(id: ID) returns (r: Maybe<Element<Item>>)
      requires Valid()
      modifies minHeap, minHeap.items
      ensures Valid() && Contents() == old(Contents()) - {id}
      ensures r == if id in old(Contents()) then Some(old(Contents())[id]) else Nothing
      ensures forall e | e in minHeap.items :: e in old(minHeap.items)
    {
      if id !in minHeap.lookup {
        return Nothing;
      }
      var entry := minHeap.lookup[id];
      var removed := minHeap.Remove(entry.index);
      r := Some(entry.item);
    }

    method Len() returns (n: nat)
      requires Valid()
      ensures n == |minHeap.items| && (n == 0 <==> Contents() == map[])
    {
      n := |minHeap.items|;
      assert n > 0 ==> minHeap.items[0].id in Contents();
    }

    /** An element that no other one expires before. */
    method PeekMin() returns (r: Maybe<Element<Item>>)
      requires Valid()
      ensures r.Nothing? <==> Contents() == map[]
      ensures r.Some? ==> r.value.value.id in Contents() && Contents()[r.value.value.id] == r.value
      ensures r.Some? ==> |minHeap.items| > 0
      ensures r.Some? ==> r.value == minHeap.items[0].item
      ensures r.Some? ==> forall id | id in Contents() :: r.value.value.expiry <= Contents()[id].value.expiry
    {
      var first := minHeap.First();
      if first == null {
        return Nothing;
      }
      assert first.id in Contents();
      r := Some(first.item);
    }

    method PopMin() returns (r: Maybe<Element<Item>>)
      requires Valid()
      modifies minHeap, minHeap.items
      ensures Valid() && (r.Nothing? <==> old(Contents()) == map[])
      ensures r.Some? ==> r.value.value.id in old(Contents()) && old(Contents())[r.value.value.id] == r.value
      ensures r.Some? ==> |old(minHeap.items)| > 0
      ensures r.Some? ==> r.value == old(minHeap.items[0].item)
      ensures r.Some? ==> forall id | id in old(Contents()) :: r.value.value.expiry <= old(Contents())[id].value.expiry
      ensures Contents() == if r.Some? then old(Contents()) - {r.value.value.id} else old(Contents())
      ensures forall e | e in minHeap.items :: e in old(minHeap.items)
    {
      r := PeekMin();
      if r.Some? {
        var removed := Remove(r.value.value.id);
      }
    }

    /** Takes out the first element if it expires before `t`. */
    method EvictBelow(t: int, removed: seq<Element<Item>>, ghost m0: Held) returns (more: bool, r: seq<Element<Item>>)
      requires Valid() && Evicting(m0, Contents(), t, removed)
      modifies minHeap, minHeap.items
      ensures Valid() && Evicting(m0, Contents(), t, r)
      ensures !more ==> Contents() == old(Contents())
      ensures !more ==> forall id | id in Contents() :: Contents()[id].value.expiry >= t
      ensures more ==> Contents().Keys < old(Contents().Keys)
      ensures forall e | e in minHeap.items :: e in old(minHeap.items)
    {
      hide Evicting;
      var min := PeekMin();
      if min.Nothing? || min.value.value.expiry >= t {
        return false, removed;
      }
      EvictOne(m0, Contents(), t, removed, min.value);
      var popped := PopMin();
      assert Contents().Keys < old(Contents().Keys);
      return true, removed + [min.value];
    }

    /** Takes out exactly the elements that expire before `t`, and returns each once. */
    method SetMin(t: int) returns (removed: seq<Element<Item>>)
      requires Valid()
      modifies minHeap, minHeap.items
      ensures Valid() && Contents() == Unexpired(old(Contents()), t)
      ensures forall id :: id in Contents() <==> id in old(Contents()) && old(Contents())[id].value.expiry >= t
      ensures Evicted(old(Contents()), t, removed)
      ensures forall e | e in minHeap.items :: e in old(minHeap.items)
    {
      hide Evicting, Unexpired, Evicted;
      removed := [];
      EvictNone(Contents(), t);
      var more := true;
      while more
        invariant Valid() && Evicting(old(Contents()), Contents(), t, removed)
        invariant !more ==> forall id | id in Contents() :: Contents()[id].value.expiry >= t
        invariant forall e | e in minHeap.items :: e in old(minHeap.items)
        decreases Contents().Keys, more
      {
        more, removed := EvictBelow(t, removed, old(Contents()));
      }
      EvictedAll(old(Contents()), Contents(), t, removed);
      UnexpiredIs(old(Contents()), t);
    }
  }
}
