/** The eviction map: IDs bucketed by expiry, with a heap over the buckets. */
module EMaps {
  import opened Heaps

  /** An item as the map sees it. */
  datatype Item = Item(id: ID, expiry: int)

  /** What the map remembers: the expiry under which each seen ID was added. */
  type Expiries = map<ID, int>

  function Added(m: Expiries, item: Item): Expiries {
    if item.expiry == 0 || item.id in m then m else m[item.id := item.expiry]
  }

  function AddedAll(m: Expiries, items: seq<Item>): Expiries {
    if items == [] then m else Added(AddedAll(m, items[..|items| - 1]), items[|items| - 1])
  }

  /** What adding items leaves: what was remembered, and each new ID under the first expiry that is not 0. */
  lemma {:induction false} AddedAllExactly(m: Expiries, items: seq<Item>, id: ID)
    ensures id in m ==> id in AddedAll(m, items) && AddedAll(m, items)[id] == m[id]
    ensures id !in m ==>
              (id in AddedAll(m, items) <==> exists i :: 0 <= i < |items| && items[i].id == id && items[i].expiry != 0)
    ensures forall i | 0 <= i < |items| && id !in m && items[i].id == id && items[i].expiry != 0
                       && (forall j | 0 <= j < i && items[j].id == id :: items[j].expiry == 0) ::
              AddedAll(m, items)[id] == items[i].expiry
  {
    if items != [] {
      var (most, x) := (items[..|items| - 1], items[|items| - 1]);
      AddedAllExactly(m, most, id);
      assert forall i | 0 <= i < |most| :: most[i] == items[i];
      assert items[|items| - 1] == x;
    }
  }

  /** What is left when everything that expires before `t` is dropped. */
  function Unexpired(m: Expiries, t: int): Expiries {
    map id | id in m && m[id] >= t :: m[id]
  }

  /** The IDs that expire at `t`. */
  function At(m: Expiries, t: int): set<ID> {
    set id | id in m && m[id] == t
  }

  /** Each bucket lists exactly the IDs that expire at its time, each once. */
  ghost predicate Holds(m: Expiries, contents: map<int, seq<ID>>) {
    && (forall t | t in contents :: t != 0 && multiset(contents[t]) == multiset(At(m, t)))
    && (forall id | id in m :: m[id] in contents)
  }

  /** The heap has one entry per bucket, under its time and its first ID. */
  ghost predicate Listed(lookup: map<ID, Entry<int>>, contents: map<int, seq<ID>>) {
    && (forall t | t in contents :: contents[t] != [] && contents[t][0] in lookup && lookup[contents[t][0]].item == t)
    && (forall id | id in lookup ::
          var e := lookup[id]; e.val == e.item && e.item in contents && contents[e.item][0] == id)
  }

  lemma AddedAt(m: Expiries, id: ID, t: int, u: int)
    requires id !in m
    ensures At(m[id := t], u) == if u == t then At(m, u) + {id} else At(m, u)
  {
  }

  /** Recording an ID in the bucket of its time, or in a new one, keeps the buckets exact. */
  lemma AddedHolds(m: Expiries, contents: map<int, seq<ID>>, id: ID, t: int)
    requires Holds(m, contents) && id !in m && t != 0
    ensures Holds(m[id := t], contents[t := (if t in contents then contents[t] else []) + [id]])
  {
    var n := contents[t := (if t in contents then contents[t] else []) + [id]];
    forall u | u in n
      ensures multiset(n[u]) == multiset(At(m[id := t], u))
    {
      AddedAt(m, id, t, u);
      if u == t && t !in contents {
        assert At(m, t) == {};
      }
    }
  }

  lemma FirstHeld(m: Expiries, contents: map<int, seq<ID>>, t: int)
    requires Holds(m, contents) && t in contents && contents[t] != []
    ensures contents[t][0] in m && m[contents[t][0]] == t
  {
    assert contents[t][0] in multiset(At(m, t));
  }

  lemma FirstsHeld(m: Expiries, lookup: map<ID, Entry<int>>, contents: map<int, seq<ID>>)
    requires Holds(m, contents) && Listed(lookup, contents)
    ensures lookup.Keys <= m.Keys
  {
    forall id | id in lookup
      ensures id in m
    {
      FirstHeld(m, contents, lookup[id].item);
    }
  }

  lemma ListedMore(lookup: map<ID, Entry<int>>, contents: map<int, seq<ID>>, e: Entry<int>)
    requires Listed(lookup, contents) && e.id !in lookup && e.val == e.item && e.item !in contents
    ensures Listed(lookup[e.id := e], contents[e.item := [e.id]])
  {
  }

  function IDs(ids: seq<ID>): set<ID> {
    set id | id in ids
  }

  lemma HeldAt(m: Expiries, contents: map<int, seq<ID>>, t: int)
    requires Holds(m, contents) && t in contents
    ensures IDs(contents[t]) == At(m, t) && multiset(contents[t]) == multiset(At(m, t))
  {
    forall id
      ensures id in contents[t] <==> id in At(m, t)
    {
      assert id in multiset(contents[t]) <==> id in multiset(At(m, t));
    }
  }

  /** What is left when the bucket of `t` goes. */
  function Dropped(m: Expiries, t: int): Expiries {
    map id | id in m && m[id] != t :: m[id]
  }

  lemma DroppedHolds(m: Expiries, contents: map<int, seq<ID>>, t: int)
    requires Holds(m, contents) && t in contents
    ensures Holds(Dropped(m, t), contents - {t})
  {
    forall u | u in contents && u != t
      ensures At(Dropped(m, t), u) == At(m, u)
    {
    }
  }

  lemma DroppedListed(lookup: map<ID, Entry<int>>, contents: map<int, seq<ID>>, t: int)
    requires Listed(lookup, contents) && t in contents
    ensures Listed(lookup - {contents[t][0]}, contents - {t})
  {
  }

  lemma FirstListed(lookup: map<ID, Entry<int>>, contents: map<int, seq<ID>>, id: ID)
    requires Listed(lookup, contents) && id in lookup
    ensures lookup[id].val in contents && contents[lookup[id].val] != [] && contents[lookup[id].val][0] == id
  {
  }

  /** On the way from `m0` to its part that has not expired at `t`. */
  ghost predicate Between(m0: Expiries, m: Expiries, t: int) {
    && (forall id | id in m :: id in m0 && m0[id] == m[id])
    && (forall id | id in m0 && m0[id] >= t :: id in m)
  }

  lemma EvictStep(m0: Expiries, m: Expiries, u: int, t: int)
    requires Between(m0, m, t) && u < t
    ensures Between(m0, Dropped(m, u), t)
    ensures multiset(m0.Keys - m.Keys) + multiset(At(m, u)) == multiset(m0.Keys - Dropped(m, u).Keys)
  {
    assert m0.Keys - Dropped(m, u).Keys == (m0.Keys - m.Keys) + At(m, u);
  }

  lemma NoneExpired(m: Expiries, lookup: map<ID, Entry<int>>, contents: map<int, seq<ID>>, t: int)
    requires Holds(m, contents) && Listed(lookup, contents)
    requires forall id | id in lookup :: lookup[id].val >= t
    ensures forall id | id in m :: m[id] >= t
  {
    forall id | id in m
      ensures m[id] >= t
    {
      var u := m[id];
      assert u in contents && contents[u] != [];
      assert lookup[contents[u][0]].val == u;
    }
  }

  predicate Hit(items: seq<Item>, ids: set<ID>, marker: set<nat>, i: nat) {
    i < |items| && i !in marker && items[i].id in ids
  }

  /**
   * `r` adds to `marker` the positions of the items whose ID is in `ids`: all of them, or only the
   * first one when the search stops there.
   */
  ghost predicate Marks(items: seq<Item>, ids: set<ID>, marker: set<nat>, stop: bool, r: set<nat>) {
    if stop && exists i :: Hit(items, ids, marker, i) then
      exists i :: Hit(items, ids, marker, i) && r == marker + {i} && forall j | Hit(items, ids, marker, j) :: i <= j
    else
      forall i: nat :: i in r <==> i in marker || Hit(items, ids, marker, i)
  }

  class EMap {
    const bh: Heap<int>
    var seen: set<ID>
    var times: map<int, seq<ID>>
    ghost var expiries: Expiries

    ghost predicate Valid()
      reads this, bh, bh.items
    {
      && bh.Valid() && bh.isMinHeap && seen == expiries.Keys
      && Holds(expiries, times) && Listed(bh.lookup, times)
    }

    constructor ()
      ensures Valid() && expiries == map[] && fresh(bh) && bh.items == []
    {
      bh := new Heap(true);
      seen, times, expiries := {}, map[], map[];
    }

    method AppendTo(id: ID, t: int)
      requires Valid() && t in times && id !in seen
      modifies this
      ensures Valid() && expiries == old(expiries)[id := t]
    {
      AddedHolds(expiries, times, id, t);
      seen := seen + {id};
      expiries := expiries[id := t];
      times := times[t := times[t] + [id]];
    }

    method Open(id: ID, t: int)
      requires Valid() && t !in times && t != 0 && id !in seen
      modifies this, bh, bh.items
      ensures Valid() && expiries == old(expiries)[id := t]
      ensures forall e | e in bh.items :: e in old(bh.items) || fresh(e)
    {
      hide Holds, Listed, Heap.Valid;
      AddedHolds(expiries, times, id, t);
      FirstsHeld(expiries, bh.lookup, times);
      seen := seen + {id};
      expiries := expiries[id := t];
      var e := new Entry(id, t, t, |bh.items|);
      ListedMore(bh.lookup, times, e);
      assert [] + [id] == [id];
      times := times[t := [id]];
      bh.Push(e);
      assert forall x | x in bh.items :: x in multiset(old(bh.items) + [e]);
    }

    method AddOne(id: ID, t: int)
      requires Valid()
      modifies this, bh, bh.items
      ensures Valid() && expiries == Added(old(expiries), Item(id, t))
      ensures expiries == if t == 0 || id in old(seen) then old(expiries) else old(expiries)[id := t]
      ensures forall e | e in bh.items :: e in old(bh.items) || fresh(e)
    {
      if t == 0 || id in seen {
        return;
      }
      if t in times {
        AppendTo(id, t);
        return;
      }
      Open(id, t);
    }

    method Add(items: seq<Item>)
      requires Valid()
      modifies this, bh, bh.items
      ensures Valid() && expiries == AddedAll(old(expiries), items)
      ensures forall e | e in bh.items :: e in old(bh.items) || fresh(e)
    {
      for i := 0 to |items|
        invariant Valid() && expiries == AddedAll(old(expiries), items[..i])
        invariant forall e | e in bh.items :: e in old(bh.items) || fresh(e)
      {
        assert items[..i + 1][..i] == items[..i];
        AddOne(items[i].id, items[i].expiry);
      }
      assert items[..|items|] == items;
    }

    method Forget(ids: seq<ID>, evicted: seq<ID>) returns (r: seq<ID>)
      modifies this`seen
      ensures r == evicted + ids && seen == old(seen) - IDs(ids)
    {
      r := evicted;
      for i := 0 to |ids|
        invariant r == evicted + ids[..i] && seen == old(seen) - IDs(ids[..i])
      {
        assert IDs(ids[..i + 1]) == IDs(ids[..i]) + {ids[i]} by {
          assert ids[..i + 1] == ids[..i] + [ids[i]];
        }
        seen := seen - {ids[i]};
        r := r + [ids[i]];
      }
      assert ids[..|ids|] == ids;
    }

    /** Takes a bucket, already out of the heap, out of the other fields. */
    method Drop(t: int, evicted: seq<ID>) returns (r: seq<ID>)
      requires seen == expiries.Keys && Holds(expiries, times) && t in times
      modifies this
      ensures times == old(times) - {t} && expiries == Dropped(old(expiries), t)
      ensures seen == expiries.Keys && Holds(expiries, times)
      ensures multiset(r) == multiset(evicted) + multiset(At(old(expiries), t))
    {
      hide Holds;
      DroppedHolds(expiries, times, t);
      HeldAt(expiries, times, t);
      r := Forget(times[t], evicted);
      times := times - {t};
      expiries := Dropped(expiries, t);
    }

    /** Evicts the bucket on top of the heap. */
    method EvictFirst(t: int, evicted: seq<ID>) returns (r: seq<ID>)
      requires Valid() && |bh.items| > 0 && bh.items[0].val == t
      modifies this, bh, bh.items
      ensures Valid() && expiries == Dropped(old(expiries), t) && t in old(times) && times == old(times) - {t}
      ensures multiset(r) == multiset(evicted) + multiset(At(old(expiries), t))
      ensures forall e | e in bh.items :: e in old(bh.items)
    {
      FirstListed(bh.lookup, times, bh.items[0].id);
      hide Holds, Listed;
      DroppedListed(bh.lookup, times, t);
      var e := bh.Pop();
      r := Drop(t, evicted);
    }

    /** Evicts the first bucket if it expires before `t`. */
    method EvictBelow(t: int, evicted: seq<ID>, ghost m0: Expiries) returns (more: bool, r: seq<ID>)
      requires Valid() && Between(m0, expiries, t) && multiset(evicted) == multiset(m0.Keys - expiries.Keys)
      modifies this, bh, bh.items
      ensures Valid() && Between(m0, expiries, t) && multiset(r) == multiset(m0.Keys - expiries.Keys)
      ensures !more ==> times == old(times) && forall id | id in expiries :: expiries[id] >= t
      ensures more ==> times.Keys < old(times.Keys)
      ensures forall e | e in bh.items :: e in old(bh.items)
    {
      hide Holds, Listed, Between;
      var b := bh.First();
      if b == null || b.val >= t {
        NoneExpired(expiries, bh.lookup, times, t);
        return false, evicted;
      }
      EvictStep(m0, expiries, b.val, t);
      r := EvictFirst(b.val, evicted);
      assert times.Keys < old(times.Keys);
      more := true;
    }

    method SetMin(t: int) returns (evicted: seq<ID>)
      requires Valid()
      modifies this, bh, bh.items
      ensures Valid() && expiries == Unexpired(old(expiries), t)
      ensures forall id :: id in expiries <==> id in old(expiries) && old(expiries)[id] >= t
      ensures forall id | id in expiries :: expiries[id] == old(expiries)[id]
      ensures multiset(evicted) == multiset(old(seen) - seen)
      ensures forall e | e in bh.items :: e in old(bh.items)
    {
      hide Holds, Listed;
      evicted := [];
      var more := true;
      while more
        invariant Valid() && Between(old(expiries), expiries, t)
        invariant multiset(evicted) == multiset(old(expiries).Keys - expiries.Keys)
        invariant forall e | e in bh.items :: e in old(bh.items)
        invariant !more ==> forall id | id in expiries :: expiries[id] >= t
        decreases times.Keys, more
      {
        more, evicted := EvictBelow(t, evicted, old(expiries));
      }
    }

    method Any(items: seq<Item>) returns (found: bool)
      requires Valid()
      ensures found <==> exists i :: 0 <= i < |items| && items[i].id in expiries
    {
      for i := 0 to |items|
        invariant forall j | 0 <= j < i :: items[j].id !in seen
      {
        if items[i].id in seen {
          return true;
        }
      }
      return false;
    }

    method Contains(items: seq<Item>, marker: set<nat>, stop: bool) returns (r: set<nat>)
      requires Valid()
      ensures Marks(items, expiries.Keys, marker, stop, r)
    {
      r := marker;
      for i := 0 to |items|
        invariant Marks(items[..i], expiries.Keys, marker, false, r) && (stop ==> r == marker)
      {
        if i !in r && items[i].id in seen {
          r := r + {i};
          if stop {
            assert Hit(items, expiries.Keys, marker, i);
            return;
          }
        }
      }
      assert items[..|items|] == items;
    }
  }
}
