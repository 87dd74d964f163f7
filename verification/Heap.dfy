/** The order a binary heap keeps in its slice, on the ranks of the entries. */
module HeapOrder {

  function Parent(k: int): (p: int)
    requires k >= 1
    ensures 0 <= p < k
    ensures forall i | 0 <= i :: p == i <==> k == 2 * i + 1 || k == 2 * i + 2
  {
    (k - 1) / 2
  }

  predicate Above(r: seq<int>, k: int)
    requires 1 <= k < |r|
  {
    r[Parent(k)] <= r[k]
  }

  predicate Ordered(r: seq<int>) {
    forall k | 1 <= k < |r| :: Above(r, k)
  }

  /** Order holds everywhere but between `j` and its parent, and survives cutting `j` out. */
  predicate ButParent(r: seq<int>, j: nat) {
    && (forall k | 1 <= k < |r| && k != j :: Above(r, k))
    && (j > 0 ==> forall k | 1 <= k < |r| && Parent(k) == j :: r[Parent(j)] <= r[k])
  }

  /** Order holds everywhere but around `i`, and survives cutting `i` out. */
  predicate ButAround(r: seq<int>, i: nat) {
    && (forall k | 1 <= k < |r| && k != i && Parent(k) != i :: Above(r, k))
    && (i > 0 ==> forall k | 1 <= k < |r| && Parent(k) == i :: r[Parent(i)] <= r[k])
  }

  function Swapped(r: seq<int>, i: nat, j: nat): seq<int>
    requires i < |r| && j < |r|
  {
    r[i := r[j]][j := r[i]]
  }

  /** Swapping an entry with its larger parent moves the one gap in the order up. */
  lemma SwapUp(r: seq<int>, j: nat)
    requires 0 < j < |r| && ButParent(r, j) && r[j] < r[Parent(j)]
    ensures ButParent(Swapped(r, Parent(j), j), Parent(j))
  {
    var i := Parent(j);
    var s := Swapped(r, i, j);
    assert i > 0 ==> Above(r, i);
    forall k | 1 <= k < |s| && k != i
      ensures Above(s, k)
    {
      assert k != j ==> Above(r, k);
    }
    if i > 0 {
      forall k | 1 <= k < |s| && Parent(k) == i
        ensures s[Parent(i)] <= s[k]
      {
        assert k != j ==> Above(r, k);
      }
    }
  }

  /** Swapping an entry with its smallest child moves the one gap in the order down. */
  lemma SwapDown(r: seq<int>, i: nat, j: nat)
    requires 1 <= j < |r| && Parent(j) == i && ButAround(r, i) && r[j] < r[i]
    requires forall k | k == 2 * i + 1 || k == 2 * i + 2 :: k < |r| ==> r[j] <= r[k]
    ensures ButAround(Swapped(r, i, j), j) && Above(Swapped(r, i, j), j)
    ensures i > 0 ==> Above(Swapped(r, i, j), i)
  {
    var s := Swapped(r, i, j);
    forall k | 1 <= k < |s| && k != j && Parent(k) != j
      ensures Above(s, k)
    {
      assert k != i && Parent(k) != i ==> Above(r, k);
    }
    forall k | 1 <= k < |s| && Parent(k) == j
      ensures s[Parent(j)] <= s[k]
    {
      assert Above(r, k);
    }
  }

  /** Once no child comes before it, the entry at `i` is in order but for its own parent. */
  lemma Sunk(r: seq<int>, i: nat)
    requires i < |r| && ButAround(r, i)
    requires forall k | k == 2 * i + 1 || k == 2 * i + 2 :: k < |r| ==> r[i] <= r[k]
    ensures ButParent(r, i)
    ensures i > 0 && Above(r, i) ==> Ordered(r)
  {
    forall k | 1 <= k < |r| && k != i
      ensures Above(r, k)
    {
      assert Parent(k) == i ==> k == 2 * i + 1 || k == 2 * i + 2;
    }
  }

  /** A new last entry is in order but for its parent. */
  lemma Appended(r: seq<int>, x: int)
    requires Ordered(r)
    ensures ButParent(r + [x], |r|)
  {
    forall k | 1 <= k < |r|
      ensures Above(r + [x], k)
    {
      assert Above(r, k);
    }
  }

  /** Moving the last entry into slot `i` and cutting the end off leaves gaps around `i` only. */
  lemma Shortened(r: seq<int>, i: nat)
    requires Ordered(r) && i < |r| - 1
    ensures ButAround(Swapped(r, i, |r| - 1)[..|r| - 1], i)
  {
    var s := Swapped(r, i, |r| - 1)[..|r| - 1];
    forall k | 1 <= k < |s|
      ensures k != i && Parent(k) != i ==> Above(s, k)
      ensures Parent(k) == i && i > 0 ==> s[Parent(i)] <= s[k]
    {
      assert Above(r, k);
      assert i > 0 ==> Above(r, i);
    }
  }

  lemma Prefix(r: seq<int>, n: nat)
    requires Ordered(r) && n <= |r|
    ensures Ordered(r[..n])
  {
    forall k | 1 <= k < n
      ensures Above(r[..n], k)
    {
      assert Above(r, k);
    }
  }

  /** Nothing comes before the root. */
  lemma {:induction false} RootFirst(r: seq<int>, k: nat)
    requires Ordered(r) && k < |r|
    ensures r[0] <= r[k]
  {
    if k > 0 {
      assert Above(r, k);
      RootFirst(r, Parent(k));
    }
  }
}

/**
 * The indexed binary heap: entries carry their own position, a lookup map finds them by ID, and the
 * sift loops of Go's container/heap keep the order.
 */
module Heaps {
  import opened HeapOrder

  type ID = nat

  class Entry<I> {
    const id: ID
    const item: I
    const val: int
    var index: int

    constructor (id: ID, item: I, val: int, index: int)
      ensures this.id == id && this.item == item && this.val == val && this.index == index
    {
      this.id := id;
      this.item := item;
      this.val := val;
      this.index := index;
    }
  }

  /** Smaller comes first, in either kind of heap. */
  function Rank<I>(isMinHeap: bool, e: Entry<I>): int {
    if isMinHeap then e.val else -e.val
  }

  function Ranks<I>(isMinHeap: bool, items: seq<Entry<I>>): seq<int> {
    seq(|items|, i requires 0 <= i < |items| => Rank(isMinHeap, items[i]))
  }

  ghost predicate SameEntries<I>(a: seq<Entry<I>>, b: seq<Entry<I>>) {
    multiset(a) == multiset(b) && |a| == |b|
  }

  lemma SwappedRanks<I>(isMinHeap: bool, items: seq<Entry<I>>, i: nat, j: nat)
    requires i < |items| && j < |items|
    ensures Ranks(isMinHeap, items[i := items[j]][j := items[i]]) == Swapped(Ranks(isMinHeap, items), i, j)
  {
  }

  lemma SuffixFirst<I>(a: seq<Entry<I>>, b: seq<Entry<I>>, n: nat)
    requires n < |a| && n < |b| && a[n..] == b[n..]
    ensures a[n] == b[n]
  {
    assert a[n] == a[n..][0] && b[n] == b[n..][0];
  }

  lemma BuriedOrder<I>(isMinHeap: bool, items: seq<Entry<I>>, i: nat)
    requires i < |items| && Ordered(Ranks(isMinHeap, items))
    ensures i == |items| - 1 ==> Ordered(Ranks(isMinHeap, items[..i]))
    ensures i < |items| - 1 ==>
              ButAround(Ranks(isMinHeap, items[i := items[|items| - 1]][|items| - 1 := items[i]][..|items| - 1]), i)
  {
    var r := Ranks(isMinHeap, items);
    var n := |items| - 1;
    if i == n {
      Prefix(r, n);
      assert Ranks(isMinHeap, items[..n]) == r[..n];
    } else {
      Shortened(r, i);
      assert Ranks(isMinHeap, items[i := items[n]][n := items[i]][..n]) == Swapped(r, i, n)[..n];
    }
  }

  class Heap<I> {
    const isMinHeap: bool
    var items: seq<Entry<I>>
    var lookup: map<ID, Entry<I>>

    /** Positions and lookup agree with the slice. */
    ghost predicate Indexed()
      reads this, items
    {
      && (forall i | 0 <= i < |items| ::
            items[i].index == i && items[i].id in lookup && lookup[items[i].id] == items[i])
      && (forall id | id in lookup :: lookup[id] in items && lookup[id].id == id)
    }

    ghost predicate Valid()
      reads this, items
    {
      Indexed() && Ordered(Ranks(isMinHeap, items))
    }

    constructor (isMinHeap: bool)
      ensures Valid() && this.isMinHeap == isMinHeap && lookup == map[] && items == []
    {
      this.isMinHeap := isMinHeap;
      items := [];
      lookup := map[];
    }

    predicate Less(i: nat, j: nat)
      requires i < |items| && j < |items|
      reads this
    {
      if isMinHeap then items[i].val < items[j].val else items[i].val > items[j].val
    }

    method Swap(i: nat, j: nat)
      requires Indexed() && i < |items| && j < |items|
      modifies this`items, items
      ensures items == old(items)[i := old(items[j])][j := old(items[i])]
      ensures Indexed() && SameEntries(items, old(items))
      ensures Ranks(isMinHeap, items) == Swapped(old(Ranks(isMinHeap, items)), i, j)
    {
      SwappedRanks(isMinHeap, items, i, j);
      hide Ranks, Swapped;
      var a, b := items[i], items[j];
      items := items[i := b][j := a];
      items[i].index := i;
      items[j].index := j;
      assert items[i] == b && items[j] == a;
      assert forall k | 0 <= k < |items| && k != i && k != j :: items[k] == old(items)[k];
      forall id | id in lookup
        ensures lookup[id] in items
      {
        var k := old(lookup[id].index);
        assert old(items)[k] == lookup[id];
        assert k != i && k != j ==> items[k] == lookup[id];
      }
    }

    /** One round of lifting: swaps the entry at `j` with the parent it comes before. */
    method Lift(j: nat, ghost n: nat)
      requires Indexed() && 0 < j < n <= |items| && ButParent(Ranks(isMinHeap, items[..n]), j) && Less(j, (j - 1) / 2)
      modifies this`items, items
      ensures Indexed() && SameEntries(items, old(items)) && items[n..] == old(items)[n..]
      ensures ButParent(Ranks(isMinHeap, items[..n]), (j - 1) / 2)
    {
      ghost var r := Ranks(isMinHeap, items[..n]);
      SwapUp(r, j);
      hide ButParent;
      Swap((j - 1) / 2, j);
      assert Ranks(isMinHeap, items[..n]) == Swapped(r, Parent(j), j);
    }

    /** Lifts the entry at `start`; the first `n` entries end in order and the rest stay put. */
    method Up(start: nat, ghost n: nat)
      requires Indexed() && start < n <= |items| && ButParent(Ranks(isMinHeap, items[..n]), start)
      modifies this`items, items
      ensures Indexed() && SameEntries(items, old(items)) && items[n..] == old(items)[n..]
      ensures Ordered(Ranks(isMinHeap, items[..n]))
    {
      var j := start;
      while j > 0 && Less(j, (j - 1) / 2)
        invariant 0 <= j < n <= |items| && Indexed() && SameEntries(items, old(items))
        invariant items[n..] == old(items)[n..]
        invariant ButParent(Ranks(isMinHeap, items[..n]), j)
        decreases j
      {
        Lift(j, n);
        j := (j - 1) / 2;
      }
      assert j > 0 ==> Above(Ranks(isMinHeap, items[..n]), j);
    }

    /** The child of `i` that comes first. */
    method FirstChild(i: nat, n: nat) returns (j: nat)
      requires 2 * i + 1 < n <= |items|
      ensures i < j < n && (j == 2 * i + 1 || j == 2 * i + 2)
      ensures forall k | k == 2 * i + 1 || k == 2 * i + 2 :: k < n ==>
                Rank(isMinHeap, items[j]) <= Rank(isMinHeap, items[k])
    {
      j := 2 * i + 1;
      if j + 1 < n && Less(j + 1, j) {
        j := j + 1;
      }
    }

    /** One round of sinking: swaps the entry at `i` with the child `j` it must not precede. */
    method Sink(i: nat, j: nat, n: nat)
      requires Indexed() && i < j < n <= |items| && ButAround(Ranks(isMinHeap, items[..n]), i)
      requires j == 2 * i + 1 || j == 2 * i + 2
      requires forall k | k == 2 * i + 1 || k == 2 * i + 2 :: k < n ==>
                 Rank(isMinHeap, items[j]) <= Rank(isMinHeap, items[k])
      requires Less(j, i)
      modifies this`items, items
      ensures Indexed() && SameEntries(items, old(items)) && items[n..] == old(items)[n..]
      ensures ButAround(Ranks(isMinHeap, items[..n]), j) && Above(Ranks(isMinHeap, items[..n]), j)
    {
      ghost var r := Ranks(isMinHeap, items[..n]);
      SwapDown(r, i, j);
      hide ButAround, Above;
      Swap(i, j);
      assert Ranks(isMinHeap, items[..n]) == Swapped(r, i, j);
    }

    /** Sinks the entry at `start` within the first `n`; says whether it moved. */
    method Down(start: nat, n: nat) returns (moved: bool)
      requires Indexed() && start < n <= |items| && ButAround(Ranks(isMinHeap, items[..n]), start)
      modifies this`items, items
      ensures Indexed() && SameEntries(items, old(items)) && items[n..] == old(items)[n..]
      ensures moved ==> Ordered(Ranks(isMinHeap, items[..n]))
      ensures !moved ==> items == old(items) && ButParent(Ranks(isMinHeap, items[..n]), start)
    {
      var i := start;
      while 2 * i + 1 < n
        invariant start <= i < n <= |items| && Indexed() && SameEntries(items, old(items))
        invariant items[n..] == old(items)[n..]
        invariant ButAround(Ranks(isMinHeap, items[..n]), i)
        invariant i > start ==> Above(Ranks(isMinHeap, items[..n]), i)
        invariant i == start ==> items == old(items)
        decreases n - i
      {
        var j := FirstChild(i, n);
        if !Less(j, i) {
          break;
        }
        Sink(i, j, n);
        i := j;
      }
      Sunk(Ranks(isMinHeap, items[..n]), i);
      moved := i > start;
    }

    /** Drops the last entry, and forgets its ID. */
    method DropLast() returns (e: Entry<I>)
      requires Indexed() && |items| > 0
      modifies this
      ensures e == old(items)[|old(items)| - 1] && items == old(items)[..|old(items)| - 1]
      ensures lookup == old(lookup) - {e.id} && Indexed()
    {
      var n := |items| - 1;
      e := items[n];
      items := items[..n];
      lookup := lookup - {e.id};
      forall i | 0 <= i < n
        ensures items[i].id != e.id
      {
        assert old(items)[i].index == i;
      }
      forall id | id in lookup
        ensures lookup[id] in items
      {
        assert old(items)[lookup[id].index] == lookup[id];
        assert items[lookup[id].index] == lookup[id];
      }
    }

    method Push(e: Entry<I>)
      requires Valid() && (e.id !in lookup ==> e.index == |items|)
      modifies this, items, e
      ensures Valid()
      ensures lookup == if e.id in old(lookup) then old(lookup) else old(lookup)[e.id := e]
      ensures SameEntries(items, if e.id in old(lookup) then old(items) else old(items) + [e])
    {
      if e.id !in lookup {
        assert e !in items;
        items := items + [e];
        lookup := lookup[e.id := e];
        assert Ranks(isMinHeap, items) == old(Ranks(isMinHeap, items)) + [Rank(isMinHeap, e)];
        Appended(old(Ranks(isMinHeap, items)), Rank(isMinHeap, e));
      } else {
        assert lookup[e.id] in items;
      }
      assert items[..|items|] == items;
      Up(|items| - 1, |items|);
      assert items[..|items|] == items;
    }

    /** An entry that no other entry comes before, or null when the heap is empty. */
    method First() returns (e: Entry?<I>)
      requires Valid()
      ensures e == null <==> lookup == map[]
      ensures e != null ==> |items| > 0 && e == items[0] && e.id in lookup && lookup[e.id] == e
      ensures e != null ==> forall id | id in lookup :: Rank(isMinHeap, e) <= Rank(isMinHeap, lookup[id])
    {
      if |items| == 0 {
        return null;
      }
      e := items[0];
      forall id | id in lookup
        ensures Rank(isMinHeap, e) <= Rank(isMinHeap, lookup[id])
      {
        RootFirst(Ranks(isMinHeap, items), lookup[id].index);
      }
    }

    /** Puts the first `n` entries in order when only `index` is out of place. */
    method Settle(index: nat, n: nat)
      requires Indexed() && index < n <= |items| && ButAround(Ranks(isMinHeap, items[..n]), index)
      modifies this`items, items
      ensures Indexed() && SameEntries(items, old(items)) && items[n..] == old(items)[n..]
      ensures Ordered(Ranks(isMinHeap, items[..n]))
    {
      var moved := Down(index, n);
      if !moved {
        Up(index, n);
      }
    }

    /** Exchanges the entry at `index` with the last one. */
    method Exchange(index: nat, n: nat)
      requires Valid() && index < n == |items| - 1
      modifies this`items, items
      ensures Indexed() && SameEntries(items, old(items)) && items[n] == old(items)[index]
      ensures ButAround(Ranks(isMinHeap, items[..n]), index)
    {
      BuriedOrder(isMinHeap, items, index);
      hide ButAround, Ordered, Ranks, SameEntries;
      Swap(index, n);
    }

    /** Moves the entry at `index` to the end and puts the others in order. */
    method Bury(index: nat, n: nat)
      requires Valid() && index <= n == |items| - 1
      modifies this`items, items
      ensures Indexed() && SameEntries(items, old(items)) && items[n] == old(items)[index]
      ensures Ordered(Ranks(isMinHeap, items[..n]))
    {
      if n == index {
        BuriedOrder(isMinHeap, items, index);
        return;
      }
      hide ButAround, Ordered, Ranks;
      Exchange(index, n);
      ghost var exchanged := items;
      Settle(index, n);
      SuffixFirst(items, exchanged, n);
    }

    method Remove(index: nat) returns (e: Entry?<I>)
      requires Valid()
      modifies this, items
      ensures Valid() && (e == null <==> index >= |old(items)|)
      ensures e == null ==> items == old(items) && lookup == old(lookup)
      ensures e != null ==> e == old(items)[index] && lookup == old(lookup) - {e.id}
      ensures e != null ==> forall x | x in items :: x in old(items) && x != e
    {
      if index >= |items| {
        return null;
      }
      Bury(index, |items| - 1);
      e := DropLast();
    }

    /** Takes out an entry that no other entry comes before; null when the heap is empty. */
    method Pop() returns (e: Entry?<I>)
      requires Valid()
      modifies this, items
      ensures Valid() && (e == null <==> old(lookup) == map[])
      ensures e == null ==> items == old(items) && lookup == old(lookup)
      ensures e != null ==> |old(items)| > 0 && e == old(items)[0] && lookup == old(lookup) - {e.id}
      ensures e != null ==> forall x | x in items :: x in old(items) && x != e
    {
      assert |items| > 0 ==> items[0].id in lookup;
      if |items| == 0 {
        return null;
      }
      Bury(0, |items| - 1);
      e := DropLast();
    }
  }
}
