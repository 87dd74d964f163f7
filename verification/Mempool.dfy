/** What the mempool holds and hands out, on values. */
module Pools {
  import opened Bytes
  import opened Heaps
  import opened ExpiryHeaps

  datatype Limits = Limits(maxSize: nat, maxSponsorSize: nat)

  /** The queue, the IDs streamed out, and the prefetched stream. */
  datatype Pool = Pool(queue: seq<Item>, streamed: Maybe<set<ID>>, next: seq<Item>, fetched: bool)

  function IDs(q: seq<Item>): set<ID> {
    set i | 0 <= i < |q| :: q[i].id
  }

  predicate Distinct(q: seq<Item>) {
    forall i, j | 0 <= i < j < |q| :: q[i].id != q[j].id
  }

  /** How many items of the queue a sponsor owns. */
  function Owned(q: seq<Item>, sponsor: nat): nat {
    if q == [] then 0 else Owned(q[1..], sponsor) + if q[0].sponsor == sponsor then 1 else 0
  }

  function Size(q: seq<Item>): nat {
    if q == [] then 0 else q[0].size + Size(q[1..])
  }

  function Without(q: seq<Item>, id: ID): (r: seq<Item>) {
    if q == [] then [] else (if q[0].id == id then [] else [q[0]]) + Without(q[1..], id)
  }

  lemma {:induction false} OwnedConcat(a: seq<Item>, b: seq<Item>, s: nat)
    ensures Owned(a + b, s) == Owned(a, s) + Owned(b, s)
  {
    if a == [] {
      assert a + b == b;
    } else {
      OwnedConcat(a[1..], b, s);
      assert (a + b)[1..] == a[1..] + b;
    }
  }

  lemma {:induction false} SizeConcat(a: seq<Item>, b: seq<Item>)
    ensures Size(a + b) == Size(a) + Size(b)
  {
    if a == [] {
      assert a + b == b;
    } else {
      SizeConcat(a[1..], b);
      assert (a + b)[1..] == a[1..] + b;
    }
  }

  lemma {:induction false} WithoutAbsent(q: seq<Item>, id: ID)
    requires id !in IDs(q)
    ensures Without(q, id) == q
  {
    if q != [] {
      assert q[0].id in IDs(q);
      assert forall i | 0 <= i < |q[1..]| :: q[1..][i] == q[i + 1] && q[i + 1].id in IDs(q);
      WithoutAbsent(q[1..], id);
    }
  }

  /** Taking one item out of a queue of distinct items splices it. */
  lemma {:induction false} WithoutSplices(q: seq<Item>, k: nat)
    requires Distinct(q) && k < |q|
    ensures Without(q, q[k].id) == q[..k] + q[k + 1..]
  {
    if k == 0 {
      WithoutAbsent(q[1..], q[0].id);
    } else {
      WithoutSplices(q[1..], k - 1);
      assert q[..k] == [q[0]] + q[1..][..k - 1];
      assert q[1..][k..] == q[k + 1..];
    }
  }

  /** The queue respects its limits, repeats no ID, and holds nothing that was streamed out. */
  ghost predicate Within(limits: Limits, p: Pool) {
    && Distinct(p.queue) && |p.queue| <= limits.maxSize
    && (forall s :: Owned(p.queue, s) <= limits.maxSponsorSize)
    && (p.streamed.Some? ==> IDs(p.queue) !! p.streamed.value)
  }

  predicate Accepts(limits: Limits, p: Pool, x: Item) {
    && !(p.streamed.Some? && x.id in p.streamed.value)
    && x.id !in IDs(p.queue)
    && Owned(p.queue, x.sponsor) != limits.maxSponsorSize
    && |p.queue| != limits.maxSize
  }

  function Added(limits: Limits, p: Pool, x: Item, front: bool): Pool {
    if !Accepts(limits, p, x) then p
    else p.(queue := if front then [x] + p.queue else p.queue + [x])
  }

  lemma AddedShape(limits: Limits, p: Pool, x: Item, front: bool)
    requires Accepts(limits, p, x)
    ensures x.id !in IDs(p.queue)
    ensures Added(limits, p, x, front) == p.(queue := if front then [x] + p.queue else p.queue + [x])
  {
  }

  function AddedAll(limits: Limits, p: Pool, items: seq<Item>, front: bool): Pool {
    if items == [] then p
    else Added(limits, AddedAll(limits, p, items[..|items| - 1], front), items[|items| - 1], front)
  }

  lemma AddedWithin(limits: Limits, p: Pool, x: Item, front: bool)
    requires Within(limits, p)
    ensures Within(limits, Added(limits, p, x, front))
  {
    if Accepts(limits, p, x) {
      var q := Added(limits, p, x, front).queue;
      var (a, b) := if front then ([x], p.queue) else (p.queue, [x]);
      forall s
        ensures Owned(q, s) == Owned(p.queue, s) + if x.sponsor == s then 1 else 0
      {
        OwnedConcat(a, b, s);
      }
      assert forall i | 0 <= i < |p.queue| :: p.queue[i].id in IDs(p.queue);
      assert forall i | 0 <= i < |q| :: q[i] == x || q[i] in p.queue;
    }
  }

  lemma {:induction false} AddedAllWithin(limits: Limits, p: Pool, items: seq<Item>, front: bool)
    requires Within(limits, p)
    ensures Within(limits, AddedAll(limits, p, items, front))
  {
    if items != [] {
      AddedAllWithin(limits, p, items[..|items| - 1], front);
      AddedWithin(limits, AddedAll(limits, p, items[..|items| - 1], front), items[|items| - 1], front);
    }
  }

  // ---------------------------------------------------------------------------------------------
  // What adding keeps, and in which order
  // ---------------------------------------------------------------------------------------------

  /** The marked items, in their order. */
  function Picked(items: seq<Item>, marks: seq<bool>): (r: seq<Item>)
    requires |marks| == |items|
  {
    if items == [] then [] else (if marks[0] then [items[0]] else []) + Picked(items[1..], marks[1..])
  }

  function Reversed(q: seq<Item>): (r: seq<Item>)
    ensures |r| == |q| && forall i | 0 <= i < |q| :: r[i] == q[|q| - 1 - i]
  {
    seq(|q|, i requires 0 <= i < |q| => q[|q| - 1 - i])
  }

  /** There is room for an item on top of those queued and those kept before it. */
  predicate HasRoom(limits: Limits, p: Pool, kept: seq<Item>, x: Item) {
    && (p.streamed.Nothing? || x.id !in p.streamed.value)
    && (forall y | y in p.queue + kept :: y.id != x.id)
    && Owned(p.queue, x.sponsor) + Owned(kept, x.sponsor) != limits.maxSponsorSize
    && |p.queue| + |kept| != limits.maxSize
  }

  /** Exactly the items are marked that there is room for on top of the marked ones before them. */
  ghost predicate MarksRoom(limits: Limits, p: Pool, items: seq<Item>, marks: seq<bool>) {
    && |marks| == |items|
    && forall i | 0 <= i < |items| ::
         marks[i] <==> HasRoom(limits, p, Picked(items[..i], marks[..i]), items[i])
  }

  lemma {:induction false} PickedConcat(a: seq<Item>, b: seq<Item>, m: seq<bool>, n: seq<bool>)
    requires |m| == |a| && |n| == |b|
    ensures Picked(a + b, m + n) == Picked(a, m) + Picked(b, n)
  {
    if a == [] {
      assert a + b == b && m + n == n;
    } else {
      PickedConcat(a[1..], b, m[1..], n);
      var (first, rest) := (if m[0] then [a[0]] else [], Picked(a[1..], m[1..]));
      assert (a + b)[1..] == a[1..] + b && (m + n)[1..] == m[1..] + n;
      assert Picked(a + b, m + n) == first + Picked((a + b)[1..], (m + n)[1..]);
      assert first + (rest + Picked(b, n)) == (first + rest) + Picked(b, n);
    }
  }

  /** The queue with the kept items: behind it in their order, or before it, each in front of the last. */
  function Joined(p: Pool, kept: seq<Item>, front: bool): (q: seq<Item>) {
    if front then Reversed(kept) + p.queue else p.queue + kept
  }

  /** Of the items, exactly those there was room for were queued, in order. */
  ghost predicate QueuedInOrder(limits: Limits, p: Pool, items: seq<Item>, front: bool, r: Pool) {
    exists marks ::
      MarksRoom(limits, p, items, marks) && r == p.(queue := Joined(p, Picked(items, marks), front))
  }

  lemma {:induction false} OwnedReversed(q: seq<Item>, s: nat)
    ensures Owned(Reversed(q), s) == Owned(q, s)
  {
    if q != [] {
      OwnedReversed(q[1..], s);
      assert Reversed(q) == Reversed(q[1..]) + [q[0]];
      OwnedConcat(Reversed(q[1..]), [q[0]], s);
    }
  }

  lemma AcceptsIfRoom(limits: Limits, p: Pool, kept: seq<Item>, x: Item, front: bool)
    ensures Accepts(limits, p.(queue := Joined(p, kept, front)), x) <==> HasRoom(limits, p, kept, x)
  {
    var q := Joined(p, kept, front);
    OwnedReversed(kept, x.sponsor);
    if front {
      OwnedConcat(Reversed(kept), p.queue, x.sponsor);
    } else {
      OwnedConcat(p.queue, kept, x.sponsor);
    }
    SameItems(p, kept, front);
    IDsIff(q, x.id);
  }

  lemma IDsIff(q: seq<Item>, id: ID)
    ensures id in IDs(q) <==> exists y :: y in q && y.id == id
  {
  }

  lemma SameItems(p: Pool, kept: seq<Item>, front: bool)
    ensures forall y :: y in Joined(p, kept, front) <==> y in p.queue || y in kept
  {
    assert forall i | 0 <= i < |kept| :: Reversed(kept)[|kept| - 1 - i] == kept[i];
  }

  lemma MarksMore(limits: Limits, p: Pool, most: seq<Item>, m: seq<bool>, x: Item)
    requires MarksRoom(limits, p, most, m)
    ensures MarksRoom(limits, p, most + [x], m + [HasRoom(limits, p, Picked(most, m), x)])
  {
    hide HasRoom, Picked;
    var (items, marks) := (most + [x], m + [HasRoom(limits, p, Picked(most, m), x)]);
    forall i | 0 <= i < |items|
      ensures marks[i] <==> HasRoom(limits, p, Picked(items[..i], marks[..i]), items[i])
    {
      assert i < |most| ==> items[..i] == most[..i] && marks[..i] == m[..i];
      assert i == |most| ==> items[..i] == most && marks[..i] == m;
    }
  }

  lemma JoinedMore(p: Pool, kept: seq<Item>, x: Item, front: bool)
    ensures Joined(p, kept + [x], front) == if front then [x] + Joined(p, kept, front) else Joined(p, kept, front) + [x]
  {
    assert Reversed(kept + [x]) == [x] + Reversed(kept);
    assert front ==> ([x] + Reversed(kept)) + p.queue == [x] + (Reversed(kept) + p.queue);
    assert p.queue + (kept + [x]) == (p.queue + kept) + [x];
  }

  lemma AddedKeeps(limits: Limits, p: Pool, kept: seq<Item>, x: Item, front: bool)
    ensures var more := if HasRoom(limits, p, kept, x) then kept + [x] else kept;
            Added(limits, p.(queue := Joined(p, kept, front)), x, front) == p.(queue := Joined(p, more, front))
  {
    hide Accepts, HasRoom, Joined;
    AcceptsIfRoom(limits, p, kept, x, front);
    JoinedMore(p, kept, x, front);
  }

  lemma PickedMore(most: seq<Item>, m: seq<bool>, x: Item, room: bool)
    requires |m| == |most|
    ensures Picked(most + [x], m + [room]) == if room then Picked(most, m) + [x] else Picked(most, m)
  {
    PickedConcat(most, [x], m, [room]);
  }

  /**
   * Adding keeps exactly the items there is room for, one after the other, and queues them in order:
   * at the back as they come, at the front each before the last.
   */
  lemma {:induction false} AddedInOrder(limits: Limits, p: Pool, items: seq<Item>, front: bool)
    returns (marks: seq<bool>)
    ensures MarksRoom(limits, p, items, marks)
    ensures AddedAll(limits, p, items, front) == p.(queue := Joined(p, Picked(items, marks), front))
    decreases |items|
  {
    if items == [] {
      marks := [];
      assert Joined(p, [], front) == p.queue;
    } else {
      hide HasRoom, Joined, MarksRoom, Added, Picked;
      var (most, x) := (items[..|items| - 1], items[|items| - 1]);
      marks := AddedInOrder(limits, p, most, front);
      var room := HasRoom(limits, p, Picked(most, marks), x);
      AddedKeeps(limits, p, Picked(most, marks), x, front);
      MarksMore(limits, p, most, marks, x);
      PickedMore(most, marks, x, room);
      marks := marks + [room];
      assert items == most + [x];
    }
  }

  lemma AddedQueues(limits: Limits, p: Pool, items: seq<Item>, front: bool)
    ensures QueuedInOrder(limits, p, items, front, AddedAll(limits, p, items, front))
  {
    var marks := AddedInOrder(limits, p, items, front);
    hide MarksRoom, Joined, Picked, AddedAll;
  }

  /** Distinct items that are new to a pool, and for which there is room together. */
  ghost predicate AllFit(limits: Limits, p: Pool, items: seq<Item>) {
    && Distinct(items) && IDs(items) !! IDs(p.queue) && (p.streamed.Some? ==> IDs(items) !! p.streamed.value)
    && |p.queue| + |items| <= limits.maxSize
    && forall s :: Owned(p.queue, s) + Owned(items, s) <= limits.maxSponsorSize
  }

  lemma RoomForNext(limits: Limits, p: Pool, items: seq<Item>, n: nat)
    requires AllFit(limits, p, items) && n < |items|
    ensures HasRoom(limits, p, items[..n], items[n])
  {
    var (kept, x, rest) := (items[..n], items[n], items[n + 1..]);
    assert x.id in IDs(items);
    assert items == kept + ([x] + rest) && ([x] + rest)[1..] == rest;
    OwnedConcat(kept, [x] + rest, x.sponsor);
    forall y | y in p.queue + kept
      ensures y.id != x.id
    {
      if y in p.queue {
        IDsIff(p.queue, y.id);
      }
    }
  }

  lemma {:induction false} AllMarked(limits: Limits, p: Pool, items: seq<Item>, marks: seq<bool>, n: nat)
    requires AllFit(limits, p, items) && n <= |items| && MarksRoom(limits, p, items, marks)
    ensures Picked(items[..n], marks[..n]) == items[..n]
    decreases n
  {
    if n > 0 {
      AllMarked(limits, p, items, marks, n - 1);
      RoomForNext(limits, p, items, n - 1);
      hide AllFit, HasRoom;
      var (kept, x) := (items[..n - 1], items[n - 1]);
      assert marks[n - 1];
      PickedConcat(kept, [x], marks[..n - 1], [true]);
      assert items[..n] == kept + [x] && marks[..n] == marks[..n - 1] + [true];
    }
  }

  /** They are all queued, as they come. */
  lemma AllAdded(limits: Limits, p: Pool, items: seq<Item>)
    requires AllFit(limits, p, items)
    ensures AddedAll(limits, p, items, false) == p.(queue := p.queue + items)
  {
    var marks := AddedInOrder(limits, p, items, false);
    AllMarked(limits, p, items, marks, |items|);
    assert items[..|items|] == items && marks[..|marks|] == marks;
  }

  /** Taking items out keeps a pool within its limits. */
  lemma TakenWithin(limits: Limits, p: Pool, k: nat)
    requires Within(limits, p) && k < |p.queue|
    ensures Within(limits, p.(queue := p.queue[..k] + p.queue[k + 1..]))
  {
    var (a, b) := (p.queue[..k], p.queue[k + 1..]);
    forall s
      ensures Owned(a + b, s) <= Owned(p.queue, s)
    {
      OwnedSplice(p.queue, k, s);
    }
    assert forall i | 0 <= i < |a + b| :: (a + b)[i] == p.queue[if i < k then i else i + 1];
    assert IDs(a + b) <= IDs(p.queue);
  }

  lemma OwnedSplice(q: seq<Item>, k: nat, s: nat)
    requires k < |q|
    ensures Owned(q, s) == Owned(q[..k] + q[k + 1..], s) + if q[k].sponsor == s then 1 else 0
    ensures Size(q) == Size(q[..k] + q[k + 1..]) + q[k].size
  {
    var (a, b) := (q[..k], q[k + 1..]);
    assert q == a + ([q[k]] + b) && ([q[k]] + b)[1..] == b;
    OwnedConcat(a, [q[k]] + b, s);
    OwnedConcat(a, b, s);
    SizeConcat(a, [q[k]] + b);
    SizeConcat(a, b);
  }
}

/** Iterating over the pool, and streaming from it, lose nothing they are not told to drop. */
module PoolConservation {
  import opened Bytes
  import opened Heaps
  import opened ExpiryHeaps
  import opened Pools

  lemma SpliceBag(q: seq<Item>, k: nat)
    requires k < |q|
    ensures multiset(q) == multiset(q[..k] + q[k + 1..]) + multiset{q[k]}
  {
    assert q == q[..k] + [q[k]] + q[k + 1..];
  }

  lemma CancelBag(a: multiset<Item>, b: multiset<Item>, x: Item)
    requires a + multiset{x} <= b + multiset{x}
    ensures a <= b
  {
    forall y
      ensures a[y] <= b[y]
    {
      assert (a + multiset{x})[y] <= (b + multiset{x})[y];
    }
  }

  lemma PartRest(a: seq<Item>, b: seq<Item>, k: nat)
    requires a != [] && multiset(a) <= multiset(b) && k < |b| && b[k] == a[0]
    ensures multiset(a[1..]) <= multiset(b[..k] + b[k + 1..])
  {
    SpliceBag(a, 0);
    SpliceBag(b, k);
    assert a[..0] + a[1..] == a[1..];
    CancelBag(multiset(a[1..]), multiset(b[..k] + b[k + 1..]), a[0]);
  }

  lemma InBag(a: seq<Item>, b: seq<Item>) returns (k: nat)
    requires a != [] && multiset(a) <= multiset(b)
    ensures k < |b| && b[k] == a[0]
  {
    assert a[0] in multiset(a);
    assert a[0] in multiset(b);
    k :| 0 <= k < |b| && b[k] == a[0];
  }

  /** A queue whose items all come from another owns no more than it, and repeats no more IDs. */
  lemma {:induction false} PartOwns(a: seq<Item>, b: seq<Item>, s: nat)
    requires multiset(a) <= multiset(b)
    ensures Owned(a, s) <= Owned(b, s) && |a| <= |b|
    decreases |a|
  {
    if a != [] {
      var k := InBag(a, b);
      PartRest(a, b, k);
      PartOwns(a[1..], b[..k] + b[k + 1..], s);
      OwnedSplice(b, k, s);
    }
  }

  lemma SpliceDistinct(q: seq<Item>, k: nat)
    requires Distinct(q) && k < |q|
    ensures var rest := q[..k] + q[k + 1..]; Distinct(rest) && q[k].id !in IDs(rest) && IDs(rest) <= IDs(q)
  {
    var rest := q[..k] + q[k + 1..];
    assert forall i | 0 <= i < |rest| :: rest[i] == q[if i < k then i else i + 1];
  }

  lemma ConsDistinct(q: seq<Item>)
    requires q != [] && Distinct(q[1..]) && q[0].id !in IDs(q[1..])
    ensures Distinct(q) && IDs(q) == {q[0].id} + IDs(q[1..])
  {
    assert forall i | 0 < i < |q| :: q[i] == q[1..][i - 1] && q[1..][i - 1].id in IDs(q[1..]);
    assert forall i | 0 <= i < |q[1..]| :: q[1..][i] == q[i + 1];
  }

  lemma {:induction false} PartDistinct(a: seq<Item>, b: seq<Item>)
    requires multiset(a) <= multiset(b) && Distinct(b)
    ensures Distinct(a) && IDs(a) <= IDs(b)
    decreases |a|
  {
    if a != [] {
      hide Distinct, IDs;
      var k := InBag(a, b);
      var rest := b[..k] + b[k + 1..];
      PartRest(a, b, k);
      SpliceDistinct(b, k);
      PartDistinct(a[1..], rest);
      ConsDistinct(a);
      IDAt(b, k);
    }
  }

  lemma IDAt(q: seq<Item>, k: nat)
    requires k < |q|
    ensures q[k].id in IDs(q)
  {
  }

  /** An item taken from a pool within its limits is accepted back as long as nothing else came in. */
  lemma RestoreAccepted(limits: Limits, p: Pool, before: Pool, x: Item)
    requires Within(limits, before) && p.streamed == before.streamed
    requires multiset([x] + p.queue) <= multiset(before.queue)
    ensures Accepts(limits, p, x)
  {
    var a := [x] + p.queue;
    PartOwns(a, before.queue, x.sponsor);
    PartDistinct(a, before.queue);
    OwnedConcat([x], p.queue, x.sponsor);
    assert a[0].id in IDs(a);
    forall i | 0 <= i < |p.queue|
      ensures p.queue[i].id != x.id
    {
      assert a[i + 1] == p.queue[i];
    }
  }

  /** The items and the queue together come from `b`. */
  ghost predicate Parts(items: seq<Item>, queue: seq<Item>, b: seq<Item>) {
    multiset(items) + multiset(queue) <= multiset(b)
  }

  lemma {:induction false} RestoreAll(limits: Limits, p: Pool, before: Pool, items: seq<Item>)
    requires Within(limits, before) && p.streamed == before.streamed && Parts(items, p.queue, before.queue)
    ensures AddedAll(limits, p, items, true) == p.(queue := Reversed(items) + p.queue)
  {
    if items == [] {
      assert [] + p.queue == p.queue;
    } else {
      hide Within, Accepts, Parts, Added, Distinct, IDs, Owned;
      var (init, x) := (items[..|items| - 1], items[|items| - 1]);
      assert items == init + [x];
      PartsInit(init, x, p.queue, before.queue);
      RestoreAll(limits, p, before, init);
      var q := p.(queue := Reversed(init) + p.queue);
      RestoreAccepted(limits, q, before, x);
      AddedShape(limits, q, x, true);
      ReversedAppend(init, x, p.queue);
    }
  }

  lemma ReversedAppend(init: seq<Item>, x: Item, q: seq<Item>)
    ensures Reversed(init + [x]) + q == [x] + (Reversed(init) + q)
  {
    assert Reversed(init + [x]) == [x] + Reversed(init);
    assert ([x] + Reversed(init)) + q == [x] + (Reversed(init) + q);
  }

  lemma PartsInit(init: seq<Item>, x: Item, q: seq<Item>, b: seq<Item>)
    requires Parts(init + [x], q, b)
    ensures Parts(init, q, b) && multiset([x] + (Reversed(init) + q)) <= multiset(b)
  {
    ReversedSame(init);
    assert multiset([x] + (Reversed(init) + q)) == multiset(init + [x]) + multiset(q);
  }

  lemma {:induction false} ReversedSame(q: seq<Item>)
    ensures multiset(Reversed(q)) == multiset(q)
  {
    if q != [] {
      ReversedSame(q[..|q| - 1]);
      assert q == q[..|q| - 1] + [q[|q| - 1]];
      assert Reversed(q) == [q[|q| - 1]] + Reversed(q[..|q| - 1]);
    }
  }

  /** What the callback says of the item at the end of what was popped so far. */
  datatype Verdict = Verdict(cont: bool, restore: bool)

  type Callback = seq<Item> -> Verdict

  /** How many items are popped in all, once `n` of them went on. */
  function Popped(q: seq<Item>, f: Callback, n: nat): (r: nat)
    requires n <= |q|
    ensures n <= r <= |q|
    ensures forall i | n < i < r :: f(q[..i]).cont
    ensures r < |q| ==> n < r && !f(q[..r]).cont
    decreases |q| - n
  {
    if n == |q| then n else if !f(q[..n + 1]).cont then n + 1 else Popped(q, f, n + 1)
  }

  /** The items among the first `n` that are, or are not, to be restored. */
  function Chosen(q: seq<Item>, f: Callback, n: nat, restore: bool): seq<Item>
    requires n <= |q|
  {
    if n == 0 then []
    else Chosen(q, f, n - 1, restore) + if f(q[..n]).restore == restore then [q[n - 1]] else []
  }

  /** They are picked by what the callback says of each, in order. */
  lemma {:induction false} ChosenPicks(q: seq<Item>, f: Callback, n: nat, restore: bool, marks: seq<bool>)
    requires n == |marks| <= |q| && forall i | 0 <= i < n :: marks[i] <==> f(q[..i + 1]).restore == restore
    ensures Chosen(q, f, n, restore) == Picked(q[..n], marks)
    decreases n
  {
    if n > 0 {
      assert forall i | 0 <= i < n - 1 :: marks[..n - 1][i] == marks[i];
      ChosenPicks(q, f, n - 1, restore, marks[..n - 1]);
      PickedMore(q[..n - 1], marks[..n - 1], q[n - 1], marks[n - 1]);
      assert q[..n] == q[..n - 1] + [q[n - 1]] && marks == marks[..n - 1] + [marks[n - 1]];
    }
  }

  function Top(limits: Limits, p: Pool, f: Callback): Pool {
    var n := Popped(p.queue, f, 0);
    AddedAll(limits, p.(queue := p.queue[n..]), Chosen(p.queue, f, n, true), true)
  }

  lemma ChosenNext(q: seq<Item>, f: Callback, n: nat, restore: bool)
    requires 0 < n <= |q|
    ensures multiset(Chosen(q, f, n, restore))
            == multiset(Chosen(q, f, n - 1, restore))
               + if f(q[..n]).restore == restore then multiset{q[n - 1]} else multiset{}
  {
  }

  lemma PrefixBag(q: seq<Item>, n: nat)
    requires 0 < n <= |q|
    ensures multiset(q[..n]) == multiset(q[..n - 1]) + multiset{q[n - 1]}
  {
    assert q[..n] == q[..n - 1] + [q[n - 1]];
  }

  lemma SplitBag(a: multiset<Item>, b: multiset<Item>, x: Item, first: bool)
    ensures (a + if first == true then multiset{x} else multiset{})
            + (b + if first == false then multiset{x} else multiset{})
            == a + b + multiset{x}
  {
  }

  lemma {:induction false} ChosenSplits(q: seq<Item>, f: Callback, n: nat)
    requires n <= |q|
    ensures multiset(Chosen(q, f, n, true)) + multiset(Chosen(q, f, n, false)) == multiset(q[..n])
  {
    if n == 0 {
      assert q[..0] == [];
    } else {
      ChosenSplits(q, f, n - 1);
      PrefixBag(q, n);
      ChosenNext(q, f, n, true);
      ChosenNext(q, f, n, false);
      hide Chosen;
      SplitBag(multiset(Chosen(q, f, n - 1, true)), multiset(Chosen(q, f, n - 1, false)), q[n - 1], f(q[..n]).restore);
    }
  }

  /**
   * Iterating ends with exactly the items it began with but for those dropped on purpose: no restored
   * item is lost to a limit.
   */
  lemma TopConserves(limits: Limits, p: Pool, f: Callback)
    requires Within(limits, p)
    ensures
      var n := Popped(p.queue, f, 0);
      && Top(limits, p, f) == p.(queue := Reversed(Chosen(p.queue, f, n, true)) + p.queue[n..])
      && multiset(Top(limits, p, f).queue) + multiset(Chosen(p.queue, f, n, false)) == multiset(p.queue)
  {
    var q := p.queue;
    var n := Popped(q, f, 0);
    ChosenSplits(q, f, n);
    assert q == q[..n] + q[n..];
    assert Parts(Chosen(q, f, n, true), q[n..], q);
    RestoreAll(limits, p.(queue := q[n..]), p, Chosen(q, f, n, true));
    ReversedSame(Chosen(q, f, n, true));
  }

  function Min(a: nat, b: nat): nat {
    if a < b then a else b
  }

  /** The pool once its first `n` items are streamed out. */
  function Streamed(p: Pool, n: nat): Pool
    requires n <= |p.queue|
  {
    if n == 0 then p
    else
      var already := if p.streamed.Some? then p.streamed.value else {};
      p.(queue := p.queue[n..], streamed := Some(already + IDs(p.queue[..n])))
  }

  function StartStreaming(p: Pool): Pool {
    p.(streamed := Some({}))
  }

  function PrepareStream(p: Pool, count: nat): Pool {
    var n := Min(count, |p.queue|);
    Streamed(p, n).(next := p.queue[..n], fetched := true)
  }

  function Stream(p: Pool, count: nat): (Pool, seq<Item>) {
    if p.fetched then (p.(next := [], fetched := false), p.next)
    else
      var n := Min(count, |p.queue|);
      (Streamed(p, n), p.queue[..n])
  }

  function FinishStreaming(limits: Limits, p: Pool, restorable: seq<Item>): Pool {
    var r := AddedAll(limits, p.(streamed := Nothing), restorable, true);
    if r.fetched then AddedAll(limits, r, r.next, true).(next := [], fetched := false) else r
  }

  /** A pool being streamed, with what was handed out and what was overwritten in the prefetch. */
  datatype Session = Session(pool: Pool, handed: seq<Item>, lost: seq<Item>)

  datatype Action = Prepare(count: nat) | Next(count: nat) | Insert(items: seq<Item>) | Take(at: nat)

  function Apply(limits: Limits, s: Session, a: Action): Session {
    match a
    case Prepare(count) => s.(pool := PrepareStream(s.pool, count), lost := s.lost + s.pool.next)
    case Next(count) =>
      var (p, items) := Stream(s.pool, count);
      s.(pool := p, handed := s.handed + items)
    case Insert(items) => s.(pool := AddedAll(limits, s.pool, items, false))
    case Take(at) =>
      if at < |s.pool.queue| then s.(pool := s.pool.(queue := s.pool.queue[..at] + s.pool.queue[at + 1..])) else s
  }

  /** Prefetching over a prefetch that nobody consumed. */
  predicate Overwrites(s: Session, a: Action) {
    a.Prepare? && s.pool.next != []
  }

  /** What was streamed out is handed out, prefetched or lost, exactly one of them, and not in the pool. */
  ghost predicate Accounted(limits: Limits, s: Session) {
    && Within(limits, s.pool) && s.pool.streamed.Some? && (!s.pool.fetched ==> s.pool.next == [])
    && Distinct(s.handed + s.pool.next + s.lost)
    && s.pool.streamed.value == IDs(s.handed + s.pool.next + s.lost)
  }

  lemma IDsOne(x: Item)
    ensures IDs([x]) == {x.id}
  {
    assert [x][0].id in IDs([x]);
  }

  lemma IDsConcat(a: seq<Item>, b: seq<Item>)
    ensures IDs(a + b) == IDs(a) + IDs(b)
  {
    assert forall i | 0 <= i < |a| :: (a + b)[i] == a[i];
    assert forall i | 0 <= i < |b| :: (a + b)[|a| + i] == b[i];
    assert forall i | 0 <= i < |a + b| :: (a + b)[i].id in (if i < |a| then IDs(a) else IDs(b));
  }

  lemma DistinctConcat(a: seq<Item>, b: seq<Item>)
    ensures Distinct(a + b) <==> Distinct(a) && Distinct(b) && IDs(a) !! IDs(b)
  {
    assert forall i | 0 <= i < |a| :: (a + b)[i] == a[i];
    assert forall i | 0 <= i < |b| :: (a + b)[|a| + i] == b[i];
    if Distinct(a + b) {
      forall i, j | 0 <= i < |a| && 0 <= j < |b|
        ensures a[i].id != b[j].id
      {
        assert (a + b)[i].id != (a + b)[|a| + j].id;
      }
      forall i, j | 0 <= i < j < |b|
        ensures b[i].id != b[j].id
      {
        assert (a + b)[|a| + i].id != (a + b)[|a| + j].id;
      }
    }
    if Distinct(a) && Distinct(b) && IDs(a) !! IDs(b) {
      assert forall i | 0 <= i < |a| :: a[i].id in IDs(a);
      assert forall i | 0 <= i < |b| :: b[i].id in IDs(b);
      forall i, j | 0 <= i < j < |a + b|
        ensures (a + b)[i].id != (a + b)[j].id
      {
        if i >= |a| {
          assert (a + b)[i] == b[i - |a|] && (a + b)[j] == b[j - |a|];
        }
      }
    }
  }

  /** Streaming items out of a pool takes fresh IDs from it. */
  lemma StreamedOut(limits: Limits, p: Pool, n: nat, out: seq<Item>)
    requires Within(limits, p) && n <= |p.queue| && p.streamed == Some(IDs(out)) && Distinct(out)
    ensures Within(limits, Streamed(p, n)) && Streamed(p, n).streamed == Some(IDs(out + p.queue[..n]))
    ensures Distinct(out + p.queue[..n])
  {
    var (a, b) := (p.queue[..n], p.queue[n..]);
    assert p.queue == a + b;
    DistinctConcat(a, b);
    IDsConcat(a, b);
    DistinctConcat(out, a);
    IDsConcat(out, a);
    if n == 0 {
      assert out + a == out;
    }
    forall s
      ensures Owned(b, s) <= Owned(p.queue, s)
    {
      OwnedConcat(a, b, s);
    }
  }

  lemma SameIDs(a: seq<Item>, b: seq<Item>)
    requires multiset(a) == multiset(b) && Distinct(a)
    ensures IDs(a) == IDs(b) && Distinct(b)
  {
    PartDistinct(b, a);
    PartDistinct(a, b);
  }

  lemma MovedBag(a: seq<Item>, b: seq<Item>, c: seq<Item>, x: seq<Item>)
    ensures multiset(a + b + c + x) == multiset(a + x + b + c) == multiset(a + x + (c + b))
  {
  }

  lemma PrepareAccounted(limits: Limits, s: Session, count: nat)
    requires Accounted(limits, s)
    ensures Accounted(limits, Apply(limits, s, Prepare(count)))
  {
    var n := Min(count, |s.pool.queue|);
    var out := s.handed + s.pool.next + s.lost;
    var items := s.pool.queue[..n];
    StreamedOut(limits, s.pool, n, out);
    MovedBag(s.handed, s.pool.next, s.lost, items);
    SameIDs(out + items, s.handed + items + (s.lost + s.pool.next));
  }

  lemma SameWithin(limits: Limits, p: Pool, q: Pool)
    requires Within(limits, p) && q.queue == p.queue && q.streamed == p.streamed
    ensures Within(limits, q)
  {
  }

  lemma HandOutAccounted(limits: Limits, s: Session)
    requires Accounted(limits, s)
    ensures Accounted(limits, s.(pool := s.pool.(next := [], fetched := false), handed := s.handed + s.pool.next))
  {
    hide Within, Distinct, IDs;
    SameWithin(limits, s.pool, s.pool.(next := [], fetched := false));
    assert (s.handed + s.pool.next) + [] + s.lost == s.handed + s.pool.next + s.lost;
  }

  lemma StreamOutAccounted(limits: Limits, s: Session, n: nat)
    requires Accounted(limits, s) && n <= |s.pool.queue|
    ensures Accounted(limits, s.(pool := Streamed(s.pool, n), handed := s.handed + s.pool.queue[..n]))
  {
    hide Within, Distinct, IDs;
    var (out, items) := (s.handed + s.pool.next + s.lost, s.pool.queue[..n]);
    StreamedOut(limits, s.pool, n, out);
    MovedBag(s.handed, s.pool.next, s.lost, items);
    SameIDs(out + items, s.handed + items + s.pool.next + s.lost);
  }

  lemma NextAccounted(limits: Limits, s: Session, count: nat)
    requires Accounted(limits, s)
    ensures Accounted(limits, Apply(limits, s, Next(count)))
  {
    hide Accounted, Streamed;
    if s.pool.fetched {
      HandOutAccounted(limits, s);
    } else {
      StreamOutAccounted(limits, s, Min(count, |s.pool.queue|));
    }
  }

  lemma {:induction false} InsertKeepsStream(limits: Limits, p: Pool, items: seq<Item>, front: bool)
    ensures var r := AddedAll(limits, p, items, front);
            r.streamed == p.streamed && r.next == p.next && r.fetched == p.fetched
  {
    if items != [] {
      InsertKeepsStream(limits, p, items[..|items| - 1], front);
    }
  }

  lemma StepAccounted(limits: Limits, s: Session, a: Action)
    requires Accounted(limits, s)
    ensures Accounted(limits, Apply(limits, s, a))
    ensures Apply(limits, s, a).lost == if Overwrites(s, a) then s.lost + s.pool.next else s.lost
  {
    match a
    case Prepare(count) =>
      PrepareAccounted(limits, s, count);
    case Next(count) =>
      NextAccounted(limits, s, count);
    case Insert(items) =>
      AddedAllWithin(limits, s.pool, items, false);
      InsertKeepsStream(limits, s.pool, items, false);
    case Take(at) =>
      if at < |s.pool.queue| {
        TakenWithin(limits, s.pool, at);
      }
  }

  function After(limits: Limits, s: Session, actions: seq<Action>): Session
    decreases |actions|
  {
    if actions == [] then s else After(limits, Apply(limits, s, actions[0]), actions[1..])
  }

  /** Some step of the run overwrites an unconsumed prefetch. */
  predicate Careless(limits: Limits, s: Session, actions: seq<Action>)
    decreases |actions|
  {
    actions != [] && (Overwrites(s, actions[0]) || Careless(limits, Apply(limits, s, actions[0]), actions[1..]))
  }

  /**
   * In every run of a streaming session each streamed item is in exactly one of handed out,
   * prefetched or lost, and none is lost exactly when every prefetch is consumed before the next.
   */
  lemma {:induction false} StreamingConserves(limits: Limits, s: Session, actions: seq<Action>)
    requires Accounted(limits, s)
    ensures Accounted(limits, After(limits, s, actions))
    ensures After(limits, s, actions).lost == [] <==> s.lost == [] && !Careless(limits, s, actions)
    decreases |actions|
  {
    if actions != [] {
      StepAccounted(limits, s, actions[0]);
      StreamingConserves(limits, Apply(limits, s, actions[0]), actions[1..]);
    }
  }

  // ---------------------------------------------------------------------------------------------
  // The order of streaming
  // ---------------------------------------------------------------------------------------------

  /** Everything that was handed out, then the prefetch, then the queue. */
  ghost function Line(s: Session): (q: seq<Item>) {
    s.handed + s.pool.next + s.pool.queue
  }

  /** The number of items that a request gets: what was prefetched, else as many as asked for, if there are. */
  lemma NextHandsOut(limits: Limits, s: Session, count: nat)
    requires !s.pool.fetched ==> s.pool.next == []
    ensures var r := Apply(limits, s, Next(count));
            && s.handed <= r.handed && Line(r) == Line(s) && r.pool.next == [] && !r.pool.fetched
            && |r.handed| == |s.handed| + if s.pool.fetched then |s.pool.next|
                                          else if count < |s.pool.queue| then count else |s.pool.queue|
  {
    var q := s.pool.queue;
    if s.pool.fetched {
      assert (s.handed + s.pool.next) + [] + q == s.handed + s.pool.next + q;
    } else {
      var n := Min(count, |q|);
      assert q == q[..n] + q[n..];
      assert (s.handed + q[..n]) + [] + q[n..] == s.handed + [] + q;
    }
  }

  lemma PrepareTakes(limits: Limits, s: Session, count: nat)
    requires s.pool.next == []
    ensures var r := Apply(limits, s, Prepare(count));
            && r.handed == s.handed && Line(r) == Line(s) && r.pool.fetched
            && |r.pool.next| == if count < |s.pool.queue| then count else |s.pool.queue|
  {
    var n := Min(count, |s.pool.queue|);
    assert s.pool.queue == s.pool.queue[..n] + s.pool.queue[n..];
  }

  lemma InsertQueues(limits: Limits, s: Session, items: seq<Item>)
    ensures var r := Apply(limits, s, Insert(items));
            && r.handed == s.handed && r.pool.next == s.pool.next && r.pool.fetched == s.pool.fetched
            && Line(s) <= Line(r)
  {
    var marks := AddedInOrder(limits, s.pool, items, false);
    assert Line(Apply(limits, s, Insert(items))) == Line(s) + Picked(items, marks);
  }

  /** Nobody removes an item, and no prefetch is overwritten. */
  predicate Orderly(limits: Limits, s: Session, actions: seq<Action>) {
    (forall i | 0 <= i < |actions| :: !actions[i].Take?) && !Careless(limits, s, actions)
  }

  /**
   * First in, first out: over every session in which nothing is removed or overwritten, what was handed
   * out, what is prefetched and what is queued are, in this order, the queue there was at the start and
   * behind it what came in since.
   */
  lemma {:induction false} StreamsInOrder(limits: Limits, s: Session, actions: seq<Action>)
    requires (!s.pool.fetched ==> s.pool.next == []) && Orderly(limits, s, actions)
    ensures Line(s) <= Line(After(limits, s, actions))
    ensures (forall i | 0 <= i < |actions| :: !actions[i].Insert?) ==> Line(After(limits, s, actions)) == Line(s)
    ensures s.handed <= After(limits, s, actions).handed
    decreases |actions|
  {
    if actions != [] {
      var (a, rest) := (actions[0], actions[1..]);
      assert !a.Take? && !Overwrites(s, a);
      match a {
        case Prepare(count) => PrepareTakes(limits, s, count);
        case Next(count) => NextHandsOut(limits, s, count);
        case Insert(items) => InsertQueues(limits, s, items);
      }
      hide Line, Apply, AddedAll;
      assert forall i | 0 <= i < |rest| :: rest[i] == actions[i + 1];
      StreamsInOrder(limits, Apply(limits, s, a), rest);
    }
  }

  lemma SessionStarts(limits: Limits, p: Pool)
    requires Within(limits, p) && !p.fetched && p.next == []
    ensures Accounted(limits, Session(StartStreaming(p), [], []))
  {
  }
}

module Mempools {
  import opened Bytes
  import opened Heaps
  import opened ExpiryHeaps
  import opened LinkedList
  import opened Pools
  import opened PoolConservation

  /** The items in the ring, first to last. */
  function Values(elems: seq<Element<Item>>): (q: seq<Item>) {
    seq(|elems|, i requires 0 <= i < |elems| => elems[i].value)
  }

  /** The expiry heap holds exactly the ring's elements, each under the ID of its value. */
  ghost predicate Holds(m: Held, elems: seq<Element<Item>>) {
    && (forall e | e in elems :: e.value.id in m && m[e.value.id] == e)
    && (forall id | id in m :: m[id] in elems && m[id].value.id == id)
  }

  /** The ring without one of its elements. */
  ghost predicate Lacks(before: seq<Element<Item>>, after: seq<Element<Item>>, e: Element<Item>) {
    && (forall x | x in after :: x in before && x != e)
    && (forall x | x in before && x != e :: x in after)
  }

  /** The sponsor counts are those of the queue, and no sponsor is kept with none. */
  ghost predicate Counts(owned: map<nat, nat>, q: seq<Item>) {
    && (forall s :: Owned(q, s) == if s in owned then owned[s] else 0)
    && (forall s | s in owned :: owned[s] > 0)
  }

  function Plus(owned: map<nat, nat>, s: nat): map<nat, nat> {
    owned[s := (if s in owned then owned[s] else 0) + 1]
  }

  function Minus(owned: map<nat, nat>, s: nat): map<nat, nat>
    requires s in owned ==> owned[s] > 0
  {
    if s !in owned then owned
    else if owned[s] == 1 then owned - {s}
    else owned[s := owned[s] - 1]
  }

  lemma HoldsIff(m: Held, elems: seq<Element<Item>>, id: ID)
    requires Holds(m, elems)
    ensures id in m <==> id in IDs(Values(elems))
  {
    if id in m {
      var i :| 0 <= i < |elems| && elems[i] == m[id];
      IDAt(Values(elems), i);
    }
    if id in IDs(Values(elems)) {
      var i :| 0 <= i < |elems| && Values(elems)[i].id == id;
      assert elems[i] in elems;
    }
  }

  lemma HoldsMore(m: Held, elems: seq<Element<Item>>, e: Element<Item>, front: bool)
    requires Holds(m, elems) && e.value.id !in m
    ensures Holds(m[e.value.id := e], if front then [e] + elems else elems + [e])
  {
    var more := if front then [e] + elems else elems + [e];
    assert forall x | x in more :: x == e || x in elems;
    assert more[if front then 0 else |elems|] == e;
    assert forall x | x in elems :: x in more;
  }

  lemma ValuesMore(elems: seq<Element<Item>>, e: Element<Item>)
    ensures Values([e] + elems) == [e.value] + Values(elems) && Values(elems + [e]) == Values(elems) + [e.value]
  {
  }

  lemma HoldsLess(m: Held, before: seq<Element<Item>>, after: seq<Element<Item>>, e: Element<Item>)
    requires Holds(m, before) && e in before && Lacks(before, after, e)
    ensures Holds(m - {e.value.id}, after)
  {
  }

  lemma SpliceValues(elems: seq<Element<Item>>, k: nat)
    requires k < |elems| && forall i, j | 0 <= i < j < |elems| :: elems[i] != elems[j]
    ensures var q := Values(elems);
            Values(elems[..k] + elems[k + 1..]) == q[..k] + q[k + 1..]
    ensures Lacks(elems, elems[..k] + elems[k + 1..], elems[k])
  {
    var rest := elems[..k] + elems[k + 1..];
    assert forall i | 0 <= i < |rest| :: rest[i] == elems[if i < k then i else i + 1];
    forall x | x in elems && x != elems[k] ensures x in rest {
      var i :| 0 <= i < |elems| && elems[i] == x;
      assert rest[if i < k then i else i - 1] == x;
    }
  }

  lemma AddCounts(owned: map<nat, nat>, q: seq<Item>, x: Item, front: bool)
    requires Counts(owned, q)
    ensures var r := if front then [x] + q else q + [x];
            Counts(Plus(owned, x.sponsor), r) && Size(r) == Size(q) + x.size
  {
    var (a, b) := if front then ([x], q) else (q, [x]);
    SizeConcat(a, b);
    forall s
      ensures Owned(a + b, s) == if s in Plus(owned, x.sponsor) then Plus(owned, x.sponsor)[s] else 0
    {
      OwnedConcat(a, b, s);
    }
  }

  lemma TakeCounts(owned: map<nat, nat>, q: seq<Item>, k: nat)
    requires Counts(owned, q) && k < |q|
    ensures var r := q[..k] + q[k + 1..]; Counts(Minus(owned, q[k].sponsor), r) && Size(r) == Size(q) - q[k].size
  {
    var r := q[..k] + q[k + 1..];
    forall s
      ensures Owned(r, s) == if s in Minus(owned, q[k].sponsor) then Minus(owned, q[k].sponsor)[s] else 0
    {
      OwnedSplice(q, k, s);
    }
    OwnedSplice(q, k, 0);
  }

  /** The queue without any of the given items' IDs. */
  function WithoutAll(q: seq<Item>, items: seq<Item>): (r: seq<Item>) {
    if items == [] then q else Without(WithoutAll(q, items[..|items| - 1]), items[|items| - 1].id)
  }

  lemma {:induction false} WithoutPicks(q: seq<Item>, id: ID, marks: seq<bool>)
    requires |marks| == |q| && forall i | 0 <= i < |q| :: marks[i] <==> q[i].id != id
    ensures Without(q, id) == Picked(q, marks)
  {
    if q != [] {
      WithoutPicks(q[1..], id, marks[1..]);
    }
  }

  /** Picking twice is picking what both times would pick. */
  lemma {:induction false} PickedTwice(q: seq<Item>, m: seq<bool>, id: ID, both: seq<bool>) returns (n: seq<bool>)
    requires |m| == |q| == |both| && forall i | 0 <= i < |q| :: both[i] <==> m[i] && q[i].id != id
    ensures var p := Picked(q, m);
            && |n| == |p| && (forall i | 0 <= i < |p| :: n[i] <==> p[i].id != id)
            && Picked(p, n) == Picked(q, both)
  {
    if q == [] {
      n := [];
    } else {
      var rest := PickedTwice(q[1..], m[1..], id, both[1..]);
      n := (if m[0] then [q[0].id != id] else []) + rest;
      if m[0] {
        assert Picked(q, m)[1..] == Picked(q[1..], m[1..]) && n[1..] == rest;
      } else {
        assert Picked(q, m) == Picked(q[1..], m[1..]) && n == rest;
      }
    }
  }

  /** What is left are the items whose ID is none of the given ones', in order. */
  lemma {:induction false} WithoutAllPicks(q: seq<Item>, items: seq<Item>, marks: seq<bool>)
    requires |marks| == |q| && forall i | 0 <= i < |q| :: marks[i] <==> forall x | x in items :: x.id != q[i].id
    ensures WithoutAll(q, items) == Picked(q, marks)
    decreases |items|
  {
    if items == [] {
      AllPicked(q, marks);
    } else {
      var (most, x) := (items[..|items| - 1], items[|items| - 1]);
      assert items == most + [x];
      var m := seq(|q|, i requires 0 <= i < |q| => forall y | y in most :: y.id != q[i].id);
      WithoutAllPicks(q, most, m);
      var n := PickedTwice(q, m, x.id, marks);
      WithoutPicks(Picked(q, m), x.id, n);
    }
  }

  lemma {:induction false} AllPicked(q: seq<Item>, marks: seq<bool>)
    requires |marks| == |q| && forall i | 0 <= i < |q| :: marks[i]
    ensures Picked(q, marks) == q
  {
    if q != [] {
      AllPicked(q[1..], marks[1..]);
    }
  }

  lemma {:induction false} WithoutKeeps(q: seq<Item>, id: ID)
    ensures forall x :: x in Without(q, id) <==> x in q && x.id != id
  {
    if q != [] {
      WithoutKeeps(q[1..], id);
      assert forall x :: x in q <==> x == q[0] || x in q[1..];
    }
  }

  /** What is left is what the queue held under other IDs. */
  lemma {:induction false} WithoutAllKeeps(q: seq<Item>, items: seq<Item>)
    ensures forall x :: x in WithoutAll(q, items) <==> x in q && x.id !in IDs(items)
  {
    if items != [] {
      var (init, last) := (items[..|items| - 1], items[|items| - 1]);
      WithoutAllKeeps(q, init);
      WithoutKeeps(WithoutAll(q, init), last.id);
      assert items == init + [last];
      IDsConcat(init, [last]);
      IDsOne(last);
    }
  }

  /** An item that the pool knows under its ID is the pool's own: IDs are hashes of contents. */
  predicate Agrees(q: seq<Item>, x: Item) {
    forall i | 0 <= i < |q| && q[i].id == x.id :: q[i] == x
  }

  lemma AgreesKept(q: seq<Item>, items: seq<Item>, x: Item)
    requires Agrees(q, x)
    ensures Agrees(WithoutAll(q, items), x)
  {
    WithoutAllKeeps(q, items);
    var r := WithoutAll(q, items);
    forall i | 0 <= i < |r| && r[i].id == x.id
      ensures r[i] == x
    {
      assert r[i] in q;
    }
  }

  /** `n` items have been popped, the callback has gone on so far, and `restorable` is what it wants back. */
  ghost predicate Popping(q: seq<Item>, f: Callback, n: nat, restorable: seq<Item>) {
    n <= |q| && restorable == Chosen(q, f, n, true) && Popped(q, f, 0) == Popped(q, f, n)
  }

  lemma PoppingNone(q: seq<Item>, f: Callback)
    ensures Popping(q, f, 0, [])
  {
  }

  lemma PoppingStep(q: seq<Item>, f: Callback, n: nat, restorable: seq<Item>)
    requires Popping(q, f, n, restorable) && n < |q|
    ensures var verdict := f(q[..n + 1]);
            var r := if verdict.restore then restorable + [q[n]] else restorable;
            if verdict.cont then Popping(q, f, n + 1, r)
            else Popped(q, f, 0) == n + 1 && r == Chosen(q, f, n + 1, true)
  {
  }

  lemma PoppingDone(q: seq<Item>, f: Callback, restorable: seq<Item>)
    requires Popping(q, f, |q|, restorable)
    ensures Popped(q, f, 0) == |q| && restorable == Chosen(q, f, |q|, true)
  {
  }

  /** Streaming one more item out of a pool. */
  lemma StreamedNext(p: Pool, n: nat)
    requires n < |p.queue|
    ensures var q := Streamed(p, n);
            var already := if q.streamed.Some? then q.streamed.value else {};
            Streamed(p, n + 1) == q.(queue := q.queue[1..], streamed := Some(already + {q.queue[0].id}))
  {
    assert p.queue[..n + 1] == p.queue[..n] + [p.queue[n]];
    IDsConcat(p.queue[..n], [p.queue[n]]);
    IDsOne(p.queue[n]);
    assert p.queue[..0] == [] && IDs(p.queue[..0]) == {};
    assert p.queue[n..][1..] == p.queue[n + 1..] && p.queue[n..][0] == p.queue[n];
    if n == 0 {
      assert p.queue[0..] == p.queue;
      var already := if p.streamed.Some? then p.streamed.value else {};
      assert already + IDs(p.queue[..1]) == already + {p.queue[0].id};
    } else {
      var already := if p.streamed.Some? then p.streamed.value else {};
      assert already + IDs(p.queue[..n + 1]) == already + IDs(p.queue[..n]) + {p.queue[n].id};
    }
  }

  lemma StreamedZero(p: Pool)
    ensures Streamed(p, 0) == p
  {
  }

  lemma StreamedNextIf(p: Pool, n: nat)
    requires n <= |p.queue|
    ensures n < |p.queue| ==> Streamed(p, n).queue != [] && Streamed(p, n).queue[0] == p.queue[n]
    ensures n < |p.queue| ==> Streamed(Streamed(p, n), 1) == Streamed(p, n + 1)
    ensures n == |p.queue| ==> Streamed(p, n).queue == []
  {
    if n < |p.queue| {
      StreamedNext(p, n);
      StreamedNext(Streamed(p, n), 0);
    }
  }

  /** Marking an item that just left the queue keeps the pool within its limits. */
  lemma MarkWithin(limits: Limits, p: Pool, x: Item)
    requires Within(limits, p) && Distinct([x] + p.queue)
    ensures Within(limits, p.(streamed := Some((if p.streamed.Some? then p.streamed.value else {}) + {x.id})))
  {
    DistinctConcat([x], p.queue);
    assert x.id in IDs([x]) by { assert [x][0] == x; }
  }

  class Mempool {
    const limits: Limits
    const queue: List<Item>
    const eh: ExpiryHeap
    var pendingSize: int
    var owned: map<nat, nat>
    var streamedItems: Maybe<set<ID>>
    var nextStream: seq<Item>
    var nextStreamFetched: bool

    ghost function Queue(): seq<Item>
      reads queue
    {
      Values(queue.elems)
    }

    ghost function Value(): Pool
      reads this, queue
    {
      Pool(Queue(), streamedItems, nextStream, nextStreamFetched)
    }

    /** The counts are those of the queue, which is within its limits. */
    ghost predicate Tallied()
      reads this, queue
    {
      Counts(owned, Queue()) && pendingSize == Size(Queue()) && Within(limits, Value())
    }

    ghost predicate Valid()
      reads this, queue, queue.root, queue.elems, eh.minHeap, eh.minHeap.items
    {
      eh.Valid() && queue.Valid() && Holds(eh.Contents(), queue.elems) && Tallied()
    }

    /** Nothing was taken over from elsewhere on the heap. */
    twostate predicate Grown()
      reads queue, eh.minHeap
    {
      && (forall i | 0 <= i < |eh.minHeap.items| ::
            eh.minHeap.items[i] in old(eh.minHeap.items) || fresh(eh.minHeap.items[i]))
      && (forall i | 0 <= i < |queue.elems| ::
            queue.elems[i] in old(queue.elems) || fresh(queue.elems[i]))
    }

    constructor (limits: Limits)
      ensures Valid() && this.limits == limits && Value() == Pool([], Nothing, [], false)
      ensures fresh(eh.minHeap) && eh.minHeap.items == [] && fresh(queue) && fresh(queue.root) && queue.elems == []
    {
      this.limits := limits;
      queue := new List();
      eh := new ExpiryHeap();
      pendingSize, owned := 0, map[];
      streamedItems, nextStream, nextStreamFetched := Nothing, [], false;
    }

    method AddOne(item: Item, front: bool)
      requires Valid()
      modifies this, queue, queue.root, queue.elems, eh.minHeap, eh.minHeap.items
      ensures Valid() && Grown() && Value() == Added(limits, old(Value()), item, front)
    {
      hide Within, Counts, Holds, Accepts;
      var ok := HasRoom(item);
      if !ok {
        return;
      }
      Insert(item, front);
    }

    /** Whether an item is new, and its sponsor and the pool have room for it. */
    method HasRoom(item: Item) returns (ok: bool)
      requires Valid()
      ensures ok <==> Accepts(limits, Value(), item)
    {
      hide Within, Counts, Holds;
      HoldsIff(eh.Contents(), queue.elems, item.id);
      OwnedIff(owned, Queue(), item.sponsor);
      if streamedItems.Some? && item.id in streamedItems.value {
        return false;
      }
      if item.id in eh.minHeap.lookup {
        return false;
      }
      if (if item.sponsor in owned then owned[item.sponsor] else 0) == limits.maxSponsorSize {
        return false;
      }
      if queue.size == limits.maxSize {
        return false;
      }
      return true;
    }

    /** Puts an item into the ring, and its element into the heap. */
    method Link(item: Item, front: bool)
      requires eh.Valid() && queue.Valid() && Holds(eh.Contents(), queue.elems) && item.id !in eh.Contents()
      modifies queue, queue.root, queue.elems, eh.minHeap, eh.minHeap.items
      ensures eh.Valid() && queue.Valid() && Holds(eh.Contents(), queue.elems) && Grown()
      ensures Queue() == if front then [item] + old(Queue()) else old(Queue()) + [item]
    {
      hide Holds, ExpiryHeap.Valid, List.Valid;
      var elem: Element<Item>;
      if front {
        elem := queue.PushFront(item);
      } else {
        elem := queue.PushBack(item);
      }
      HoldsMore(eh.Contents(), old(queue.elems), elem, front);
      ValuesMore(old(queue.elems), elem);
      eh.Add(elem);
    }

    method Insert(item: Item, front: bool)
      requires Valid() && Accepts(limits, Value(), item)
      modifies this, queue, queue.root, queue.elems, eh.minHeap, eh.minHeap.items
      ensures Valid() && Grown() && Value() == Added(limits, old(Value()), item, front)
    {
      hide Within, Counts, Holds, Accepts, Added, Distinct, ExpiryHeap.Valid, List.Valid;
      AddedShape(limits, Value(), item, front);
      HoldsIff(eh.Contents(), queue.elems, item.id);
      AddedWithin(limits, Value(), item, front);
      AddCounts(owned, Queue(), item, front);
      Link(item, front);
      owned := Plus(owned, item.sponsor);
      pendingSize := pendingSize + item.size;
    }

    method AddItems(items: seq<Item>, front: bool)
      requires Valid()
      modifies this, queue, queue.root, queue.elems, eh.minHeap, eh.minHeap.items
      ensures Valid() && Grown() && Value() == AddedAll(limits, old(Value()), items, front)
      ensures QueuedInOrder(limits, old(Value()), items, front, Value())
    {
      AddedQueues(limits, Value(), items, front);
      hide Within, Counts, Holds, Added, QueuedInOrder;
      for i := 0 to |items|
        invariant Valid() && Grown() && Value() == AddedAll(limits, old(Value()), items[..i], front)
      {
        assert items[..i + 1][..i] == items[..i];
        AddOne(items[i], front);
      }
      assert items[..|items|] == items;
    }

    /** Splices an element out of the ring, in its place, and takes its item out of the counts. */
    method Unlink(e: Element<Item>, x: Item)
      requires queue.Valid() && Tallied() && e in queue.elems && x == e.value
      modifies this`owned, this`pendingSize, queue, queue.root, queue.elems
      ensures queue.Valid() && Tallied() && Lacks(old(queue.elems), queue.elems, e)
      ensures forall i | 0 <= i < |queue.elems| :: queue.elems[i] in old(queue.elems)
      ensures Queue() == Without(old(Queue()), x.id)
    {
      hide Within, Counts, Without;
      var v := queue.Remove(e);
      ghost var k :| 0 <= k < |old(queue.elems)| && old(queue.elems)[k] == e
                     && queue.elems == old(queue.elems)[..k] + old(queue.elems)[k + 1..];
      ghost var before := old(Value());
      SpliceValues(old(queue.elems), k);
      TakeCounts(owned, before.queue, k);
      TakenWithin(limits, before, k);
      OwnedIff(owned, before.queue, x.sponsor);
      WithinDistinct(limits, before);
      WithoutSplices(before.queue, k);
      owned := Minus(owned, x.sponsor);
      pendingSize := pendingSize - x.size;
    }

    method PopNext() returns (r: Maybe<Item>)
      requires Valid()
      modifies this, queue, queue.root, queue.elems, eh.minHeap, eh.minHeap.items
      ensures Valid() && Grown() && (r.Nothing? <==> old(Queue()) == [])
      ensures r.Some? ==> r.value == old(Queue())[0]
      ensures Value() == if r.Some? then old(Value()).(queue := old(Queue())[1..]) else old(Value())
    {
      hide Within, Counts, Holds, Without, Values, Lacks, ExpiryHeap.Valid, List.Valid;
      FirstValue(limits, Value(), queue.elems);
      var first := queue.First();
      if first == null {
        return Nothing;
      }
      r := Some(first.value);
      Unlink(first, r.value);
      HoldsLess(eh.Contents(), old(queue.elems), queue.elems, first);
      var removed := eh.Remove(r.value.id);
    }

    /** Takes the given items out; an item that is not in the pool is skipped. */
    method Remove(items: seq<Item>)
      requires Valid() && forall x | x in items :: Agrees(Queue(), x)
      modifies this, queue, queue.root, queue.elems, eh.minHeap, eh.minHeap.items
      ensures Valid() && Grown() && Value() == old(Value()).(queue := WithoutAll(old(Queue()), items))
    {
      hide Within, Counts, Holds;
      for i := 0 to |items|
        invariant Valid() && Grown() && Value() == old(Value()).(queue := WithoutAll(old(Queue()), items[..i]))
      {
        assert items[..i + 1][..i] == items[..i];
        AgreesKept(old(Queue()), items[..i], items[i]);
        RemoveOne(items[i]);
      }
      assert items[..|items|] == items;
    }

    method RemoveOne(x: Item)
      requires Valid() && Agrees(Queue(), x)
      modifies this, queue, queue.root, queue.elems, eh.minHeap, eh.minHeap.items
      ensures Valid() && Grown() && Value() == old(Value()).(queue := Without(old(Queue()), x.id))
    {
      hide Within, Counts, Holds, Distinct, Without, Lacks, Agrees, ExpiryHeap.Valid, List.Valid;
      HoldsIff(eh.Contents(), queue.elems, x.id);
      var removed := eh.Remove(x.id);
      if removed.Nothing? {
        assert eh.Contents() == old(eh.Contents());
        WithoutAbsent(Queue(), x.id);
        return;
      }
      HeldElement(old(eh.Contents()), queue.elems, x);
      Unlink(removed.value, x);
      HoldsLess(old(eh.Contents()), old(queue.elems), queue.elems, removed.value);
    }

    /** Takes out and returns exactly the items that expire before `t`. */
    method SetMinTimestamp(t: int) returns (removed: seq<Item>)
      requires Valid()
      modifies this, queue, queue.root, queue.elems, eh.minHeap, eh.minHeap.items
      ensures Valid() && Grown() && Value() == old(Value()).(queue := WithoutAll(old(Queue()), removed))
      ensures forall x :: x in removed <==> x in old(Queue()) && x.expiry < t
      ensures Distinct(removed)
    {
      hide Within, Counts, Holds, Distinct, Evicted, WithoutAll, Values, ExpiryHeap.Valid, List.Valid;
      var removedElems := eh.SetMin(t);
      ExpiredInRing(old(eh.Contents()), queue.elems, t, removedElems);
      UnlinkAll(removedElems);
      HoldsUnexpired(old(eh.Contents()), old(queue.elems), queue.elems, t, removedElems);
      removed := Values(removedElems);
    }

    method UnlinkAll(removed: seq<Element<Item>>)
      requires queue.Valid() && Tallied() && Distinct(Values(removed)) && forall e | e in removed :: e in queue.elems
      modifies this`owned, this`pendingSize, queue, queue.root, queue.elems
      ensures queue.Valid() && Tallied() && Queue() == WithoutAll(old(Queue()), Values(removed))
      ensures forall x | x in queue.elems :: x in old(queue.elems) && x !in removed
      ensures forall x | x in old(queue.elems) && x !in removed :: x in queue.elems
    {
      hide Within, Counts, Without, List.Valid;
      for i := 0 to |removed|
        invariant queue.Valid() && Tallied() && Queue() == WithoutAll(old(Queue()), Values(removed[..i]))
        invariant forall x | x in queue.elems :: x in old(queue.elems) && x !in removed[..i]
        invariant forall x | x in old(queue.elems) && x !in removed[..i] :: x in queue.elems
        invariant forall j | 0 <= j < |queue.elems| :: queue.elems[j] in old(queue.elems)
      {
        var e := removed[i];
        assert Values(removed[..i + 1])[..i] == Values(removed[..i]) && Values(removed[..i + 1])[i] == e.value;
        NotYet(removed, i);
        Unlink(e, e.value);
        assert removed[..i + 1] == removed[..i] + [e];
      }
      assert removed[..|removed|] == removed;
    }

    method More() returns (more: bool)
      requires Valid()
      ensures more <==> Queue() != []
    {
      hide Within, Counts, Holds;
      HoldsNone(eh.Contents(), queue.elems);
      var left := eh.Len();
      more := left > 0;
    }

    /** Pops one more item of `q`. */
    method PopAfter(ghost q: seq<Item>, popped: seq<Item>) returns (more: seq<Item>)
      requires Valid() && |popped| < |q| && popped == q[..|popped|] && Queue() == q[|popped|..]
      modifies this, queue, queue.root, queue.elems, eh.minHeap, eh.minHeap.items
      ensures Valid() && Grown() && |more| == |popped| + 1 && more == q[..|popped| + 1]
      ensures Value() == old(Value()).(queue := q[|popped| + 1..])
    {
      hide Valid, Values;
      var next := PopNext();
      more := popped + [next.value];
    }

    /** Pops items while the callback goes on; returns those to restore. */
    method PopWhile(f: Callback) returns (restorable: seq<Item>)
      requires Valid()
      modifies this, queue, queue.root, queue.elems, eh.minHeap, eh.minHeap.items
      ensures Valid() && Grown()
      ensures var n := Popped(old(Queue()), f, 0);
              restorable == Chosen(old(Queue()), f, n, true) && Value() == old(Value()).(queue := old(Queue())[n..])
    {
      hide Valid, Values, Popped, Chosen, Popping;
      ghost var q := Queue();
      restorable := [];
      var popped: seq<Item> := [];
      PoppingNone(q, f);
      var more := More();
      while more
        invariant Valid() && Grown() && |popped| <= |q| && popped == q[..|popped|]
        invariant Value() == old(Value()).(queue := q[|popped|..]) && (more <==> |popped| < |q|)
        invariant Popping(q, f, |popped|, restorable)
        decreases |q| - |popped|
      {
        PoppingStep(q, f, |popped|, restorable);
        popped := PopAfter(q, popped);
        var verdict := f(popped);
        if verdict.restore {
          restorable := restorable + [popped[|popped| - 1]];
        }
        if !verdict.cont {
          return;
        }
        more := More();
      }
      PoppingDone(q, f, restorable);
    }

    /** Iterates over the pool from the front, and puts back what the callback wants restored. */
    method Top(f: Callback)
      requires Valid()
      modifies this, queue, queue.root, queue.elems, eh.minHeap, eh.minHeap.items
      ensures Valid() && Grown() && Value() == PoolConservation.Top(limits, old(Value()), f)
    {
      hide Within, Counts, Holds, Popped, Chosen, AddedAll;
      var restorable := PopWhile(f);
      AddItems(restorable, true);
    }

    method StartStreaming()
      requires Valid()
      modifies this
      ensures Valid() && Value() == PoolConservation.StartStreaming(old(Value()))
    {
      streamedItems := Some({});
    }

    /** Pops up to `count` items and marks them as streamed. */
    method StreamItems(count: nat) returns (items: seq<Item>)
      requires Valid()
      modifies this, queue, queue.root, queue.elems, eh.minHeap, eh.minHeap.items
      ensures Valid() && Grown()
      ensures var n := Min(count, |old(Queue())|); items == old(Queue())[..n] && Value() == Streamed(old(Value()), n)
    {
      hide Within, Counts, Holds, Streamed;
      items := [];
      assert Streamed(Value(), 0) == Value() by { StreamedZero(Value()); }
      while |items| < count
        invariant Valid() && Grown() && |items| <= |old(Queue())| && |items| <= count
        invariant items == old(Queue())[..|items|] && Value() == Streamed(old(Value()), |items|)
        decreases count - |items|
      {
        StreamedNextIf(old(Value()), |items|);
        var item := StreamOne();
        if item.Nothing? {
          break;
        }
        items := items + [item.value];
      }
    }

    /** Pops one item and marks it as streamed. */
    method StreamOne() returns (r: Maybe<Item>)
      requires Valid()
      modifies this, queue, queue.root, queue.elems, eh.minHeap, eh.minHeap.items
      ensures Valid() && Grown() && (r.Nothing? <==> old(Queue()) == [])
      ensures r.Some? ==> r.value == old(Queue())[0]
      ensures Value() == if r.Some? then Streamed(old(Value()), 1) else old(Value())
    {
      hide Within, Counts, Holds;
      WithinDistinct(limits, Value());
      ghost var q := Queue();
      r := PopNext();
      if r.Some? {
        StreamedNext(old(Value()), 0);
        assert [r.value] + Queue() == q;
        MarkWithin(limits, Value(), r.value);
        streamedItems := Some((if streamedItems.Some? then streamedItems.value else {}) + {r.value.id});
      }
    }

    method PrepareStream(count: nat)
      requires Valid()
      modifies this, queue, queue.root, queue.elems, eh.minHeap, eh.minHeap.items
      ensures Valid() && Grown() && Value() == PoolConservation.PrepareStream(old(Value()), count)
    {
      hide Counts, Holds, Distinct;
      nextStream := StreamItems(count);
      nextStreamFetched := true;
    }

    method Stream(count: nat) returns (items: seq<Item>)
      requires Valid()
      modifies this, queue, queue.root, queue.elems, eh.minHeap, eh.minHeap.items
      ensures Valid() && Grown() && (Value(), items) == PoolConservation.Stream(old(Value()), count)
    {
      hide Counts, Holds, Distinct;
      if nextStreamFetched {
        items := nextStream;
        nextStream, nextStreamFetched := [], false;
        return;
      }
      items := StreamItems(count);
    }

    method FinishStreaming(restorable: seq<Item>) returns (restored: nat)
      requires Valid()
      modifies this, queue, queue.root, queue.elems, eh.minHeap, eh.minHeap.items
      ensures Valid() && Grown() && Value() == PoolConservation.FinishStreaming(limits, old(Value()), restorable)
      ensures restored == |restorable| + if old(nextStreamFetched) then |old(nextStream)| else 0
    {
      hide Counts, Holds, Distinct, AddedAll, QueuedInOrder, Values, ExpiryHeap.Valid, List.Valid;
      restored := |restorable|;
      streamedItems := Nothing;
      InsertKeepsStream(limits, Value(), restorable, true);
      AddItems(restorable, true);
      if nextStreamFetched {
        restored := restored + |nextStream|;
        AddItems(nextStream, true);
        nextStream, nextStreamFetched := [], false;
      }
    }
  }

  /** Popping takes the value of the first element. */
  lemma FirstValue(limits: Limits, p: Pool, elems: seq<Element<Item>>)
    requires Within(limits, p) && p.queue == Values(elems)
    ensures p.queue == [] <==> elems == []
    ensures elems != [] ==> p.queue[0] == elems[0].value && Without(p.queue, p.queue[0].id) == p.queue[1..]
  {
    if elems != [] {
      WithoutSplices(p.queue, 0);
      assert p.queue[..0] + p.queue[1..] == p.queue[1..];
    }
  }

  lemma HoldsNone(m: Held, elems: seq<Element<Item>>)
    requires Holds(m, elems)
    ensures m == map[] <==> elems == []
  {
    if elems != [] {
      assert elems[0] in elems;
    }
  }

  /** The element the heap knows an item by is the item's own. */
  lemma HeldElement(m: Held, elems: seq<Element<Item>>, x: Item)
    requires Holds(m, elems) && x.id in m && Agrees(Values(elems), x)
    ensures m[x.id] in elems && m[x.id].value == x
  {
    var i :| 0 <= i < |elems| && elems[i] == m[x.id];
    assert Values(elems)[i].id == x.id;
  }

  /** The elements the heap gives up are the expired ones of the ring. */
  lemma ExpiredInRing(m: Held, elems: seq<Element<Item>>, t: int, removed: seq<Element<Item>>)
    requires Holds(m, elems) && Evicted(m, t, removed)
    ensures Distinct(Values(removed)) && forall e | e in removed :: e in elems
    ensures forall x :: x in Values(removed) <==> x in Values(elems) && x.expiry < t
  {
    forall x
      ensures x in Values(removed) <==> x in Values(elems) && x.expiry < t
    {
      if x in Values(removed) {
        var i :| 0 <= i < |removed| && Values(removed)[i] == x;
        assert removed[i] in elems;
        var j :| 0 <= j < |elems| && elems[j] == removed[i];
        assert Values(elems)[j] == x;
      }
      if x in Values(elems) && x.expiry < t {
        var i :| 0 <= i < |elems| && Values(elems)[i] == x;
        assert elems[i] in elems;
        var j :| 0 <= j < |removed| && removed[j] == elems[i];
        assert Values(removed)[j] == x;
      }
    }
  }

  lemma HoldsUnexpired(m: Held, before: seq<Element<Item>>, after: seq<Element<Item>>, t: int,
                       removed: seq<Element<Item>>)
    requires Holds(m, before) && Evicted(m, t, removed)
    requires forall x | x in after :: x in before && x !in removed
    requires forall x | x in before && x !in removed :: x in after
    ensures Holds(Unexpired(m, t), after)
  {
  }

  /** An element to be taken out is not among those taken out before it. */
  lemma NotYet(removed: seq<Element<Item>>, i: nat)
    requires i < |removed| && Distinct(Values(removed))
    ensures removed[i] !in removed[..i]
  {
    forall j | 0 <= j < i ensures removed[j] != removed[i] {
      assert Values(removed)[j].id != Values(removed)[i].id;
    }
  }

  lemma OwnedIff(owned: map<nat, nat>, q: seq<Item>, s: nat)
    requires Counts(owned, q)
    ensures Owned(q, s) == (if s in owned then owned[s] else 0) && (s in owned ==> owned[s] > 0)
  {
  }

  lemma WithinDistinct(limits: Limits, p: Pool)
    requires Within(limits, p)
    ensures Distinct(p.queue)
  {
  }
}
