/** What the window remembers after accepting blocks, and which chain that covers. */
module Coverage {
  import opened Heaps
  import opened EMaps
  import opened BlockTree

  function AcceptBlock(m: Expiries, b: Block): Expiries {
    AddedAll(Unexpired(m, b.timestamp), b.containers)
  }

  /** After a block, an ID is remembered if it was and has not expired, or if the block brought it. */
  lemma AcceptBlockExactly(m: Expiries, b: Block, id: ID)
    ensures id in AcceptBlock(m, b)
            <==> || (id in m && m[id] >= b.timestamp)
                 || exists i :: 0 <= i < |b.containers| && b.containers[i].id == id && b.containers[i].expiry != 0
    ensures id in m && m[id] >= b.timestamp ==> AcceptBlock(m, b)[id] == m[id]
  {
    AddedAllExactly(Unexpired(m, b.timestamp), b.containers, id);
  }

  function AcceptAll(m: Expiries, bs: seq<Block>): Expiries {
    if bs == [] then m else AcceptBlock(AcceptAll(m, bs[..|bs| - 1]), bs[|bs| - 1])
  }

  /** Nothing is remembered that is not on the chain of `b`. */
  ghost predicate Sound(net: Net, m: Expiries, b: Block)
    requires WellFormed(net) && Has(net, b)
  {
    forall id | id in m :: Item(id, m[id]) in Included(net, b)
  }

  /** Every unexpired container of `b` and its ancestors down to height `h` is remembered. */
  ghost predicate CompleteFrom(net: Net, m: Expiries, b: Block, h: nat)
    requires WellFormed(net) && Has(net, b)
  {
    forall c | c in Since(net, b, h) && c.expiry >= b.timestamp :: c.id in m
  }

  lemma {:induction false} AddedAllKeeps(m: Expiries, items: seq<Item>)
    requires forall c | c in items :: c.expiry != 0
    ensures forall id | id in m :: id in AddedAll(m, items) && AddedAll(m, items)[id] == m[id]
    ensures forall c | c in items :: c.id in AddedAll(m, items)
    ensures forall id | id in AddedAll(m, items) && id !in m :: Item(id, AddedAll(m, items)[id]) in items
  {
    if items != [] {
      AddedAllKeeps(m, items[..|items| - 1]);
      assert items == items[..|items| - 1] + [items[|items| - 1]];
    }
  }

  lemma NoZeroExpiry(net: Net, b: Block)
    requires WellFormed(net) && Has(net, b)
    ensures forall c | c in b.containers :: c.expiry != 0
  {
    forall c | c in b.containers
      ensures c.expiry != 0
    {
      assert InWindow(net, c, b.timestamp);
    }
  }

  /** Remembered expiries are the ones the IDs commit to. */
  ghost predicate Faithful(net: Net, m: Expiries) {
    forall id | id in m :: m[id] == net.expiryOf(id)
  }

  /** Accepting a block carries the coverage of its parent over to it. */
  lemma AcceptCovers(net: Net, m: Expiries, b: Block, h: nat)
    requires WellFormed(net) && Has(net, b) && Faithful(net, m)
    requires h == b.height || (b.height > 0 && CompleteFrom(net, m, Parent(net, b), h))
    ensures CompleteFrom(net, AcceptBlock(m, b), b, h) && Faithful(net, AcceptBlock(m, b))
  {
    NoZeroExpiry(net, b);
    var u := Unexpired(m, b.timestamp);
    AddedAllKeeps(u, b.containers);
    forall c | c in Since(net, b, h) && c.expiry >= b.timestamp
      ensures c.id in AcceptBlock(m, b)
    {
      if c !in b.containers {
        assert b.height > 0 && c in Since(net, Parent(net, b), h);
        assert Parent(net, b).height >= h;
        ParentNotLater(net, b, h, c);
        Committed(net, Parent(net, b), h, c);
      }
    }
    forall id | id in AcceptBlock(m, b)
      ensures AcceptBlock(m, b)[id] == net.expiryOf(id)
    {
      if id !in u {
        assert InWindow(net, Item(id, AcceptBlock(m, b)[id]), b.timestamp);
      }
    }
  }

  /** A parent that has containers on its chain is no later than its child. */
  lemma ParentNotLater(net: Net, b: Block, h: nat, c: Item)
    requires WellFormed(net) && Has(net, b) && b.height > 0 && c in Since(net, Parent(net, b), h)
    ensures Parent(net, b).timestamp <= b.timestamp
  {
    assert Has(net, Parent(net, b));
  }

  lemma AcceptSound(net: Net, m: Expiries, b: Block)
    requires WellFormed(net) && Has(net, b)
    requires forall id | id in m :: Item(id, m[id]) in Included(net, b)
    ensures Sound(net, AcceptBlock(m, b), b) && Sound(net, AddedAll(m, b.containers), b)
  {
    NoZeroExpiry(net, b);
    AddedAllKeeps(Unexpired(m, b.timestamp), b.containers);
    AddedAllKeeps(m, b.containers);
  }

  /** Adding a historical block extends the coverage down by one. */
  lemma HistoricalCovers(net: Net, m: Expiries, b: Block, h: nat)
    requires WellFormed(net) && Has(net, b) && h <= b.height && CompleteFrom(net, m, b, h + 1)
    ensures CompleteFrom(net, AddedAll(m, Ancestor(net, b, h).containers), b, h)
  {
    var a := Ancestor(net, b, h);
    NoZeroExpiry(net, a);
    AddedAllKeeps(m, a.containers);
    SinceSplits(net, b, h);
  }

  /** Coverage down to a block that has left the window is coverage of the whole chain. */
  lemma FullWindow(net: Net, m: Expiries, b: Block, h: nat, t: int)
    requires WellFormed(net) && Has(net, b) && h <= b.height && CompleteFrom(net, m, b, h) && t <= b.timestamp
    requires h == 0 || Ancestor(net, b, h).timestamp < OldestAllowed(net.window, t)
    requires (h > 0 ==> Ancestor(net, b, h).timestamp <= t) && ClosesAhead(net.window)
    ensures CompleteFrom(net, m, b, 0)
  {
    if h > 0 {
      var a := Ancestor(net, b, h);
      SinceSplits(net, b, h);
      forall c | c in Since(net, b, 0) && c.expiry >= b.timestamp
        ensures c.id in m
      {
        if c in Included(net, a) {
          BeyondWindow(net, a, t, c);
        }
      }
    }
  }
}

module ValidityWindow {
  import opened Heaps
  import opened EMaps
  import opened BlockTree
  import opened Coverage

  /** The blocks this node can fetch are blocks of the network. */
  ghost predicate Indexes(net: Net, index: map<BlockID, Block>) {
    forall id | id in index :: id in net.blocks && index[id] == net.blocks[id]
  }

  function Reversed<T>(s: seq<T>): seq<T> {
    seq(|s|, i requires 0 <= i < |s| => s[|s| - 1 - i])
  }

  /** `bs` is the stretch of the chain of `b` that ends in `b`, oldest first. */
  ghost predicate Stretch(net: Net, bs: seq<Block>, b: Block)
    requires Chained(net) && Has(net, b)
  {
    && 0 < |bs| <= b.height + 1
    && forall i | 0 <= i < |bs| :: bs[i] == Ancestor(net, b, b.height + 1 - |bs| + i)
  }

  lemma {:induction false} AncestorParent(net: Net, b: Block, h: nat)
    requires WellFormed(net) && Has(net, b) && h < b.height
    ensures Parent(net, Ancestor(net, b, h + 1)) == Ancestor(net, b, h)
    decreases b.height
  {
    if b.height > h + 1 {
      AncestorParent(net, Parent(net, b), h);
    }
  }

  /** `bs` leads from `b` to its ancestors, newest first. */
  ghost predicate Trail(net: Net, bs: seq<Block>, b: Block)
    requires Chained(net) && Has(net, b)
  {
    && 0 < |bs| <= b.height + 1
    && forall i | 0 <= i < |bs| :: bs[i] == Ancestor(net, b, b.height - i)
  }

  lemma TrailOn(net: Net, index: map<BlockID, Block>, bs: seq<Block>, b: Block)
    requires WellFormed(net) && Has(net, b) && Trail(net, bs, b) && Indexes(net, index)
    requires bs[|bs| - 1].height > 0 && bs[|bs| - 1].parent in index
    ensures index[bs[|bs| - 1].parent].height == bs[|bs| - 1].height - 1
    ensures Trail(net, bs + [index[bs[|bs| - 1].parent]], b)
  {
    AncestorParent(net, b, bs[|bs| - 1].height - 1);
  }

  lemma TrailBack(net: Net, bs: seq<Block>, b: Block)
    requires WellFormed(net) && Has(net, b) && Trail(net, bs, b)
    ensures Stretch(net, Reversed(bs), b)
  {
  }

  /** Accepting a stretch of the chain covers it, whatever was remembered before. */
  lemma {:induction false} StretchCovered(net: Net, m: Expiries, bs: seq<Block>, b: Block, n: nat)
    requires WellFormed(net) && Has(net, b) && Stretch(net, bs, b) && Faithful(net, m) && n < |bs|
    ensures Faithful(net, AcceptAll(m, bs[..n + 1])) && Has(net, bs[n])
    ensures CompleteFrom(net, AcceptAll(m, bs[..n + 1]), bs[n], bs[0].height)
  {
    assert bs[..n + 1][..n] == bs[..n];
    if n > 0 {
      StretchCovered(net, m, bs, b, n - 1);
      AncestorParent(net, b, bs[n - 1].height);
    }
    AcceptCovers(net, AcceptAll(m, bs[..n]), bs[n], bs[0].height);
  }

  lemma {:induction false} StretchSound(net: Net, m: Expiries, bs: seq<Block>, b: Block, n: nat)
    requires WellFormed(net) && Has(net, b) && Stretch(net, bs, b) && n <= |bs|
    requires Sound(net, m, b)
    ensures Sound(net, AcceptAll(m, bs[..n]), b)
  {
    if n > 0 {
      StretchSound(net, m, bs, b, n - 1);
      assert bs[..n][..n - 1] == bs[..n - 1];
      AcceptAncestorSound(net, AcceptAll(m, bs[..n - 1]), b, bs[n - 1].height);
    }
  }

  lemma AcceptAncestorSound(net: Net, m: Expiries, b: Block, h: nat)
    requires WellFormed(net) && Has(net, b) && h <= b.height && Sound(net, m, b)
    ensures Sound(net, AcceptBlock(m, Ancestor(net, b, h)), b)
    ensures Sound(net, AddedAll(m, Ancestor(net, b, h).containers), b)
  {
    var a := Ancestor(net, b, h);
    SinceSplits(net, b, h);
    NoZeroExpiry(net, a);
    AddedAllKeeps(Unexpired(m, a.timestamp), a.containers);
    AddedAllKeeps(m, a.containers);
  }

  /** Everything remembered is on the chain of `b`, and everything unexpired on it is remembered. */
  ghost predicate Covers(net: Net, m: Expiries, b: Block)
    requires WellFormed(net) && Has(net, b)
  {
    Sound(net, m, b) && CompleteFrom(net, m, b, 0)
  }

  /** Every block from `b` down to the last accepted one can be fetched. */
  ghost predicate Fetchable(net: Net, index: map<BlockID, Block>, b: Block, last: Block)
    requires WellFormed(net) && Has(net, b)
  {
    forall h: nat | last.height <= h < b.height :: Ancestor(net, b, h).id in index
  }

  ghost predicate Commit(net: Net, containers: seq<Item>) {
    forall c | c in containers :: c.expiry == net.expiryOf(c.id)
  }

  /**
   * `marker` holds only positions of containers already included, and, of those that a block at `t` may
   * hold, all of them, or at least one when the search stops at the first. If the window closes ahead,
   * the same goes for everything that has not expired at `t`.
   */
  ghost predicate Repeats(window: int -> int, containers: seq<Item>, included: set<ID>, t: int, stop: bool,
                          marker: set<nat>) {
    && (forall i | i in marker :: i < |containers| && containers[i].id in included)
    && (forall i | 0 <= i < |containers| && Live(window, t, containers[i].expiry) && containers[i].id in included ::
          if stop then marker != {} else i in marker)
  }

  lemma {:induction false} NotLater(net: Net, b: Block, h: nat)
    requires WellFormed(net) && Has(net, b) && h <= b.height
    ensures h > 0 ==> Ancestor(net, b, h).timestamp <= b.timestamp
    decreases b.height
  {
    if b.height > h {
      NotLater(net, Parent(net, b), h);
    }
  }

  lemma ExpiredBelow(net: Net, a: Block, t: int, containers: seq<Item>)
    requires WellFormed(net) && Has(net, a) && a.timestamp < OldestAllowed(net.window, t)
    requires (a.height > 0 ==> a.timestamp <= t) && Commit(net, containers)
    ensures forall i | 0 <= i < |containers| && containers[i].id in IDsOf(Included(net, a)) ::
              !Live(net.window, t, containers[i].expiry)
  {
    forall i | 0 <= i < |containers| && containers[i].id in IDsOf(Included(net, a))
      ensures !Live(net.window, t, containers[i].expiry)
    {
      var c :| c in Included(net, a) && c.id == containers[i].id;
      Committed(net, a, 0, c);
      BeyondWindow(net, a, t, c);
    }
  }

  lemma RemembersUnexpired(net: Net, m: Expiries, b: Block, t: int, containers: seq<Item>)
    requires WellFormed(net) && Has(net, b) && Covers(net, m, b) && Commit(net, containers)
    requires b.height > 0 ==> b.timestamp <= t
    ensures forall i | 0 <= i < |containers| && containers[i].expiry >= t ::
              containers[i].id in IDsOf(Included(net, b)) ==> containers[i].id in m
    ensures m.Keys <= IDsOf(Included(net, b))
  {
    forall i | 0 <= i < |containers| && containers[i].expiry >= t && containers[i].id in IDsOf(Included(net, b))
      ensures containers[i].id in m
    {
      var c :| c in Included(net, b) && c.id == containers[i].id;
      Committed(net, b, 0, c);
    }
    forall id | id in m
      ensures id in IDsOf(Included(net, b))
    {
      assert Item(id, m[id]) in Included(net, b);
    }
  }

  /** One more block searched, without a hit when the search stops at the first. */
  lemma MarksMore(containers: seq<Item>, a: set<Item>, b: set<Item>, marker: set<nat>, stop: bool, r: set<nat>)
    requires Marks(containers, IDsOf(a), {}, false, marker) && (stop ==> marker == {})
    requires Marks(containers, IDsOf(b), marker, stop, r)
    ensures !stop || r == {} ==> Marks(containers, IDsOf(a + b), {}, false, r)
    ensures stop ==> forall i | i in r :: i < |containers| && containers[i].id in IDsOf(b)
  {
    assert IDsOf(a + b) == IDsOf(a) + IDsOf(b);
    if stop && r == {} {
      forall i: nat
        ensures !Hit(containers, IDsOf(b), marker, i)
      {
      }
    }
  }

  /** The search may end where nothing unexpired is left to find. */
  lemma NothingLeft(window: int -> int, containers: seq<Item>, a: set<ID>, b: set<ID>, t: int, stop: bool,
                    marker: set<nat>)
    requires Marks(containers, a, {}, false, marker)
    requires forall i | 0 <= i < |containers| && containers[i].id in b :: !Live(window, t, containers[i].expiry)
    ensures Repeats(window, containers, a + b, t, stop, marker)
  {
    forall i | 0 <= i < |containers| && Live(window, t, containers[i].expiry) && containers[i].id in a + b
      ensures i in marker
    {
      assert Hit(containers, a, {}, i);
    }
  }

  /** Looking into a set that agrees with `b` on what is unexpired completes the search. */
  lemma LastLook(window: int -> int, containers: seq<Item>, a: set<ID>, b: set<ID>, known: set<ID>, t: int,
                 stop: bool, marker: set<nat>, r: set<nat>)
    requires Marks(containers, a, {}, false, marker) && (stop ==> marker == {})
    requires Marks(containers, known, marker, stop, r) && known <= b
    requires forall i | 0 <= i < |containers| && containers[i].expiry >= t ::
               containers[i].id in b ==> containers[i].id in known
    ensures Repeats(window, containers, a + b, t, stop, r)
  {
    forall i | 0 <= i < |containers| && Live(window, t, containers[i].expiry) && containers[i].id in a + b
      ensures if stop then r != {} else i in r
    {
      assert Hit(containers, a, {}, i) || Hit(containers, known, marker, i) || i in marker;
    }
    forall i | i in r
      ensures i < |containers| && containers[i].id in a + b
    {
      assert i in marker || Hit(containers, known, marker, i);
    }
  }

  lemma HitStops(net: Net, a: Block, from: Block, walked: set<Item>, containers: seq<Item>, t: int, marker: set<nat>)
    requires WellFormed(net) && Has(net, from) && Has(net, a) && Included(net, from) == walked + Included(net, a)
    requires marker != {}
    requires forall i | i in marker :: i < |containers| && containers[i].id in IDsOf(Items(a.containers))
    ensures Repeats(net.window, containers, IDsOf(Included(net, from)), t, true, marker)
  {
    assert IDsOf(Items(a.containers)) <= IDsOf(Included(net, from));
  }

  lemma IDsOfUnion(a: set<Item>, b: set<Item>)
    ensures IDsOf(a + b) == IDsOf(a) + IDsOf(b)
  {
  }

  /** The blocks above `a` have been searched, and `marker` holds what they contain. */
  ghost predicate Searching(net: Net, last: Block, from: Block, a: Block, walked: set<Item>,
                            containers: seq<Item>, stop: bool, marker: set<nat>)
    requires WellFormed(net) && Has(net, from)
  {
    && last.height <= a.height <= from.height && Ancestor(net, from, a.height) == a
    && Included(net, from) == walked + Included(net, a)
    && Marks(containers, IDsOf(walked), {}, false, marker) && (stop ==> marker == {})
  }

  lemma SearchStart(net: Net, last: Block, from: Block, containers: seq<Item>, stop: bool)
    requires WellFormed(net) && Has(net, from) && last.height <= from.height
    ensures Searching(net, last, from, from, {}, containers, stop, {})
  {
  }

  lemma SearchLeavesWindow(net: Net, last: Block, from: Block, a: Block, walked: set<Item>, t: int,
                           containers: seq<Item>, stop: bool, marker: set<nat>)
    requires WellFormed(net) && Has(net, from) && Searching(net, last, from, a, walked, containers, stop, marker)
    requires Commit(net, containers) && (from.height > 0 ==> from.timestamp <= t)
    requires a.timestamp < OldestAllowed(net.window, t)
    ensures Repeats(net.window, containers, IDsOf(Included(net, from)), t, stop, marker)
  {
    NotLater(net, from, a.height);
    IDsOfUnion(walked, Included(net, a));
    ExpiredBelow(net, a, t, containers);
    NothingLeft(net.window, containers, IDsOf(walked), IDsOf(Included(net, a)), t, stop, marker);
  }

  lemma SearchMeetsLast(net: Net, last: Block, from: Block, a: Block, walked: set<Item>, m: Expiries, t: int,
                        containers: seq<Item>, stop: bool, marker: set<nat>, r: set<nat>)
    requires WellFormed(net) && Has(net, from) && Searching(net, last, from, a, walked, containers, stop, marker)
    requires Descends(net, from, last) && Has(net, last) && Covers(net, m, last) && a.height <= last.height
    requires Commit(net, containers) && (from.height > 0 ==> from.timestamp <= t)
    requires Marks(containers, m.Keys, marker, stop, r)
    ensures Repeats(net.window, containers, IDsOf(Included(net, from)), t, stop, r)
  {
    NotLater(net, from, last.height);
    IDsOfUnion(walked, Included(net, last));
    RemembersUnexpired(net, m, last, t, containers);
    LastLook(net.window, containers, IDsOf(walked), IDsOf(Included(net, last)), m.Keys, t, stop, marker, r);
  }

  lemma SearchStep(net: Net, last: Block, from: Block, a: Block, walked: set<Item>, t: int,
                   containers: seq<Item>, stop: bool, marker: set<nat>, r: set<nat>)
    requires WellFormed(net) && Has(net, from) && Searching(net, last, from, a, walked, containers, stop, marker)
    requires a.height > last.height && Has(net, a)
    requires Marks(containers, IDsOf(Items(a.containers)), marker, stop, r)
    ensures if stop && r != {} then Repeats(net.window, containers, IDsOf(Included(net, from)), t, stop, r)
            else Searching(net, last, from, Parent(net, a), walked + Items(a.containers), containers, stop, r)
  {
    MarksMore(containers, walked, Items(a.containers), marker, stop, r);
    AncestorParent(net, from, a.height - 1);
    if stop && r != {} {
      HitStops(net, a, from, walked, containers, t, r);
    }
  }

  lemma NotFetchable(net: Net, index: map<BlockID, Block>, from: Block, a: Block, last: Block)
    requires WellFormed(net) && Has(net, from) && last.height < a.height <= from.height
    requires Ancestor(net, from, a.height) == a
    requires a.parent !in index
    ensures !Fetchable(net, index, from, last)
  {
    AncestorParent(net, from, a.height - 1);
  }

  predicate DistinctIDs(containers: seq<Item>) {
    forall i, j | 0 <= i < j < |containers| :: containers[i].id != containers[j].id
  }

  datatype Verdict = Pass | Duplicate | Missing

  /** The search for a first repeat, as a function. */
  function Search(index: map<BlockID, Block>, m: Expiries, lastHeight: nat, a: Block, oldest: int,
                  ids: set<ID>): Verdict
    decreases a.height
  {
    if a.timestamp < oldest then Pass
    else if a.height <= lastHeight || a.height == 0 then if ids !! m.Keys then Pass else Duplicate
    else if !(ids !! IDsOf(Items(a.containers))) then Duplicate
    else if a.parent !in index || index[a.parent].height >= a.height then Missing
    else Search(index, m, lastHeight, index[a.parent], oldest, ids)
  }

  function Verify(index: map<BlockID, Block>, m: Expiries, lastHeight: nat, window: int -> int, b: Block): Verdict {
    if b.height <= lastHeight then Pass
    else if !DistinctIDs(b.containers) then Duplicate
    else if b.parent !in index then Missing
    else Search(index, m, lastHeight, index[b.parent], OldestAllowed(window, b.timestamp), IDsOf(Items(b.containers)))
  }

  lemma MarksAny(containers: seq<Item>, ids: set<ID>, r: set<nat>)
    requires Marks(containers, ids, {}, true, r)
    ensures r == {} <==> IDsOf(Items(containers)) !! ids
  {
    if !(IDsOf(Items(containers)) !! ids) {
      var c :| c in containers && c.id in ids;
      var i :| 0 <= i < |containers| && containers[i] == c;
      assert Hit(containers, ids, {}, i);
    } else {
      forall i: nat
        ensures !Hit(containers, ids, {}, i)
      {
        assert i < |containers| ==> containers[i] in Items(containers) && containers[i].id in IDsOf(Items(containers));
      }
    }
  }

  /** `b` follows `parent`, a descendant of the last accepted block, with containers its time admits. */
  ghost predicate Extends(net: Net, parent: Block, last: Block, b: Block)
    requires WellFormed(net)
  {
    && Has(net, parent) && Descends(net, parent, last) && (parent.height > 0 ==> parent.timestamp <= b.timestamp)
    && forall c | c in b.containers :: InWindow(net, c, b.timestamp)
  }

  lemma RepeatsNone(net: Net, b: Block, included: set<ID>, marker: set<nat>)
    requires Repeats(net.window, b.containers, included, b.timestamp, true, marker)
    requires forall c | c in b.containers :: InWindow(net, c, b.timestamp)
    ensures marker == {} <==> IDsOf(Items(b.containers)) !! included
  {
    if marker == {} {
      forall id | id in IDsOf(Items(b.containers))
        ensures id !in included
      {
        var c :| c in b.containers && c.id == id;
        assert InWindow(net, c, b.timestamp);
      }
    } else {
      var i :| i in marker;
      assert b.containers[i] in Items(b.containers);
    }
  }

  class TimeValidityWindow {
    const seen: EMap
    const window: int -> int
    var lastAccepted: nat

    ghost function Repr(): set<object>
      reads this, seen, seen.bh
    {
      {this, seen, seen.bh} + set e | e in seen.bh.items
    }

    ghost predicate Valid()
      reads this, seen, seen.bh, seen.bh.items
    {
      seen.Valid()
    }

    constructor (window: int -> int)
      ensures Valid() && this.window == window && seen.expiries == map[] && lastAccepted == 0
      ensures fresh(Repr())
    {
      seen := new EMap();
      this.window := window;
      lastAccepted := 0;
    }

    method Accept(b: Block)
      requires Valid()
      modifies Repr()
      ensures Valid() && fresh(Repr() - old(Repr()))
      ensures seen.expiries == AcceptBlock(old(seen.expiries), b) && lastAccepted == b.height
    {
      var evicted := seen.SetMin(b.timestamp);
      seen.Add(b.containers);
      lastAccepted := b.height;
    }

    method AcceptHistorical(b: Block)
      requires Valid()
      modifies Repr()
      ensures Valid() && fresh(Repr() - old(Repr()))
      ensures seen.expiries == AddedAll(old(seen.expiries), b.containers) && lastAccepted == old(lastAccepted)
    {
      seen.Add(b.containers);
    }

    /** Walks back from `b` until the window is filled or the blocks run out. */
    method WalkBack(ghost net: Net, index: map<BlockID, Block>, b: Block) returns (parents: seq<Block>, full: bool)
      requires WellFormed(net) && Has(net, b) && Indexes(net, index)
      ensures Stretch(net, parents, b)
      ensures full <==> parents[0].height == 0
                        || (|parents| > 1 && parents[0].timestamp < OldestAllowed(window, b.timestamp))
      ensures !full ==> parents[0].parent !in index
    {
      var parent := b;
      parents := [b];
      full := false;
      var oldest := OldestAllowed(window, b.timestamp);
      while true
        invariant Trail(net, parents, b) && parents[|parents| - 1] == parent && !full
        invariant |parents| > 1 ==> parent.timestamp >= oldest
        decreases parent.height
      {
        if parent.height == 0 {
          full := true;
          break;
        }
        if parent.parent !in index {
          break;
        }
        TrailOn(net, index, parents, b);
        parent := index[parent.parent];
        parents := parents + [parent];
        full := parent.timestamp < oldest;
        if full {
          break;
        }
      }
      TrailBack(net, parents, b);
      parents := Reversed(parents);
    }

    method AcceptInOrder(bs: seq<Block>)
      requires Valid()
      modifies Repr()
      ensures Valid() && fresh(Repr() - old(Repr()))
      ensures seen.expiries == AcceptAll(old(seen.expiries), bs)
      ensures bs != [] ==> lastAccepted == bs[|bs| - 1].height
    {
      for i := 0 to |bs|
        invariant Valid() && fresh(Repr() - old(Repr()))
        invariant seen.expiries == AcceptAll(old(seen.expiries), bs[..i])
        invariant i > 0 ==> lastAccepted == bs[i - 1].height
      {
        assert bs[..i + 1][..i] == bs[..i];
        Accept(bs[i]);
      }
      assert bs[..|bs|] == bs;
    }

    /**
     * Rebuilds the window below `b` from the blocks at hand. What it reports full remembers every
     * unexpired container of the whole chain of `b`.
     */
    method Populate(ghost net: Net, index: map<BlockID, Block>, b: Block) returns (parents: seq<Block>, full: bool)
      requires Valid() && WellFormed(net) && net.window == window && Has(net, b) && Indexes(net, index)
      requires Faithful(net, seen.expiries) && ClosesAhead(window)
      modifies Repr()
      ensures Valid() && fresh(Repr() - old(Repr())) && lastAccepted == b.height
      ensures Stretch(net, parents, b) && (!full ==> parents[0].parent !in index)
      ensures full <==> parents[0].height == 0
                        || (|parents| > 1 && parents[0].timestamp < OldestAllowed(window, b.timestamp))
      ensures Faithful(net, seen.expiries)
      ensures CompleteFrom(net, seen.expiries, b, if full then 0 else parents[0].height)
      ensures old(Sound(net, seen.expiries, b)) ==> Sound(net, seen.expiries, b)
    {
      parents, full := WalkBack(net, index, b);
      ghost var m := seen.expiries;
      AcceptInOrder(parents);
      StretchCovered(net, m, parents, b, |parents| - 1);
      assert parents[..|parents|] == parents;
      if full {
        NotLater(net, b, parents[0].height);
        FullWindow(net, seen.expiries, b, parents[0].height, b.timestamp);
      }
      if Sound(net, m, b) {
        StretchSound(net, m, parents, b, |parents|);
      }
    }

    /** Adds the containers that `b` itself holds. */
    method MarkHeld(b: Block, containers: seq<Item>, marker: set<nat>, stop: bool) returns (r: set<nat>)
      ensures Marks(containers, IDsOf(Items(b.containers)), marker, stop, r)
    {
      r := marker;
      var ids := IDsOf(Items(b.containers));
      for i := 0 to |containers|
        invariant Marks(containers[..i], ids, marker, false, r) && (stop ==> r == marker)
      {
        if i !in r && containers[i].id in ids {
          r := r + {i};
          if stop {
            assert Hit(containers, ids, marker, i);
            return;
          }
        }
      }
      assert containers[..|containers|] == containers;
    }

    /**
     * Looks for repeats of `containers` from `from` down, at time `t`. The walk over unaccepted
     * blocks and one look into what is remembered find what a scan of the whole ancestry finds.
     */
    method FindRepeats(ghost net: Net, index: map<BlockID, Block>, ghost last: Block, from: Block, t: int,
                    containers: seq<Item>, stop: bool)
      returns (marker: set<nat>, ok: bool)
      requires Valid() && WellFormed(net) && net.window == window && Has(net, from) && Indexes(net, index)
      requires Descends(net, from, last) && lastAccepted == last.height && Covers(net, seen.expiries, last)
      requires Commit(net, containers) && (from.height > 0 ==> from.timestamp <= t)
      ensures Fetchable(net, index, from, last) ==> ok
      ensures ok ==> Repeats(net.window, containers, IDsOf(Included(net, from)), t, stop, marker)
      ensures stop ==>
                Search(index, seen.expiries, lastAccepted, from, OldestAllowed(window, t), IDsOf(Items(containers)))
                == if !ok then Missing else if marker == {} then Pass else Duplicate
    {
      hide Marks, Repeats, Fetchable, Searching;
      marker := {};
      var ancestor := from;
      var oldest := OldestAllowed(window, t);
      ghost var walked: set<Item> := {};
      ghost var ids := IDsOf(Items(containers));
      SearchStart(net, last, from, containers, stop);
      while true
        invariant last.height <= ancestor.height <= from.height && Ancestor(net, from, ancestor.height) == ancestor
        invariant Searching(net, last, from, ancestor, walked, containers, stop, marker) && (stop ==> marker == {})
        invariant stop ==>
                    Search(index, seen.expiries, lastAccepted, from, oldest, ids)
                    == Search(index, seen.expiries, lastAccepted, ancestor, oldest, ids)
        decreases ancestor.height
      {
        if ancestor.timestamp < oldest {
          SearchLeavesWindow(net, last, from, ancestor, walked, t, containers, stop, marker);
          return marker, true;
        }
        if ancestor.height <= lastAccepted || ancestor.height == 0 {
          var r := seen.Contains(containers, marker, stop);
          if stop { MarksAny(containers, seen.expiries.Keys, r); }
          SearchMeetsLast(net, last, from, ancestor, walked, seen.expiries, t, containers, stop, marker, r);
          return r, true;
        }
        AncestorParent(net, from, ancestor.height - 1);
        var r := MarkHeld(ancestor, containers, marker, stop);
        if stop { MarksAny(containers, IDsOf(Items(ancestor.containers)), r); }
        SearchStep(net, last, from, ancestor, walked, t, containers, stop, marker, r);
        marker := r;
        if stop && marker != {} {
          return marker, true;
        }
        if ancestor.parent !in index {
          NotFetchable(net, index, from, ancestor, last);
          return marker, false;
        }
        walked := walked + Items(ancestor.containers);
        ancestor := index[ancestor.parent];
      }
    }

    method IsRepeat(ghost net: Net, index: map<BlockID, Block>, ghost last: Block, parent: Block, t: int,
                    containers: seq<Item>)
      returns (marker: set<nat>, ok: bool)
      requires Valid() && WellFormed(net) && net.window == window && Has(net, parent) && Indexes(net, index)
      requires Descends(net, parent, last) && lastAccepted == last.height && Covers(net, seen.expiries, last)
      requires Commit(net, containers) && (parent.height > 0 ==> parent.timestamp <= t)
      ensures Fetchable(net, index, parent, last) ==> ok
      ensures ok ==> forall i | i in marker :: i < |containers| && containers[i].id in IDsOf(Included(net, parent))
      ensures ok ==> forall i | 0 <= i < |containers| && Live(window, t, containers[i].expiry) ::
                       i in marker <==> containers[i].id in IDsOf(Included(net, parent))
    {
      marker, ok := FindRepeats(net, index, last, parent, t, containers, false);
    }

    method NoRepeatsWithin(containers: seq<Item>) returns (ok: bool)
      ensures ok <==> forall i, j | 0 <= i < j < |containers| :: containers[i].id != containers[j].id
    {
      var ids: set<ID> := {};
      for i := 0 to |containers|
        invariant forall id :: id in ids <==> exists j :: 0 <= j < i && containers[j].id == id
        invariant DistinctIDs(containers[..i])
      {
        if containers[i].id in ids {
          return false;
        }
        ids := ids + {containers[i].id};
      }
      assert containers[..|containers|] == containers;
      return true;
    }

    /**
     * A block passes exactly when its containers are distinct and none of them is on the chain it
     * extends; blocks at or below the last accepted height are not looked at.
     */
    method VerifyExpiryReplayProtection(ghost net: Net, index: map<BlockID, Block>, ghost last: Block, b: Block)
      returns (r: Verdict)
      requires Valid() && WellFormed(net) && net.window == window && Indexes(net, index) && Has(net, last)
      requires lastAccepted == last.height && Covers(net, seen.expiries, last)
      requires b.parent in index && b.height > last.height ==> Extends(net, index[b.parent], last, b)
      ensures r == Verify(index, seen.expiries, lastAccepted, window, b)
      ensures b.height <= lastAccepted ==> r == Pass
      ensures b.height > lastAccepted && r == Pass ==>
                b.parent in index && DistinctIDs(b.containers)
                  && IDsOf(Items(b.containers)) !! IDsOf(Included(net, index[b.parent]))
      ensures r == Duplicate ==>
                !DistinctIDs(b.containers)
                || (b.parent in index && !(IDsOf(Items(b.containers)) !! IDsOf(Included(net, index[b.parent]))))
      ensures r == Missing ==> b.parent !in index || !Fetchable(net, index, index[b.parent], last)
    {
      if b.height <= lastAccepted {
        return Pass;
      }
      var distinct := NoRepeatsWithin(b.containers);
      if !distinct {
        return Duplicate;
      }
      if b.parent !in index {
        return Missing;
      }
      var dup, ok := FindRepeats(net, index, last, index[b.parent], b.timestamp, b.containers, true);
      if !ok {
        return Missing;
      }
      RepeatsNone(net, b, IDsOf(Included(net, index[b.parent])), dup);
      return if dup != {} then Duplicate else Pass;
    }
  }
}
