/** Replay safety over every run of verifying and accepting blocks. */
module ReplaySafety {
  import opened Heaps
  import opened EMaps
  import opened BlockTree
  import opened Coverage
  import opened ValidityWindow

  /**
   * A node: the chains it follows, down to the genesis block; the blocks of them that it can fetch; what
   * its window remembers; and its last accepted block.
   */
  datatype State = State(net: Net, index: map<BlockID, Block>, seen: Expiries, last: Block)

  datatype Action =
    | VerifyBlock(b: Block)
    | AcceptNext(b: Block)
    | Reindex(index: map<BlockID, Block>)    // blocks are pruned, or old ones are fetched

  /** The search over blocks and memory is exact on the containers a block may hold. */
  lemma {:induction false} SearchExact(net: Net, m: Expiries, last: Block, from: Block, t: int, items: seq<Item>)
    requires WellFormed(net) && Has(net, from) && Has(net, last) && Descends(net, from, last) && Covers(net, m, last)
    requires from.height > 0 ==> from.timestamp <= t
    requires Commit(net, items) && forall c | c in items :: Live(net.window, t, c.expiry)
    ensures Search(net.blocks, m, last.height, from, OldestAllowed(net.window, t), IDsOf(Items(items)))
            == if IDsOf(Items(items)) !! IDsOf(Included(net, from)) then Pass else Duplicate
    decreases from.height
  {
    var ids := IDsOf(Items(items));
    if from.timestamp < OldestAllowed(net.window, t) {
      ExpiredBelow(net, from, t, items);
      Meets(items, IDsOf(Included(net, from)));
    } else if from.height <= last.height {
      RemembersUnexpired(net, m, last, t, items);
      Meets(items, IDsOf(Included(net, from)));
      Meets(items, m.Keys);
    } else {
      IDsOfUnion(Items(from.containers), Included(net, Parent(net, from)));
      SearchExact(net, m, last, Parent(net, from), t, items);
    }
  }

  lemma Meets(items: seq<Item>, ids: set<ID>)
    ensures IDsOf(Items(items)) !! ids <==> forall i | 0 <= i < |items| :: items[i].id !in ids
  {
    forall i | 0 <= i < |items|
      ensures items[i].id in IDsOf(Items(items))
    {
      assert items[i] in Items(items);
    }
  }

  /** `b` extends a block that descends from the last accepted one, as consensus hands it out. */
  ghost predicate Follows(s: State, b: Block)
    requires Chained(s.net)
  {
    && b.id !in s.net.blocks && b.height > 0 && WellFormedBlock(s.net, b)
    && Descends(s.net, Parent(s.net, b), s.last)
  }

  ghost predicate Enabled(s: State, a: Action)
    requires Chained(s.net)
  {
    match a
    case VerifyBlock(b) => Follows(s, b) && Verify(s.index, s.seen, s.last.height, s.net.window, b) == Pass
    case AcceptNext(b) => Has(s.net, b) && b.height > 0 && Parent(s.net, b) == s.last
    case Reindex(index) => Indexes(s.net, index)
  }

  function Apply(s: State, a: Action): State {
    match a
    case VerifyBlock(b) =>
      s.(net := s.net.(blocks := s.net.blocks[b.id := b]), index := s.index[b.id := b])
    case AcceptNext(b) => s.(seen := AcceptBlock(s.seen, b), last := b)
    case Reindex(index) => s.(index := index)
  }

  /** A search that misses no block on its way finds what one over all blocks finds. */
  lemma {:induction false} PartSearch(net: Net, index: map<BlockID, Block>, m: Expiries, lastHeight: nat, a: Block,
                                      oldest: int, ids: set<ID>)
    requires Chained(net) && Indexes(net, index) && Has(net, a)
    ensures Search(index, m, lastHeight, a, oldest, ids) != Missing ==>
              Search(index, m, lastHeight, a, oldest, ids) == Search(net.blocks, m, lastHeight, a, oldest, ids)
    decreases a.height
  {
    if a.height > 0 && a.parent in index && index[a.parent].height < a.height {
      PartSearch(net, index, m, lastHeight, index[a.parent], oldest, ids);
    }
  }

  lemma PartVerify(net: Net, index: map<BlockID, Block>, m: Expiries, lastHeight: nat, b: Block)
    requires Chained(net) && Indexes(net, index)
    ensures Verify(index, m, lastHeight, net.window, b) != Missing ==>
              Verify(index, m, lastHeight, net.window, b) == Verify(net.blocks, m, lastHeight, net.window, b)
  {
    if b.parent in index {
      PartSearch(net, index, m, lastHeight, index[b.parent], OldestAllowed(net.window, b.timestamp),
                 IDsOf(Items(b.containers)));
    }
  }

  /** No container ID occurs twice in a block or in a block and one of its ancestors. */
  ghost predicate NoReplay(net: Net, b: Block)
    requires Chained(net) && Has(net, b)
  {
    && DistinctIDs(b.containers)
    && (b.height > 0 ==> IDsOf(Items(b.containers)) !! IDsOf(Included(net, Parent(net, b))))
  }

  ghost predicate Inv(s: State) {
    && WellFormed(s.net) && Indexes(s.net, s.index) && Has(s.net, s.last) && Covers(s.net, s.seen, s.last)
    && forall id | id in s.net.blocks :: NoReplay(s.net, s.net.blocks[id])
  }

  lemma {:induction false} GrowKeepsChain(net: Net, b: Block, x: Block)
    requires Chained(net) && WellFormedBlock(net, b) && b.id !in net.blocks && Has(net, x)
    ensures Chained(net.(blocks := net.blocks[b.id := b])) && Has(net.(blocks := net.blocks[b.id := b]), x)
    ensures forall h: nat :: Since(net.(blocks := net.blocks[b.id := b]), x, h) == Since(net, x, h)
    decreases x.height
  {
    var grown := net.(blocks := net.blocks[b.id := b]);
    forall y | Has(grown, y)
      ensures WellFormedBlock(grown, y)
    {
      assert y.id != b.id ==> Has(net, y);
    }
    if x.height > 0 {
      GrowKeepsChain(net, b, Parent(net, x));
    }
  }

  lemma VerifyKeeps(s: State, b: Block)
    requires Inv(s) && Enabled(s, VerifyBlock(b)) && b.timestamp > 0
    ensures Inv(Apply(s, VerifyBlock(b)))
  {
    var grown := Apply(s, VerifyBlock(b)).net;
    forall id | id in s.net.blocks
      ensures Chained(grown) && NoReplay(grown, grown.blocks[id])
    {
      var x := s.net.blocks[id];
      assert Has(s.net, x);
      GrowKeepsChain(s.net, b, x);
      assert NoReplay(s.net, x);
      if x.height > 0 {
        GrowKeepsChain(s.net, b, Parent(s.net, x));
      }
    }
    GrowKeepsChain(s.net, b, s.last);
    GrowKeepsChain(s.net, b, Parent(s.net, b));
    assert WellFormed(grown) by {
      forall y | Has(grown, y) && y.height > 0
        ensures y.timestamp > 0
      {
        assert y.id != b.id ==> Has(s.net, y);
      }
    }
    forall c | c in b.containers
      ensures Live(s.net.window, b.timestamp, c.expiry) && c.expiry == s.net.expiryOf(c.id)
    {
      assert InWindow(s.net, c, b.timestamp);
    }
    PartVerify(s.net, s.index, s.seen, s.last.height, b);
    SearchExact(s.net, s.seen, s.last, Parent(s.net, b), b.timestamp, b.containers);
  }

  lemma AcceptKeeps(s: State, b: Block)
    requires Inv(s) && Enabled(s, AcceptNext(b))
    ensures Inv(Apply(s, AcceptNext(b)))
  {
    forall id | id in s.seen
      ensures s.seen[id] == s.net.expiryOf(id) && Item(id, s.seen[id]) in Included(s.net, b)
    {
      Committed(s.net, s.last, 0, Item(id, s.seen[id]));
    }
    AcceptCovers(s.net, s.seen, b, 0);
    AcceptSound(s.net, s.seen, b);
  }

  ghost predicate Runs(s: State, actions: seq<Action>)
    decreases |actions|
  {
    actions == [] || (Chained(s.net) && Enabled(s, actions[0]) && Runs(Apply(s, actions[0]), actions[1..]))
  }

  function After(s: State, actions: seq<Action>): State
    decreases |actions|
  {
    if actions == [] then s else After(Apply(s, actions[0]), actions[1..])
  }

  /** No block is at time 0: the rules keep a positive gap between blocks. */
  predicate Timed(actions: seq<Action>) {
    forall i | 0 <= i < |actions| && actions[i].VerifyBlock? :: actions[i].b.timestamp > 0
  }

  lemma {:induction false} RunKeeps(s: State, actions: seq<Action>)
    requires Inv(s) && Runs(s, actions) && Timed(actions)
    ensures Inv(After(s, actions))
    decreases |actions|
  {
    if actions != [] {
      match actions[0]
      case VerifyBlock(b) =>
        VerifyKeeps(s, b);
        RunKeeps(Apply(s, actions[0]), actions[1..]);
      case AcceptNext(b) =>
        AcceptKeeps(s, b);
        RunKeeps(Apply(s, actions[0]), actions[1..]);
      case Reindex(_) =>
        RunKeeps(Apply(s, actions[0]), actions[1..]);
    }
  }

  /** A node that starts from its genesis block, with an empty window. */
  ghost predicate Genesis(s: State) {
    && s.last.height == 0 && s.last.containers == [] && s.net.blocks == map[s.last.id := s.last]
    && s.index == s.net.blocks && s.seen == map[]
  }

  lemma GenesisHolds(s: State)
    requires Genesis(s) && Closes(s.net.window)
    ensures Inv(s)
  {
  }

  /** A container of a block at height `h` is on the chain of every later block. */
  lemma {:induction false} StaysIncluded(net: Net, b: Block, h: nat)
    requires WellFormed(net) && Has(net, b) && h <= b.height
    ensures IDsOf(Items(Ancestor(net, b, h).containers)) <= IDsOf(Included(net, b))
    decreases b.height
  {
    if b.height > h {
      StaysIncluded(net, Parent(net, b), h);
      IDsOfUnion(Items(b.containers), Included(net, Parent(net, b)));
    } else {
      assert Items(b.containers) <= Included(net, b);
    }
  }

  /**
   * Replay safety of a node that resumes with a window that covers its last accepted block, as
   * rebuilding or syncing leaves it, over a history without repeats: it never lets one in, whatever part
   * of the history it can still fetch.
   */
  lemma ResumedNeverIncludesTwice(s: State, actions: seq<Action>, b: Block, low: nat, high: nat)
    requires WellFormed(s.net) && Indexes(s.net, s.index) && Has(s.net, s.last) && Covers(s.net, s.seen, s.last)
    requires forall id | id in s.net.blocks :: NoReplay(s.net, s.net.blocks[id])
    requires Runs(s, actions) && Timed(actions) && Has(After(s, actions).net, b) && low < high <= b.height
    ensures WellFormed(After(s, actions).net) && Has(After(s, actions).net, b)
    ensures forall i, j | 0 <= i < j < |b.containers| :: b.containers[i].id != b.containers[j].id
    ensures
      var net := After(s, actions).net;
      var (x, y) := (Ancestor(net, b, low).containers, Ancestor(net, b, high).containers);
      forall i, j | 0 <= i < |x| && 0 <= j < |y| :: x[i].id != y[j].id
  {
    RunKeeps(s, actions);
    var net := After(s, actions).net;
    var a := Ancestor(net, b, high);
    assert NoReplay(net, net.blocks[a.id]) && NoReplay(net, net.blocks[b.id]);
    AncestorOfAncestor(net, b, low, high);
    StaysIncluded(net, Parent(net, a), low);
    ApartItems(Ancestor(net, b, low).containers, a.containers);
  }

  lemma ApartItems(x: seq<Item>, y: seq<Item>)
    requires IDsOf(Items(x)) !! IDsOf(Items(y))
    ensures forall i, j | 0 <= i < |x| && 0 <= j < |y| :: x[i].id != y[j].id
  {
    assert forall i | 0 <= i < |x| :: x[i] in Items(x) && x[i].id in IDsOf(Items(x));
    assert forall j | 0 <= j < |y| :: y[j] in Items(y) && y[j].id in IDsOf(Items(y));
  }

  /**
   * Replay safety: whatever blocks a node verifies and accepts from genesis on, no two blocks on one
   * chain share a container, and no block holds one twice.
   */
  lemma NeverIncludedTwice(s: State, actions: seq<Action>, b: Block, low: nat, high: nat)
    requires Genesis(s) && Closes(s.net.window) && Runs(s, actions) && Timed(actions)
    requires Has(After(s, actions).net, b) && low < high <= b.height
    ensures WellFormed(After(s, actions).net) && Has(After(s, actions).net, b)
    ensures forall i, j | 0 <= i < j < |b.containers| :: b.containers[i].id != b.containers[j].id
    ensures
      var net := After(s, actions).net;
      var (x, y) := (Ancestor(net, b, low).containers, Ancestor(net, b, high).containers);
      forall i, j | 0 <= i < |x| && 0 <= j < |y| :: x[i].id != y[j].id
  {
    GenesisHolds(s);
    ResumedNeverIncludesTwice(s, actions, b, low, high);
  }

  lemma {:induction false} AncestorOfAncestor(net: Net, b: Block, low: nat, high: nat)
    requires WellFormed(net) && Has(net, b) && low < high <= b.height
    ensures Ancestor(net, Parent(net, Ancestor(net, b, high)), low) == Ancestor(net, b, low)
    decreases b.height
  {
    if b.height > high {
      AncestorOfAncestor(net, Parent(net, b), low, high);
    }
  }

  /**
   * In every reachable state a block that passes repeats nothing, and one whose unaccepted ancestors can
   * all be fetched passes exactly when it repeats nothing.
   */
  lemma PassesExactlyFresh(s: State, actions: seq<Action>, b: Block)
    requires Genesis(s) && Closes(s.net.window) && Runs(s, actions) && Timed(actions)
    requires WellFormed(After(s, actions).net) && Follows(After(s, actions), b)
    ensures
      var r := After(s, actions);
      var verdict := Verify(r.index, r.seen, r.last.height, r.net.window, b);
      var included := IDsOf(Included(r.net, Parent(r.net, b)));
      var isNew := DistinctIDs(b.containers) && IDsOf(Items(b.containers)) !! included;
      && (verdict == Pass ==> isNew)
      && (b.parent in r.index && Fetchable(r.net, r.index, Parent(r.net, b), r.last) ==> (verdict == Pass <==> isNew))
  {
    GenesisHolds(s);
    RunKeeps(s, actions);
    var r := After(s, actions);
    forall c | c in b.containers
      ensures Live(r.net.window, b.timestamp, c.expiry) && c.expiry == r.net.expiryOf(c.id)
    {
      assert InWindow(r.net, c, b.timestamp);
    }
    SearchExact(r.net, r.seen, r.last, Parent(r.net, b), b.timestamp, b.containers);
    PartVerify(r.net, r.index, r.seen, r.last.height, b);
    if b.parent in r.index && Fetchable(r.net, r.index, Parent(r.net, b), r.last) {
      NothingMissing(r.net, r.index, r.seen, r.last, Parent(r.net, b), OldestAllowed(r.net.window, b.timestamp),
                     IDsOf(Items(b.containers)));
    }
  }

  lemma {:induction false} NothingMissing(net: Net, index: map<BlockID, Block>, m: Expiries, last: Block, a: Block,
                                          oldest: int, ids: set<ID>)
    requires WellFormed(net) && Indexes(net, index) && Has(net, a) && Fetchable(net, index, a, last)
    ensures Search(index, m, last.height, a, oldest, ids) != Missing
    decreases a.height
  {
    if a.height > last.height && a.height > 0 {
      var p := Parent(net, a);
      assert Ancestor(net, a, p.height) == p;
      assert forall h: nat | last.height <= h < p.height :: Ancestor(net, a, h) == Ancestor(net, p, h);
      NothingMissing(net, index, m, last, p, oldest, ids);
    }
  }

  ghost predicate Clean(s: State) {
    Chained(s.net) && forall id | id in s.net.blocks :: NoReplay(s.net, s.net.blocks[id])
  }

  /**
   * A window that does not close lets a container through twice: one that expires at `e`, in a block at
   * `s` and in its child at `t`, which finds its parent outside its own, shorter window.
   */
  lemma UnclosedReplays(window: int -> int, s: int, t: int, e: int) returns (start: State, actions: seq<Action>)
    requires 0 < s <= t && s < t - window(t) && Admits(window, t, e) && s + window(s) >= e
    ensures Genesis(start) && start.net.window == window && Runs(start, actions) && Timed(actions)
    ensures !Clean(After(start, actions))
  {
    var c := Item(7, e);
    var genesis := Block(0, 0, 0, 0, []);
    var (b1, b2) := (Block(1, 0, 1, s, [c]), Block(2, 1, 2, t, [c]));
    start := State(Net(map[0 := genesis], window, id => e), map[0 := genesis], map[], genesis);
    FirstPasses(start, b1);
    var s1 := Apply(start, VerifyBlock(b1));
    GrowKeepsChain(start.net, b1, genesis);
    assert Ancestor(s1.net, b1, 0) == genesis;
    GrowKeepsChain(s1.net, b2, b1);
    Twice(Apply(s1, VerifyBlock(b2)), b1, b2, c);
    RunsFirst(s1, VerifyBlock(b2), []);
    RunsFirst(start, VerifyBlock(b1), [VerifyBlock(b2)]);
    actions := [VerifyBlock(b1)] + [VerifyBlock(b2)];
  }

  lemma RunsFirst(s: State, a: Action, rest: seq<Action>)
    requires Chained(s.net) && Enabled(s, a) && Runs(Apply(s, a), rest)
    ensures Runs(s, [a] + rest) && After(s, [a] + rest) == After(Apply(s, a), rest)
  {
    assert ([a] + rest)[1..] == rest;
  }

  /** A child of the genesis block passes if it repeats nothing itself. */
  lemma FirstPasses(s: State, b: Block)
    requires Genesis(s) && b.id != s.last.id && b.parent == s.last.id && WellFormedBlock(s.net, b) && b.height == 1
    requires DistinctIDs(b.containers)
    ensures Chained(s.net) && Enabled(s, VerifyBlock(b))
  {
    assert Has(s.net, s.last);
  }

  lemma Twice(s: State, b1: Block, b2: Block, c: Item)
    requires Chained(s.net) && Has(s.net, b1) && Has(s.net, b2) && b2.height > 0 && Parent(s.net, b2) == b1
    requires c in b1.containers && c in b2.containers
    ensures !Clean(s)
  {
    assert c in Items(b1.containers);
    TwiceOnChain(s, b2, c);
  }

  lemma TwiceOnChain(s: State, b: Block, c: Item)
    requires Chained(s.net) && Has(s.net, b) && b.height > 0
    requires c in b.containers && c in Included(s.net, Parent(s.net, b))
    ensures !Clean(s)
  {
    assert c in Items(b.containers);
    assert c.id in IDsOf(Items(b.containers)) && c.id in IDsOf(Included(s.net, Parent(s.net, b)));
    assert !NoReplay(s.net, s.net.blocks[b.id]);
  }

  /**
   * The exact condition on the rules: with blocks at positive times, every run from genesis is free of
   * replays if and only if the window closes.
   */
  lemma SafeExactlyIfCloses(window: int -> int)
    ensures Closes(window)
            <==> forall s, actions | Genesis(s) && s.net.window == window && Runs(s, actions) && Timed(actions) ::
                   Clean(After(s, actions))
  {
    if Closes(window) {
      forall s, actions | Genesis(s) && s.net.window == window && Runs(s, actions) && Timed(actions)
        ensures Clean(After(s, actions))
      {
        GenesisHolds(s);
        RunKeeps(s, actions);
      }
    } else {
      var s, t, e :| 0 < s <= t && s < t - window(t) && Admits(window, t, e) && s + window(s) >= e;
      var start, actions := UnclosedReplays(window, s, t, e);
    }
  }

  // ---------------------------------------------------------------------------------------------
  // Nodes that rebuild their window
  // ---------------------------------------------------------------------------------------------

  /** A node whose window was rebuilt, and reported full, from the stretch `bs` of a history without repeats. */
  ghost predicate Rebuilt(s: State, bs: seq<Block>) {
    && Clean(s) && Has(s.net, s.last) && Indexes(s.net, s.index)
    && (forall b {:trigger Has(s.net, b)} | Has(s.net, b) && b.height > 0 :: b.timestamp > 0)
    && Stretch(s.net, bs, s.last) && s.seen == AcceptAll(map[], bs)
    && (bs[0].height == 0 || (|bs| > 1 && bs[0].timestamp < OldestAllowed(s.net.window, s.last.timestamp)))
  }

  lemma RebuiltHolds(s: State, bs: seq<Block>)
    requires Rebuilt(s, bs) && ClosesAhead(s.net.window)
    ensures Inv(s)
  {
    assert Closes(s.net.window) by {
      forall p, t, e | 0 < p <= t && p < t - s.net.window(t) && Admits(s.net.window, t, e)
        ensures p + s.net.window(p) < e
      {
        assert Aligned(e);
      }
    }
    StretchCovered(s.net, map[], bs, s.last, |bs| - 1);
    StretchSound(s.net, map[], bs, s.last, |bs|);
    assert bs[..|bs|] == bs;
    NotLater(s.net, s.last, bs[0].height);
    if bs[0].height > 0 {
      FullWindow(s.net, s.seen, s.last, bs[0].height, s.last.timestamp);
    }
  }

  /** The chain of `UnclosedAheadReplays`: a container at `s`, out of sight of a window rebuilt at `t`. */
  ghost function Forgetful(window: int -> int, s: int, t: int, e: int): (r: State) {
    var last := Block(3, 2, 3, t, []);
    var blocks := map[0 := Block(0, 0, 0, 0, []), 1 := Block(1, 0, 1, s, [Item(7, e)]), 2 := Block(2, 1, 2, s, []),
                      3 := last];
    State(Net(blocks, window, id => e), map[3 := last], map[], last)
  }

  lemma ForgetfulChained(window: int -> int, s: int, t: int, e: int)
    requires 0 < s <= t && t <= e && Aligned(e) && s + window(s) >= e
    ensures var net := Forgetful(window, s, t, e).net;
            && Chained(net)
            && (forall b {:trigger Has(net, b)} | Has(net, b) && b.height > 0 :: b.timestamp > 0)
            && (forall id | id in net.blocks :: Has(net, net.blocks[id]))
  {
    var net := Forgetful(window, s, t, e).net;
    forall b | Has(net, b)
      ensures WellFormedBlock(net, b) && (b.height > 0 ==> b.timestamp > 0)
    {
      assert b.id == 0 || b.id == 1 || b.id == 2 || b.id == 3;
    }
  }

  lemma ForgetfulClean(window: int -> int, s: int, t: int, e: int)
    requires 0 < s <= t && t <= e && Aligned(e) && s + window(s) >= e
    ensures var r := Forgetful(window, s, t, e);
            Clean(r) && Has(r.net, r.last) && Item(7, e) in Included(r.net, r.last)
  {
    ForgetfulChained(window, s, t, e);
    var r := Forgetful(window, s, t, e);
    var (b0, b1, b2) := (r.net.blocks[0], r.net.blocks[1], r.net.blocks[2]);
    assert Has(r.net, b0) && Has(r.net, b1) && Has(r.net, b2) && Has(r.net, r.last);
    hide Chained;
    assert Included(r.net, b0) == {};
    assert Item(7, e) in Items(b1.containers);
    assert Included(r.net, b2) == Items([]) + Included(r.net, b1);
    assert Included(r.net, r.last) == Items([]) + Included(r.net, b2);
    assert IDsOf(Included(r.net, b0)) == {};
    forall id | id in r.net.blocks
      ensures NoReplay(r.net, r.net.blocks[id])
    {
      assert id == 0 || id == 1 || id == 2 || id == 3;
      assert id != 1 ==> Items(r.net.blocks[id].containers) == {};
    }
  }

  lemma ForgetfulRebuilt(window: int -> int, s: int, t: int, e: int)
    requires 0 < s <= t && s < t - window(t) && t <= e && Aligned(e) && s + window(s) >= e
    ensures Rebuilt(Forgetful(window, s, t, e), [Block(2, 1, 2, s, []), Block(3, 2, 3, t, [])])
  {
    ForgetfulChained(window, s, t, e);
    ForgetfulClean(window, s, t, e);
    hide Clean, Chained;
    var r := Forgetful(window, s, t, e);
    var (b2, b3) := (Block(2, 1, 2, s, []), Block(3, 2, 3, t, []));
    assert Ancestor(r.net, b3, 2) == b2;
    assert [b2, b3][..1] == [b2] && [b2][..0] == [];
    assert AcceptAll(map[], [b2]) == AcceptBlock(map[], b2) == map[];
    assert AcceptAll(map[], [b2, b3]) == AcceptBlock(map[], b3) == map[];
  }

  /** A window that does not close ahead forgets, when it is rebuilt at `t`, what comes back at `e`. */
  lemma UnclosedAheadReplays(window: int -> int, s: int, t: int, e: int)
    requires 0 < s <= t && s < t - window(t) && t <= e && Aligned(e) && s + window(s) >= e && window(e) >= 0
    ensures var r := Forgetful(window, s, t, e);
            var again := [VerifyBlock(Block(4, 3, 4, e, [Item(7, e)]))];
            && Rebuilt(r, [Block(2, 1, 2, s, []), Block(3, 2, 3, t, [])])
            && Runs(r, again) && Timed(again) && !Clean(After(r, again))
  {
    ForgetfulRebuilt(window, s, t, e);
    ForgetfulClean(window, s, t, e);
    var r := Forgetful(window, s, t, e);
    var (b3, b4) := (r.last, Block(4, 3, 4, e, [Item(7, e)]));
    GrowKeepsChain(r.net, b4, b3);
    RunsFirst(r, VerifyBlock(b4), []);
    assert [VerifyBlock(b4)] + [] == [VerifyBlock(b4)];
    var grown := Apply(r, VerifyBlock(b4));
    assert Included(grown.net, b3) == Since(r.net, b3, 0);
    TwiceOnChain(grown, b4, Item(7, e));
  }

  /**
   * The exact condition for nodes that rebuild their window: every run of every such node is free of
   * replays if and only if the window closes ahead.
   */
  lemma RebuiltSafeExactlyIfClosesAhead(window: int -> int)
    requires forall t :: window(t) >= 0
    ensures ClosesAhead(window)
            <==> forall s, bs, actions |
                   Rebuilt(s, bs) && s.net.window == window && Runs(s, actions) && Timed(actions) ::
                   Clean(After(s, actions))
  {
    if ClosesAhead(window) {
      forall s, bs, actions | Rebuilt(s, bs) && s.net.window == window && Runs(s, actions) && Timed(actions)
        ensures Clean(After(s, actions))
      {
        RebuiltHolds(s, bs);
        RunKeeps(s, actions);
      }
    } else {
      var s, t, e :| 0 < s <= t && s < t - window(t) && t <= e && Aligned(e) && s + window(s) >= e;
      UnclosedAheadReplays(window, s, t, e);
    }
  }

  /** At time 0 even a window that closes does not help: a container that expires at 0 is never remembered. */
  lemma ZeroTimeReplays(window: int -> int) returns (start: State, actions: seq<Action>)
    requires window(0) >= 0
    ensures Genesis(start) && start.net.window == window && Runs(start, actions) && !Clean(After(start, actions))
  {
    var c := Item(7, 0);
    var genesis := Block(0, 0, 0, 0, []);
    var (b1, b2) := (Block(1, 0, 1, 0, [c]), Block(2, 1, 2, 0, [c]));
    start := State(Net(map[0 := genesis], window, id => 0), map[0 := genesis], map[], genesis);
    FirstPasses(start, b1);
    var s1 := Apply(start, VerifyBlock(b1));
    GrowKeepsChain(start.net, b1, genesis);
    assert Enabled(s1, AcceptNext(b1));
    ZeroForgotten(b1, c);
    var s2 := Apply(s1, AcceptNext(b1));
    assert Has(s2.net, b1) && Descends(s2.net, b1, s2.last);
    GrowKeepsChain(s2.net, b2, b1);
    Twice(Apply(s2, VerifyBlock(b2)), b1, b2, c);
    RunsFirst(s2, VerifyBlock(b2), []);
    RunsFirst(s1, AcceptNext(b1), [VerifyBlock(b2)]);
    actions := [AcceptNext(b1)] + [VerifyBlock(b2)];
    RunsFirst(start, VerifyBlock(b1), actions);
    actions := [VerifyBlock(b1)] + actions;
  }

  lemma ZeroForgotten(b: Block, c: Item)
    requires b.timestamp == 0 && b.containers == [c] && c.expiry == 0
    ensures AcceptBlock(map[], b) == map[]
  {
    assert AddedAll(map[], [c]) == Added(AddedAll(map[], []), c);
    assert Unexpired(map[], 0) == map[];
  }
}
