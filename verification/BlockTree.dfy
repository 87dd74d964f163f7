/** The block tree behind the validity window, and what the containers of a chain of blocks are. */
module BlockTree {
  import opened Heaps
  import opened EMaps

  type BlockID = nat

  datatype Block = Block(id: BlockID, parent: BlockID, height: nat, timestamp: int, containers: seq<Item>)

  /**
   * The blocks that exist, the validity window in force at each time, and the expiry that each
   * container ID commits to (an ID is the hash of the container's bytes).
   */
  datatype Net = Net(blocks: map<BlockID, Block>, window: int -> int, expiryOf: ID -> int)

  predicate InOrder(net: Net, b: Block) {
    b.height > 0 ==>
      && b.parent in net.blocks && net.blocks[b.parent].height == b.height - 1
      && b.timestamp >= 0 && (b.height > 1 ==> net.blocks[b.parent].timestamp <= b.timestamp)
  }

  datatype TimeVerdict = InTime | Misaligned | Expired | TooFarAhead

  /** A container's timestamp against the time of the block that would hold it. */
  function VerifyTimestamp(t: int, now: int, divisor: int, window: int): (r: TimeVerdict)
    requires divisor > 0
    ensures r.InTime? <==> t % divisor == 0 && now <= t <= now + window
  {
    if t % divisor != 0 then Misaligned
    else if t < now then Expired
    else if t > now + window then TooFarAhead
    else InTime
  }

  /** Expiries are whole seconds, in milliseconds. */
  const EXPIRY_DIVISOR := 1000

  predicate Aligned(e: int) {
    e % EXPIRY_DIVISOR == 0
  }

  /** A block at `t` may hold what expires at `e`. */
  predicate Admits(window: int -> int, t: int, e: int) {
    VerifyTimestamp(e, t, EXPIRY_DIVISOR, window(t)).InTime?
  }

  /** A container's timestamp is its expiry: a whole second, not past, and at most one window ahead. */
  predicate InWindow(net: Net, c: Item, t: int) {
    c.expiry == net.expiryOf(c.id) && Admits(net.window, t, c.expiry)
  }

  predicate WellFormedBlock(net: Net, b: Block) {
    && InOrder(net, b)
    && (b.height == 0 ==> b.containers == [])
    && (forall c | c in b.containers :: InWindow(net, c, b.timestamp))
  }

  /** Once a block at `s` has left the window of `t`, it holds nothing that a block at `t` may hold. */
  ghost predicate Closes(window: int -> int) {
    forall s, t, e | 0 < s <= t && s < t - window(t) && Admits(window, t, e) :: s + window(s) < e
  }

  /** The same for everything that has not expired at `t`: then a block may be forgotten for good. */
  ghost predicate ClosesAhead(window: int -> int) {
    forall s, t, e | 0 < s <= t && s < t - window(t) && t <= e && Aligned(e) :: s + window(s) < e
  }

  /** A window that never shrinks closes; the default rules keep it constant. */
  lemma NeverShrinksCloses(window: int -> int)
    requires forall s, t | s <= t :: window(s) <= window(t)
    ensures Closes(window) && ClosesAhead(window)
  {
    forall s, t | 0 < s <= t && s < t - window(t)
      ensures s + window(s) < t
    {
      assert window(s) <= window(t);
    }
  }

  /** A window that always spans a whole second closes ahead as soon as it closes. */
  lemma SpanningCloses(window: int -> int)
    requires Closes(window) && forall t :: window(t) >= EXPIRY_DIVISOR - 1
    ensures ClosesAhead(window)
  {
    forall s, t, e | 0 < s <= t && s < t - window(t) && t <= e && Aligned(e)
      ensures s + window(s) < e
    {
      var first := t + (EXPIRY_DIVISOR - 1) - (t + (EXPIRY_DIVISOR - 1)) % EXPIRY_DIVISOR;
      assert Admits(window, t, first);
      assert first <= e;
    }
  }

  /** What expires at `e` can make a difference to a search at `t`. */
  ghost predicate Live(window: int -> int, t: int, e: int) {
    t <= e && (e <= t + window(t) || ClosesAhead(window))
  }

  ghost predicate Has(net: Net, b: Block) {
    b.id in net.blocks && net.blocks[b.id] == b
  }

  /**
   * Every block follows its parent and holds containers that its own timestamp admits. The genesis
   * block holds none, and its timestamp may be later than its children's.
   */
  ghost predicate Chained(net: Net) {
    && (forall id | id in net.blocks :: net.blocks[id].id == id)
    && (forall b {:trigger Has(net, b)} | Has(net, b) :: WellFormedBlock(net, b))
  }

  /** What replay protection needs besides: a window that closes, and no block at time 0. */
  ghost predicate WellFormed(net: Net) {
    && Chained(net) && Closes(net.window)
    && (forall b {:trigger Has(net, b)} | Has(net, b) && b.height > 0 :: b.timestamp > 0)
  }

  function Parent(net: Net, b: Block): Block
    requires InOrder(net, b) && b.height > 0
  {
    net.blocks[b.parent]
  }

  function Items(s: seq<Item>): set<Item> {
    set c | c in s
  }

  function IDsOf(s: set<Item>): set<ID> {
    set c | c in s :: c.id
  }

  /** The containers of `b` and of its ancestors down to height `h`. */
  ghost function Since(net: Net, b: Block, h: nat): set<Item>
    requires Chained(net) && Has(net, b)
    decreases b.height
  {
    if b.height < h then {}
    else if b.height == 0 then Items(b.containers)
    else Items(b.containers) + Since(net, Parent(net, b), h)
  }

  ghost function Included(net: Net, b: Block): set<Item>
    requires Chained(net) && Has(net, b)
  {
    Since(net, b, 0)
  }

  /** The ancestor of `b`, or `b` itself, at height `h`. */
  ghost function Ancestor(net: Net, b: Block, h: nat): (a: Block)
    requires Chained(net) && Has(net, b) && h <= b.height
    ensures Has(net, a) && a.height == h
    decreases b.height
  {
    if b.height == h then b else Ancestor(net, Parent(net, b), h)
  }

  ghost predicate Descends(net: Net, b: Block, a: Block)
    requires Chained(net) && Has(net, b)
  {
    a.height <= b.height && Ancestor(net, b, a.height) == a
  }

  lemma {:induction false} SinceSplits(net: Net, b: Block, h: nat)
    requires WellFormed(net) && Has(net, b) && h <= b.height
    ensures Included(net, b) == Since(net, b, h + 1) + Included(net, Ancestor(net, b, h))
    ensures Since(net, b, h) == Since(net, b, h + 1) + Items(Ancestor(net, b, h).containers)
    decreases b.height
  {
    if b.height > h {
      SinceSplits(net, Parent(net, b), h);
    } else if b.height > 0 {
      assert Since(net, Parent(net, b), h) == {};
    }
  }

  /** Containers carry the expiry their ID commits to, wherever they are. */
  lemma {:induction false} Committed(net: Net, b: Block, h: nat, c: Item)
    requires WellFormed(net) && Has(net, b) && c in Since(net, b, h)
    ensures c.expiry == net.expiryOf(c.id) && c.expiry > 0
    decreases b.height
  {
    if c in b.containers {
      assert InWindow(net, c, b.timestamp);
    } else {
      Committed(net, Parent(net, b), h, c);
    }
  }

  function OldestAllowed(window: int -> int, t: int): (r: int)
    ensures r >= 0 && r >= t - window(t) && (r == 0 || r == t - window(t))
  {
    if t - window(t) > 0 then t - window(t) else 0
  }

  /** Past the first block older than the window, nothing on the chain can make a difference any more. */
  lemma {:induction false} BeyondWindow(net: Net, a: Block, t: int, c: Item)
    requires WellFormed(net) && Has(net, a) && a.timestamp < OldestAllowed(net.window, t)
    requires a.height > 0 ==> a.timestamp <= t
    requires c in Included(net, a)
    ensures !Live(net.window, t, c.expiry)
    decreases a.height
  {
    if c in a.containers {
      assert InWindow(net, c, a.timestamp);
      assert Aligned(c.expiry) && (t <= c.expiry <= t + net.window(t) ==> Admits(net.window, t, c.expiry));
    } else {
      assert Has(net, Parent(net, a)) && c in Included(net, Parent(net, a));
      BeyondWindow(net, Parent(net, a), t, c);
    }
  }
}
