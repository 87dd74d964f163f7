/**
 * The block lifecycle over whole runs: blocks are verified, accepted and rejected by consensus, in
 * normal operation and vacuously during dynamic state sync, which starts and finishes in between.
 */
module Lifecycle {
  import opened Bytes
  import opened Snow
  import opened Handover

  /** The blocks that exist, and the output of the genesis block. */
  datatype World<!S> = World(blocks: map<BlockID, Input>, genesis: BlockID, output: Output<S>)

  ghost predicate Follows<S>(w: World<S>, id: BlockID) {
    id in w.blocks && w.blocks[id].id == id
    && (id != w.genesis ==>
          w.blocks[id].parent in w.blocks && w.blocks[w.blocks[id].parent].height + 1 == w.blocks[id].height)
  }

  ghost predicate Tree<S>(w: World<S>) {
    w.genesis in w.blocks && forall id {:trigger Follows(w, id)} | id in w.blocks :: Follows(w, id)
  }

  /** The reference: what verifying every block from the genesis block on gives, if nothing on the way is refused. */
  ghost function True<S, A>(chain: Chain<S, A>, w: World<S>, id: BlockID): Maybe<Output<S>>
    requires Tree(w) && id in w.blocks
    decreases w.blocks[id].height
  {
    if id == w.genesis then Some(w.output)
    else
      assert Follows(w, id);
      var p := True(chain, w, w.blocks[id].parent);
      if p.Nothing? then Nothing else VerifyBlock(chain, p.value, w.blocks[id])
  }

  /** `id` is `a` or descends from it. */
  ghost predicate Under<S>(w: World<S>, id: BlockID, a: BlockID)
    requires Tree(w) && id in w.blocks
    decreases w.blocks[id].height
  {
    id == a || (id != w.genesis && (assert Follows(w, id); Under(w, w.blocks[id].parent, a)))
  }

  lemma {:induction false} UnderHigher<S>(w: World<S>, id: BlockID, a: BlockID)
    requires Tree(w) && id in w.blocks && Under(w, id, a)
    ensures a in w.blocks && (id == a || w.blocks[a].height < w.blocks[id].height)
    decreases w.blocks[id].height
  {
    if id != a {
      assert Follows(w, id);
      UnderHigher(w, w.blocks[id].parent, a);
    }
  }

  /** What is under a child is under its parent. */
  lemma {:induction false} UnderParent<S>(w: World<S>, id: BlockID, b: BlockID)
    requires Tree(w) && id in w.blocks && b in w.blocks && b != w.genesis && Under(w, id, b)
    ensures Under(w, id, w.blocks[b].parent)
    decreases w.blocks[id].height
  {
    assert Follows(w, id);
    if id != b {
      UnderParent(w, w.blocks[id].parent, b);
    }
  }

  /**
   * A node: whether its state is ready, the processing blocks with their status, the accepted blocks
   * with the status that looking them up gives, and the last accepted one.
   */
  datatype Node<!S> = Node(
    ready: bool, processing: map<BlockID, Status<S>>, accepted: map<BlockID, Status<S>>, last: BlockID)

  datatype Action<!A> =
    | StartSync(b: BlockID)                       // state sync starts towards this block
    | Verify(b: BlockID, built: bool)             // consensus issues a block, built here or received
    | Accept(b: BlockID)
    | Reject(b: BlockID)
    | Evict(b: BlockID)                           // an accepted block leaves the cache; its input stays on disk
    | FinishSync(target: BlockID, accepted: A)    // the state of this block is at hand

  function Unverified<S>(): (r: Status<S>) {
    Status(false, Nothing)
  }

  /** Looking a block up: processing ones first, then accepted ones. */
  function Lookup<S>(n: Node<S>, id: BlockID): (r: Status<S>) {
    if id in n.processing then n.processing[id] else if id in n.accepted then n.accepted[id] else Unverified()
  }

  ghost function FrontierOf<S>(w: World<S>, n: Node<S>): (f: Frontier<S>)
    requires n.processing.Keys <= w.blocks.Keys
  {
    Frontier(map id | id in n.processing :: w.blocks[id], n.processing, n.accepted)
  }

  ghost predicate AllFetchable<S>(w: World<S>, n: Node<S>)
    requires n.processing.Keys <= w.blocks.Keys
  {
    forall id | id in n.processing :: w.blocks[id].parent in n.processing || w.blocks[id].parent in n.accepted
  }

  /** The blocks above `a` up to and including `id`. */
  ghost function Above<S>(w: World<S>, a: BlockID, id: BlockID): (p: seq<Input>)
    requires Tree(w) && id in w.blocks && Under(w, id, a)
    decreases w.blocks[id].height
  {
    if id == a then []
    else
      assert Follows(w, id);
      Above(w, a, w.blocks[id].parent) + [w.blocks[id]]
  }

  lemma {:induction false} FoldIsTrue<S, A>(chain: Chain<S, A>, w: World<S>, a: BlockID, id: BlockID)
    requires Tree(w) && id in w.blocks && a in w.blocks && Under(w, id, a) && True(chain, w, a).Some?
    ensures Fold(chain, True(chain, w, a).value, Above(w, a, id)) == True(chain, w, id)
    decreases w.blocks[id].height
  {
    if id != a {
      assert Follows(w, id);
      var p := w.blocks[id].parent;
      FoldIsTrue(chain, w, a, p);
      assert Above(w, a, id)[..|Above(w, a, id)| - 1] == Above(w, a, p);
    }
  }

  // ---------------------------------------------------------------------------------------------
  // The invariant
  // ---------------------------------------------------------------------------------------------

  /** A status that, if verified, has the output that verification from the genesis block gives. */
  ghost predicate Right<S, A>(chain: Chain<S, A>, w: World<S>, id: BlockID, s: Status<S>)
    requires Tree(w) && id in w.blocks
  {
    if s.verified then s.output.Some? && s.output == True(chain, w, id) else s.output.Nothing?
  }

  ghost predicate Placed<S>(w: World<S>, n: Node<S>) {
    && Tree(w) && n.processing.Keys <= w.blocks.Keys && n.accepted.Keys <= w.blocks.Keys
    && n.processing.Keys !! n.accepted.Keys
    && w.genesis in n.accepted && n.last in n.accepted
    && forall id | id in n.accepted :: w.blocks[id].height <= w.blocks[n.last].height
  }

  /**
   * Every verified block has its true output. In a ready node the last accepted block is verified, and a
   * processing block on top of it is verified exactly if it and everything below it is valid.
   */
  ghost predicate Inv<S, A>(chain: Chain<S, A>, w: World<S>, n: Node<S>) {
    && Placed(w, n)
    && (forall id | id in n.processing :: Right(chain, w, id, n.processing[id]))
    && (forall id | id in n.accepted :: Right(chain, w, id, n.accepted[id]))
    && (n.ready ==> n.accepted[n.last].verified)
    && (n.ready ==> forall id | id in n.processing && Under(w, id, n.last) ::
                      n.processing[id].verified <==> True(chain, w, id).Some?)
  }

  lemma LookupRight<S, A>(chain: Chain<S, A>, w: World<S>, n: Node<S>, id: BlockID)
    requires Inv(chain, w, n)
    ensures Lookup(n, id).verified <==> Lookup(n, id).output.Some?
  {
  }

  // ---------------------------------------------------------------------------------------------
  // Steps
  // ---------------------------------------------------------------------------------------------

  /** The result of reprocessing the accepted blocks above `target`, from its state. */
  ghost function Settled<S, A>(chain: Chain<S, A>, w: World<S>, n: Node<S>, target: BlockID,
                               accepted: A): Maybe<(Output<S>, A)>
    requires Tree(w) && n.last in w.blocks && target in w.blocks && Under(w, n.last, target)
  {
    if True(chain, w, target).Nothing? then Nothing
    else Reprocess(chain, True(chain, w, target).value, accepted, Above(w, target, n.last))
  }

  /**
   * What consensus and state sync guarantee: a sync target is no lower than the last accepted block; a
   * block is issued once, on the last accepted block or on a processing one; only a child of the last
   * accepted block is accepted; and state sync delivers the true state of a block on the accepted chain.
   */
  ghost predicate Enabled<S, A>(chain: Chain<S, A>, w: World<S>, n: Node<S>, a: Action<A>)
    requires Placed(w, n)
  {
    match a
    case StartSync(b) => b in w.blocks && b !in n.processing && w.blocks[n.last].height <= w.blocks[b].height
    case Verify(b, built) =>
      && b in w.blocks && b !in n.processing && b !in n.accepted
      && (w.blocks[b].parent == n.last || w.blocks[b].parent in n.processing)
      && (built ==> && Lookup(n, w.blocks[b].parent).output.Some?
                    && VerifyBlock(chain, Lookup(n, w.blocks[b].parent).output.value, w.blocks[b]).Some?)
    case Accept(b) => b in n.processing && w.blocks[b].parent == n.last
    case Reject(b) => b in n.processing
    case Evict(b) => b in n.accepted && b != n.last
    case FinishSync(t, accepted) =>
      && !n.ready && t in w.blocks && Under(w, n.last, t)
      && Settled(chain, w, n, t, accepted).Some? && AllFetchable(w, n)
  }

  /** The status a block gets when it is issued, or nothing if that is refused. */
  function Issued<S, A>(chain: Chain<S, A>, n: Node<S>, b: Input, built: bool): (r: Maybe<Status<S>>) {
    var p := Lookup(n, b.parent);
    var o := if p.output.Some? then VerifyBlock(chain, p.output.value, b) else Nothing;
    if built then Some(Status(o.Some?, o))
    else if !n.ready then Some(Unverified())
    else if !p.verified || o.Nothing? || !chain.verifiedOk(o.value.state) then Nothing
    else Some(Status(true, o))
  }

  /** The node with its last accepted block settled. */
  function HandedOver<S>(n: Node<S>, o: Output<S>): (r: Node<S>) {
    n.(accepted := n.accepted[n.last := Status(true, Some(o))])
  }

  ghost predicate Framed<S>(w: World<S>, n: Node<S>)
    requires n.processing.Keys <= w.blocks.Keys
  {
    FrontierOf(w, n).Valid()
  }

  lemma FramedIfRight<S, A>(chain: Chain<S, A>, w: World<S>, n: Node<S>)
    requires Placed(w, n)
    requires forall id | id in n.processing :: Right(chain, w, id, n.processing[id])
    requires forall id | id in n.accepted :: Right(chain, w, id, n.accepted[id])
    ensures Framed(w, n)
  {
    assert forall id | id in n.processing :: Follows(w, id) && id != w.genesis;
  }

  ghost function Apply<S, A>(chain: Chain<S, A>, w: World<S>, n: Node<S>, a: Action<A>): (r: Node<S>)
    requires Inv(chain, w, n) && Enabled(chain, w, n, a)
  {
    match a
    case StartSync(b) => n.(ready := false, accepted := n.accepted[b := Unverified()], last := b)
    case Verify(b, built) =>
      var s := Issued(chain, n, w.blocks[b], built);
      if s.Nothing? then n else n.(processing := n.processing[b := s.value])
    case Accept(b) =>
      if n.ready && !n.processing[b].verified then n
      else n.(processing := n.processing - {b}, accepted := n.accepted[b := n.processing[b]], last := b)
    case Reject(b) => n.(processing := n.processing - {b})
    case Evict(b) => n.(accepted := n.accepted[b := Unverified()])
    case FinishSync(t, accepted) =>
      var h := HandedOver(n, Settled(chain, w, n, t, accepted).value.0);
      HandedInv(chain, w, n, t, accepted);
      FramedIfRight(chain, w, h);
      h.(ready := true, processing := map id | id in n.processing :: Final(chain, FrontierOf(w, h), id))
  }

  /** Reprocessing from a true state ends in the true output of the last accepted block. */
  lemma HandedInv<S, A>(chain: Chain<S, A>, w: World<S>, n: Node<S>, t: BlockID, accepted: A)
    requires Inv(chain, w, n) && Enabled(chain, w, n, FinishSync(t, accepted))
    ensures var o := Settled(chain, w, n, t, accepted).value.0;
            && True(chain, w, n.last) == Some(o)
            && var h := HandedOver(n, o);
               && Placed(w, h)
               && (forall id | id in h.processing :: Right(chain, w, id, h.processing[id]))
               && (forall id | id in h.accepted :: Right(chain, w, id, h.accepted[id]))
  {
    FoldIsTrue(chain, w, t, n.last);
    ReprocessFolds(chain, True(chain, w, t).value, accepted, Above(w, t, n.last));
  }

  /** Re-verification in order of height gives every processing block on the last accepted one its true status. */
  lemma {:induction false} FinalIsRight<S, A>(chain: Chain<S, A>, w: World<S>, n: Node<S>, id: BlockID)
    requires Placed(w, n) && AllFetchable(w, n) && id in n.processing
    requires forall x | x in n.processing :: Right(chain, w, x, n.processing[x])
    requires forall x | x in n.accepted :: Right(chain, w, x, n.accepted[x])
    requires n.accepted[n.last].verified
    ensures Framed(w, n) && Right(chain, w, id, Final(chain, FrontierOf(w, n), id))
    ensures Under(w, id, n.last) ==> (Final(chain, FrontierOf(w, n), id).verified <==> True(chain, w, id).Some?)
    decreases w.blocks[id].height
  {
    FramedIfRight(chain, w, n);
    assert Follows(w, id) && id != w.genesis;
    var p := w.blocks[id].parent;
    if p in n.processing {
      FinalIsRight(chain, w, n, p);
    } else if Under(w, id, n.last) {
      UnderHigher(w, p, n.last);
    }
  }

  /** What finishing a sync makes of the node, on a frontier `f` that is the settled node's. */
  lemma FinishApplies<S, A>(chain: Chain<S, A>, w: World<S>, n: Node<S>, t: BlockID, accepted: A, f: Frontier<S>,
                            after: map<BlockID, Status<S>>)
    requires Inv(chain, w, n) && Enabled(chain, w, n, FinishSync(t, accepted))
    requires f == FrontierOf(w, HandedOver(n, Settled(chain, w, n, t, accepted).value.0)) && f.Valid()
    requires after.Keys == n.processing.Keys && forall id | id in after :: after[id] == Final(chain, f, id)
    ensures Apply(chain, w, n, FinishSync(t, accepted)) == Node(true, after, f.base, n.last)
  {
    hide Final, Inv, Settled;
    assert after == map id | id in n.processing :: Final(chain, f, id);
  }

  // ---------------------------------------------------------------------------------------------
  // Preservation
  // ---------------------------------------------------------------------------------------------

  lemma VerifyKeeps<S, A>(chain: Chain<S, A>, w: World<S>, n: Node<S>, b: BlockID, built: bool)
    requires Inv(chain, w, n) && Enabled(chain, w, n, Verify(b, built))
    ensures Inv(chain, w, Apply(chain, w, n, Verify(b, built)))
  {
    assert Follows(w, b) && b != w.genesis;
    var p := w.blocks[b].parent;
    assert Right(chain, w, p, Lookup(n, p));
  }

  lemma AcceptKeeps<S, A>(chain: Chain<S, A>, w: World<S>, n: Node<S>, b: BlockID)
    requires Inv(chain, w, n) && Enabled(chain, w, n, Accept(b))
    ensures Inv(chain, w, Apply(chain, w, n, Accept(b)))
  {
    assert Follows(w, b) && b != w.genesis;
    forall id | id in n.processing && Under(w, id, b)
      ensures Under(w, id, n.last)
    {
      UnderParent(w, id, b);
    }
  }

  lemma FinishKeeps<S, A>(chain: Chain<S, A>, w: World<S>, n: Node<S>, t: BlockID, accepted: A)
    requires Inv(chain, w, n) && Enabled(chain, w, n, FinishSync(t, accepted))
    ensures Inv(chain, w, Apply(chain, w, n, FinishSync(t, accepted)))
  {
    HandedInv(chain, w, n, t, accepted);
    var h := HandedOver(n, Settled(chain, w, n, t, accepted).value.0);
    forall id | id in n.processing
      ensures Framed(w, h) && Right(chain, w, id, Final(chain, FrontierOf(w, h), id))
      ensures Under(w, id, n.last) ==> (Final(chain, FrontierOf(w, h), id).verified <==> True(chain, w, id).Some?)
    {
      FinalIsRight(chain, w, h, id);
    }
  }

  lemma StepKeeps<S, A>(chain: Chain<S, A>, w: World<S>, n: Node<S>, a: Action<A>)
    requires Inv(chain, w, n) && Enabled(chain, w, n, a)
    ensures Inv(chain, w, Apply(chain, w, n, a))
  {
    match a
    case Verify(b, built) => VerifyKeeps(chain, w, n, b, built);
    case Accept(b) => AcceptKeeps(chain, w, n, b);
    case FinishSync(t, accepted) => FinishKeeps(chain, w, n, t, accepted);
    case _ =>
  }

  ghost predicate Runs<S, A>(chain: Chain<S, A>, w: World<S>, n: Node<S>, actions: seq<Action<A>>)
    requires Inv(chain, w, n)
    decreases |actions|
  {
    actions != [] ==>
      && Enabled(chain, w, n, actions[0])
      && (StepKeeps(chain, w, n, actions[0]); Runs(chain, w, Apply(chain, w, n, actions[0]), actions[1..]))
  }

  ghost function After<S, A>(chain: Chain<S, A>, w: World<S>, n: Node<S>, actions: seq<Action<A>>): (r: Node<S>)
    requires Inv(chain, w, n) && Runs(chain, w, n, actions)
    ensures Inv(chain, w, r)
    decreases |actions|
  {
    if actions == [] then n
    else
      StepKeeps(chain, w, n, actions[0]);
      After(chain, w, Apply(chain, w, n, actions[0]), actions[1..])
  }

  /** A node at its genesis block, ready or about to sync. */
  function Genesis<S>(w: World<S>, ready: bool): (n: Node<S>) {
    Node(ready, map[], map[w.genesis := if ready then Status(true, Some(w.output)) else Unverified()], w.genesis)
  }

  lemma GenesisHolds<S, A>(chain: Chain<S, A>, w: World<S>, ready: bool)
    requires Tree(w)
    ensures Inv(chain, w, Genesis(w, ready))
  {
  }

  /**
   * The guarantees of normal operation, in every run and through any number of state syncs. In a ready
   * node the last accepted block is verified with its true output. A processing block that a valid chain
   * leads to is verified with its true output, so accepting it never fails; and no block is accepted
   * that some block on the way to it, or itself, is refused.
   */
  lemma ReadyMeansVerified<S, A>(chain: Chain<S, A>, w: World<S>, ready: bool, actions: seq<Action<A>>, b: BlockID)
    requires Tree(w) && Inv(chain, w, Genesis(w, ready)) && Runs(chain, w, Genesis(w, ready), actions)
    requires After(chain, w, Genesis(w, ready), actions).ready
    ensures var n := After(chain, w, Genesis(w, ready), actions);
            && n.last in n.accepted && n.last in w.blocks
            && True(chain, w, n.last).Some? && n.accepted[n.last] == Status(true, True(chain, w, n.last))
            && (b in n.processing && Enabled(chain, w, n, Accept(b)) ==>
                  && b in w.blocks
                  && n.processing[b] == Status(True(chain, w, b).Some?, True(chain, w, b))
                  && (Apply(chain, w, n, Accept(b)).last == b <==> True(chain, w, b).Some?))
  {
    var n := After(chain, w, Genesis(w, ready), actions);
    if b in n.processing && Enabled(chain, w, n, Accept(b)) {
      assert Follows(w, b) && b != w.genesis;
      assert Under(w, b, n.last);
    }
  }

  /**
   * The chain goes on: a ready node can issue any new child of its last accepted block, takes it in exactly
   * if it is valid and its subscribers agree, and can then accept it with its true output.
   */
  lemma TakesExactlyValidChildren<S, A>(chain: Chain<S, A>, w: World<S>, n: Node<S>, b: BlockID)
    requires Inv(chain, w, n) && n.ready && b in w.blocks && b !in n.processing && b !in n.accepted
    requires w.blocks[b].parent == n.last
    ensures Enabled(chain, w, n, Verify(b, false))
    ensures var m := Apply(chain, w, n, Verify(b, false));
            && Inv(chain, w, m) && m.last == n.last && m.ready
            && (b in m.processing <==> True(chain, w, b).Some? && chain.verifiedOk(True(chain, w, b).value.state))
            && (b in m.processing ==>
                  && Enabled(chain, w, m, Accept(b))
                  && var r := Apply(chain, w, m, Accept(b));
                     r.last == b && b !in r.processing && b in r.accepted && r.ready
                     && r.accepted[b] == Status(true, True(chain, w, b)))
  {
    VerifyKeeps(chain, w, n, b, false);
    assert Follows(w, b) && b != w.genesis;
    assert Right(chain, w, n.last, n.accepted[n.last]);
  }

  /** Any processing block can be rejected and is then gone; any accepted block but the last can leave the cache. */
  lemma RejectsAndEvicts<S, A>(chain: Chain<S, A>, w: World<S>, n: Node<S>, b: BlockID)
    requires Inv(chain, w, n)
    ensures b in n.processing ==>
              && Enabled(chain, w, n, Reject(b))
              && var r := Apply(chain, w, n, Reject(b));
                 b !in r.processing && r.accepted == n.accepted && r.last == n.last && r.ready == n.ready
    ensures b in n.accepted && b != n.last ==>
              && Enabled(chain, w, n, Evict(b))
              && var r := Apply(chain, w, n, Evict(b));
                 !Lookup(r, b).verified && r.processing == n.processing && r.last == n.last && r.ready == n.ready
  {
    if b in n.accepted {
      assert b !in n.processing;
    }
  }
}
