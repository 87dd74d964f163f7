/** The VM with its block maps: every operation is one step of the lifecycle. */
module VMs {
  import opened Bytes
  import opened Snow
  import opened Handover
  import Lifecycle

  /** The frontier with one more processing block. */
  function Joined<S>(f: Frontier<S>, b: Input, status: Status<S>): Frontier<S> {
    f.(inputs := f.inputs[b.id := b], before := f.before[b.id := status])
  }

  /** The frontier with one processing block less. */
  function Left<S>(f: Frontier<S>, id: BlockID): Frontier<S> {
    f.(inputs := f.inputs - {id}, before := f.before - {id})
  }

  /** The status that the parent of an issued block is found with. */
  function FoundStatus<S>(f: Frontier<S>, id: BlockID): Maybe<Status<S>> {
    if id in f.before then Some(f.before[id]) else if id in f.base then Some(f.base[id]) else Nothing
  }

  /** What verifying a block on its parent's output gives. */
  function OnParent<S, A>(chain: Chain<S, A>, f: Frontier<S>, b: Input): Maybe<Output<S>> {
    var p := FoundStatus(f, b.parent);
    if p.Nothing? || p.value.output.Nothing? then Nothing else VerifyBlock(chain, p.value.output.value, b)
  }

  /** Issuing an unverified block verifies it on its parent's output, which may be missing or refuse it. */
  predicate Refuses<S, A>(chain: Chain<S, A>, f: Frontier<S>, b: Input) {
    OnParent(chain, f, b).Nothing? || !chain.verifiedOk(OnParent(chain, f, b).value.state)
  }

  // ---------------------------------------------------------------------------------------------
  // Frontiers as nodes of the lifecycle
  // ---------------------------------------------------------------------------------------------

  function NodeOf<S>(f: Frontier<S>, ready: bool, last: BlockID): Lifecycle.Node<S> {
    Lifecycle.Node(ready, f.before, f.base, last)
  }

  /** Where the lifecycle allows the action, it leads from `n` to `r`. */
  ghost predicate IsStep<S, A>(chain: Chain<S, A>, w: Lifecycle.World<S>, n: Lifecycle.Node<S>,
                               a: Lifecycle.Action<A>, r: Lifecycle.Node<S>) {
    Lifecycle.Inv(chain, w, n) && Lifecycle.Enabled(chain, w, n, a) ==> r == Lifecycle.Apply(chain, w, n, a)
  }

  lemma StartIsStep<S, A>(chain: Chain<S, A>, w: Lifecycle.World<S>, f: Frontier<S>, ready: bool, last: BlockID,
                          id: BlockID)
    ensures IsStep(chain, w, NodeOf(f, ready, last), Lifecycle.StartSync(id),
                   NodeOf(Handed(f, id, Status(false, Nothing)), false, id))
  {
    hide Lifecycle.Inv;
  }

  lemma RejectIsStep<S, A>(chain: Chain<S, A>, w: Lifecycle.World<S>, f: Frontier<S>, ready: bool, last: BlockID,
                           id: BlockID)
    ensures IsStep(chain, w, NodeOf(f, ready, last), Lifecycle.Reject(id), NodeOf(Left(f, id), ready, last))
  {
    hide Lifecycle.Inv;
  }

  lemma AcceptIsStep<S, A>(chain: Chain<S, A>, w: Lifecycle.World<S>, f: Frontier<S>, ready: bool, last: BlockID,
                           id: BlockID)
    requires id in f.before
    ensures IsStep(chain, w, NodeOf(f, ready, last), Lifecycle.Accept(id),
                   if ready && !f.before[id].verified then NodeOf(f, ready, last)
                   else NodeOf(Handed(Left(f, id), id, f.before[id]), ready, id))
  {
    hide Lifecycle.Inv;
  }

  /** The status that issuing a block with this one gives it. */
  function IssuedStatus<S, A>(chain: Chain<S, A>, f: Frontier<S>, ready: bool, b: Input, status: Status<S>): Status<S> {
    if ready && !status.verified then Status(true, OnParent(chain, f, b)) else status
  }

  /** A block that was built here was built on its parent's output. */
  ghost predicate BuiltOnParent<S, A>(chain: Chain<S, A>, f: Frontier<S>, b: Input, status: Status<S>) {
    status.verified ==> status.output == OnParent(chain, f, b)
  }

  lemma VerifyIsStep<S, A>(chain: Chain<S, A>, w: Lifecycle.World<S>, f: Frontier<S>, ready: bool, last: BlockID,
                           b: Input, status: Status<S>)
    requires b.id in w.blocks ==> w.blocks[b.id] == b
    requires (status.verified <==> status.output.Some?) && BuiltOnParent(chain, f, b, status)
    ensures IsStep(chain, w, NodeOf(f, ready, last), Lifecycle.Verify(b.id, status.verified),
                   if ready && !status.verified && Refuses(chain, f, b) then NodeOf(f, ready, last)
                   else NodeOf(Joined(f, b, IssuedStatus(chain, f, ready, b, status)), ready, last))
  {
    var n := NodeOf(f, ready, last);
    if Lifecycle.Inv(chain, w, n) && Lifecycle.Enabled(chain, w, n, Lifecycle.Verify(b.id, status.verified)) {
      Lifecycle.LookupRight(chain, w, n, b.parent);
      hide Lifecycle.Inv;
    }
  }

  /** If the lifecycle settles on an output for the last accepted block, it is `o`. */
  ghost predicate SettlesOn<S, A>(chain: Chain<S, A>, w: Lifecycle.World<S>, f: Frontier<S>, last: BlockID, t: BlockID,
                                  accepted: A, o: Output<S>) {
    Lifecycle.Tree(w) && last in w.blocks && t in w.blocks && Lifecycle.Under(w, last, t) ==>
      var r := Lifecycle.Settled(chain, w, NodeOf(f, false, last), t, accepted);
      r.Some? ==> r.value.0 == o
  }

  lemma FrontierHandedOver<S>(w: Lifecycle.World<S>, f: Frontier<S>, last: BlockID, o: Output<S>)
    requires f.before.Keys == f.inputs.Keys
    requires forall id | id in f.inputs :: id in w.blocks && w.blocks[id] == f.inputs[id]
    ensures Lifecycle.FrontierOf(w, Lifecycle.HandedOver(NodeOf(f, false, last), o))
            == Handed(f, last, Status(true, Some(o)))
  {
    assert (map id | id in f.before :: w.blocks[id]) == f.inputs;
  }

  lemma FinishIsStep<S, A>(chain: Chain<S, A>, w: Lifecycle.World<S>, f: Frontier<S>, last: BlockID, t: BlockID,
                           accepted: A, o: Output<S>, after: map<BlockID, Status<S>>)
    requires f.Valid() && f.before.Keys == f.inputs.Keys
    requires forall id | id in f.inputs :: id in w.blocks && w.blocks[id] == f.inputs[id]
    requires var h := Handed(f, last, Status(true, Some(o)));
             h.Valid() && after.Keys == f.inputs.Keys && forall id | id in after :: after[id] == Final(chain, h, id)
    requires SettlesOn(chain, w, f, last, t, accepted, o)
    ensures var h := Handed(f, last, Status(true, Some(o)));
            IsStep(chain, w, NodeOf(f, false, last), Lifecycle.FinishSync(t, accepted),
                   Lifecycle.Node(true, after, h.base, last))
  {
    var n := NodeOf(f, false, last);
    if Lifecycle.Inv(chain, w, n) && Lifecycle.Enabled(chain, w, n, Lifecycle.FinishSync(t, accepted)) {
      var h := Handed(f, last, Status(true, Some(o)));
      hide Final, Lifecycle.Inv, Lifecycle.Apply, Lifecycle.Settled, Frontier.Valid, Handed, Lifecycle.FrontierOf;
      FrontierHandedOver(w, f, last, o);
      Lifecycle.FinishApplies(chain, w, n, t, accepted, h, after);
    }
  }

  // ---------------------------------------------------------------------------------------------
  // The VM
  // ---------------------------------------------------------------------------------------------

  function InputsOf<S, A>(m: map<BlockID, StatefulBlock<S, A>>): map<BlockID, Input> {
    map id | id in m :: m[id].input
  }

  ghost function StatusOf<S, A>(m: map<BlockID, StatefulBlock<S, A>>): map<BlockID, Status<S>>
    reads m.Values
  {
    map id | id in m :: m[id].status
  }

  /** What a block outside the processing ones is found with: its own status, or an input from disk. */
  ghost function FoundOf<S, A>(m: map<BlockID, StatefulBlock<S, A>>,
                               stored: map<BlockID, Input>): map<BlockID, Status<S>>
    reads m.Values
  {
    map id | id in m.Keys + stored.Keys :: if id in m then m[id].status else Status(false, Nothing)
  }

  lemma OneMore<S, A>(m: map<BlockID, StatefulBlock<S, A>>, b: StatefulBlock<S, A>)
    ensures InputsOf(m[b.input.id := b]) == InputsOf(m)[b.input.id := b.input]
    ensures StatusOf(m[b.input.id := b]) == StatusOf(m)[b.input.id := b.status]
  {
  }

  lemma OneLess<S, A>(m: map<BlockID, StatefulBlock<S, A>>, id: BlockID)
    ensures InputsOf(m - {id}) == InputsOf(m) - {id}
    ensures StatusOf(m - {id}) == StatusOf(m) - {id}
  {
  }

  lemma OneMoreFound<S, A>(m: map<BlockID, StatefulBlock<S, A>>, stored: map<BlockID, Input>, b: StatefulBlock<S, A>)
    ensures FoundOf(m[b.input.id := b], stored) == FoundOf(m, stored)[b.input.id := b.status]
  {
  }

  lemma OneMoreStored<S, A>(m: map<BlockID, StatefulBlock<S, A>>, stored: map<BlockID, Input>, input: Input)
    requires input.id in m
    ensures FoundOf(m, stored[input.id := input]) == FoundOf(m, stored)
  {
  }

  class VM<S, A> {
    const chain: Chain<S, A>
    var stored: map<BlockID, Input>
    var byHeight: map<nat, Input>
    var verifiedBlocks: map<BlockID, StatefulBlock<S, A>>
    var acceptedBlocks: map<BlockID, StatefulBlock<S, A>>
    var lastAccepted: StatefulBlock<S, A>
    var lastProcessed: StatefulBlock?<S, A>
    var ready: bool
    var unresolved: set<BlockID>

    ghost predicate Valid()
      reads this`verifiedBlocks, this`acceptedBlocks, this`stored, this`lastAccepted, verifiedBlocks.Values,
            acceptedBlocks.Values
    {
      && (forall id | id in verifiedBlocks :: verifiedBlocks[id].input.id == id)
      && (forall id | id in acceptedBlocks :: acceptedBlocks[id].input.id == id && id !in verifiedBlocks)
      && lastAccepted.input.id in acceptedBlocks && acceptedBlocks[lastAccepted.input.id] == lastAccepted
      && CurrentFrontier().Valid()
    }

    /** A VM whose state is not ready holds its last accepted block as an input only. */
    constructor (chain: Chain<S, A>, stored: map<BlockID, Input>, byHeight: map<nat, Input>, input: Input)
      ensures Valid() && !ready && verifiedBlocks == map[] && lastAccepted.input == input
      ensures fresh(lastAccepted) && acceptedBlocks == map[input.id := lastAccepted]
    {
      this.chain, this.stored, this.byHeight := chain, stored, byHeight;
      var b := new StatefulBlock<S, A>(input);
      verifiedBlocks, acceptedBlocks, lastAccepted, lastProcessed := map[], map[input.id := b], b, null;
      ready, unresolved := false, {};
    }

    /** The processing blocks as they are now, and the blocks their parents resolve to. */
    ghost function CurrentFrontier(): Frontier<S>
      reads this`verifiedBlocks, this`acceptedBlocks, this`stored, verifiedBlocks.Values, acceptedBlocks.Values
    {
      Frontier(InputsOf(verifiedBlocks), StatusOf(verifiedBlocks), FoundOf(acceptedBlocks, stored))
    }

    /** The VM as a node of the lifecycle. */
    ghost function AsNode(): Lifecycle.Node<S>
      reads this`ready, this`verifiedBlocks, this`acceptedBlocks, this`stored, this`lastAccepted
      reads verifiedBlocks.Values, acceptedBlocks.Values
    {
      NodeOf(CurrentFrontier(), ready, lastAccepted.input.id)
    }

    /** The processing blocks are blocks that exist. */
    ghost predicate Knows(w: Lifecycle.World<S>)
      reads this`verifiedBlocks
    {
      forall id | id in verifiedBlocks :: id in w.blocks && w.blocks[id] == verifiedBlocks[id].input
    }

    /** `f` is the frontier of these blocks, but for the status they have by now. */
    ghost predicate Shape(f: Frontier<S>)
      reads this`verifiedBlocks, this`acceptedBlocks, this`stored, acceptedBlocks.Values
    {
      && f.Valid() && f.inputs.Keys == verifiedBlocks.Keys
      && (forall id | id in verifiedBlocks :: verifiedBlocks[id].input == f.inputs[id] && f.inputs[id].id == id)
      && (forall id | id in acceptedBlocks :: acceptedBlocks[id].input.id == id && id !in verifiedBlocks)
      && f.base.Keys == acceptedBlocks.Keys + stored.Keys
      && (forall id | id in f.base ::
            f.base[id] == if id in acceptedBlocks then acceptedBlocks[id].status else Status(false, Nothing))
    }

    /** Processing blocks first, then accepted ones, then stored ones as unverified inputs. */
    method GetBlock(id: BlockID, ghost f: Frontier<S>) returns (b: StatefulBlock?<S, A>)
      requires Shape(f)
      ensures b == null <==> id !in verifiedBlocks && id !in f.base
      ensures id in verifiedBlocks ==> b == verifiedBlocks[id]
      ensures b != null && id !in verifiedBlocks ==> b.status == f.base[id]
    {
      if id in verifiedBlocks {
        return verifiedBlocks[id];
      }
      if id in acceptedBlocks {
        return acceptedBlocks[id];
      }
      if id !in stored {
        return null;
      }
      b := new StatefulBlock(stored[id]);
    }

    ghost predicate Fetchable(f: Frontier<S>, id: BlockID) {
      id in f.inputs && (f.inputs[id].parent in f.inputs || f.inputs[id].parent in f.base)
    }

    ghost predicate AllFetchable(f: Frontier<S>) {
      forall id | id in f.inputs :: Fetchable(f, id)
    }

    lemma StillFetchable(f: Frontier<S>, id: BlockID, status: Status<S>)
      requires id in f.base
      ensures AllFetchable(f) <==> AllFetchable(Handed(f, id, status))
    {
      assert forall x | x in f.inputs :: Fetchable(f, x) <==> Fetchable(Handed(f, id, status), x);
    }

    /** Every processing block has its final status, and the unresolved set holds exactly the unresolved. */
    ghost predicate Resolved(f: Frontier<S>)
      reads this`unresolved, this`verifiedBlocks, verifiedBlocks.Values
    {
      && f.Valid() && f.inputs.Keys == verifiedBlocks.Keys
      && (forall id | id in verifiedBlocks :: verifiedBlocks[id].status == Final(chain, f, id))
      && (forall id :: id in unresolved <==> id in verifiedBlocks && Unresolved(chain, f, id))
    }

    /** Verifies one block whose parent is done; says whether it is resolved. */
    method VerifyOne(id: BlockID, ghost f: Frontier<S>) returns (found: bool, resolved: bool)
      requires Shape(f) && id in verifiedBlocks && verifiedBlocks[id].status == f.before[id]
      requires var p := f.inputs[id].parent; p in verifiedBlocks ==> verifiedBlocks[p].status == Final(chain, f, p)
      modifies verifiedBlocks[id]
      ensures verifiedBlocks[id].accepted == old(verifiedBlocks[id].accepted)
      ensures found <==> Fetchable(f, id)
      ensures found ==> verifiedBlocks[id].status == Final(chain, f, id) && (resolved <==> !Unresolved(chain, f, id))
    {
      var b := verifiedBlocks[id];
      var parent := GetBlock(b.input.parent, f);
      if parent == null {
        return false, false;
      }
      assert parent.status == ParentStatus(chain, f, id);
      if !parent.status.verified {
        return true, false;
      }
      resolved := b.Verify(chain, parent.status.output.value);
      found := true;
    }

    /** Every block below position `i` has its final status, the others the one they entered with. */
    ghost predicate Progress(f: Frontier<S>, order: seq<BlockID>, i: nat)
      requires f.Valid() && Orders(f.inputs, order) && f.inputs.Keys == verifiedBlocks.Keys && i <= |order|
      reads this`verifiedBlocks, verifiedBlocks.Values
    {
      forall j | 0 <= j < |order| ::
        verifiedBlocks[order[j]].status == if j < i then Final(chain, f, order[j]) else f.before[order[j]]
    }

    /** A parent in the frontier comes earlier in the order. */
    lemma ParentDone(f: Frontier<S>, order: seq<BlockID>, i: nat)
      requires Shape(f) && Orders(f.inputs, order) && i < |order|
      requires Progress(f, order, i)
      ensures var p := f.inputs[order[i]].parent; p in verifiedBlocks ==> verifiedBlocks[p].status == Final(chain, f, p)
    {
      var p := f.inputs[order[i]].parent;
      if p in verifiedBlocks {
        var j :| 0 <= j < |order| && order[j] == p;
        assert j < i;
      }
    }

    lemma AllDone(f: Frontier<S>, order: seq<BlockID>)
      requires Shape(f) && Orders(f.inputs, order)
      requires Progress(f, order, |order|) && unresolved == UnresolvedIn(chain, f, order)
      ensures Resolved(f)
    {
      forall id | id in verifiedBlocks
        ensures verifiedBlocks[id].status == Final(chain, f, id)
      {
        var j :| 0 <= j < |order| && order[j] == id;
      }
      UnresolvedInAll(chain, f, order);
    }

    /** One round of the loop over the sorted blocks. */
    method VerifyNext(order: seq<BlockID>, i: nat, ghost f: Frontier<S>) returns (found: bool, resolved: bool)
      requires Shape(f) && Orders(f.inputs, order) && i < |order|
      requires Progress(f, order, i)
      modifies verifiedBlocks[order[i]]
      ensures Shape(f) && (found <==> Fetchable(f, order[i]))
      ensures found ==> Progress(f, order, i + 1) && (resolved <==> !Unresolved(chain, f, order[i]))
    {
      hide Final, Unresolved;
      ParentDone(f, order, i);
      found, resolved := VerifyOne(order[i], f);
      assert forall j | 0 <= j < |order| && j != i :: verifiedBlocks[order[j]].input.id != order[i];
    }

    /** One round of the loop, with the set of invalid blocks. */
    method CollectNext(order: seq<BlockID>, i: nat, invalid: set<BlockID>, ghost f: Frontier<S>)
      returns (found: bool, r: set<BlockID>)
      requires Shape(f) && Orders(f.inputs, order) && i < |order|
      requires Progress(f, order, i) && invalid == UnresolvedIn(chain, f, order[..i])
      modifies verifiedBlocks[order[i]]
      ensures Shape(f) && (found <==> Fetchable(f, order[i]))
      ensures found ==> Progress(f, order, i + 1) && r == UnresolvedIn(chain, f, order[..i + 1])
    {
      hide Final, Unresolved, Fetchable, Progress, Shape, Orders, Frontier.Valid;
      Listed(f, order);
      var resolved;
      found, resolved := VerifyNext(order, i, f);
      assert order[..i + 1][..i] == order[..i];
      r := if resolved then invalid else invalid + {order[i]};
    }

    lemma Listed(f: Frontier<S>, order: seq<BlockID>)
      requires Shape(f) && Orders(f.inputs, order)
      ensures f.Valid() && f.inputs.Keys == verifiedBlocks.Keys
      ensures forall i | 0 <= i < |order| :: order[i] in verifiedBlocks && order[i] in f.inputs
    {
    }

    method VerifyInOrder(order: seq<BlockID>, ghost f: Frontier<S>) returns (ok: bool, invalid: set<BlockID>)
      requires Shape(f) && Orders(f.inputs, order)
      requires Progress(f, order, 0)
      modifies verifiedBlocks.Values
      ensures Shape(f) && (ok <==> forall j | 0 <= j < |order| :: Fetchable(f, order[j]))
      ensures ok ==> Progress(f, order, |order|) && invalid == UnresolvedIn(chain, f, order)
    {
      hide Final, Unresolved, Fetchable, Progress, Shape, Orders, Frontier.Valid;
      invalid := {};
      Listed(f, order);
      assert UnresolvedIn(chain, f, order[..0]) == {};
      hide UnresolvedIn;
      for i := 0 to |order|
        invariant Shape(f) && Progress(f, order, i) && invalid == UnresolvedIn(chain, f, order[..i])
        invariant forall j | 0 <= j < i :: Fetchable(f, order[j])
      {
        var found;
        found, invalid := CollectNext(order, i, invalid, f);
        if !found {
          return false, {};
        }
      }
      assert order[..|order|] == order;
      ok := true;
    }

    method VerifyAll(order: seq<BlockID>, ghost f: Frontier<S>) returns (ok: bool)
      requires Shape(f) && Orders(f.inputs, order) && Progress(f, order, 0)
      modifies this`unresolved, verifiedBlocks.Values
      ensures Shape(f) && (ok <==> AllFetchable(f)) && (ok ==> Resolved(f))
    {
      hide Final, Unresolved, Fetchable, Resolved, UnresolvedIn, AllFetchable, Progress, Shape, Orders, Frontier.Valid;
      Listed(f, order);
      FetchableInOrder(f, order);
      var invalid;
      ok, invalid := VerifyInOrder(order, f);
      if ok {
        unresolved := invalid;
        AllDone(f, order);
      }
    }

    /**
     * Verifies the processing blocks, lowest first. Every block ends with its final status, and the
     * unresolved set is exactly the blocks without a verified parent or a clean verification.
     */
    method VerifyProcessingBlocks() returns (ok: bool)
      requires Valid()
      modifies this`unresolved, verifiedBlocks.Values
      ensures ok <==> AllFetchable(old(CurrentFrontier()))
      ensures ok ==> Resolved(old(CurrentFrontier()))
      ensures lastAccepted.status == old(lastAccepted.status) && lastAccepted.accepted == old(lastAccepted.accepted)
      ensures FoundOf(acceptedBlocks, stored) == old(CurrentFrontier()).base
    {
      hide Final, Resolved, AllFetchable, Progress, Shape, Orders, Frontier.Valid, InputsOf, StatusOf, FoundOf;
      ghost var f := CurrentFrontier();
      LastIsApart();
      var order := SortByHeight(InputsOf(verifiedBlocks));
      Begin(f, order);
      hide Valid, CurrentFrontier;
      ok := VerifyAll(order, f);
      LastStatus(f);
      FoundStays(f);
    }

    lemma FoundStays(f: Frontier<S>)
      requires Shape(f)
      ensures FoundOf(acceptedBlocks, stored) == f.base
    {
    }

    lemma Begin(f: Frontier<S>, order: seq<BlockID>)
      requires Valid() && f == CurrentFrontier() && Orders(f.inputs, order)
      ensures Shape(f) && Progress(f, order, 0) && lastAccepted.input.id in f.base
      ensures f.base[lastAccepted.input.id] == lastAccepted.status
      ensures acceptedBlocks[lastAccepted.input.id] == lastAccepted
    {
      hide Final;
    }

    lemma LastIsApart()
      requires Valid()
      ensures lastAccepted !in verifiedBlocks.Values
    {
      hide Frontier.Valid, CurrentFrontier;
    }

    lemma LastStatus(f: Frontier<S>)
      requires Shape(f) && lastAccepted.input.id in acceptedBlocks
      requires acceptedBlocks[lastAccepted.input.id] == lastAccepted
      ensures lastAccepted.input.id in f.base && f.base[lastAccepted.input.id] == lastAccepted.status
    {
    }

    lemma FetchableInOrder(f: Frontier<S>, order: seq<BlockID>)
      requires Orders(f.inputs, order)
      ensures AllFetchable(f) <==> forall j | 0 <= j < |order| :: Fetchable(f, order[j])
    {
      hide Fetchable;
      if forall j | 0 <= j < |order| :: Fetchable(f, order[j]) {
        forall id | id in f.inputs
          ensures Fetchable(f, id)
        {
          var j :| 0 <= j < |order| && order[j] == id;
        }
      }
    }

    /** Re-processes the accepted blocks above `output` up to `target`; null on any failure. */
    method ReprocessFromOutputToInput(target: Input, output: Output<S>, acceptedID: BlockID, accepted: A)
      returns (b: StatefulBlock?<S, A>)
      requires forall h | h in byHeight :: byHeight[h].height == h
      ensures b != null <==>
                && output.height <= target.height && output.id == acceptedID
                && (forall h | output.height < h <= target.height :: h in byHeight)
                && Reprocess(chain, output, accepted, Range(byHeight, output.height, target.height)).Some?
      ensures b != null ==>
                var r := Reprocess(chain, output, accepted, Range(byHeight, output.height, target.height)).value;
                fresh(b) && b.input == target && b.status == Status(true, Some(r.0)) && b.accepted == Some(r.1)
      ensures b != null ==>
                var path := Range(byHeight, output.height, target.height);
                && b.status.output == Fold(chain, output, path)
                && exists t ::
                     AcceptedAlong(chain, output, path, t) && t[0] == accepted && b.accepted == Some(t[|path|])
    {
      if target.height < output.height || output.id != acceptedID {
        return null;
      }
      var o, a := output, accepted;
      while target.height > o.height
        invariant output.height <= o.height <= target.height && Stored(byHeight, output.height, o.height)
        invariant Reprocess(chain, output, accepted, Range(byHeight, output.height, o.height)) == Some((o, a))
        decreases target.height - o.height
      {
        if o.height + 1 !in byHeight {
          return null;
        }
        RangeGrows(byHeight, output.height, o.height);
        if Stored(byHeight, output.height, target.height) {
          ReprocessStops(chain, output, accepted, byHeight, o.height + 1, target.height);
        }
        var next := VerifyBlock(chain, o, byHeight[o.height + 1]);
        if next.Nothing? || !chain.verifiedOk(next.value.state) {
          return null;
        }
        var done := chain.accept(a, next.value.state);
        if done.Nothing? || !chain.acceptedOk(done.value) {
          return null;
        }
        o, a := next.value, done.value;
      }
      ReprocessAccepts(chain, output, accepted, Range(byHeight, output.height, target.height), o, a);
      b := new StatefulBlock.Accepted(target, o, a);
    }

    /** What reprocessing from `output` up to height `target` gives. */
    ghost function Settles(output: Output<S>, acceptedID: BlockID, accepted: A, target: nat): Maybe<(Output<S>, A)>
      reads this
    {
      if output.height <= target && output.id == acceptedID && Stored(byHeight, output.height, target)
      then Reprocess(chain, output, accepted, Range(byHeight, output.height, target))
      else Nothing
    }

    /** The output that the last accepted block is to get. */
    ghost function Settled(input: Input, output: Output<S>, acceptedID: BlockID, accepted: A): Maybe<Output<S>>
      reads this
    {
      if input.id == lastAccepted.input.id then Some(output)
      else
        var r := Settles(output, acceptedID, accepted, lastAccepted.input.height);
        if r.Some? then Some(r.value.0) else Nothing
    }

    /** The accepted form that goes with it. */
    ghost function AcceptedForm(input: Input, output: Output<S>, acceptedID: BlockID, accepted: A): Maybe<A>
      reads this
    {
      if input.id == lastAccepted.input.id then Some(accepted)
      else
        var r := Settles(output, acceptedID, accepted, lastAccepted.input.height);
        if r.Some? then Some(r.value.1) else Nothing
    }

    /** It is the last of the forms that accepting the stored blocks one by one gives. */
    lemma FormAlong(input: Input, output: Output<S>, acceptedID: BlockID, accepted: A)
      requires AcceptedForm(input, output, acceptedID, accepted).Some? && input.id != lastAccepted.input.id
      ensures output.height <= lastAccepted.input.height
      ensures Stored(byHeight, output.height, lastAccepted.input.height)
      ensures var path := Range(byHeight, output.height, lastAccepted.input.height);
              exists t ::
                && AcceptedAlong(chain, output, path, t) && t[0] == accepted
                && AcceptedForm(input, output, acceptedID, accepted) == Some(t[|path|])
    {
      var path := Range(byHeight, output.height, lastAccepted.input.height);
      var r := Settles(output, acceptedID, accepted, lastAccepted.input.height).value;
      ReprocessAccepts(chain, output, accepted, path, r.0, r.1);
    }

    /** `output` is true of `input`, and the blocks by height are the accepted chain above it. */
    ghost predicate Delivers(w: Lifecycle.World<S>, input: Input, output: Output<S>)
      reads this
    {
      var last := lastAccepted.input;
      Lifecycle.Tree(w) && last.id in w.blocks && input.id in w.blocks && Lifecycle.Under(w, last.id, input.id) ==>
        && Lifecycle.True(chain, w, input.id) == Some(output)
        && (input.id != last.id && output.height <= last.height && Stored(byHeight, output.height, last.height) ==>
              Range(byHeight, output.height, last.height) == Lifecycle.Above(w, input.id, last.id))
    }

    /** What the VM settles on is what the lifecycle settles on. */
    lemma SettledAlike(w: Lifecycle.World<S>, f: Frontier<S>, input: Input, output: Output<S>, acceptedID: BlockID,
                       accepted: A)
      requires Delivers(w, input, output) && Settled(input, output, acceptedID, accepted).Some?
      ensures SettlesOn(chain, w, f, lastAccepted.input.id, input.id, accepted,
                        Settled(input, output, acceptedID, accepted).value)
    {
    }

    /** Fills in the last accepted block, which the accepted blocks share. */
    method SetAccepted(output: Output<S>, accepted: A)
      requires Valid()
      modifies lastAccepted
      ensures Valid() && lastAccepted.status == Status(true, Some(output)) && lastAccepted.accepted == Some(accepted)
      ensures CurrentFrontier() == Handed(old(CurrentFrontier()), lastAccepted.input.id, Status(true, Some(output)))
    {
      HandedValid(CurrentFrontier(), lastAccepted.input.id, Status(true, Some(output)));
      lastAccepted.status := Status(true, Some(output));
      lastAccepted.accepted := Some(accepted);
      hide Frontier.Valid;
      assert forall id | id in verifiedBlocks :: verifiedBlocks[id] != lastAccepted;
      assert forall id | id in acceptedBlocks && id != lastAccepted.input.id :: acceptedBlocks[id] != lastAccepted;
      assert StatusOf(verifiedBlocks) == old(StatusOf(verifiedBlocks));
      assert FoundOf(acceptedBlocks, stored)
          == old(FoundOf(acceptedBlocks, stored))[lastAccepted.input.id := Status(true, Some(output))];
    }

    method ReplaceLastAccepted(b: StatefulBlock<S, A>)
      modifies this`lastAccepted, this`acceptedBlocks
      ensures lastAccepted == b && acceptedBlocks == old(acceptedBlocks)[b.input.id := b]
      ensures CurrentFrontier() == Handed(old(CurrentFrontier()), b.input.id, b.status)
    {
      OneMoreFound(acceptedBlocks, stored, b);
      hide FoundOf, InputsOf, StatusOf;
      lastAccepted := b;
      acceptedBlocks := acceptedBlocks[b.input.id := b];
    }

    /** Makes a block, processing no more, the last accepted one. */
    method SetLastAccepted(b: StatefulBlock<S, A>)
      requires Valid() && b.input.id !in verifiedBlocks && (b.status.verified <==> b.status.output.Some?)
      modifies this`lastAccepted, this`acceptedBlocks
      ensures Valid() && lastAccepted == b && acceptedBlocks == old(acceptedBlocks)[b.input.id := b]
      ensures CurrentFrontier() == Handed(old(CurrentFrontier()), b.input.id, b.status)
    {
      HandedValid(CurrentFrontier(), b.input.id, b.status);
      hide Frontier.Valid, CurrentFrontier;
      ReplaceLastAccepted(b);
    }

    /** Makes `output` the state of the last accepted block, reprocessing up to it where needed. */
    method SettleLastAccepted(input: Input, output: Output<S>, acceptedID: BlockID, accepted: A) returns (ok: bool)
      requires Valid() && forall h | h in byHeight :: byHeight[h].height == h
      modifies this`lastAccepted, this`acceptedBlocks, lastAccepted
      ensures ok <==> old(Settled(input, output, acceptedID, accepted)).Some?
      ensures ok ==> Valid() && lastAccepted.input == old(lastAccepted.input)
      ensures ok ==> lastAccepted.status == Status(true, old(Settled(input, output, acceptedID, accepted)))
      ensures ok ==> lastAccepted.accepted == old(AcceptedForm(input, output, acceptedID, accepted))
      ensures ok ==> CurrentFrontier() == Handed(old(CurrentFrontier()), lastAccepted.input.id, lastAccepted.status)
    {
      hide Reprocess;
      if input.id == lastAccepted.input.id {
        SetAccepted(output, accepted);
        return true;
      }
      var b := ReprocessFromOutputToInput(lastAccepted.input, output, acceptedID, accepted);
      if b == null {
        return false;
      }
      SetLastAccepted(b);
      return true;
    }

    /** Records an accepted block on disk. */
    method UpdateLastAccepted(input: Input)
      requires input.id in acceptedBlocks
      modifies this`stored, this`byHeight
      ensures stored == old(stored)[input.id := input] && byHeight == old(byHeight)[input.height := input]
      ensures CurrentFrontier() == old(CurrentFrontier())
    {
      OneMoreStored(acceptedBlocks, stored, input);
      hide FoundOf, InputsOf, StatusOf;
      stored := stored[input.id := input];
      byHeight := byHeight[input.height := input];
    }

    /** Makes a block the last accepted one, on disk too. */
    method Conclude(b: StatefulBlock<S, A>)
      requires Valid() && b.input.id !in verifiedBlocks && (b.status.verified <==> b.status.output.Some?)
      modifies this`stored, this`byHeight, this`lastAccepted, this`acceptedBlocks
      ensures Valid() && lastAccepted == b && acceptedBlocks == old(acceptedBlocks)[b.input.id := b]
      ensures stored == old(stored)[b.input.id := b.input] && byHeight == old(byHeight)[b.input.height := b.input]
      ensures CurrentFrontier() == Handed(old(CurrentFrontier()), b.input.id, b.status)
    {
      hide Frontier.Valid, CurrentFrontier, Handed;
      SetLastAccepted(b);
      UpdateLastAccepted(b.input);
    }

    /** A block that is an input only becomes the last accepted one, and the VM is not ready. */
    method Await(b: StatefulBlock<S, A>, ghost w: Lifecycle.World<S>)
      requires Valid() && b.input.id !in verifiedBlocks && b.status == Status(false, Nothing)
      modifies this`stored, this`byHeight, this`ready, this`lastAccepted, this`acceptedBlocks
      ensures Valid() && !ready && lastAccepted == b && acceptedBlocks == old(acceptedBlocks)[b.input.id := b]
      ensures stored == old(stored)[b.input.id := b.input] && byHeight == old(byHeight)[b.input.height := b.input]
      ensures CurrentFrontier() == Handed(old(CurrentFrontier()), b.input.id, Status(false, Nothing))
      ensures IsStep(chain, w, old(AsNode()), Lifecycle.StartSync(b.input.id), AsNode())
    {
      StartIsStep(chain, w, CurrentFrontier(), ready, lastAccepted.input.id, b.input.id);
      hide Valid, CurrentFrontier, IsStep, Handed;
      Suspend();
      Conclude(b);
    }

    method Suspend()
      requires Valid()
      modifies this`ready
      ensures Valid() && !ready && CurrentFrontier() == old(CurrentFrontier())
    {
      hide Valid, CurrentFrontier;
      ready := false;
    }

    /** Starts dynamic state sync towards a block, which becomes the last accepted one as an input only. */
    method StartStateSync(input: Input, ghost w: Lifecycle.World<S>)
      requires Valid() && input.id !in verifiedBlocks
      modifies this`stored, this`byHeight, this`ready, this`lastAccepted, this`acceptedBlocks
      ensures Valid() && !ready && fresh(lastAccepted) && lastAccepted.input == input
      ensures lastAccepted.status == Status(false, Nothing)
      ensures acceptedBlocks == old(acceptedBlocks)[input.id := lastAccepted]
      ensures stored == old(stored)[input.id := input] && byHeight == old(byHeight)[input.height := input]
      ensures CurrentFrontier() == Handed(old(CurrentFrontier()), input.id, Status(false, Nothing))
      ensures IsStep(chain, w, old(AsNode()), Lifecycle.StartSync(input.id), AsNode())
    {
      hide Valid, CurrentFrontier, IsStep, Handed;
      var b := new StatefulBlock<S, A>(input);
      Await(b, w);
    }

    /** `b` is new, and the heights of the processing blocks around it follow its own. */
    ghost predicate Fits(b: StatefulBlock<S, A>)
      reads this`verifiedBlocks, this`acceptedBlocks, b, verifiedBlocks.Values
    {
      && b.input.id !in verifiedBlocks && b.input.id !in acceptedBlocks
      && (b.status.verified <==> b.status.output.Some?)
      && (b.input.parent in verifiedBlocks ==> verifiedBlocks[b.input.parent].input.height < b.input.height)
      && b.input.parent != b.input.id
      && (forall id | id in verifiedBlocks && verifiedBlocks[id].input.parent == b.input.id ::
            b.input.height < verifiedBlocks[id].input.height)
    }

    lemma JoinedValid(b: StatefulBlock<S, A>)
      requires Valid() && Fits(b)
      ensures Joined(CurrentFrontier(), b.input, b.status).Valid()
    {
      var f := CurrentFrontier();
      assert forall id | id in f.inputs :: f.inputs[id] == verifiedBlocks[id].input;
    }

    method PutVerified(b: StatefulBlock<S, A>)
      modifies this`verifiedBlocks
      ensures verifiedBlocks == old(verifiedBlocks)[b.input.id := b]
      ensures CurrentFrontier() == Joined(old(CurrentFrontier()), b.input, b.status)
    {
      OneMore(verifiedBlocks, b);
      hide FoundOf, InputsOf, StatusOf;
      verifiedBlocks := verifiedBlocks[b.input.id := b];
    }

    method Join(b: StatefulBlock<S, A>)
      requires Valid() && Fits(b)
      modifies this`verifiedBlocks
      ensures Valid() && verifiedBlocks == old(verifiedBlocks)[b.input.id := b]
      ensures CurrentFrontier() == Joined(old(CurrentFrontier()), b.input, b.status)
    {
      JoinedValid(b);
      hide CurrentFrontier, Frontier.Valid, Joined;
      PutVerified(b);
    }

    lemma ShapeNow(f: Frontier<S>)
      requires Valid() && f == CurrentFrontier()
      ensures Shape(f)
    {
    }

    /** Looking a parent up gives the status it is found with. */
    lemma ParentFound(f: Frontier<S>, id: BlockID)
      requires Valid() && f == CurrentFrontier()
      ensures id in verifiedBlocks <==> id in f.before
      ensures id in verifiedBlocks ==> f.before[id] == verifiedBlocks[id].status
      ensures var p := FoundStatus(f, id); p.Some? ==> (p.value.verified <==> p.value.output.Some?)
    {
    }

    /** Verifies a block on its parent; a block that was built here is verified already. */
    method VerifyOnParent(b: StatefulBlock<S, A>, ghost f: Frontier<S>) returns (ok: bool)
      requires Valid() && Fits(b) && !b.status.verified && f == CurrentFrontier()
      modifies b`status
      ensures ok <==> !Refuses(chain, f, b.input)
      ensures ok ==> b.status == Status(true, OnParent(chain, f, b.input))
    {
      ShapeNow(f);
      ParentFound(f, b.input.parent);
      hide Valid, Shape, CurrentFrontier, Fits;
      var parent := GetBlock(b.input.parent, f);
      if parent == null {
        return false;
      }
      if !parent.status.verified {
        return false;
      }
      ok := b.Verify(chain, parent.status.output.value);
    }

    /** Issues a block: vacuously while the state is not ready, and without effect if it is refused. */
    method Verify(b: StatefulBlock<S, A>, ghost w: Lifecycle.World<S>) returns (ok: bool)
      requires Valid() && Fits(b)
      modifies this`verifiedBlocks, b`status
      ensures Valid() && (ok <==> !old(ready && !b.status.verified && Refuses(chain, CurrentFrontier(), b.input)))
      ensures CurrentFrontier()
              == if ok then Joined(old(CurrentFrontier()), b.input, b.status) else old(CurrentFrontier())
      ensures ok ==> b.status == IssuedStatus(chain, old(CurrentFrontier()), ready, b.input, old(b.status))
      ensures verifiedBlocks == if ok then old(verifiedBlocks)[b.input.id := b] else old(verifiedBlocks)
      ensures (b.input.id in w.blocks ==> w.blocks[b.input.id] == b.input)
              && old(BuiltOnParent(chain, CurrentFrontier(), b.input, b.status)) ==>
                IsStep(chain, w, old(AsNode()), Lifecycle.Verify(b.input.id, old(b.status.verified)), AsNode())
    {
      hide Frontier.Valid, BuiltOnParent;
      Apart(b);
      if (b.input.id in w.blocks ==> w.blocks[b.input.id] == b.input)
         && BuiltOnParent(chain, CurrentFrontier(), b.input, b.status) {
        VerifyIsStep(chain, w, CurrentFrontier(), ready, lastAccepted.input.id, b.input, b.status);
      }
      hide IsStep;
      ok := true;
      if ready && !b.status.verified {
        ghost var f := CurrentFrontier();
        ok := VerifyOnParent(b, f);
        assert CurrentFrontier() == f;
      }
      if ok {
        Join(b);
      }
    }

    /** A new block is no object of the frontier. */
    lemma Apart(b: StatefulBlock<S, A>)
      requires Valid() && Fits(b)
      ensures b !in verifiedBlocks.Values && b !in acceptedBlocks.Values
    {
      hide Frontier.Valid;
    }

    lemma LeftValid(f: Frontier<S>, id: BlockID)
      requires f.Valid()
      ensures Left(f, id).Valid()
    {
    }

    /** Takes a block out of the processing ones: consensus rejected it. */
    method Reject(b: StatefulBlock<S, A>, ghost w: Lifecycle.World<S>)
      requires Valid() && b.input.id in verifiedBlocks
      modifies this`verifiedBlocks
      ensures Valid() && verifiedBlocks == old(verifiedBlocks) - {b.input.id}
      ensures CurrentFrontier() == Left(old(CurrentFrontier()), b.input.id)
      ensures IsStep(chain, w, old(AsNode()), Lifecycle.Reject(b.input.id), AsNode())
    {
      LeftValid(CurrentFrontier(), b.input.id);
      RejectIsStep(chain, w, CurrentFrontier(), ready, lastAccepted.input.id, b.input.id);
      hide CurrentFrontier, Frontier.Valid, Left, IsStep;
      DropVerified(b.input.id);
    }

    method DropVerified(id: BlockID)
      modifies this`verifiedBlocks
      ensures verifiedBlocks == old(verifiedBlocks) - {id}
      ensures CurrentFrontier() == Left(old(CurrentFrontier()), id)
    {
      OneLess(verifiedBlocks, id);
      hide FoundOf, InputsOf, StatusOf;
      verifiedBlocks := verifiedBlocks - {id};
    }

    lemma Consistent(b: StatefulBlock<S, A>)
      requires Valid() && b.input.id in verifiedBlocks && verifiedBlocks[b.input.id] == b
      ensures b.status.verified <==> b.status.output.Some?
      ensures b.input.id in CurrentFrontier().before && CurrentFrontier().before[b.input.id] == b.status
    {
      assert CurrentFrontier().before[b.input.id] == b.status;
    }

    /** Moves a processing block to the accepted ones. */
    method Promote(b: StatefulBlock<S, A>, ghost w: Lifecycle.World<S>)
      requires Valid() && b.input.id in verifiedBlocks && verifiedBlocks[b.input.id] == b
      modifies this`verifiedBlocks, this`stored, this`byHeight, this`lastAccepted, this`acceptedBlocks
      ensures Valid() && lastAccepted == b && stored == old(stored)[b.input.id := b.input]
      ensures byHeight == old(byHeight)[b.input.height := b.input]
      ensures acceptedBlocks == old(acceptedBlocks)[b.input.id := b]
      ensures verifiedBlocks == old(verifiedBlocks) - {b.input.id}
      ensures CurrentFrontier() == Handed(Left(old(CurrentFrontier()), b.input.id), b.input.id, b.status)
    {
      Consistent(b);
      hide Valid, CurrentFrontier, Left, Handed;
      Reject(b, w);
      Conclude(b);
    }

    /** Accepts a processing block. A ready VM refuses one that is not verified. */
    method Accept(b: StatefulBlock<S, A>, ghost w: Lifecycle.World<S>) returns (ok: bool)
      requires Valid() && b.input.id in verifiedBlocks && verifiedBlocks[b.input.id] == b
      modifies this`verifiedBlocks, this`stored, this`byHeight, this`lastAccepted, this`acceptedBlocks
      ensures Valid() && (ok <==> !ready || b.status.verified)
      ensures !ok ==> unchanged(this)
      ensures ok ==> lastAccepted == b && stored == old(stored)[b.input.id := b.input]
      ensures ok ==> byHeight == old(byHeight)[b.input.height := b.input]
      ensures ok ==> acceptedBlocks == old(acceptedBlocks)[b.input.id := b]
      ensures ok ==> verifiedBlocks == old(verifiedBlocks) - {b.input.id}
      ensures ok ==> CurrentFrontier() == Handed(Left(old(CurrentFrontier()), b.input.id), b.input.id, b.status)
      ensures IsStep(chain, w, old(AsNode()), Lifecycle.Accept(b.input.id), AsNode())
    {
      Consistent(b);
      AcceptIsStep(chain, w, CurrentFrontier(), ready, lastAccepted.input.id, b.input.id);
      hide Valid, CurrentFrontier, Left, Handed, IsStep;
      if ready && !b.status.verified {
        return false;
      }
      Promote(b, w);
      return true;
    }

    /** Processing goes on from the last accepted block; the VM is ready once the processing ones are verified. */
    method Resume() returns (ok: bool)
      requires Valid()
      modifies this`lastProcessed, this`ready, this`unresolved, verifiedBlocks.Values
      ensures ok <==> AllFetchable(old(CurrentFrontier()))
      ensures ok ==> ready && Resolved(old(CurrentFrontier()))
      ensures lastProcessed == lastAccepted
      ensures lastAccepted.status == old(lastAccepted.status) && lastAccepted.accepted == old(lastAccepted.accepted)
      ensures FoundOf(acceptedBlocks, stored) == old(CurrentFrontier()).base
    {
      hide Resolved, AllFetchable, Valid, CurrentFrontier, FoundOf;
      lastProcessed := lastAccepted;
      ok := VerifyProcessingBlocks();
      if ok {
        ready := true;
      }
    }

    /**
     * Ends dynamic state sync: the last accepted block gets the synced state, reprocessed to the tip,
     * and every processing block gets its final status on top of it.
     */
    method HandOver(input: Input, output: Output<S>, acceptedID: BlockID, accepted: A) returns (ok: bool)
      requires Valid() && forall h | h in byHeight :: byHeight[h].height == h
      modifies this, lastAccepted, verifiedBlocks.Values
      ensures ok ==> !old(ready) && ready && lastProcessed == lastAccepted
      ensures ok ==> lastAccepted.input == old(lastAccepted.input)
      ensures ok ==> lastAccepted.status == Status(true, old(Settled(input, output, acceptedID, accepted)))
      ensures ok ==> lastAccepted.accepted == old(AcceptedForm(input, output, acceptedID, accepted))
      ensures ok ==> verifiedBlocks == old(verifiedBlocks)
      ensures ok ==> Resolved(Handed(old(CurrentFrontier()), lastAccepted.input.id, lastAccepted.status))
      ensures ok <==>
                old(!ready && AllFetchable(CurrentFrontier()) && Settled(input, output, acceptedID, accepted).Some?)
      ensures ok ==>
                FoundOf(acceptedBlocks, stored)
                == Handed(old(CurrentFrontier()), lastAccepted.input.id, lastAccepted.status).base
    {
      hide Settled, AcceptedForm, Resolved, AllFetchable;
      ghost var before := CurrentFrontier();
      assert lastAccepted.input.id in before.base;
      hide Valid;
      if ready {
        return false;
      }
      ok := SettleLastAccepted(input, output, acceptedID, accepted);
      if !ok {
        return;
      }
      StillFetchable(before, lastAccepted.input.id, lastAccepted.status);
      hide CurrentFrontier, Handed, FoundOf;
      ok := Resume();
    }

    /** The handover as a step: where the lifecycle allows it, it leads where the lifecycle leads. */
    method FinishStateSync(input: Input, output: Output<S>, acceptedID: BlockID, accepted: A,
                           ghost w: Lifecycle.World<S>)
      returns (ok: bool)
      requires Valid() && forall h | h in byHeight :: byHeight[h].height == h
      modifies this, lastAccepted, verifiedBlocks.Values
      ensures ok ==> !old(ready) && ready && lastProcessed == lastAccepted
      ensures ok ==> lastAccepted.input == old(lastAccepted.input)
      ensures ok ==> lastAccepted.status == Status(true, old(Settled(input, output, acceptedID, accepted)))
      ensures ok ==> lastAccepted.accepted == old(AcceptedForm(input, output, acceptedID, accepted))
      ensures ok ==> verifiedBlocks == old(verifiedBlocks)
      ensures ok ==> Resolved(Handed(old(CurrentFrontier()), lastAccepted.input.id, lastAccepted.status))
      ensures ok <==>
                old(!ready && AllFetchable(CurrentFrontier()) && Settled(input, output, acceptedID, accepted).Some?)
      ensures ok && old(Knows(w) && Delivers(w, input, output)) ==>
                IsStep(chain, w, old(AsNode()), Lifecycle.FinishSync(input.id, accepted), AsNode())
    {
      ghost var (f, last) := (CurrentFrontier(), lastAccepted.input.id);
      ghost var delivered := Knows(w) && Delivers(w, input, output);
      ghost var o := Settled(input, output, acceptedID, accepted);
      if delivered && o.Some? {
        SettledAlike(w, f, input, output, acceptedID, accepted);
        KnownInputs(w);
      }
      hide Delivers, Settled, AcceptedForm, Valid, AllFetchable, SettlesOn, Resolved, Knows;
      ok := HandOver(input, output, acceptedID, accepted);
      if ok && delivered {
        ResolvedStatus(Handed(f, last, Status(true, o)));
        FinishIsStep(chain, w, f, last, input.id, accepted, o.value, StatusOf(verifiedBlocks));
      }
    }

    lemma KnownInputs(w: Lifecycle.World<S>)
      requires Valid() && Knows(w)
      ensures CurrentFrontier().Valid() && CurrentFrontier().before.Keys == CurrentFrontier().inputs.Keys
      ensures forall id | id in CurrentFrontier().inputs ::
                id in w.blocks && w.blocks[id] == CurrentFrontier().inputs[id]
    {
    }

    lemma ResolvedStatus(f: Frontier<S>)
      requires Resolved(f)
      ensures f.Valid() && StatusOf(verifiedBlocks).Keys == f.inputs.Keys
      ensures forall id | id in StatusOf(verifiedBlocks) :: StatusOf(verifiedBlocks)[id] == Final(chain, f, id)
    {
      hide Final, Unresolved;
    }
  }
}
