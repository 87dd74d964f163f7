/** The block lifecycle across dynamic state sync. */
module Snow {
  import opened Bytes

  type BlockID = nat

  datatype Input = Input(id: BlockID, parent: BlockID, height: nat)

  /** The output and the accepted form of a block carry its identity and the chain's state after it. */
  datatype Output<S> = Output(id: BlockID, height: nat, state: S)

  /** The chain under the VM: it verifies a block on its parent's output, accepts it, and is notified. */
  datatype Chain<!S, !A> = Chain(
    verify: (S, Input) -> Maybe<S>, accept: (A, S) -> Maybe<A>, verifiedOk: S -> bool, acceptedOk: A -> bool)

  function VerifyBlock<S, A>(chain: Chain<S, A>, parent: Output<S>, b: Input): (r: Maybe<Output<S>>)
    ensures r.Some? ==> r.value.id == b.id && r.value.height == b.height
  {
    var s := chain.verify(parent.state, b);
    if s.Nothing? then Nothing else Some(Output(b.id, b.height, s.value))
  }

  /** Verification of a sequence of blocks, each on the output of the one before. */
  function Fold<S, A>(chain: Chain<S, A>, start: Output<S>, path: seq<Input>): Maybe<Output<S>> {
    if path == [] then Some(start)
    else
      var o := Fold(chain, start, path[..|path| - 1]);
      if o.Nothing? then Nothing else VerifyBlock(chain, o.value, path[|path| - 1])
  }

  /** Acceptance along with verification, stopping at the first refusal or failed notification. */
  function Reprocess<S, A>(chain: Chain<S, A>, start: Output<S>, accepted: A, path: seq<Input>): Maybe<(Output<S>, A)> {
    if path == [] then Some((start, accepted))
    else
      var r := Reprocess(chain, start, accepted, path[..|path| - 1]);
      if r.Nothing? then Nothing
      else
        var o := VerifyBlock(chain, r.value.0, path[|path| - 1]);
        if o.Nothing? || !chain.verifiedOk(o.value.state) then Nothing
        else
          var a := chain.accept(r.value.1, o.value.state);
          if a.Nothing? || !chain.acceptedOk(a.value) then Nothing else Some((o.value, a.value))
  }

  /** Reprocessing yields the same output as verification alone. */
  lemma {:induction false} ReprocessFolds<S, A>(chain: Chain<S, A>, start: Output<S>, accepted: A, path: seq<Input>)
    ensures Reprocess(chain, start, accepted, path).Some? ==>
              Fold(chain, start, path) == Some(Reprocess(chain, start, accepted, path).value.0)
  {
    if path != [] {
      ReprocessFolds(chain, start, accepted, path[..|path| - 1]);
    }
  }

  /**
   * The accepted forms along a path: each block is accepted on the one before, with the output that
   * verification up to it gives, and everyone notified of the output and of the accepted form agrees.
   */
  ghost predicate AcceptedAlong<S, A>(chain: Chain<S, A>, start: Output<S>, path: seq<Input>, t: seq<A>) {
    && |t| == |path| + 1
    && forall i | 0 <= i < |path| :: AcceptedAt(chain, start, path, t, i)
  }

  ghost predicate AcceptedAt<S, A>(chain: Chain<S, A>, start: Output<S>, path: seq<Input>, t: seq<A>, i: nat)
    requires i < |path| && |t| == |path| + 1
  {
    var o := Fold(chain, start, path[..i + 1]);
    && o.Some? && chain.verifiedOk(o.value.state)
    && chain.accept(t[i], o.value.state) == Some(t[i + 1]) && chain.acceptedOk(t[i + 1])
  }

  lemma AlongInit<S, A>(chain: Chain<S, A>, start: Output<S>, path: seq<Input>, t: seq<A>)
    requires path != [] && |t| == |path| + 1
    ensures var n := |path| - 1;
            AcceptedAlong(chain, start, path, t)
            <==> AcceptedAlong(chain, start, path[..n], t[..n + 1]) && AcceptedAt(chain, start, path, t, n)
  {
    var n := |path| - 1;
    var (most, u) := (path[..n], t[..n + 1]);
    forall i: nat | i < n
      ensures AcceptedAt(chain, start, most, u, i) <==> AcceptedAt(chain, start, path, t, i)
    {
      assert most[..i + 1] == path[..i + 1];
    }
  }

  /** Reprocessing goes through exactly if there are such accepted forms, and ends with the last of them. */
  lemma {:induction false} ReprocessAccepts<S, A>(chain: Chain<S, A>, start: Output<S>, accepted: A, path: seq<Input>,
                                                  o: Output<S>, a: A)
    ensures Reprocess(chain, start, accepted, path) == Some((o, a))
            <==> && Fold(chain, start, path) == Some(o)
                 && exists t :: AcceptedAlong(chain, start, path, t) && t[0] == accepted && t[|path|] == a
    decreases |path|
  {
    if path == [] {
      if (o, a) == (start, accepted) {
        assert AcceptedAlong(chain, start, path, [accepted]);
      }
    } else {
      var n := |path| - 1;
      assert path[..n + 1] == path;
      if Reprocess(chain, start, accepted, path) == Some((o, a)) {
        var r := Reprocess(chain, start, accepted, path[..n]).value;
        ReprocessAccepts(chain, start, accepted, path[..n], r.0, r.1);
        var u :| AcceptedAlong(chain, start, path[..n], u) && u[0] == accepted && u[n] == r.1;
        var t := u + [a];
        assert t[..n + 1] == u;
        AlongInit(chain, start, path, t);
        assert AcceptedAlong(chain, start, path, t) && t[0] == accepted && t[|path|] == a;
      }
      if t :|
        && Fold(chain, start, path) == Some(o) && AcceptedAlong(chain, start, path, t)
        && t[0] == accepted && t[|path|] == a {
        AlongInit(chain, start, path, t);
        var p := Fold(chain, start, path[..n]).value;
        assert AcceptedAlong(chain, start, path[..n], t[..n + 1]);
        ReprocessAccepts(chain, start, accepted, path[..n], p, t[n]);
      }
    }
  }

  /** What a block knows of itself: whether it was verified, and with which output. */
  datatype Status<S> = Status(verified: bool, output: Maybe<Output<S>>)

  class StatefulBlock<S, A> {
    const input: Input
    var status: Status<S>
    var accepted: Maybe<A>

    constructor (input: Input)
      ensures this.input == input && status == Status(false, Nothing) && accepted == Nothing
    {
      this.input := input;
      status := Status(false, Nothing);
      accepted := Nothing;
    }

    constructor Accepted(input: Input, output: Output<S>, accepted: A)
      ensures this.input == input && status == Status(true, Some(output)) && this.accepted == Some(accepted)
    {
      this.input := input;
      status := Status(true, Some(output));
      this.accepted := Some(accepted);
    }

    /** Verifies on the parent's output; a failing subscriber reports an error after the block is verified. */
    method Verify(chain: Chain<S, A>, parent: Output<S>) returns (ok: bool)
      modifies this`status
      ensures status == Verified(chain, old(status), parent, input)
      ensures ok <==> VerifyBlock(chain, parent, input).Some?
                      && chain.verifiedOk(VerifyBlock(chain, parent, input).value.state)
    {
      var o := VerifyBlock(chain, parent, input);
      if o.Nothing? {
        return false;
      }
      status := Status(true, o);
      ok := chain.verifiedOk(o.value.state);
    }
  }

  function Verified<S, A>(chain: Chain<S, A>, before: Status<S>, parent: Output<S>, b: Input): Status<S> {
    var o := VerifyBlock(chain, parent, b);
    if o.Nothing? then before else Status(true, o)
  }
}

/** What re-verification after state sync makes of the processing blocks, as a function. */
module Handover {
  import opened Bytes
  import opened Snow

  /**
   * The processing blocks with their status on entry, and the status of the blocks that their
   * outermost parents resolve to.
   */
  datatype Frontier<!S> = Frontier(
    inputs: map<BlockID, Input>, before: map<BlockID, Status<S>>, base: map<BlockID, Status<S>>)
  {
    ghost predicate Valid() {
      && inputs.Keys == before.Keys
      && (forall id | id in inputs ::
            inputs[id].parent in inputs ==> inputs[inputs[id].parent].height < inputs[id].height)
      && (forall id | id in before :: before[id].verified <==> before[id].output.Some?)
      && (forall id | id in base :: base[id].verified <==> base[id].output.Some?)
    }
  }

  ghost function ParentStatus<S, A>(chain: Chain<S, A>, f: Frontier<S>, id: BlockID): (r: Status<S>)
    requires f.Valid() && id in f.inputs
    ensures r.verified <==> r.output.Some?
    decreases f.inputs[id].height, 0
  {
    var p := f.inputs[id].parent;
    if p in f.inputs then Final(chain, f, p) else if p in f.base then f.base[p] else Status(false, Nothing)
  }

  /** The status of a processing block once every block has been verified in order of height. */
  ghost function Final<S, A>(chain: Chain<S, A>, f: Frontier<S>, id: BlockID): (r: Status<S>)
    requires f.Valid() && id in f.inputs
    ensures r.verified <==> r.output.Some?
    decreases f.inputs[id].height, 1
  {
    var p := ParentStatus(chain, f, id);
    if p.verified then Verified(chain, f.before[id], p.output.value, f.inputs[id]) else f.before[id]
  }

  /** Blocks left unresolved: the parent is not verified, verification refuses, or a subscriber fails. */
  ghost predicate Unresolved<S, A>(chain: Chain<S, A>, f: Frontier<S>, id: BlockID)
    requires f.Valid() && id in f.inputs
  {
    var p := ParentStatus(chain, f, id);
    !p.verified
    || VerifyBlock(chain, p.output.value, f.inputs[id]).Nothing?
    || !chain.verifiedOk(VerifyBlock(chain, p.output.value, f.inputs[id]).value.state)
  }

  /** The processing blocks from the frontier up to and including `id`. */
  ghost function Path<S>(f: Frontier<S>, id: BlockID): (p: seq<Input>)
    requires f.Valid() && id in f.inputs
    ensures p != [] && p[|p| - 1] == f.inputs[id]
    decreases f.inputs[id].height
  {
    var p := f.inputs[id].parent;
    (if p in f.inputs then Path(f, p) else []) + [f.inputs[id]]
  }

  /** The block, outside the processing ones, that the path of `id` starts on. */
  ghost function Root<S>(f: Frontier<S>, id: BlockID): BlockID
    requires f.Valid() && id in f.inputs
    decreases f.inputs[id].height
  {
    var p := f.inputs[id].parent;
    if p in f.inputs then Root(f, p) else p
  }

  /** Whether `x` is on the path of `id`. */
  ghost predicate OnPath<S>(f: Frontier<S>, id: BlockID, x: BlockID)
    requires f.Valid() && id in f.inputs
    decreases f.inputs[id].height
  {
    x == id || (f.inputs[id].parent in f.inputs && OnPath(f, f.inputs[id].parent, x))
  }

  /** The output of the block that the path of `id` starts on, if that block is verified. */
  ghost function RootOutput<S>(f: Frontier<S>, id: BlockID): Maybe<Output<S>>
    requires f.Valid() && id in f.inputs
  {
    if Root(f, id) in f.base then f.base[Root(f, id)].output else Nothing
  }

  function FoldFrom<S, A>(chain: Chain<S, A>, start: Maybe<Output<S>>, path: seq<Input>): Maybe<Output<S>> {
    if start.Nothing? then Nothing else Fold(chain, start.value, path)
  }

  /** Verification of the whole path of `id`, from the block it starts on. */
  ghost function RootFold<S, A>(chain: Chain<S, A>, f: Frontier<S>, id: BlockID): Maybe<Output<S>>
    requires f.Valid() && id in f.inputs
  {
    FoldFrom(chain, RootOutput(f, id), Path(f, id))
  }

  /** Where verification last started over on the path of a block, with what output, and what follows. */
  datatype Anchor<S> = AtRoot(output: Maybe<Output<S>>, rest: seq<Input>)
                     | AtStale(id: BlockID, output: Maybe<Output<S>>, rest: seq<Input>)

  /**
   * Verification starts over at a stale block: one that entered verified and that verification, from
   * wherever it last started over, does not reach.
   */
  ghost function AnchorOf<S, A>(chain: Chain<S, A>, f: Frontier<S>, id: BlockID): (a: Anchor<S>)
    requires f.Valid() && id in f.inputs
    decreases f.inputs[id].height
  {
    var p := f.inputs[id].parent;
    var prev := if p in f.inputs then AnchorOf(chain, f, p) else AtRoot(RootOutput(f, id), []);
    var next := prev.(rest := prev.rest + [f.inputs[id]]);
    if f.before[id].verified && FoldFrom(chain, next.output, next.rest).Nothing?
    then AtStale(id, f.before[id].output, []) else next
  }

  ghost predicate Stale<S, A>(chain: Chain<S, A>, f: Frontier<S>, id: BlockID)
    requires f.Valid() && id in f.inputs
  {
    var a := AnchorOf(chain, f, id);
    a.AtStale? && a.id == id
  }

  lemma FoldOne<S, A>(chain: Chain<S, A>, start: Maybe<Output<S>>, path: seq<Input>, b: Input)
    ensures FoldFrom(chain, start, path + [b])
            == var o := FoldFrom(chain, start, path); if o.Nothing? then Nothing else VerifyBlock(chain, o.value, b)
    ensures FoldFrom(chain, start, []) == start
  {
    assert (path + [b])[..|path|] == path;
  }

  /**
   * For every frontier, whatever entered verified: the final status of a block is the fold from the
   * nearest stale block's old output, or from the root if no block on its path is stale.
   */
  lemma {:induction false} FinalFromNearestStale<S, A>(chain: Chain<S, A>, f: Frontier<S>, id: BlockID)
    requires f.Valid() && id in f.inputs
    ensures
      var a := AnchorOf(chain, f, id);
      var fold := FoldFrom(chain, a.output, a.rest);
      Final(chain, f, id) == Status(fold.Some?, fold)
    decreases f.inputs[id].height
  {
    var p := f.inputs[id].parent;
    if p in f.inputs {
      FinalFromNearestStale(chain, f, p);
    }
    var prev := if p in f.inputs then AnchorOf(chain, f, p) else AtRoot(RootOutput(f, id), []);
    FoldOne(chain, prev.output, prev.rest, f.inputs[id]);
    FoldOne(chain, f.before[id].output, [], f.inputs[id]);
  }

  /** An anchor of `id`: the root of its path, or a block on it that entered verified. */
  ghost predicate Anchors<S>(f: Frontier<S>, id: BlockID, a: Anchor<S>)
    requires f.Valid() && id in f.inputs
  {
    match a
    case AtRoot(o, rest) => o == RootOutput(f, id) && rest == Path(f, id)
    case AtStale(y, o, rest) =>
      && y in f.inputs && f.inputs[y].height <= f.inputs[id].height && OnPath(f, id, y)
      && f.before[y].verified && o == f.before[y].output && Path(f, id) == Path(f, y) + rest
  }

  lemma AnchorsNext<S>(f: Frontier<S>, id: BlockID, a: Anchor<S>)
    requires f.Valid() && id in f.inputs && f.inputs[id].parent in f.inputs && Anchors(f, f.inputs[id].parent, a)
    ensures Anchors(f, id, a.(rest := a.rest + [f.inputs[id]]))
  {
    if a.AtStale? {
      assert Path(f, a.id) + (a.rest + [f.inputs[id]]) == (Path(f, a.id) + a.rest) + [f.inputs[id]];
    }
  }

  lemma AnchorsSelf<S>(f: Frontier<S>, id: BlockID)
    requires f.Valid() && id in f.inputs
    ensures f.before[id].verified ==> Anchors(f, id, AtStale(id, f.before[id].output, []))
    ensures f.inputs[id].parent !in f.inputs ==> Anchors(f, id, AtRoot(RootOutput(f, id), [f.inputs[id]]))
  {
    assert Path(f, id) + [] == Path(f, id);
  }

  /** Where verification starts over: the root of the path, or a block on it that entered verified. */
  lemma {:induction false} AnchorShape<S, A>(chain: Chain<S, A>, f: Frontier<S>, id: BlockID)
    requires f.Valid() && id in f.inputs
    ensures Anchors(f, id, AnchorOf(chain, f, id))
    decreases f.inputs[id].height
  {
    hide Anchors, FoldFrom;
    AnchorsSelf(f, id);
    var p := f.inputs[id].parent;
    if p in f.inputs {
      AnchorShape(chain, f, p);
      AnchorsNext(f, id, AnchorOf(chain, f, p));
    } else {
      assert [] + [f.inputs[id]] == [f.inputs[id]];
    }
  }

  /** A block is stale exactly when it entered verified and verification does not reach it. */
  lemma StaleIff<S, A>(chain: Chain<S, A>, f: Frontier<S>, id: BlockID)
    requires f.Valid() && id in f.inputs
    ensures
      var p := f.inputs[id].parent;
      var prev := if p in f.inputs then AnchorOf(chain, f, p) else AtRoot(RootOutput(f, id), []);
      var reached := FoldFrom(chain, prev.output, prev.rest + [f.inputs[id]]);
      && (Stale(chain, f, id) <==> f.before[id].verified && reached.Nothing?)
      && AnchorOf(chain, f, id) == if Stale(chain, f, id) then AtStale(id, f.before[id].output, [])
                                   else prev.(rest := prev.rest + [f.inputs[id]])
  {
    var p := f.inputs[id].parent;
    if p in f.inputs {
      AnchorShape(chain, f, p);
    }
  }

  /** No block on the path above the last stale one is stale, and none at all if verification never started over. */
  lemma {:induction false} AnchorIsNearest<S, A>(chain: Chain<S, A>, f: Frontier<S>, id: BlockID, x: BlockID)
    requires f.Valid() && id in f.inputs && x in f.inputs && OnPath(f, id, x) && Stale(chain, f, x)
    ensures
      var a := AnchorOf(chain, f, id);
      a.AtStale? && a.id in f.inputs && (x == a.id || f.inputs[x].height < f.inputs[a.id].height)
    decreases f.inputs[id].height
  {
    hide FoldFrom;
    if x != id {
      var p := f.inputs[id].parent;
      OnPathLower(f, p, x);
      AnchorIsNearest(chain, f, p, x);
    }
  }

  lemma {:induction false} OnPathLower<S>(f: Frontier<S>, id: BlockID, x: BlockID)
    requires f.Valid() && id in f.inputs && OnPath(f, id, x)
    ensures x in f.inputs && f.inputs[x].height <= f.inputs[id].height
    decreases f.inputs[id].height
  {
    if x != id {
      OnPathLower(f, f.inputs[id].parent, x);
    }
  }

  /** As long as verification from the root succeeds, no block on the path is stale. */
  lemma {:induction false} RootFoldKeepsRoot<S, A>(chain: Chain<S, A>, f: Frontier<S>, id: BlockID)
    requires f.Valid() && id in f.inputs && RootFold(chain, f, id).Some?
    ensures AnchorOf(chain, f, id) == AtRoot(RootOutput(f, id), Path(f, id))
    decreases f.inputs[id].height
  {
    var p := f.inputs[id].parent;
    if p in f.inputs {
      FoldOne(chain, RootOutput(f, id), Path(f, p), f.inputs[id]);
      RootFoldKeepsRoot(chain, f, p);
    }
  }

  /**
   * When the final status is that of verifying the whole path from the root: always, except when that
   * verification fails and the one from the nearest stale block succeeds.
   */
  lemma DiffersFromRootFold<S, A>(chain: Chain<S, A>, f: Frontier<S>, id: BlockID)
    requires f.Valid() && id in f.inputs
    ensures
      var a := AnchorOf(chain, f, id);
      var fold := RootFold(chain, f, id);
      && (fold.Some? ==> Final(chain, f, id) == Status(true, fold))
      && (Final(chain, f, id) != Status(fold.Some?, fold)
          <==> fold.Nothing? && a.AtStale? && FoldFrom(chain, a.output, a.rest).Some?)
  {
    FinalFromNearestStale(chain, f, id);
    AnchorShape(chain, f, id);
    if RootFold(chain, f, id).Some? {
      RootFoldKeepsRoot(chain, f, id);
    }
  }

  /**
   * A block whose path entered unverified is verified exactly when the path starts on a verified
   * block and verification succeeds on every block of it, and its output is that fold.
   */
  lemma VerifiedIffPathFolds<S, A>(chain: Chain<S, A>, f: Frontier<S>, id: BlockID)
    requires f.Valid() && id in f.inputs
    requires forall x | x in f.inputs && OnPath(f, id, x) :: !f.before[x].verified
    ensures Final(chain, f, id) == Status(RootFold(chain, f, id).Some?, RootFold(chain, f, id))
  {
    DiffersFromRootFold(chain, f, id);
    AnchorShape(chain, f, id);
  }

  /**
   * The unresolved blocks are those left unverified, those that are stale and those whose verification
   * a subscriber refused.
   */
  lemma UnresolvedIsTheRest<S, A>(chain: Chain<S, A>, f: Frontier<S>, id: BlockID)
    requires f.Valid() && id in f.inputs
    ensures
      var r := Final(chain, f, id);
      Unresolved(chain, f, id)
      <==> !r.verified || Stale(chain, f, id) || !chain.verifiedOk(r.output.value.state)
  {
    var p := f.inputs[id].parent;
    if p in f.inputs {
      FinalFromNearestStale(chain, f, p);
    }
    FinalFromNearestStale(chain, f, id);
    StaleIff(chain, f, id);
    var prev := if p in f.inputs then AnchorOf(chain, f, p) else AtRoot(RootOutput(f, id), []);
    FoldOne(chain, prev.output, prev.rest, f.inputs[id]);
    FoldOne(chain, f.before[id].output, [], f.inputs[id]);
  }

  /** A chain that refuses block 1 on the state 0 and otherwise counts. */
  function RefusesFirst(): Chain<int, int> {
    Chain((s: int, b: Input) => if b.id == 1 && s == 0 then Nothing else Some(s + 1),
          (a: int, s: int) => Some(s), (s: int) => true, (a: int) => true)
  }

  /** Block 1 entered verified on an output of its own, block 2 on top of it entered unverified. */
  function StaleFrontier(): Frontier<int> {
    Frontier(map[1 := Input(1, 0, 1), 2 := Input(2, 1, 2)],
             map[1 := Status(true, Some(Output(1, 1, 7))), 2 := Status(false, Nothing)],
             map[0 := Status(true, Some(Output(0, 0, 0)))])
  }

  /**
   * A stale frontier: the chain refuses block 1 on the last accepted block, yet it stays verified, and
   * block 2, which no verification from the last accepted block reaches, ends verified on its old
   * output and resolved.
   */
  lemma StaleOutputSpreads()
    ensures
      var (chain, f) := (RefusesFirst(), StaleFrontier());
      && f.Valid() && RootFold(chain, f, 2).Nothing?
      && Final(chain, f, 1) == f.before[1] && Unresolved(chain, f, 1)
      && Final(chain, f, 2) == Status(true, Some(Output(2, 2, 8))) && !Unresolved(chain, f, 2)
  {
    var (chain, f) := (RefusesFirst(), StaleFrontier());
    assert f.Valid();
    assert Path(f, 1) == [Input(1, 0, 1)];
    assert Path(f, 2) == [Input(1, 0, 1), Input(2, 1, 2)];
    FoldOne(chain, RootOutput(f, 2), [], Input(1, 0, 1));
    FoldOne(chain, RootOutput(f, 2), [Input(1, 0, 1)], Input(2, 1, 2));
    assert [] + [Input(1, 0, 1)] == [Input(1, 0, 1)];
    assert ParentStatus(chain, f, 1) == f.base[0];
    assert Final(chain, f, 1) == f.before[1];
    assert ParentStatus(chain, f, 2) == f.before[1];
  }

  lemma {:induction false} Lowest(inputs: map<BlockID, Input>, ids: set<BlockID>)
    requires ids != {} && ids <= inputs.Keys
    ensures exists id :: id in ids && forall x | x in ids :: inputs[id].height <= inputs[x].height
  {
    var id :| id in ids;
    var lower := set x | x in ids && inputs[x].height < inputs[id].height;
    if lower != {} {
      assert id !in lower;
      assert lower < ids;
      Lowest(inputs, lower);
      var low :| low in lower && forall x | x in lower :: inputs[low].height <= inputs[x].height;
      assert forall x | x in ids :: x in lower || inputs[id].height <= inputs[x].height;
    } else {
      assert forall x | x in ids :: x !in lower;
    }
  }

  /** `order` lists the keys, each once, lowest block first. */
  ghost predicate Sorted(inputs: map<BlockID, Input>, order: seq<BlockID>) {
    && (forall i | 0 <= i < |order| :: order[i] in inputs)
    && (forall i, j | 0 <= i < j < |order| ::
          order[i] != order[j] && inputs[order[i]].height <= inputs[order[j]].height)
  }

  /** `order` lists all the keys, each once, lowest block first. */
  ghost predicate Orders(inputs: map<BlockID, Input>, order: seq<BlockID>) {
    Sorted(inputs, order) && forall id | id in inputs :: id in order
  }

  /** The blocks not yet listed are at least as high as those listed. */
  ghost predicate Ahead(inputs: map<BlockID, Input>, order: seq<BlockID>, rest: set<BlockID>) {
    && rest <= inputs.Keys && (forall id | id in inputs :: id in order || id in rest)
    && (forall i | 0 <= i < |order| :: order[i] in inputs && order[i] !in rest)
    && (forall i, x | 0 <= i < |order| && x in rest :: inputs[order[i]].height <= inputs[x].height)
  }

  lemma SortedMore(inputs: map<BlockID, Input>, order: seq<BlockID>, rest: set<BlockID>, id: BlockID)
    requires Sorted(inputs, order) && Ahead(inputs, order, rest) && id in rest
    requires forall x | x in rest :: inputs[id].height <= inputs[x].height
    ensures Sorted(inputs, order + [id]) && Ahead(inputs, order + [id], rest - {id})
  {
    forall x | x in inputs
      ensures x in order + [id] || x in rest - {id}
    {
      assert x == id ==> (order + [id])[|order|] == x;
    }
  }

  method SortByHeight(inputs: map<BlockID, Input>) returns (order: seq<BlockID>)
    ensures Orders(inputs, order)
  {
    order := [];
    var rest := inputs.Keys;
    while rest != {}
      invariant Sorted(inputs, order) && Ahead(inputs, order, rest)
      decreases rest
    {
      Lowest(inputs, rest);
      var id :| id in rest && forall x | x in rest :: inputs[id].height <= inputs[x].height;
      SortedMore(inputs, order, rest, id);
      order := order + [id];
      rest := rest - {id};
    }
  }

  ghost function UnresolvedIn<S, A>(chain: Chain<S, A>, f: Frontier<S>, ids: seq<BlockID>): set<BlockID>
    requires f.Valid() && forall i | 0 <= i < |ids| :: ids[i] in f.inputs
  {
    if ids == [] then {}
    else
      var id := ids[|ids| - 1];
      UnresolvedIn(chain, f, ids[..|ids| - 1]) + if Unresolved(chain, f, id) then {id} else {}
  }

  lemma {:induction false} UnresolvedInAll<S, A>(chain: Chain<S, A>, f: Frontier<S>, ids: seq<BlockID>)
    requires f.Valid() && forall i | 0 <= i < |ids| :: ids[i] in f.inputs
    ensures forall id :: id in UnresolvedIn(chain, f, ids) <==> id in ids && Unresolved(chain, f, id)
  {
    if ids != [] {
      UnresolvedInAll(chain, f, ids[..|ids| - 1]);
      assert ids == ids[..|ids| - 1] + [ids[|ids| - 1]];
    }
  }

  predicate Stored(byHeight: map<nat, Input>, low: nat, high: nat) {
    forall h | low < h <= high :: h in byHeight
  }

  /** The accepted blocks above `low` up to `high`. */
  function Range(byHeight: map<nat, Input>, low: nat, high: nat): (r: seq<Input>)
    requires Stored(byHeight, low, high) && low <= high
    ensures |r| == high - low
  {
    seq(high - low, i requires 0 <= i < high - low => byHeight[low + 1 + i])
  }

  lemma RangeGrows(byHeight: map<nat, Input>, low: nat, high: nat)
    requires Stored(byHeight, low, high) && low <= high && high + 1 in byHeight
    ensures Range(byHeight, low, high + 1) == Range(byHeight, low, high) + [byHeight[high + 1]]
    ensures var r := Range(byHeight, low, high + 1); r[..|r| - 1] == Range(byHeight, low, high)
  {
  }

  /** Reprocessing that fails on the way fails as a whole. */
  lemma {:induction false} ReprocessStops<S, A>(chain: Chain<S, A>, start: Output<S>, accepted: A,
                                                byHeight: map<nat, Input>, mid: nat, high: nat)
    requires start.height <= mid <= high && Stored(byHeight, start.height, high)
    ensures Reprocess(chain, start, accepted, Range(byHeight, start.height, high)).Some? ==>
              Reprocess(chain, start, accepted, Range(byHeight, start.height, mid)).Some?
    decreases high
  {
    if mid < high {
      RangeGrows(byHeight, start.height, high - 1);
      ReprocessStops(chain, start, accepted, byHeight, mid, high - 1);
    }
  }

  /** The frontier once the last accepted block has its state. */
  function Handed<S>(f: Frontier<S>, id: BlockID, status: Status<S>): Frontier<S> {
    f.(base := f.base[id := status])
  }

  lemma HandedValid<S>(f: Frontier<S>, id: BlockID, status: Status<S>)
    requires f.Valid() && (status.verified <==> status.output.Some?)
    ensures Handed(f, id, status).Valid()
  {
  }
}
