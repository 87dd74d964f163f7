/**
 * Syncing the validity window: backward fetching of history and forward acceptance of new targets run
 * side by side, over peers that may answer anything.
 */
module Syncer {
  import opened Bytes
  import opened Heaps
  import opened EMaps
  import opened BlockTree
  import opened Coverage
  import opened ValidityWindow
  import ReplaySafety

  /**
   * The window's memory, the sync target, the oldest block found on disk, the target time behind the
   * minimum timestamp, the fetcher's last block, the blocks it has sent that are not yet consumed, the
   * target time at which it closed its channel, and whether consuming failed or syncing is done.
   */
  datatype State = State(
    seen: Expiries, target: Block, oldest: Block, minAt: int,
    fetched: Block, pending: seq<Block>, closedAt: Closed, failed: bool, done: bool)

  datatype Closed = Open | ClosedAt(time: int)

  datatype Action =
    | Update(b: Block)          // consensus accepts the child of the target
    | Receive(b: Block)         // a peer's answer starts with this block
    | Close                     // the fetcher sees that its last block has left the window
    | Consume                   // the oldest unconsumed block is saved and added
    | Fail                      // saving a historical block fails
    | Finish                    // the channel is drained

  function MinTimestamp(net: Net, s: State): int {
    OldestAllowed(net.window, s.minAt)
  }

  ghost predicate Enabled(net: Net, s: State, a: Action)
    requires WellFormed(net)
  {
    match a
    case Update(b) => Has(net, b) && b.height > 0 && Parent(net, b) == s.target
    case Receive(b) => Has(net, b) && s.closedAt.Open?
    case Close => s.closedAt.Open? && s.fetched.timestamp < MinTimestamp(net, s)
    case Consume => s.pending != [] && !s.failed
    case Fail => s.pending != []
    case Finish => s.closedAt.ClosedAt? && s.pending == [] && !s.failed
  }

  function Apply(net: Net, s: State, a: Action): State
    requires a.Consume? ==> s.pending != []
  {
    match a
    case Update(b) =>
      var r := s.(seen := AcceptBlock(s.seen, b), target := b);
      if b.timestamp - s.oldest.timestamp > net.window(b.timestamp) then r.(done := true)
      else r.(minAt := b.timestamp)
    case Receive(b) =>
      if b.id == s.fetched.parent && s.fetched.height > 0 then s.(fetched := b, pending := s.pending + [b]) else s
    case Close => s.(closedAt := ClosedAt(s.minAt))
    case Consume => s.(seen := AddedAll(s.seen, s.pending[0].containers), pending := s.pending[1..])
    case Fail => s.(failed := true)
    case Finish => s.(done := true)
  }

  /** What starting leaves behind: the window rebuilt from disk, down to the oldest block found there. */
  ghost predicate Init(net: Net, s: State)
    requires WellFormed(net)
  {
    && Has(net, s.target) && Descends(net, s.target, s.oldest)
    && CompleteFrom(net, s.seen, s.target, s.oldest.height) && Sound(net, s.seen, s.target)
    && s.minAt == s.target.timestamp && s.fetched == s.oldest && s.pending == [] && s.closedAt.Open? && !s.failed
    && (s.done <==> s.oldest.height == 0 || (s.oldest != s.target && s.oldest.timestamp < MinTimestamp(net, s)))
  }

  /** The unconsumed blocks lie on the target's chain, right above the fetcher's last block. */
  ghost predicate Linked(net: Net, target: Block, oldest: Block, fetched: Block, pending: seq<Block>)
    requires WellFormed(net) && Has(net, target)
  {
    && Descends(net, target, oldest) && Descends(net, target, fetched)
    && fetched.height + |pending| <= oldest.height
    && OnChain(net, target, fetched.height + |pending|, pending)
  }

  /** The blocks are the target's ancestors below height `top`, highest first. */
  ghost predicate OnChain(net: Net, target: Block, top: nat, pending: seq<Block>)
    requires WellFormed(net) && Has(net, target)
  {
    && |pending| <= top <= target.height + 1
    && forall i | 0 <= i < |pending| :: IsAncestor(net, target, top - 1 - i, pending[i])
  }

  ghost predicate IsAncestor(net: Net, target: Block, h: nat, b: Block)
    requires WellFormed(net) && Has(net, target)
  {
    h <= target.height && b == Ancestor(net, target, h)
  }

  /** `t` is a target time, no later than the target and no earlier than the oldest block at hand. */
  ghost predicate TargetTime(s: State, t: int) {
    s.fetched.height > 0 ==> s.fetched.timestamp <= t <= s.target.timestamp
  }

  ghost predicate Inv(net: Net, s: State)
    requires WellFormed(net)
  {
    && ClosesAhead(net.window)
    && Has(net, s.target) && Linked(net, s.target, s.oldest, s.fetched, s.pending) && Sound(net, s.seen, s.target)
    && CompleteFrom(net, s.seen, s.target, s.fetched.height + |s.pending|)
    && TargetTime(s, s.minAt)
    && (s.closedAt.ClosedAt? ==>
          && TargetTime(s, s.closedAt.time)
          && s.fetched.timestamp < OldestAllowed(net.window, s.closedAt.time))
    && (s.done ==> CompleteFrom(net, s.seen, s.target, 0))
  }

  lemma InitHolds(net: Net, s: State)
    requires WellFormed(net) && ClosesAhead(net.window) && Init(net, s)
    ensures Inv(net, s)
  {
    NotLater(net, s.target, s.oldest.height);
    if s.done && s.oldest.height > 0 {
      FullWindow(net, s.seen, s.target, s.oldest.height, s.target.timestamp);
    }
  }

  lemma CompleteUp(net: Net, m: Expiries, b: Block, low: nat, high: nat)
    requires WellFormed(net) && Has(net, b) && CompleteFrom(net, m, b, low) && low <= high
    ensures CompleteFrom(net, m, b, high)
  {
    SinceShrinks(net, b, low, high);
  }

  lemma {:induction false} SinceShrinks(net: Net, b: Block, low: nat, high: nat)
    requires WellFormed(net) && Has(net, b) && low <= high
    ensures Since(net, b, high) <= Since(net, b, low)
    decreases b.height
  {
    if b.height > 0 {
      SinceShrinks(net, Parent(net, b), low, high);
    }
  }

  lemma ParentSound(net: Net, m: Expiries, b: Block)
    requires WellFormed(net) && Has(net, b) && b.height > 0 && Sound(net, m, Parent(net, b))
    ensures Faithful(net, m) && Sound(net, AcceptBlock(m, b), b)
  {
    SoundIsFaithful(net, m, Parent(net, b));
    AcceptSound(net, m, b);
  }

  lemma FilledWindow(net: Net, m: Expiries, b: Block, oldest: Block, low: nat)
    requires WellFormed(net) && Has(net, b) && Descends(net, b, oldest) && CompleteFrom(net, m, b, low)
    requires low <= oldest.height && ClosesAhead(net.window)
    requires b.timestamp - oldest.timestamp > net.window(b.timestamp)
    ensures CompleteFrom(net, m, b, 0)
  {
    hide CompleteFrom;
    CompleteUp(net, m, b, low, oldest.height);
    NotLater(net, b, oldest.height);
    FullWindow(net, m, b, oldest.height, b.timestamp);
  }

  lemma UpdateCovers(net: Net, s: State, b: Block)
    requires WellFormed(net) && Inv(net, s) && Enabled(net, s, Update(b))
    ensures Sound(net, AcceptBlock(s.seen, b), b)
    ensures CompleteFrom(net, AcceptBlock(s.seen, b), b, s.fetched.height + |s.pending|)
    ensures s.done ==> CompleteFrom(net, AcceptBlock(s.seen, b), b, 0)
    ensures b.timestamp - s.oldest.timestamp > net.window(b.timestamp) ==>
              CompleteFrom(net, AcceptBlock(s.seen, b), b, 0)
  {
    LinkedUpdate(net, s.target, s.oldest, s.fetched, s.pending, b);
    assert Descends(net, b, s.oldest) && s.fetched.height + |s.pending| <= s.oldest.height;
    hide Linked, CompleteFrom, Sound, Faithful, AcceptBlock, Ancestor, Descends, Closes, WellFormedBlock;
    ParentSound(net, s.seen, b);
    AcceptCovers(net, s.seen, b, s.fetched.height + |s.pending|);
    if s.done {
      AcceptCovers(net, s.seen, b, 0);
    }
    if b.timestamp - s.oldest.timestamp > net.window(b.timestamp) {
      FilledWindow(net, AcceptBlock(s.seen, b), b, s.oldest, s.fetched.height + |s.pending|);
    }
  }

  lemma LinkedUpdate(net: Net, target: Block, oldest: Block, fetched: Block, pending: seq<Block>, b: Block)
    requires WellFormed(net) && Has(net, target) && Linked(net, target, oldest, fetched, pending)
    requires Has(net, b) && b.height > 0 && Parent(net, b) == target
    ensures Linked(net, b, oldest, fetched, pending)
    ensures fetched.height > 0 ==> target.timestamp <= b.timestamp && fetched.timestamp <= b.timestamp
  {
    NotLater(net, b, fetched.height);
  }

  lemma LinkedReceive(net: Net, target: Block, oldest: Block, fetched: Block, pending: seq<Block>, b: Block)
    requires WellFormed(net) && Has(net, target) && Linked(net, target, oldest, fetched, pending)
    requires Has(net, b) && fetched.height > 0 && b.id == fetched.parent
    ensures Linked(net, target, oldest, b, pending + [b]) && b.height + 1 == fetched.height
    ensures b.height > 0 ==> b.timestamp <= fetched.timestamp
  {
    AncestorParent(net, target, fetched.height - 1);
    assert IsAncestor(net, target, b.height, b);
    hide IsAncestor;
    forall i | 0 <= i < |pending + [b]|
      ensures IsAncestor(net, target, fetched.height + |pending| - 1 - i, (pending + [b])[i])
    {
      assert i < |pending| ==> (pending + [b])[i] == pending[i];
    }
  }

  lemma LinkedConsume(net: Net, target: Block, oldest: Block, fetched: Block, pending: seq<Block>)
    requires WellFormed(net) && Has(net, target) && Linked(net, target, oldest, fetched, pending) && pending != []
    ensures Linked(net, target, oldest, fetched, pending[1..])
    ensures fetched.height + |pending| - 1 <= target.height
    ensures pending[0] == Ancestor(net, target, fetched.height + |pending| - 1)
  {
    hide OnChain, Descends, Ancestor, WellFormed;
    var top := fetched.height + |pending|;
    OnChainTail(net, target, top, pending);
    var rest := pending[1..];
    assert fetched.height + |rest| == top - 1;
  }

  lemma OnChainTail(net: Net, target: Block, top: nat, pending: seq<Block>)
    requires WellFormed(net) && Has(net, target) && OnChain(net, target, top, pending) && pending != []
    ensures OnChain(net, target, top - 1, pending[1..])
    ensures top - 1 <= target.height && pending[0] == Ancestor(net, target, top - 1)
  {
    assert IsAncestor(net, target, top - 1 - 0, pending[0]);
    hide IsAncestor;
    var rest := pending[1..];
    assert forall i | 0 <= i < |rest| :: rest[i] == pending[i + 1];
  }

  lemma UpdateKeeps(net: Net, s: State, b: Block)
    requires WellFormed(net) && Inv(net, s) && Enabled(net, s, Update(b))
    ensures Inv(net, Apply(net, s, Update(b)))
  {
    hide Linked, CompleteFrom, Sound;
    UpdateCovers(net, s, b);
    LinkedUpdate(net, s.target, s.oldest, s.fetched, s.pending, b);
  }

  lemma ReceiveKeeps(net: Net, s: State, b: Block)
    requires WellFormed(net) && Inv(net, s) && Enabled(net, s, Receive(b))
    ensures Inv(net, Apply(net, s, Receive(b)))
  {
    hide Linked, CompleteFrom, Sound;
    if b.id == s.fetched.parent && s.fetched.height > 0 {
      LinkedReceive(net, s.target, s.oldest, s.fetched, s.pending, b);
    }
  }

  lemma ConsumeKeeps(net: Net, s: State)
    requires WellFormed(net) && Inv(net, s) && Enabled(net, s, Consume)
    ensures Inv(net, Apply(net, s, Consume))
  {
    hide Linked, CompleteFrom, Sound;
    var h := s.fetched.height + |s.pending| - 1;
    LinkedConsume(net, s.target, s.oldest, s.fetched, s.pending);
    HistoricalCovers(net, s.seen, s.target, h);
    AcceptAncestorSound(net, s.seen, s.target, h);
    if s.done {
      AddedStaysComplete(net, s.seen, s.target, h);
    }
  }

  lemma AddedStaysComplete(net: Net, m: Expiries, b: Block, h: nat)
    requires WellFormed(net) && Has(net, b) && h <= b.height && CompleteFrom(net, m, b, 0)
    ensures CompleteFrom(net, AddedAll(m, Ancestor(net, b, h).containers), b, 0)
  {
    NoZeroExpiry(net, Ancestor(net, b, h));
    AddedAllKeeps(m, Ancestor(net, b, h).containers);
  }

  lemma SoundIsFaithful(net: Net, m: Expiries, b: Block)
    requires WellFormed(net) && Has(net, b) && Sound(net, m, b)
    ensures Faithful(net, m)
  {
    forall id | id in m
      ensures m[id] == net.expiryOf(id)
    {
      Committed(net, b, 0, Item(id, m[id]));
    }
  }

  lemma FinishKeeps(net: Net, s: State)
    requires WellFormed(net) && Inv(net, s) && Enabled(net, s, Finish)
    ensures Inv(net, Apply(net, s, Finish))
  {
    FullWindow(net, s.seen, s.target, s.fetched.height,
               if s.fetched.height > 0 then s.closedAt.time else s.target.timestamp);
  }

  lemma StepKeeps(net: Net, s: State, a: Action)
    requires WellFormed(net) && Inv(net, s) && Enabled(net, s, a)
    ensures Inv(net, Apply(net, s, a))
  {
    match a
    case Update(b) => UpdateKeeps(net, s, b);
    case Receive(b) => ReceiveKeeps(net, s, b);
    case Close =>
    case Consume => ConsumeKeeps(net, s);
    case Fail =>
    case Finish => FinishKeeps(net, s);
  }

  ghost predicate Runs(net: Net, s: State, actions: seq<Action>)
    requires WellFormed(net)
    decreases |actions|
  {
    actions == [] || (Enabled(net, s, actions[0]) && Runs(net, Apply(net, s, actions[0]), actions[1..]))
  }

  ghost function After(net: Net, s: State, actions: seq<Action>): State
    requires WellFormed(net) && Runs(net, s, actions)
    decreases |actions|
  {
    if actions == [] then s else After(net, Apply(net, s, actions[0]), actions[1..])
  }

  /** The step ends the sync: a target that has left the oldest block at hand behind, or the end of the history. */
  predicate Completes(net: Net, oldest: Block, a: Action) {
    match a
    case Update(b) => b.timestamp - oldest.timestamp > net.window(b.timestamp)
    case Finish => true
    case _ => false
  }

  /** A sync is done exactly if it was from the start or some step ended it. */
  lemma {:induction false} DoneExactlyIfCompleted(net: Net, s: State, actions: seq<Action>)
    requires WellFormed(net) && Runs(net, s, actions)
    ensures After(net, s, actions).done
            <==> s.done || exists i :: 0 <= i < |actions| && Completes(net, s.oldest, actions[i])
    decreases |actions|
  {
    if actions != [] {
      var (a, rest) := (actions[0], actions[1..]);
      var r := Apply(net, s, a);
      DoneExactlyIfCompleted(net, r, rest);
      assert r.oldest == s.oldest && (r.done <==> s.done || Completes(net, s.oldest, a));
      hide Apply, Enabled, Completes;
      if i :| 0 <= i < |rest| && Completes(net, s.oldest, rest[i]) {
        assert actions[i + 1] == rest[i];
      }
      if i :| 0 <= i < |actions| && Completes(net, s.oldest, actions[i]) {
        assert i == 0 || rest[i - 1] == actions[i];
      }
    }
  }

  /** Saving may fail whenever a block waits to be added. */
  lemma FailsAnyTime(net: Net, s: State)
    requires WellFormed(net) && s.pending != []
    ensures Enabled(net, s, Fail) && Apply(net, s, Fail) == s.(failed := true)
  {
  }

  /** From then on no history is added, and only a new target can end the sync. */
  lemma {:induction false} FailedEndsByTarget(net: Net, s: State, actions: seq<Action>)
    requires WellFormed(net) && Runs(net, s, actions) && s.failed
    ensures forall i | 0 <= i < |actions| :: !actions[i].Consume? && !actions[i].Finish?
    ensures After(net, s, actions).done
            <==> s.done || exists i :: 0 <= i < |actions| && actions[i].Update? && Completes(net, s.oldest, actions[i])
    decreases |actions|
  {
    NoneConsumed(net, s, actions);
    DoneExactlyIfCompleted(net, s, actions);
    hide Runs, After;
  }

  lemma {:induction false} NoneConsumed(net: Net, s: State, actions: seq<Action>)
    requires WellFormed(net) && Runs(net, s, actions) && s.failed
    ensures forall i | 0 <= i < |actions| :: !actions[i].Consume? && !actions[i].Finish?
    decreases |actions|
  {
    if actions != [] {
      var rest := actions[1..];
      assert Apply(net, s, actions[0]).failed;
      NoneConsumed(net, Apply(net, s, actions[0]), rest);
      assert forall i | 0 < i < |actions| :: actions[i] == rest[i - 1];
    }
  }

  // ---------------------------------------------------------------------------------------------
  // When fetching alone completes
  // ---------------------------------------------------------------------------------------------

  /** Only peers, the fetcher and its consumer act, and saving never fails. */
  predicate Fetching(actions: seq<Action>) {
    forall i | 0 <= i < |actions| :: !actions[i].Update? && !actions[i].Fail?
  }

  /** The block of the target's chain at this height is one the fetcher has yet to pass, and older than the window. */
  ghost predicate Leaves(net: Net, s: State, h: nat)
    requires WellFormed(net) && Has(net, s.target)
  {
    h <= s.fetched.height && h <= s.target.height && Ancestor(net, s.target, h).timestamp < MinTimestamp(net, s)
  }

  lemma FetchedOnChain(net: Net, s: State)
    requires WellFormed(net) && Inv(net, s)
    ensures Has(net, s.fetched) && s.fetched.height <= s.target.height
    ensures s.fetched == Ancestor(net, s.target, s.fetched.height)
  {
  }

  lemma RunsOne(net: Net, s: State, a: Action, rest: seq<Action>)
    requires WellFormed(net) && Enabled(net, s, a) && Runs(net, Apply(net, s, a), rest) && Fetching(rest)
    requires !a.Update? && !a.Fail? && After(net, Apply(net, s, a), rest).done
    ensures Runs(net, s, [a] + rest) && After(net, s, [a] + rest).done && Fetching([a] + rest)
  {
    hide Apply, Enabled;
    assert ([a] + rest)[1..] == rest;
  }

  /** From a fetcher that has closed, or has such a block ahead, to the end of the sync. */
  lemma {:induction false} Complete(net: Net, s: State, h: nat) returns (actions: seq<Action>)
    requires WellFormed(net) && Inv(net, s) && !s.failed && (s.closedAt.Open? ==> Leaves(net, s, h))
    ensures Runs(net, s, actions) && After(net, s, actions).done && Fetching(actions)
    decreases s.closedAt.Open?, s.fetched.height, |s.pending|
  {
    FetchedOnChain(net, s);
    hide Inv;
    var a :=
      if s.closedAt.Open? && h < s.fetched.height then Receive(Parent(net, s.fetched))
      else if s.closedAt.Open? then Close
      else if s.pending != [] then Consume
      else Finish;
    assert Enabled(net, s, a);
    StepKeeps(net, s, a);
    var rest := [];
    if a.Finish? {
      assert Runs(net, Apply(net, s, a), rest) && After(net, Apply(net, s, a), rest).done;
    } else {
      rest := Complete(net, Apply(net, s, a), h);
    }
    RunsOne(net, s, a, rest);
    actions := [a] + rest;
  }

  lemma {:induction false} CompletedLeaves(net: Net, s: State, actions: seq<Action>)
    requires WellFormed(net) && Inv(net, s) && !s.done && s.closedAt.Open?
    requires Fetching(actions) && Runs(net, s, actions) && After(net, s, actions).done
    ensures exists h :: Leaves(net, s, h)
    decreases |actions|
  {
    var (a, rest) := (actions[0], actions[1..]);
    FetchedOnChain(net, s);
    assert !a.Update? && !a.Fail?;
    if a.Close? {
      assert Leaves(net, s, s.fetched.height);
    } else {
      StepKeeps(net, s, a);
      hide Inv;
      var r := Apply(net, s, a);
      CompletedLeaves(net, r, rest);
      var h :| Leaves(net, r, h);
      FetchedLower(net, s, a);
      assert Leaves(net, s, h);
    }
  }

  lemma FetchedLower(net: Net, s: State, a: Action)
    requires WellFormed(net) && Inv(net, s) && Enabled(net, s, a) && !a.Update?
    ensures var r := Apply(net, s, a);
            r.target == s.target && r.minAt == s.minAt && r.fetched.height <= s.fetched.height
  {
    FetchedOnChain(net, s);
  }

  /**
   * A sync that is under way can be completed by fetching alone exactly if the target's chain has a block
   * that is older than the window: on a younger chain the fetcher reaches genesis and never stops.
   */
  lemma FetchingCompletesExactlyIf(net: Net, s: State)
    requires WellFormed(net) && Inv(net, s) && s.closedAt.Open? && !s.failed && !s.done
    ensures (exists actions :: Fetching(actions) && Runs(net, s, actions) && After(net, s, actions).done)
            <==> exists h :: Leaves(net, s, h)
  {
    if actions :| Fetching(actions) && Runs(net, s, actions) && After(net, s, actions).done {
      CompletedLeaves(net, s, actions);
    }
    if h :| Leaves(net, s, h) {
      var actions := Complete(net, s, h);
    }
  }

  /**
   * However fetching and new targets interleave and whatever peers answer, a sync that is done has a
   * window that covers the whole chain of the latest target.
   */
  lemma {:induction false} DoneCovers(net: Net, s: State, actions: seq<Action>)
    requires WellFormed(net) && Inv(net, s) && Runs(net, s, actions)
    ensures Inv(net, After(net, s, actions))
    ensures After(net, s, actions).done ==> Covers(net, After(net, s, actions).seen, After(net, s, actions).target)
    decreases |actions|
  {
    if actions != [] {
      StepKeeps(net, s, actions[0]);
      DoneCovers(net, Apply(net, s, actions[0]), actions[1..]);
    }
  }

  lemma SyncedWindowCovers(net: Net, s: State, actions: seq<Action>)
    requires WellFormed(net) && ClosesAhead(net.window)
    requires Init(net, s) && Runs(net, s, actions) && After(net, s, actions).done
    ensures Has(net, After(net, s, actions).target)
    ensures Covers(net, After(net, s, actions).seen, After(net, s, actions).target)
  {
    InitHolds(net, s);
    DoneCovers(net, s, actions);
  }

  // ---------------------------------------------------------------------------------------------
  // From starting to sync to replay safety
  // ---------------------------------------------------------------------------------------------

  /** The syncer's own state, over the window it fills. */
  class WindowSyncer {
    const timeValidityWindow: TimeValidityWindow
    var oldestBlock: Block
    var minTimestamp: int
    var done: bool

    ghost predicate Valid()
      reads this, timeValidityWindow, timeValidityWindow.seen, timeValidityWindow.seen.bh,
            timeValidityWindow.seen.bh.items
    {
      timeValidityWindow.Valid()
    }

    constructor (timeValidityWindow: TimeValidityWindow, head: Block)
      requires timeValidityWindow.Valid()
      ensures Valid() && this.timeValidityWindow == timeValidityWindow && !done
    {
      this.timeValidityWindow := timeValidityWindow;
      oldestBlock, minTimestamp, done := head, 0, false;
    }

    /** The step system's state when the syncer has this target and nothing has been fetched. */
    ghost function Started(target: Block): State
      reads this, timeValidityWindow, timeValidityWindow.seen
    {
      State(timeValidityWindow.seen.expiries, target, oldestBlock, target.timestamp, oldestBlock, [], Open, false, done)
    }

    /** Rebuilds the window from the blocks at hand, and notes the oldest of them. */
    method BackfillFromExisting(ghost net: Net, index: map<BlockID, Block>, block: Block) returns (full: bool)
      requires Valid() && WellFormed(net) && ClosesAhead(net.window) && net.window == timeValidityWindow.window
      requires Has(net, block) && Indexes(net, index) && Sound(net, timeValidityWindow.seen.expiries, block)
      modifies this`oldestBlock, timeValidityWindow.Repr()
      ensures Valid() && fresh(timeValidityWindow.Repr() - old(timeValidityWindow.Repr()))
      ensures timeValidityWindow.lastAccepted == block.height && Init(net, Started(block).(done := full))
    {
      hide Sound, CompleteFrom, Init, Stretch, WellFormed, Faithful, OldestAllowed;
      SoundIsFaithful(net, timeValidityWindow.seen.expiries, block);
      var parents;
      parents, full := timeValidityWindow.Populate(net, index, block);
      StartCovers(net, timeValidityWindow.seen.expiries, block, parents, full);
      oldestBlock := parents[0];
    }

    /** Starts from what the blocks at hand give, and is done if that fills the window. */
    method Start(ghost net: Net, index: map<BlockID, Block>, target: Block)
      requires Valid() && !done && WellFormed(net) && ClosesAhead(net.window)
      requires net.window == timeValidityWindow.window
      requires Has(net, target) && Indexes(net, index) && Sound(net, timeValidityWindow.seen.expiries, target)
      modifies this, timeValidityWindow.Repr()
      ensures Valid() && fresh(timeValidityWindow.Repr() - old(timeValidityWindow.Repr()))
      ensures minTimestamp == OldestAllowed(net.window, target.timestamp)
      ensures timeValidityWindow.lastAccepted == target.height && Init(net, Started(target))
    {
      hide Sound, Init, WellFormed, OldestAllowed;
      var full := BackfillFromExisting(net, index, target);
      minTimestamp := OldestAllowed(timeValidityWindow.window, target.timestamp);
      if full {
        done := true;
      }
    }

    /** Accepts the child of the target, and is done if that fills the window. */
    method UpdateSyncTarget(ghost net: Net, target: Block)
      requires Valid() && net.window == timeValidityWindow.window
      modifies this, timeValidityWindow.Repr()
      ensures Valid() && fresh(timeValidityWindow.Repr() - old(timeValidityWindow.Repr()))
      ensures forall s: State |
                && s.seen == old(timeValidityWindow.seen.expiries)
                && s.oldest == oldestBlock && s.done == old(done)
                && old(minTimestamp) == OldestAllowed(net.window, s.minAt) ::
                var r := Apply(net, s, Update(target));
                && r.seen == timeValidityWindow.seen.expiries && r.oldest == oldestBlock && r.done == done
                && minTimestamp == OldestAllowed(net.window, r.minAt) && r.target == target
      ensures done <==> old(done) || target.timestamp - oldestBlock.timestamp > net.window(target.timestamp)
      ensures oldestBlock == old(oldestBlock) && timeValidityWindow.lastAccepted == target.height
      ensures minTimestamp == if target.timestamp - oldestBlock.timestamp > net.window(target.timestamp)
                              then old(minTimestamp) else OldestAllowed(net.window, target.timestamp)
    {
      var seenValidityWindow := target.timestamp - oldestBlock.timestamp > timeValidityWindow.window(target.timestamp);
      timeValidityWindow.Accept(target);
      if seenValidityWindow {
        done := true;
        return;
      }
      minTimestamp := OldestAllowed(timeValidityWindow.window, target.timestamp);
    }
  }

  lemma StartCovers(net: Net, m: Expiries, target: Block, parents: seq<Block>, full: bool)
    requires WellFormed(net) && Has(net, target) && Stretch(net, parents, target) && Sound(net, m, target)
    requires CompleteFrom(net, m, target, if full then 0 else parents[0].height)
    requires full <==> parents[0].height == 0
                       || (|parents| > 1 && parents[0].timestamp < OldestAllowed(net.window, target.timestamp))
    ensures Init(net, State(m, target, parents[0], target.timestamp, parents[0], [], Open, false, full))
  {
    if full {
      CompleteUp(net, m, target, 0, parents[0].height);
    }
  }

  /** What is on the chain of a block is on the chain of its descendants. */
  lemma SoundDescends(net: Net, m: Expiries, head: Block, b: Block)
    requires WellFormed(net) && Has(net, b) && Descends(net, b, head) && Sound(net, m, head)
    ensures Sound(net, m, b)
  {
    SinceSplits(net, b, head.height);
  }

  /** The chain of `b`, alone. */
  ghost function Line(net: Net, b: Block): (line: Net)
    requires Chained(net) && Has(net, b)
  {
    net.(blocks := map id | id in net.blocks && Descends(net, b, net.blocks[id]) :: net.blocks[id])
  }

  lemma LineChained(net: Net, b: Block)
    requires WellFormed(net) && Has(net, b)
    ensures WellFormed(Line(net, b)) && Has(Line(net, b), b)
  {
    var line := Line(net, b);
    forall x | Has(line, x)
      ensures WellFormedBlock(line, x) && (x.height > 0 ==> x.timestamp > 0)
    {
      assert Has(net, x);
      if x.height > 0 {
        AncestorParent(net, b, x.height - 1);
        assert Has(net, Parent(net, x));
      }
    }
  }

  lemma {:induction false} LineSince(net: Net, b: Block, x: Block, h: nat)
    requires Chained(net) && Has(net, b) && Chained(Line(net, b)) && Has(Line(net, b), x)
    ensures Has(net, x) && Since(Line(net, b), x, h) == Since(net, x, h)
    decreases x.height
  {
    if x.height > 0 {
      assert Has(Line(net, b), Parent(Line(net, b), x));
      LineSince(net, b, Parent(net, x), h);
    }
  }

  /** A chain without repeats, alone, has none. */
  lemma LineClean(net: Net, b: Block)
    requires WellFormed(net) && Has(net, b)
    requires forall h: nat | h <= b.height :: ReplaySafety.NoReplay(net, Ancestor(net, b, h))
    ensures WellFormed(Line(net, b))
    ensures forall id | id in Line(net, b).blocks :: ReplaySafety.NoReplay(Line(net, b), Line(net, b).blocks[id])
  {
    LineChained(net, b);
    var line := Line(net, b);
    forall id | id in line.blocks
      ensures ReplaySafety.NoReplay(line, line.blocks[id])
    {
      var x := line.blocks[id];
      assert Has(line, x) && ReplaySafety.NoReplay(net, Ancestor(net, b, x.height));
      if x.height > 0 {
        assert Has(line, Parent(line, x));
        LineSince(net, b, Parent(line, x), 0);
      }
    }
  }

  lemma LineCovers(net: Net, m: Expiries, b: Block)
    requires WellFormed(net) && Has(net, b) && Covers(net, m, b)
    ensures WellFormed(Line(net, b)) && Has(Line(net, b), b) && Covers(Line(net, b), m, b)
  {
    LineChained(net, b);
    LineSince(net, b, b, 0);
  }

  /**
   * From starting to sync to replay safety. Once a sync is done, however fetching and new targets
   * interleaved and whatever peers answered, the node goes on verifying and accepting blocks above the
   * last target. If the chain of that target repeats nothing, no chain the node ever lets in does,
   * whatever part of it the node holds or comes to hold.
   */
  lemma SyncedNeverIncludesTwice(net: Net, s: State, sync: seq<Action>, index: map<BlockID, Block>,
                                 actions: seq<ReplaySafety.Action>, b: Block, low: nat, high: nat)
    requires WellFormed(net) && ClosesAhead(net.window)
    requires Init(net, s) && Runs(net, s, sync) && After(net, s, sync).done
    requires var target := After(net, s, sync).target;
             && Has(net, target) && Indexes(Line(net, target), index)
             && forall h: nat | h <= target.height :: ReplaySafety.NoReplay(net, Ancestor(net, target, h))
    requires var r := After(net, s, sync);
             var node := ReplaySafety.State(Line(net, r.target), index, r.seen, r.target);
             && ReplaySafety.Runs(node, actions) && ReplaySafety.Timed(actions)
             && Has(ReplaySafety.After(node, actions).net, b) && low < high <= b.height
    ensures var r := After(net, s, sync);
            var node := ReplaySafety.State(Line(net, r.target), index, r.seen, r.target);
            var grown := ReplaySafety.After(node, actions).net;
            && Chained(grown)
            && (forall i, j | 0 <= i < j < |b.containers| :: b.containers[i].id != b.containers[j].id)
            && var (x, y) := (Ancestor(grown, b, low).containers, Ancestor(grown, b, high).containers);
               forall i, j | 0 <= i < |x| && 0 <= j < |y| :: x[i].id != y[j].id
  {
    SyncedWindowCovers(net, s, sync);
    var r := After(net, s, sync);
    LineCovers(net, r.seen, r.target);
    LineClean(net, r.target);
    var node := ReplaySafety.State(Line(net, r.target), index, r.seen, r.target);
    ReplaySafety.ResumedNeverIncludesTwice(node, actions, b, low, high);
  }

  /**
   * IDs are hashes of contents: a parsed block under an ID of the network is the network's block, and
   * none has the empty ID that the genesis block names as its parent.
   */
  ghost predicate Genuine(net: Net, answer: seq<Maybe<Block>>) {
    forall i | 0 <= i < |answer| && answer[i].Some? :: Unforged(net, answer[i].value)
  }

  ghost predicate Unforged(net: Net, b: Block) {
    && (b.id in net.blocks ==> b == net.blocks[b.id])
    && (forall g | Has(net, g) && g.height == 0 :: b.id != g.parent)
  }

  /** The answer stops being useful at `n`: it ends there, or cannot be parsed, or is not the expected parent. */
  predicate Breaks(answer: seq<Maybe<Block>>, n: nat, expected: BlockID) {
    n >= |answer| || answer[n].Nothing? || answer[n].value.id != expected
  }

  /**
   * What is kept of one peer's answer: the longest prefix that continues the chain below `last`, cut
   * off after the first block older than the minimum timestamp.
   */
  method ProcessAnswer(ghost net: Net, last: Block, answer: seq<Maybe<Block>>, minTimestamp: int)
    returns (kept: seq<Block>, full: bool)
    requires WellFormed(net) && Has(net, last) && Genuine(net, answer)
    ensures OnChain(net, last, last.height, kept) && |kept| <= |answer|
    ensures forall i | 0 <= i < |kept| :: answer[i] == Some(kept[i])
    ensures forall i | 0 <= i < |kept| :: kept[i].timestamp < minTimestamp <==> full && i == |kept| - 1
    ensures !full ==> Breaks(answer, |kept|, if kept == [] then last.parent else kept[|kept| - 1].parent)
  {
    kept := [];
    full := false;
    var expected := last.parent;
    for i := 0 to |answer|
      invariant |kept| == i && !full && OnChain(net, last, last.height, kept)
      invariant expected == if kept == [] then last.parent else kept[|kept| - 1].parent
      invariant forall j | 0 <= j < i :: answer[j] == Some(kept[j]) && kept[j].timestamp >= minTimestamp
    {
      if answer[i].Nothing? || answer[i].value.id != expected {
        return;
      }
      var b := answer[i].value;
      OnChainMore(net, last, kept, b);
      expected := b.parent;
      kept := kept + [b];
      if b.timestamp < minTimestamp {
        full := true;
        return;
      }
    }
  }

  lemma OnChainMore(net: Net, last: Block, kept: seq<Block>, b: Block)
    requires WellFormed(net) && Has(net, last) && OnChain(net, last, last.height, kept) && Unforged(net, b)
    requires b.id == if kept == [] then last.parent else kept[|kept| - 1].parent
    ensures OnChain(net, last, last.height, kept + [b])
  {
    var h := last.height - |kept|;
    var a := Ancestor(net, last, h);
    if kept != [] {
      assert IsAncestor(net, last, last.height - 1 - (|kept| - 1), kept[|kept| - 1]);
    }
    assert Has(net, a) && a.height > 0;
    AncestorParent(net, last, h - 1);
    assert IsAncestor(net, last, h - 1, b);
    hide IsAncestor;
    assert forall i | 0 <= i < |kept| :: (kept + [b])[i] == kept[i];
  }
}
