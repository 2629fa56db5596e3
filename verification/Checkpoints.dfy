/** Synchronized checkpoints and the user checkpoint, as changes on the block tree. */
module Checkpoints {
  import opened Basics
  import opened Ledger
  import opened BlockConnect
  import opened BlockTree
  import opened TxIds
  import ChainSpec
  import opened ChainState

  type Snapshot = ChainSpec.Snapshot
  type Arrival = ChainSpec.Arrival

  const NONE: Hash := 0

  // ------------------------------------------------------- walking back by height

  /** Follow `pprev` until the height is reached. */
  method TraceBack(tree: Tree, ghost g: Hash, from: Hash, height: nat) returns (h: Hash)
    requires WellFormed(tree, g) && from in tree && height <= tree[from].height
    ensures h in tree && h == Path(tree, g, from)[height]
  {
    StandsOnTop(tree, g, from);
    h := from;
    var n: int := tree[from].height;
    while n > height
      invariant height <= n && h in tree && StandsAt(tree, g, from, n, h)
    {
      hide StandsAt, WellFormed;
      StandsBelow(tree, g, from, n, h);
      StandsBelow(tree, g, from, n - 1, tree[h].prev.value);
      h := tree[h].prev.value;
      n := n - 1;
    }
  }

  // --------------------------------------------------- synchronized checkpoints

  /** The chain state, and the three global checkpoint hashes. */
  datatype State = State(chain: Snapshot, sync: Hash, pending: Hash, invalid: Hash)

  /** A block is offered, a checkpoint message arrives, or a pending checkpoint is tried again. */
  datatype Event =
    | Arrive(arrival: Arrival)
    | Process(checkpoint: Hash, signed: bool, rules: Rules, src: Source)
    | Retry(rules: Rules, src: Source)

  ghost predicate Valid(s: State, g: Hash, names: Naming) {
    ChainSpec.Safe(s.chain, g, names) && s.sync in s.chain.tree
  }

  /** A strict descendant of the current checkpoint. */
  ghost predicate Advances(s: State, g: Hash, h: Hash)
    requires WellFormed(s.chain.tree, g)
  {
    h in s.chain.tree && h != s.sync && Ancestor(s.chain.tree, g, s.sync, h)
  }

  /** Neither at, below nor above the current checkpoint. */
  ghost predicate Conflicts(s: State, g: Hash, h: Hash)
    requires WellFormed(s.chain.tree, g) && s.sync in s.chain.tree
  {
    h in s.chain.tree && !Ancestor(s.chain.tree, g, s.sync, h) && !Ancestor(s.chain.tree, g, h, s.sync)
  }

  /** The state after `ValidateSyncCheckpoint`. */
  ghost function Judged(s: State, g: Hash, h: Hash): State
    requires WellFormed(s.chain.tree, g) && s.sync in s.chain.tree
  {
    if Conflicts(s, g, h) then s.(invalid := h) else s
  }

  /** The active branch is switched to the checkpoint where needed; the checkpoint moves unless that is refused. */
  ghost function Moved(s: State, g: Hash, names: Naming, h: Hash, rules: Rules, src: Source): State
    requires Valid(s, g, names) && h in s.chain.tree
  {
    var chain := ChainSpec.After(s.chain, g, names, ChainSpec.Force(h, rules, src));
    if Ancestor(s.chain.tree, g, h, s.chain.best) || chain.best != s.chain.best then State(chain, h, NONE, s.invalid)
    else s.(chain := chain, invalid := h)
  }

  ghost function AfterProcess(s: State, g: Hash, names: Naming, h: Hash, signed: bool, rules: Rules, src: Source): State
    requires Valid(s, g, names)
  {
    if !signed then s
    else if h !in s.chain.tree then s.(pending := h)
    else if !Advances(s, g, h) then Judged(s, g, h)
    else Moved(s, g, names, h, rules, src)
  }

  ghost function AfterRetry(s: State, g: Hash, names: Naming, rules: Rules, src: Source): State
    requires Valid(s, g, names)
  {
    var h := s.pending;
    if h == NONE || h !in s.chain.tree then s
    else if !Advances(s, g, h) then Judged(s, g, h).(pending := NONE)
    else Moved(s, g, names, h, rules, src)
  }

  ghost function Next(s: State, g: Hash, names: Naming, e: Event): State
    requires Valid(s, g, names)
  {
    match e
    case Arrive(a) => s.(chain := ChainSpec.After(s.chain, g, names, ChainSpec.Offer(a)))
    case Process(h, signed, rules, src) => AfterProcess(s, g, names, h, signed, rules, src)
    case Retry(rules, src) => AfterRetry(s, g, names, rules, src)
  }

  /** The node's checkpoint hashes beside its chain state. */
  class SyncCheckpoints {
    const chain: Chain
    var sync: Hash
    var pending: Hash
    var invalid: Hash

    ghost function Model(): State
      reads this, chain
    {
      State(chain.Snap(), sync, pending, invalid)
    }

    ghost predicate Ready()
      reads this, chain
    {
      chain.Valid() && sync in chain.tree
    }

    constructor (c: Chain)
      requires c.Valid()
      ensures Ready() && chain == c && Model() == State(c.Snap(), c.genesis, c.genesis, NONE)
    {
      chain := c;
      sync, pending, invalid := c.genesis, c.genesis, NONE;
    }

    lemma ReadyValid()
      requires Ready()
      ensures Valid(Model(), chain.genesis, chain.names)
    {
      hide ChainSpec.Safe;
      chain.ValidSafe();
    }

    /** `ValidateSyncCheckpoint`: accept exactly the strict descendants, remember a conflicting one. */
    method ValidateSyncCheckpoint(h: Hash) returns (ok: bool)
      requires Ready()
      modifies this`invalid
      ensures Ready() && Model() == Judged(old(Model()), chain.genesis, h)
      ensures ok <==> Advances(old(Model()), chain.genesis, h)
    {
      hide Path;
      var tree := chain.tree;
      if h !in tree {
        return false;
      }
      AncestorIff(tree, chain.genesis, sync, h);
      AncestorIff(tree, chain.genesis, h, sync);
      if tree[h].height <= tree[sync].height {
        var x := TraceBack(tree, chain.genesis, sync, tree[h].height);
        PathEnd(tree, chain.genesis, sync);
        PathEnd(tree, chain.genesis, h);
        if x != h {
          invalid := h;
        }
        return false;
      }
      var x := TraceBack(tree, chain.genesis, h, tree[sync].height);
      if x != sync {
        invalid := h;
        return false;
      }
      return true;
    }

    /** The common end of both callers: switch the chain, then write the checkpoint. */
    method Move(h: Hash, rules: Rules, src: Source) returns (ok: bool)
      requires Ready() && h in chain.tree
      modifies this`sync, this`pending, this`invalid, chain
      ensures Ready() && old(Valid(Model(), chain.genesis, chain.names))
      ensures Model() == Moved(old(Model()), chain.genesis, chain.names, h, rules, src)
      ensures ok <==> Ancestor(chain.tree, chain.genesis, h, old(chain.best)) || chain.best != old(chain.best)
      ensures sync == if ok then h else old(sync)
    {
      hide Ancestor, ChainSpec.After, ChainSpec.Safe;
      ReadyValid();
      ghost var before := chain.Snap();
      ok := chain.ForceBest(rules, src, h);
      ForceKeepsTree(before, chain.genesis, chain.names, h, rules, src);
      if !ok {
        invalid := h;
        return;
      }
      sync, pending := h, NONE;
    }

    /** `ProcessSyncCheckpoint`. */
    method ProcessSyncCheckpoint(h: Hash, signed: bool, rules: Rules, src: Source) returns (ok: bool)
      requires Ready()
      modifies this`sync, this`pending, this`invalid, chain
      ensures Ready() && old(Valid(Model(), chain.genesis, chain.names))
      ensures Model() == AfterProcess(old(Model()), chain.genesis, chain.names, h, signed, rules, src)
      ensures ok <==> sync == h && old(sync) != h
    {
      hide Ancestor, ChainSpec.After, ChainSpec.Safe;
      ReadyValid();
      if !signed {
        return false;
      }
      if h !in chain.tree {
        pending := h;
        return false;
      }
      var valid := ValidateSyncCheckpoint(h);
      if !valid {
        return false;
      }
      ok := Move(h, rules, src);
    }

    /** `AcceptPendingSyncCheckpoint`. */
    method AcceptPendingSyncCheckpoint(rules: Rules, src: Source) returns (ok: bool)
      requires Ready()
      modifies this`sync, this`pending, this`invalid, chain
      ensures Ready() && old(Valid(Model(), chain.genesis, chain.names))
      ensures Model() == AfterRetry(old(Model()), chain.genesis, chain.names, rules, src)
      ensures ok <==> sync != old(sync)
    {
      hide Ancestor, ChainSpec.After, ChainSpec.Safe;
      ReadyValid();
      if pending == NONE || pending !in chain.tree {
        return false;
      }
      var valid := ValidateSyncCheckpoint(pending);
      if !valid {
        pending := NONE;
        return false;
      }
      ok := Move(pending, rules, src);
    }
  }

  lemma ForceKeepsTree(s: Snapshot, g: Hash, names: Naming, h: Hash, rules: Rules, src: Source)
    requires ChainSpec.Safe(s, g, names)
    ensures ChainSpec.After(s, g, names, ChainSpec.Force(h, rules, src)).tree == s.tree
  {
    hide ChainSpec.Safe, ChainSpec.NewBest, ChainSpec.MissingAfter, Ancestor;
  }

  // ------------------------------------------------------------------ whole runs

  ghost function Run(s: State, g: Hash, names: Naming, events: seq<Event>): (r: State)
    requires Valid(s, g, names)
    ensures Valid(r, g, names)
    decreases |events|
  {
    if events == [] then s
    else
      NextValid(s, g, names, events[0]);
      Run(Next(s, g, names, events[0]), g, names, events[1..])
  }

  /** Every event keeps the whole chain-state invariant, switches forced by a checkpoint included. */
  lemma NextValid(s: State, g: Hash, names: Naming, e: Event)
    requires Valid(s, g, names)
    ensures Valid(Next(s, g, names, e), g, names)
    ensures
      var tree := Next(s, g, names, e).chain.tree;
      forall h :: h in s.chain.tree ==> h in tree && tree[h] == s.chain.tree[h]
  {
    hide Ancestor, ChainSpec.After, ChainSpec.Safe;
    match e
    case Arrive(a) => ChainSpec.AfterSafe(s.chain, g, names, ChainSpec.Offer(a));
    case Process(h, signed, rules, src) => ChainSpec.AfterSafe(s.chain, g, names, ChainSpec.Force(h, rules, src));
    case Retry(rules, src) => ChainSpec.AfterSafe(s.chain, g, names, ChainSpec.Force(s.pending, rules, src));
  }

  /** Blocks that stay in the tree keep their path. */
  lemma {:induction false} PathKept(tree: Tree, tree': Tree, g: Hash, h: Hash)
    requires WellFormed(tree, g) && WellFormed(tree', g) && h in tree
    requires forall x :: x in tree ==> x in tree' && tree'[x] == tree[x]
    ensures Path(tree', g, h) == Path(tree, g, h)
    decreases tree[h].height
  {
    if h != g {
      PathKept(tree, tree', g, tree[h].prev.value);
    }
  }

  lemma NextSync(s: State, g: Hash, names: Naming, e: Event)
    requires Valid(s, g, names)
    ensures
      var h := Next(s, g, names, e).sync;
      h == s.sync || Advances(s, g, h)
  {
    hide Ancestor, ChainSpec.After, ChainSpec.Safe, Conflicts;
  }

  /** A block that stays, or one that advances, descends in any larger tree. */
  lemma SyncDescends(s: State, g: Hash, tree': Tree, h: Hash)
    requires WellFormed(s.chain.tree, g) && WellFormed(tree', g) && s.sync in s.chain.tree
    requires forall x :: x in s.chain.tree ==> x in tree' && tree'[x] == s.chain.tree[x]
    requires h == s.sync || Advances(s, g, h)
    ensures h in tree' && Ancestor(tree', g, s.sync, h)
    ensures h != s.sync ==> tree'[h].height > s.chain.tree[s.sync].height
  {
    hide Path, WellFormed;
    PathKept(s.chain.tree, tree', g, h);
    Self(tree', g, s.sync);
    AncestorIff(tree', g, s.sync, h);
  }

  /** One event keeps the checkpoint or moves it to a strict descendant. */
  lemma NextDescends(s: State, g: Hash, names: Naming, e: Event)
    requires Valid(s, g, names)
    ensures
      var s' := Next(s, g, names, e);
      && Valid(s', g, names) && s.sync in s'.chain.tree && Ancestor(s'.chain.tree, g, s.sync, s'.sync)
      && (s'.sync != s.sync ==> s'.chain.tree[s'.sync].height > s.chain.tree[s.sync].height)
  {
    hide Next, Ancestor, Advances, ChainSpec.Replay, ChainSpec.AllChecked;
    NextValid(s, g, names, e);
    NextSync(s, g, names, e);
    SyncDescends(s, g, Next(s, g, names, e).chain.tree, Next(s, g, names, e).sync);
  }

  /** Over every run, the chain-state invariant holds and the checkpoint only moves to strict descendants. */
  lemma {:induction false} RunDescends(s: State, g: Hash, names: Naming, events: seq<Event>)
    requires Valid(s, g, names)
    ensures
      var s' := Run(s, g, names, events);
      && Valid(s', g, names)
      && (forall h :: h in s.chain.tree ==> h in s'.chain.tree && s'.chain.tree[h] == s.chain.tree[h])
      && Ancestor(s'.chain.tree, g, s.sync, s'.sync)
      && (s'.sync != s.sync ==> s'.chain.tree[s'.sync].height > s.chain.tree[s.sync].height)
    decreases |events|
  {
    hide Path, Next, ChainSpec.Replay, ChainSpec.AllChecked;
    if events == [] {
      Self(s.chain.tree, g, s.sync);
    } else {
      var mid := Next(s, g, names, events[0]);
      NextValid(s, g, names, events[0]);
      NextDescends(s, g, names, events[0]);
      RunDescends(mid, g, names, events[1..]);
      var end := Run(s, g, names, events);
      PathKept(mid.chain.tree, end.chain.tree, g, mid.sync);
      AncestorTransitive(end.chain.tree, g, s.sync, mid.sync, end.sync);
      AncestorIff(end.chain.tree, g, s.sync, end.sync);
    }
  }

  /**
   A checkpoint asked for is written exactly when its block was on the active branch, or every block above the fork up
   to the intermediate one connects. Its block ends on the active branch exactly when it was there, or every block above
   the fork up to itself connects. Hence a checkpoint that has just moved lies above the best block when one of the
   blocks queued for reconnection, above the intermediate one, does not connect.
   */
  lemma MovedOnBranch(s: State, g: Hash, names: Naming, h: Hash, rules: Rules, src: Source)
    requires Valid(s, g, names) && h in s.chain.tree && s.sync != h
    ensures
      var tree, best, s' := s.chain.tree, s.chain.best, Moved(s, g, names, h, rules, src);
      var ctx := ChainSpec.Context(rules, src, tree[best].height);
      var fork, mid := ChainSpec.Fork(tree, g, best, h), ChainSpec.Intermediate(tree, g, h, tree[best].trust);
      && Valid(s', g, names)
      && (s'.sync == h <==> Ancestor(tree, g, h, best) || ChainSpec.AllConnect(tree, g, ctx, fork, mid))
      && (Ancestor(s'.chain.tree, g, h, s'.chain.best) <==>
          Ancestor(tree, g, h, best) || ChainSpec.AllConnect(tree, g, ctx, fork, h))
      && (s'.sync == h ==> (Ancestor(s'.chain.tree, g, h, s'.chain.best) <==>
                            Ancestor(tree, g, h, best) || ChainSpec.AllConnect(tree, g, ctx, mid, h)))
  {
    hide Path, ChainSpec.Accepts, ChainSpec.AllConnect, ChainSpec.MissingAfter, ChainSpec.Replay, ChainSpec.AllChecked,
         ChainSpec.Fork, ChainSpec.Intermediate;
    ChainSpec.AfterSafe(s.chain, g, names, ChainSpec.Force(h, rules, src));
    var tree, best := s.chain.tree, s.chain.best;
    if !Ancestor(tree, g, h, best) {
      var ctx := ChainSpec.Context(rules, src, tree[best].height);
      SwitchArrives(tree, g, ctx, best, h);
    }
  }

  lemma SwitchArrives(tree: Tree, g: Hash, ctx: ChainSpec.Context, best: Hash, h: Hash)
    requires WellFormed(tree, g) && best in tree && h in tree && !Ancestor(tree, g, h, best)
    ensures
      var fork, mid := ChainSpec.Fork(tree, g, best, h), ChainSpec.Intermediate(tree, g, h, tree[best].trust);
      var b := ChainSpec.NewBest(tree, g, ctx, best, h);
      && (b != best <==> ChainSpec.AllConnect(tree, g, ctx, fork, mid))
      && b in tree && (Ancestor(tree, g, h, b) <==> ChainSpec.AllConnect(tree, g, ctx, fork, h))
      && (b != best ==> (Ancestor(tree, g, h, b) <==> ChainSpec.AllConnect(tree, g, ctx, mid, h)))
  {
    hide Path, ChainSpec.Accepts, ChainSpec.AllConnect, ChainSpec.Fork, ChainSpec.Intermediate;
    var fork, mid := ChainSpec.Fork(tree, g, best, h), ChainSpec.Intermediate(tree, g, h, tree[best].trust);
    ChainSpec.NewBestMoves(tree, g, ctx, best, h);
    ChainSpec.AcceptsIff(tree, g, ctx, best, h);
    ChainSpec.ForkAncestors(tree, g, best, h);
    ChainSpec.AllConnectSplit(tree, g, ctx, fork, mid, h);
    Self(tree, g, h);
    if ChainSpec.Accepts(tree, g, ctx, best, h) {
      ChainSpec.NewBestHighest(tree, g, ctx, best, h);
    }
  }

  /**
   A message for an indexed block off the checkpoint's branch is remembered as invalid; nothing else a message is judged for
   changes what is remembered, but for a switch that is refused.
   */
  lemma NextInvalid(s: State, g: Hash, names: Naming, h: Hash, rules: Rules, src: Source)
    requires Valid(s, g, names)
    ensures
      var s' := Next(s, g, names, Process(h, true, rules, src));
      && (h !in s.chain.tree ==> s' == s.(pending := h))
      && (h in s.chain.tree && !Ancestor(s.chain.tree, g, s.sync, h) && !Ancestor(s.chain.tree, g, h, s.sync) ==>
            s' == s.(invalid := h))
      && (h in s.chain.tree && Ancestor(s.chain.tree, g, h, s.sync) ==> s' == s)
      && (h in s.chain.tree && h != s.sync && Ancestor(s.chain.tree, g, s.sync, h) ==> s'.sync == h || s'.invalid == h)
  {
    hide Path, ChainSpec.After, ChainSpec.Replay, ChainSpec.AllChecked;
    if h in s.chain.tree {
      AncestorIff(s.chain.tree, g, h, s.sync);
      AncestorIff(s.chain.tree, g, s.sync, h);
    }
  }

  /** The blocks named by a signed checkpoint message of the run. */
  ghost predicate Signed(events: seq<Event>, h: Hash) {
    exists i :: 0 <= i < |events| && events[i].Process? && events[i].signed && events[i].checkpoint == h
  }

  lemma NextSigned(s: State, g: Hash, names: Naming, e: Event)
    requires Valid(s, g, names)
    ensures
      var s' := Next(s, g, names, e);
      && (s'.sync == s.sync || (s'.sync == s.pending && s.pending != NONE) || (e.Process? && e.signed && e.checkpoint == s'.sync))
      && (s'.pending == s.pending || s'.pending == NONE || (e.Process? && e.signed && e.checkpoint == s'.pending))
      && (e.Process? && !e.signed ==> s' == s)
  {
    hide Ancestor, ChainSpec.After, ChainSpec.Safe, Conflicts;
  }

  /** Over every run, a checkpoint that was not there at the start was named by a signed message. */
  lemma {:induction false} RunSigned(s: State, g: Hash, names: Naming, events: seq<Event>)
    requires Valid(s, g, names)
    ensures
      var r := Run(s, g, names, events);
      && (r.sync == s.sync || (r.sync == s.pending && s.pending != NONE) || Signed(events, r.sync))
      && (r.pending in {s.pending, NONE} || Signed(events, r.pending))
    decreases |events|
  {
    hide Next;
    if events != [] {
      var e, rest := events[0], events[1..];
      NextValid(s, g, names, e);
      NextSigned(s, g, names, e);
      var mid := Next(s, g, names, e);
      RunSigned(mid, g, names, rest);
      forall h | Signed(rest, h) ensures Signed(events, h) {
        var i :| 0 <= i < |rest| && rest[i].Process? && rest[i].signed && rest[i].checkpoint == h;
        assert events[i + 1] == rest[i];
      }
      if e.Process? && e.signed {
        assert Signed(events, e.checkpoint);
      }
    }
  }

  /** Rules of fork 8 that refuse block 3 only. */
  function RefusingThree(): Rules {
    Lenient(8).(blockOk := (b: Block, _) => b.hash != 3)
  }

  const FOUR_BLOCKS: Tree := map[
    100 := ChainSpec.GENESIS, 1 := ChainSpec.EmptyNode(1, 100, 1, 5), 2 := ChainSpec.EmptyNode(2, 100, 1, 6),
    3 := ChainSpec.EmptyNode(3, 2, 2, 7)]

  lemma FourPaths()
    ensures WellFormed(FOUR_BLOCKS, 100)
    ensures Path(FOUR_BLOCKS, 100, 100) == [100] && Path(FOUR_BLOCKS, 100, 1) == [100, 1]
    ensures Path(FOUR_BLOCKS, 100, 2) == [100, 2] && Path(FOUR_BLOCKS, 100, 3) == [100, 2, 3]
  {
    var tree := FOUR_BLOCKS;
    assert WellFormed(tree, 100);
    assert Path(tree, 100, 100) == [100];
    assert Path(tree, 100, 1) == Path(tree, 100, 100) + [1];
    assert Path(tree, 100, 2) == Path(tree, 100, 100) + [2];
    assert Path(tree, 100, 3) == Path(tree, 100, 2) + [3];
  }

  lemma FourBlocks(names: Naming)
    ensures WellFormed(FOUR_BLOCKS, 100) && ChainSpec.Safe(ChainSpec.Snapshot(FOUR_BLOCKS, 1, {}), 100, names)
    ensures Path(FOUR_BLOCKS, 100, 100) == [100] && Path(FOUR_BLOCKS, 100, 1) == [100, 1]
    ensures Path(FOUR_BLOCKS, 100, 2) == [100, 2] && Path(FOUR_BLOCKS, 100, 3) == [100, 2, 3]
    ensures ChainSpec.Replay(FOUR_BLOCKS, 100, 100) == Some(map[]) == ChainSpec.Replay(FOUR_BLOCKS, 100, 2)
  {
    FourPaths();
    hide WellFormed, Path;
    var tree := FOUR_BLOCKS;
    assert ChainSpec.Replay(tree, 100, 100) == Some(map[]);
    assert Apply(map[], tree[1].block) == Some(map[]) == Apply(map[], tree[2].block);
    assert ChainSpec.Replay(tree, 100, 1) == Some(map[]) == ChainSpec.Replay(tree, 100, 2);
  }

  lemma FourSwitch(names: Naming, src: Source)
    ensures
      var tree, ctx := FOUR_BLOCKS, ChainSpec.Context(RefusingThree(), src, 1);
      && WellFormed(tree, 100) && ChainSpec.Accepts(tree, 100, ctx, 1, 3) && ChainSpec.NewBest(tree, 100, ctx, 1, 3) == 2
  {
    FourBlocks(names);
    hide ChainSpec.Replay, Path, ChainSpec.Safe;
    var tree, ctx := FOUR_BLOCKS, ChainSpec.Context(RefusingThree(), src, 1);
    assert ChainSpec.Intermediate(tree, 100, 2, 5) == 2;
    assert ChainSpec.Intermediate(tree, 100, 3, 5) == 2;
    assert ForkOf(tree, 100, 1, 2) == ForkOf(tree, 100, 100, 2);
    assert ForkOf(tree, 100, 100, 2) == ForkOf(tree, 100, 100, 100) == 100;
    ChainSpec.ForkAncestors(tree, 100, 1, 3);
    assert ChainSpec.Connects(tree, 100, ctx, 2) && !ChainSpec.Connects(tree, 100, ctx, 3);
    assert ChainSpec.Reach(tree, 100, ctx, 100, 100) == 100;
    assert ChainSpec.Reach(tree, 100, ctx, 100, 2) == 2;
    assert ChainSpec.Reach(tree, 100, ctx, 2, 2) == 2;
    assert ChainSpec.Reach(tree, 100, ctx, 2, 3) == 2;
  }

  /** Block 2 connects, block 3 above it does not: the checkpoint is written at 3 while the best block is 2. */
  lemma CheckpointAboveBest(names: Naming, src: Source)
    ensures
      var s := State(ChainSpec.Snapshot(FOUR_BLOCKS, 1, {}), 100, NONE, NONE);
      && Valid(s, 100, names) && Advances(s, 100, 3)
      && var s' := AfterProcess(s, 100, names, 3, true, RefusingThree(), src);
         s'.sync == 3 && s'.chain.best == 2 && !Ancestor(s'.chain.tree, 100, 3, 2)
  {
    hide ChainSpec.Safe, ChainSpec.Replay, ChainSpec.NewBest, ChainSpec.MissingAfter;
    FourBlocks(names);
    FourSwitch(names, src);
  }

  // ------------------------------------------------------------------- CheckSync

  /** `-usercheckpoint`, as the parser lets it through. */
  datatype UserCheck = UserCheck(hash: Hash, height: int, expiration: int)

  predicate Parsed(u: UserCheck) {
    0 < u.height < u.expiration
  }

  /** A block on `prev` passes when it is, or descends from, the checkpoint; lower ones must be known. */
  ghost predicate Passes(tree: Tree, g: Hash, checkpoint: Hash, h: Hash, prev: Hash)
    requires WellFormed(tree, g) && checkpoint in tree && prev in tree
  {
    var height := tree[prev].height + 1;
    if height > tree[checkpoint].height then Ancestor(tree, g, checkpoint, prev)
    else if height == tree[checkpoint].height then h == checkpoint
    else h in tree
  }

  ghost predicate InSync(tree: Tree, g: Hash, testnet: bool, sync: Hash, user: Option<UserCheck>, h: Hash, prev: Hash)
    requires WellFormed(tree, g) && sync in tree && prev in tree
  {
    if user.Some? && user.value.hash !in tree then false
    else testnet || Passes(tree, g, if user.Some? then user.value.hash else sync, h, prev)
  }

  /** `CheckSync`. */
  method CheckSync(tree: Tree, ghost g: Hash, testnet: bool, sync: Hash, user: Option<UserCheck>, h: Hash, prev: Hash)
    returns (ok: bool)
    requires WellFormed(tree, g) && sync in tree && prev in tree
    ensures ok <==> InSync(tree, g, testnet, sync, user, h, prev)
  {
    hide Path;
    var checkpoint := sync;
    if user.Some? {
      if user.value.hash !in tree {
        return false;
      }
      checkpoint := user.value.hash;
    }
    if testnet {
      return true;
    }
    var height, syncHeight := tree[prev].height + 1, tree[checkpoint].height;
    if height > syncHeight {
      var x := TraceBack(tree, g, prev, syncHeight);
      AncestorIff(tree, g, checkpoint, prev);
      PathHeights(tree, g, prev, syncHeight);
      if tree[x].height < syncHeight || x != checkpoint {
        return false;
      }
    }
    if height == syncHeight && h != checkpoint {
      return false;
    }
    if height < syncHeight && h !in tree {
      return false;
    }
    return true;
  }

  lemma PathHeights(tree: Tree, g: Hash, h: Hash, n: nat)
    requires WellFormed(tree, g) && h in tree && n <= tree[h].height
    ensures Path(tree, g, h)[n] in tree && tree[Path(tree, g, h)[n]].height == n
  {
  }

  /**
   Off the test network, a new block is in step with a checkpoint exactly when it is to descend from it, whatever its
   height; a block already in the tree exactly when it is below the checkpoint, is the checkpoint, or descends from it.
   */
  lemma InSyncIff(tree: Tree, g: Hash, sync: Hash, user: Option<UserCheck>, h: Hash, prev: Hash)
    requires WellFormed(tree, g) && sync in tree && prev in tree && (user.Some? ==> user.value.hash in tree)
    requires h in tree ==> tree[h].prev == Some(prev)
    ensures
      var c := if user.Some? then user.value.hash else sync;
      && (h !in tree ==> (InSync(tree, g, false, sync, user, h, prev) <==> Ancestor(tree, g, c, prev)))
      && (h in tree ==>
            (InSync(tree, g, false, sync, user, h, prev) <==>
             tree[h].height < tree[c].height || Ancestor(tree, g, c, h)))
  {
    hide Path;
    var c := if user.Some? then user.value.hash else sync;
    AncestorIff(tree, g, c, prev);
    if h in tree {
      assert h != g;
      AncestorStep(tree, g, c, h);
      AncestorIff(tree, g, c, h);
      Self(tree, g, h);
    }
  }

  // -------------------------------------------------------- the user checkpoint

  /** The user-checkpoint part of `AcceptBlock`. */
  method UserCheckpointAllows(tree: Tree, ghost g: Hash, testnet: bool, sync: Hash, u: UserCheck, h: Hash, prev: Hash)
    returns (ok: bool)
    requires WellFormed(tree, g) && sync in tree && prev in tree
    ensures ok <==> Allowed(tree, g, testnet, sync, u, h, prev)
  {
    if tree[prev].height < u.expiration {
      if tree[prev].height >= u.height {
        ok := CheckSync(tree, g, testnet, sync, Some(u), h, prev);
        return;
      } else if tree[prev].height + 1 == u.height {
        return h == u.hash;
      }
    }
    return true;
  }

  ghost predicate Allowed(tree: Tree, g: Hash, testnet: bool, sync: Hash, u: UserCheck, h: Hash, prev: Hash)
    requires WellFormed(tree, g) && sync in tree && prev in tree
  {
    var n := tree[prev].height;
    if n >= u.expiration then true
    else if n >= u.height then InSync(tree, g, testnet, sync, Some(u), h, prev)
    else n + 1 == u.height ==> h == u.hash
  }

  /**
   The user checkpoint asks nothing of blocks well below it or after it has expired. At its height it asks for its own block; above
   it, off the test network, a new block must be to descend from it, which has to be known.
   */
  lemma AllowedIff(tree: Tree, g: Hash, testnet: bool, sync: Hash, u: UserCheck, h: Hash, prev: Hash)
    requires WellFormed(tree, g) && sync in tree && prev in tree && h !in tree && Parsed(u)
    ensures
      var n := tree[prev].height + 1;
      && (n < u.height || n > u.expiration ==> Allowed(tree, g, testnet, sync, u, h, prev))
      && (n == u.height ==> (Allowed(tree, g, testnet, sync, u, h, prev) <==> h == u.hash))
      && (u.height < n <= u.expiration ==>
            (Allowed(tree, g, testnet, sync, u, h, prev) <==>
             u.hash in tree && (testnet || Ancestor(tree, g, u.hash, prev))))
  {
    hide Path, Ancestor;
    if u.hash in tree {
      InSyncIff(tree, g, sync, Some(u), h, prev);
    }
  }

  /** Every block at or above the checkpoint's height is the checkpoint or descends from it. */
  ghost predicate Guarded(tree: Tree, g: Hash, u: UserCheck)
    requires WellFormed(tree, g)
  {
    forall b :: b in tree && tree[b].height >= u.height ==>
      u.hash in tree && tree[u.hash].height == u.height && Ancestor(tree, g, u.hash, b)
  }

  ghost predicate Admits(tree: Tree, g: Hash, testnet: bool, u: UserCheck, sync: Hash, h: Hash, node: Node)
    requires WellFormed(tree, g) && sync in tree
  {
    && h !in tree && node.prev.Some? && node.prev.value in tree
    && node.height == tree[node.prev.value].height + 1
    && Allowed(tree, g, testnet, sync, u, h, node.prev.value)
  }

  lemma AcceptedKeepsForm(tree: Tree, g: Hash, h: Hash, node: Node)
    requires WellFormed(tree, g) && h !in tree && node.prev.Some? && node.prev.value in tree
    requires node.height == tree[node.prev.value].height + 1
    ensures WellFormed(tree[h := node], g)
  {
  }

  /** Accepting a block keeps the guarantee, also after the checkpoint has expired. */
  lemma AcceptKeepsGuard(tree: Tree, g: Hash, testnet: bool, u: UserCheck, sync: Hash, h: Hash, node: Node)
    requires WellFormed(tree, g) && sync in tree && Parsed(u) && Guarded(tree, g, u)
    requires Admits(tree, g, testnet, u, sync, h, node)
    ensures WellFormed(tree[h := node], g) && Guarded(tree[h := node], g, u)
  {
    hide Path, Ancestor;
    AcceptedKeepsForm(tree, g, h, node);
    var tree', prev := tree[h := node], node.prev.value;
    forall b | b in tree' && tree'[b].height >= u.height
      ensures u.hash in tree' && tree'[u.hash].height == u.height && Ancestor(tree', g, u.hash, b)
    {
      if b != h {
        OldAncestor(tree, g, h, node, u.hash, b);
      } else {
        AncestorStep(tree', g, u.hash, h);
        if tree[prev].height >= u.height {
          OldAncestor(tree, g, h, node, u.hash, prev);
        }
      }
    }
  }

  lemma OldAncestor(tree: Tree, g: Hash, h: Hash, node: Node, a: Hash, b: Hash)
    requires WellFormed(tree, g) && h !in tree && b in tree && WellFormed(tree[h := node], g)
    ensures Ancestor(tree[h := node], g, a, b) <==> Ancestor(tree, g, a, b)
  {
    hide Path;
    PathExtend(tree, g, b, h, node);
  }

  /** Blocks on top of the guarded ones are never turned away by the check. */
  lemma NeverRejected(tree: Tree, g: Hash, testnet: bool, u: UserCheck, sync: Hash, h: Hash, prev: Hash)
    requires WellFormed(tree, g) && sync in tree && prev in tree && Guarded(tree, g, u) && tree[prev].height >= u.height
    ensures InSync(tree, g, testnet, sync, Some(u), h, prev) && Allowed(tree, g, testnet, sync, u, h, prev)
  {
    hide Path, Ancestor;
  }

  /** A run of accepted blocks. */
  datatype Accepted = Accepted(hash: Hash, node: Node, sync: Hash)

  ghost predicate AdmitsAll(tree: Tree, g: Hash, testnet: bool, u: UserCheck, blocks: seq<Accepted>)
    requires WellFormed(tree, g)
    decreases |blocks|
  {
    if blocks == [] then true
    else
      var b := blocks[0];
      && b.sync in tree && Admits(tree, g, testnet, u, b.sync, b.hash, b.node)
      && (AcceptedKeepsForm(tree, g, b.hash, b.node); AdmitsAll(tree[b.hash := b.node], g, testnet, u, blocks[1..]))
  }

  ghost function Grown(tree: Tree, blocks: seq<Accepted>): Tree
    decreases |blocks|
  {
    if blocks == [] then tree else Grown(tree[blocks[0].hash := blocks[0].node], blocks[1..])
  }

  /** From an index with no block that high, all later blocks at or above the height stay with the checkpoint. */
  lemma {:induction false} UserCheckpointHolds(tree: Tree, g: Hash, testnet: bool, u: UserCheck, blocks: seq<Accepted>)
    requires WellFormed(tree, g) && Parsed(u) && AdmitsAll(tree, g, testnet, u, blocks)
    requires Guarded(tree, g, u) || forall b :: b in tree ==> tree[b].height < u.height
    ensures WellFormed(Grown(tree, blocks), g) && Guarded(Grown(tree, blocks), g, u)
    decreases |blocks|
  {
    hide Path, Ancestor, Allowed;
    if blocks != [] {
      var b := blocks[0];
      AcceptKeepsGuard(tree, g, testnet, u, b.sync, b.hash, b.node);
      UserCheckpointHolds(tree[b.hash := b.node], g, testnet, u, blocks[1..]);
    }
  }
}
