/** `RewindRegistry`: rebuilding the staker registry from a snapshot and the blocks above it. */
module Registry {
  import opened Basics
  import opened BlockTree
  import ChainSpec

  const FORK_PURCHASE := 5
  const BLOCKS_PER_SNAPSHOT := 240

  /** The registry as seen from here: a fresh state, one step for each block, and the block it stands at. */
  datatype Machine<!R> = Machine(initial: R, step: (R, Hash) -> Option<R>, hashOf: R -> Hash, heightOf: R -> int)

  datatype World<!R> = World(
    tree: Tree, g: Hash, best: Hash, pnext: map<Hash, Hash>, lookup: map<int, Hash>,
    fork: int -> int, machine: Machine<R>, snaps: map<int, R>)

  predicate InEra<R>(w: World<R>, height: int) {
    w.fork(height) >= FORK_PURCHASE
  }

  predicate InMainChain<R>(w: World<R>, h: Hash) {
    h in w.pnext || h == w.best
  }

  ghost predicate Placed<R>(w: World<R>) {
    && WellFormed(w.tree, w.g) && w.best in w.tree
    && ChainSpec.LinksOk(w.tree, w.g, w.pnext, w.lookup, w.best)
    && (forall a: int, b: int :: a <= b ==> w.fork(a) <= w.fork(b)) && !InEra(w, 0)
  }

  /** A fresh registry stepped through every purchase-era ancestor of `h`, and `h`, in order. */
  ghost function FullReplay<R>(w: World<R>, h: Hash): Option<R>
    requires WellFormed(w.tree, w.g) && h in w.tree
    decreases w.tree[h].height
  {
    if h == w.g || !InEra(w, w.tree[h].height) then Some(w.machine.initial)
    else
      var r :- FullReplay(w, w.tree[h].prev.value);
      w.machine.step(r, h)
  }

  /** Snapshots are what replaying the branch of their own block gives. */
  ghost predicate Sound<R(!new)>(w: World<R>) {
    && Placed(w)
    && w.machine.hashOf(w.machine.initial) == w.g
    && forall k, h :: k in w.snaps && h in w.tree && InEra(w, w.tree[h].height) && w.machine.hashOf(w.snaps[k]) == h ==>
         FullReplay(w, h) == Some(w.snaps[k])
  }

  /** The blocks of a path that lie in the purchase era, in order. */
  function EraPart<R>(w: World<R>, p: seq<Hash>): seq<Hash> {
    if p == [] then []
    else
      var h := p[|p| - 1];
      EraPart(w, p[..|p| - 1]) + if h in w.tree && InEra(w, w.tree[h].height) then [h] else []
  }

  /** A registry stepped through a list of blocks, first to last. */
  function Through<R>(w: World<R>, r: R, blocks: seq<Hash>): Option<R>
    decreases |blocks|
  {
    if blocks == [] then Some(r)
    else
      var next := w.machine.step(r, blocks[0]);
      if next.None? then None else Through(w, next.value, blocks[1..])
  }

  lemma {:induction false} ThroughMore<R>(w: World<R>, r: R, blocks: seq<Hash>, h: Hash)
    ensures
      var t := Through(w, r, blocks);
      Through(w, r, blocks + [h]) == if t.None? then None else w.machine.step(t.value, h)
    decreases |blocks|
  {
    if blocks == [] {
      assert [h][1..] == [];
      assert blocks + [h] == [h];
    } else {
      assert (blocks + [h])[1..] == blocks[1..] + [h];
      if w.machine.step(r, blocks[0]).Some? {
        ThroughMore(w, w.machine.step(r, blocks[0]).value, blocks[1..], h);
      }
    }
  }

  lemma EraMore<R>(w: World<R>, p: seq<Hash>, h: Hash)
    requires h in w.tree
    ensures EraPart(w, p + [h]) == EraPart(w, p) + if InEra(w, w.tree[h].height) then [h] else []
  {
    assert (p + [h])[..|p|] == p;
  }

  lemma PathMore(tree: Tree, g: Hash, h: Hash)
    requires WellFormed(tree, g) && h in tree
    ensures Path(tree, g, h) == if h == g then [] + [g] else Path(tree, g, tree[h].prev.value) + [h]
  {
  }

  /** Replaying a branch steps a fresh registry through its purchase-era blocks, lowest first. */
  lemma {:induction false} FullReplayIs<R>(w: World<R>, h: Hash)
    requires Placed(w) && h in w.tree
    ensures FullReplay(w, h) == Through(w, w.machine.initial, EraPart(w, Path(w.tree, w.g, h)))
    ensures !InEra(w, w.tree[h].height) ==> EraPart(w, Path(w.tree, w.g, h)) == []
    decreases w.tree[h].height
  {
    hide Through, EraPart, Path, ChainSpec.LinksOk;
    ThroughNone(w);
    PathMore(w.tree, w.g, h);
    if h == w.g {
      EraMore(w, [], h);
    } else {
      var prev := w.tree[h].prev.value;
      FullReplayIs(w, prev);
      EraMore(w, Path(w.tree, w.g, prev), h);
      ThroughMore(w, w.machine.initial, EraPart(w, Path(w.tree, w.g, prev)), h);
    }
  }

  lemma ThroughNone<R>(w: World<R>)
    ensures Through(w, w.machine.initial, []) == Some(w.machine.initial) && EraPart(w, []) == []
  {
  }

  // ------------------------------------------------------ finding a snapshot

  /** What the search knows of the highest main-chain ancestor of `target`, having come down to `snap`. */
  ghost predicate ForkKnown<R>(w: World<R>, target: Hash, snap: Hash, fork: Option<Hash>)
    requires WellFormed(w.tree, w.g) && w.best in w.tree && target in w.tree && snap in w.tree
  {
    match fork
    case None => forall x :: Ancestor(w.tree, w.g, x, target) && Ancestor(w.tree, w.g, x, w.best) ==>
                               w.tree[x].height <= w.tree[snap].height
    case Some(f) =>
      IsFork(w.tree, w.g, w.best, target, f) && w.tree[snap].height <= w.tree[f].height && InEra(w, w.tree[f].height)
  }

  /** The highest block common to both branches is reported when it lies in the purchase era. */
  ghost function ForkFound<R>(w: World<R>, target: Hash): Option<Hash>
    requires WellFormed(w.tree, w.g) && w.best in w.tree && target in w.tree
  {
    var f := ForkOf(w.tree, w.g, w.best, target);
    if InEra(w, w.tree[f].height) then Some(f) else None
  }

  lemma ForkDecided<R>(w: World<R>, target: Hash, snap: Hash, fork: Option<Hash>)
    requires Placed(w) && target in w.tree && snap in w.tree && ForkKnown(w, target, snap, fork)
    requires fork.None? ==> !InEra(w, w.tree[snap].height)
    ensures fork == ForkFound(w, target)
  {
    hide Path, ChainSpec.LinksOk, ForkOf;
    ForkOfIsFork(w.tree, w.g, w.best, target);
    if fork.Some? {
      ForkUnique(w.tree, w.g, w.best, target, fork.value, ForkOf(w.tree, w.g, w.best, target));
    }
  }

  /** Common ancestors no higher than a block that is not one of them are no higher than its parent. */
  lemma ForkBelow(tree: Tree, g: Hash, best: Hash, target: Hash, snap: Hash)
    requires WellFormed(tree, g) && best in tree && target in tree && snap in tree && snap != g
    requires Ancestor(tree, g, snap, target) && !Ancestor(tree, g, snap, best) ==>
               forall x :: Ancestor(tree, g, x, target) && Ancestor(tree, g, x, best) ==> tree[x].height <= tree[snap].height
    ensures Ancestor(tree, g, snap, target) && !Ancestor(tree, g, snap, best) ==>
              forall x :: Ancestor(tree, g, x, target) && Ancestor(tree, g, x, best) ==>
                tree[x].height <= tree[tree[snap].prev.value].height
  {
    hide Path;
    if Ancestor(tree, g, snap, target) && !Ancestor(tree, g, snap, best) {
      forall x | Ancestor(tree, g, x, target) && Ancestor(tree, g, x, best)
        ensures tree[x].height <= tree[tree[snap].prev.value].height
      {
        SameHeight(tree, g, target, x, snap);
      }
    }
  }

  lemma SameHeight(tree: Tree, g: Hash, h: Hash, a: Hash, b: Hash)
    requires WellFormed(tree, g) && h in tree && Ancestor(tree, g, a, h) && Ancestor(tree, g, b, h)
    ensures a in tree && b in tree && (tree[a].height == tree[b].height ==> a == b)
  {
  }

  lemma ForkNoted<R>(w: World<R>, target: Hash, snap: Hash)
    requires Placed(w) && target in w.tree && snap in w.tree && snap != w.g
    requires Ancestor(w.tree, w.g, snap, target) && ForkKnown(w, target, snap, None) && InEra(w, w.tree[snap].height)
    ensures InMainChain(w, snap) ==> ForkKnown(w, target, snap, Some(snap))
    ensures !InMainChain(w, snap) ==> ForkKnown(w, target, w.tree[snap].prev.value, None)
  {
    ChainSpec.MainChainIsAncestry(w.tree, w.g, w.pnext, w.lookup, w.best, snap);
    ForkBelow(w.tree, w.g, w.best, target, snap);
  }

  lemma KeepsFork<R>(w: World<R>, target: Hash, snap: Hash, f: Hash)
    requires Placed(w) && target in w.tree && snap in w.tree && snap != w.g
    requires ForkKnown(w, target, snap, Some(f))
    ensures ForkKnown(w, target, w.tree[snap].prev.value, Some(f))
    ensures w.tree[w.tree[snap].prev.value].height < w.tree[f].height
  {
  }

  /** The heights searched: multiples of 240 in the purchase era, strictly below the fork. */
  ghost predicate Wanted<R>(w: World<R>, target: Hash, x: Hash)
    requires WellFormed(w.tree, w.g) && w.best in w.tree && target in w.tree
  {
    && Ancestor(w.tree, w.g, x, target) && x in w.tree
    && InEra(w, w.tree[x].height) && w.tree[x].height % 240 == 0
    && ForkFound(w, target).Some? && w.tree[x].height < w.tree[ForkOf(w.tree, w.g, w.best, target)].height
  }

  /** Nothing wanted between two blocks. */
  ghost predicate NoneBetween<R>(w: World<R>, target: Hash, low: Hash, high: Hash)
    requires WellFormed(w.tree, w.g) && w.best in w.tree && target in w.tree && low in w.tree && high in w.tree
  {
    forall x :: Wanted(w, target, x) ==> w.tree[x].height <= w.tree[low].height || w.tree[x].height >= w.tree[high].height
  }

  lemma NotBetween<R>(w: World<R>, target: Hash, low: Hash, mid: Hash, high: Hash)
    requires Placed(w) && target in w.tree && low in w.tree && mid in w.tree && high in w.tree
    requires Ancestor(w.tree, w.g, mid, target) && w.tree[mid].height == w.tree[low].height + 1
    requires NoneBetween(w, target, mid, high) && !Wanted(w, target, mid)
    ensures NoneBetween(w, target, low, high)
  {
    hide Path, ChainSpec.LinksOk, ForkFound;
    forall x | Wanted(w, target, x)
      ensures w.tree[x].height <= w.tree[low].height || w.tree[x].height >= w.tree[high].height
    {
      SameHeight(w.tree, w.g, target, x, mid);
    }
  }

  /** Whether a block reached on the way down is wanted can be told from what is known of the fork. */
  lemma WantedIff<R>(w: World<R>, target: Hash, snap: Hash, fork: Option<Hash>)
    requires Placed(w) && target in w.tree && snap in w.tree && Ancestor(w.tree, w.g, snap, target)
    requires ForkKnown(w, target, snap, fork) && InEra(w, w.tree[snap].height)
    requires fork.Some? ==> w.tree[snap].height < w.tree[fork.value].height
    ensures Wanted(w, target, snap) <==> w.tree[snap].height % 240 == 0 && fork.Some?
  {
    hide Path, ChainSpec.LinksOk, ForkOf;
    var f := ForkOf(w.tree, w.g, w.best, target);
    ForkOfIsFork(w.tree, w.g, w.best, target);
    if fork.Some? {
      ForkUnique(w.tree, w.g, w.best, target, fork.value, f);
    }
  }

  /** The inner loop: go down to the next height that may hold a snapshot below the fork, or out of the purchase era. */
  method NextCandidate<R>(w: World<R>, ghost target: Hash, start: Hash, known: Option<Hash>)
    returns (early: bool, snap: Hash, fork: Option<Hash>)
    requires Placed(w) && target in w.tree && start in w.tree
    requires Ancestor(w.tree, w.g, start, target) && InEra(w, w.tree[start].height)
    requires ForkKnown(w, target, start, known)
    ensures snap in w.tree && Ancestor(w.tree, w.g, snap, target) && w.tree[snap].height < w.tree[start].height
    ensures ForkKnown(w, target, snap, fork)
    ensures early <==> !InEra(w, w.tree[snap].height)
    ensures !early ==> fork.Some? && w.tree[snap].height < w.tree[fork.value].height && Wanted(w, target, snap)
    ensures NoneBetween(w, target, snap, start)
  {
    hide Ancestor, ForkKnown, ChainSpec.LinksOk, Wanted, NoneBetween;
    snap, fork := start, known;
    Between(w, target, start);
    while true
      invariant snap in w.tree && Ancestor(w.tree, w.g, snap, target) && InEra(w, w.tree[snap].height)
      invariant w.tree[snap].height <= w.tree[start].height && ForkKnown(w, target, snap, fork)
      invariant NoneBetween(w, target, snap, start) && (snap == start || !Wanted(w, target, snap))
      decreases w.tree[snap].height
    {
      assert snap != w.g;
      if fork.None? {
        ForkNoted(w, target, snap);
        if InMainChain(w, snap) {
          fork := Some(snap);
        }
      }
      if fork.Some? {
        KeepsFork(w, target, snap, fork.value);
      }
      ParentIsAncestor(w.tree, w.g, snap, target);
      Lower(w, target, snap, start);
      snap := w.tree[snap].prev.value;
      if !InEra(w, w.tree[snap].height) {
        return true, snap, fork;
      }
      WantedIff(w, target, snap, fork);
      if w.tree[snap].height % BLOCKS_PER_SNAPSHOT == 0 && fork.Some? {
        return false, snap, fork;
      }
    }
  }

  lemma Between<R>(w: World<R>, target: Hash, start: Hash)
    requires WellFormed(w.tree, w.g) && w.best in w.tree && target in w.tree && start in w.tree
    ensures NoneBetween(w, target, start, start)
  {
    hide Wanted;
  }

  lemma Lower<R>(w: World<R>, target: Hash, snap: Hash, start: Hash)
    requires Placed(w) && target in w.tree && snap in w.tree && start in w.tree && snap != w.g
    requires Ancestor(w.tree, w.g, snap, target) && NoneBetween(w, target, snap, start)
    requires snap == start || !Wanted(w, target, snap)
    ensures NoneBetween(w, target, w.tree[snap].prev.value, start)
  {
    hide Path, ChainSpec.LinksOk, Wanted;
    if snap != start {
      NotBetween(w, target, w.tree[snap].prev.value, snap, start);
    }
  }

  /** A snapshot that may be used: one of its own block, at a height wanted. */
  ghost predicate Usable<R>(w: World<R>, target: Hash, x: Hash)
    requires WellFormed(w.tree, w.g) && w.best in w.tree && target in w.tree
  {
    && Wanted(w, target, x) && w.tree[x].height in w.snaps
    && w.machine.hashOf(w.snaps[w.tree[x].height]) == x && w.machine.heightOf(w.snaps[w.tree[x].height]) != w.tree[target].height
  }

  /** No usable snapshot stands above a block. */
  ghost predicate NoneAbove<R>(w: World<R>, target: Hash, low: Hash)
    requires WellFormed(w.tree, w.g) && w.best in w.tree && target in w.tree && low in w.tree
  {
    forall x :: Usable(w, target, x) ==> w.tree[x].height <= w.tree[low].height
  }

  lemma NoneLeft<R>(w: World<R>, target: Hash, low: Hash, high: Hash)
    requires Placed(w) && target in w.tree && low in w.tree && high in w.tree && Ancestor(w.tree, w.g, high, target)
    requires NoneBetween(w, target, low, high) && NoneAbove(w, target, high) && !Usable(w, target, high)
    ensures NoneAbove(w, target, low)
    ensures !InEra(w, w.tree[low].height) ==> forall x :: !Usable(w, target, x)
  {
    hide Path, ChainSpec.LinksOk, ForkFound;
    forall x | Usable(w, target, x) ensures w.tree[x].height <= w.tree[low].height {
      SameHeight(w.tree, w.g, target, x, high);
    }
  }

  lemma TargetNotUsable<R>(w: World<R>, target: Hash)
    requires Placed(w) && target in w.tree
    ensures !Usable(w, target, target) && NoneAbove(w, target, target)
  {
    hide Path, ChainSpec.LinksOk, ForkOf;
    var f := ForkOf(w.tree, w.g, w.best, target);
    ForkOfIsFork(w.tree, w.g, w.best, target);
    AncestorIff(w.tree, w.g, f, target);
    forall x | Usable(w, target, x) ensures w.tree[x].height <= w.tree[target].height {
      AncestorIff(w.tree, w.g, x, target);
    }
  }

  /** The highest usable snapshot, or the fresh registry when there is none. */
  ghost predicate Highest<R>(w: World<R>, target: Hash, r: R, at: Hash)
    requires WellFormed(w.tree, w.g) && w.best in w.tree && target in w.tree
  {
    if at == w.g then r == w.machine.initial && forall x :: !Usable(w, target, x)
    else at in w.tree && Usable(w, target, at) && r == w.snaps[w.tree[at].height] && NoneAbove(w, target, at)
  }

  /**
   The outer loop: either no snapshot is wanted and the registry starts fresh, or it starts at a
   snapshot of a block strictly below both the target and the best block.
   */
  ghost predicate Start<R>(w: World<R>, target: Hash, r: R, at: Hash)
    requires Placed(w) && target in w.tree
  {
    || (r == w.machine.initial && at == w.g)
    || (&& at in w.tree && InEra(w, w.tree[at].height) && w.machine.hashOf(r) == at
        && Ancestor(w.tree, w.g, at, target) && at != target
        && Ancestor(w.tree, w.g, at, w.best) && at != w.best
        && FullReplay(w, at) == Some(r))
  }

  lemma SnapshotStarts<R(!new)>(w: World<R>, target: Hash, snap: Hash, fork: Hash, k: int)
    requires Sound(w) && target in w.tree && snap in w.tree && k in w.snaps
    requires Ancestor(w.tree, w.g, snap, target) && w.tree[snap].height < w.tree[target].height
    requires ForkKnown(w, target, snap, Some(fork)) && w.tree[snap].height < w.tree[fork].height
    requires InEra(w, w.tree[snap].height) && w.machine.hashOf(w.snaps[k]) == snap
    ensures Start(w, target, w.snaps[k], snap)
  {
    hide Path, ChainSpec.LinksOk, FullReplay;
    SharedBelow(w.tree, w.g, target, w.best, fork, snap);
    AncestorIff(w.tree, w.g, fork, w.best);
  }

  lemma UsableIff<R>(w: World<R>, target: Hash, x: Hash)
    requires WellFormed(w.tree, w.g) && w.best in w.tree && target in w.tree && x in w.tree
    ensures Wanted(w, target, x) ==>
              (Usable(w, target, x) <==>
               && w.tree[x].height in w.snaps && w.machine.hashOf(w.snaps[w.tree[x].height]) == x
               && w.machine.heightOf(w.snaps[w.tree[x].height]) != w.tree[target].height)
  {
    hide Wanted;
  }

  method FindSnapshot<R(!new)>(w: World<R>, target: Hash)
    returns (r: R, fork: Option<Hash>, ghost at: Hash)
    requires Sound(w) && target in w.tree && InEra(w, w.tree[target].height)
    ensures Start(w, target, r, at) && Highest(w, target, r, at)
    ensures fork == ForkFound(w, target)
  {
    TargetNotUsable(w, target);
    hide NoneAbove, NoneBetween, Usable, Wanted, ForkOf;
    Self(w.tree, w.g, target);
    forall x | Ancestor(w.tree, w.g, x, target) ensures w.tree[x].height <= w.tree[target].height {
      AncestorIff(w.tree, w.g, x, target);
    }
    var snap := target;
    fork, r := None, w.machine.initial;
    while true
      invariant snap in w.tree && Ancestor(w.tree, w.g, snap, target) && InEra(w, w.tree[snap].height)
      invariant ForkKnown(w, target, snap, fork)
      invariant w.tree[snap].height <= w.tree[target].height
      invariant NoneAbove(w, target, snap) && !Usable(w, target, snap)
      decreases w.tree[snap].height
    {
      var early;
      ghost var above := snap;
      early, snap, fork := NextCandidate(w, target, snap, fork);
      NoneLeft(w, target, snap, above);
      UsableIff(w, target, snap);
      if early {
        ForkDecided(w, target, snap, fork);
        return w.machine.initial, fork, w.g;
      }
      if w.tree[snap].height in w.snaps {
        r := w.snaps[w.tree[snap].height];
        if w.machine.heightOf(r) != w.tree[target].height && w.machine.hashOf(r) == snap {
          SnapshotStarts(w, target, snap, fork.value, w.tree[snap].height);
          ForkDecided(w, target, snap, fork);
          return r, fork, snap;
        }
      }
    }
  }

  // ---------------------------------------------------------------- replaying

  /** The blocks to replay, top to bottom: down to the registry's own block or out of the purchase era. */
  method CollectReplay<R>(w: World<R>, hashRegistry: Hash, to: Hash) returns (v: seq<Hash>, below: Hash)
    requires Placed(w) && to in w.tree && to != w.g
    ensures v != [] && below in w.tree && Descends(w.tree, w.g, v, to, below)
    ensures forall i :: 1 <= i < |v| ==> v[i] != hashRegistry && InEra(w, w.tree[v[i]].height)
    ensures below == hashRegistry || !InEra(w, w.tree[below].height)
  {
    v, below := [to], w.tree[to].prev.value;
    while below != hashRegistry && InEra(w, w.tree[below].height)
      invariant v != [] && below in w.tree && Descends(w.tree, w.g, v, to, below)
      invariant forall i :: 1 <= i < |v| ==> v[i] != hashRegistry && InEra(w, w.tree[v[i]].height)
      decreases w.tree[below].height
    {
      assert below != w.g;
      v := v + [below];
      below := w.tree[below].prev.value;
    }
  }

  /** The registry stepped through a list of blocks from its last to its first. */
  function StepUp<R>(w: World<R>, start: R, v: seq<Hash>): Option<R> {
    if v == [] then Some(start)
    else
      var r :- StepUp(w, start, v[1..]);
      w.machine.step(r, v[0])
  }

  lemma {:induction false} StepUpIsReplay<R>(w: World<R>, start: R, v: seq<Hash>, to: Hash, below: Hash)
    requires WellFormed(w.tree, w.g) && to in w.tree && below in w.tree && Descends(w.tree, w.g, v, to, below)
    requires FullReplay(w, below) == Some(start)
    requires forall i :: 0 <= i < |v| ==> InEra(w, w.tree[v[i]].height)
    ensures StepUp(w, start, v) == FullReplay(w, to)
    decreases |v|
  {
    if v != [] {
      StepUpIsReplay(w, start, v[1..], w.tree[to].prev.value, below);
    }
  }

  lemma {:induction false} StepUpFails<R>(w: World<R>, start: R, v: seq<Hash>, i: nat)
    requires i <= |v| && StepUp(w, start, v[i..]).None?
    ensures StepUp(w, start, v).None?
    decreases i
  {
    if i == 0 {
      assert v[0..] == v;
    } else {
      assert v[i - 1..][1..] == v[i..];
      StepUpFails(w, start, v, i - 1);
    }
  }

  method ReplayBlocks<R>(w: World<R>, start: R, v: seq<Hash>)
    returns (ok: bool, r: R, current: Option<Hash>)
    requires v != []
    ensures ok <==> StepUp(w, start, v).Some?
    ensures ok ==> StepUp(w, start, v) == Some(r) && current == Some(v[0])
  {
    r, current := start, None;
    var i := |v|;
    while i > 0
      invariant 0 <= i <= |v|
      invariant StepUp(w, start, v[i..]) == Some(r)
      invariant i < |v| ==> current == Some(v[i])
    {
      i := i - 1;
      assert v[i..][1..] == v[i + 1..];
      var next := w.machine.step(r, v[i]);
      if next.None? {
        StepUpFails(w, start, v, i);
        return false, r, current;
      }
      r, current := next.value, Some(v[i]);
    }
    assert v[0..] == v;
    return true, r, current;
  }

  /** Walking down from `to`, the collection stops where the registry stands. */
  lemma StopsAtStart<R>(w: World<R>, target: Hash, r: R, at: Hash, to: Hash, v: seq<Hash>, below: Hash)
    requires Placed(w) && target in w.tree && to in w.tree && to != w.g && Start(w, target, r, at)
    requires w.machine.hashOf(w.machine.initial) == w.g && (to == target || to == w.best)
    requires v != [] && below in w.tree && Descends(w.tree, w.g, v, to, below)
    requires forall i :: 1 <= i < |v| ==> v[i] != w.machine.hashOf(r) && InEra(w, w.tree[v[i]].height)
    requires below == w.machine.hashOf(r) || !InEra(w, w.tree[below].height)
    ensures FullReplay(w, below) == Some(r)
    ensures !InEra(w, w.tree[to].height) ==> r == w.machine.initial && v == [to]
  {
    if r == w.machine.initial && at == w.g {
      assert FullReplay(w, below) == Some(r) by {
        assert below == w.g || !InEra(w, w.tree[below].height);
      }
    } else {
      StopsAtSnapshot(w, r, at, to, v, below);
    }
    hide ChainSpec.LinksOk, Path, FullReplay;
    if |v| > 1 {
      assert w.tree[v[0]].prev.value == v[1];
    }
  }

  /** Nothing between the snapshot's block and `to` stops the walk. */
  lemma StopsAtSnapshot<R>(w: World<R>, r: R, at: Hash, to: Hash, v: seq<Hash>, below: Hash)
    requires Placed(w) && to in w.tree && at in w.tree && InEra(w, w.tree[at].height) && w.machine.hashOf(r) == at
    requires Ancestor(w.tree, w.g, at, to) && at != to
    requires v != [] && below in w.tree && Descends(w.tree, w.g, v, to, below)
    requires forall i :: 1 <= i < |v| ==> v[i] != at && InEra(w, w.tree[v[i]].height)
    requires below == at || !InEra(w, w.tree[below].height)
    ensures below == at && InEra(w, w.tree[to].height)
  {
    hide ChainSpec.LinksOk, Path, WellFormed;
    assert v[0] == to;
    AncestorIff(w.tree, w.g, at, to);
    NotPassed(w.tree, w.g, v, to, below, at);
    AncestorIff(w.tree, w.g, at, below);
  }

  lemma ForkNotFound<R>(w: World<R>, target: Hash)
    requires Placed(w) && target in w.tree && !InEra(w, w.tree[target].height)
    ensures ForkFound(w, target) == None
  {
    hide Path, ChainSpec.LinksOk, ForkOf;
    var f := ForkOf(w.tree, w.g, w.best, target);
    ForkOfIsFork(w.tree, w.g, w.best, target);
    AncestorIff(w.tree, w.g, f, target);
  }

  /**
   Rebuild the registry for `target` and replay it to `to`. On success it is what replaying every
   purchase-era block of `to`'s branch from a fresh registry gives, whichever snapshot was found.
   */
  method RewindRegistry<R(!new)>(w: World<R>, target: Hash, to: Hash)
    returns (ok: bool, r: R, fork: Option<Hash>, current: Option<Hash>)
    requires Sound(w) && target in w.tree && to in w.tree && (to == target || to == w.best)
    ensures !InEra(w, w.tree[target].height) ==> ok && r == w.machine.initial
    ensures InEra(w, w.tree[target].height) && InEra(w, w.tree[to].height) ==>
              && (ok <==> FullReplay(w, to).Some?)
              && (ok ==> FullReplay(w, to) == Some(r) && current == Some(to))
    ensures InEra(w, w.tree[target].height) && !InEra(w, w.tree[to].height) ==>
              && (ok <==> to != w.g && w.machine.step(w.machine.initial, to).Some?)
              && (ok ==> w.machine.step(w.machine.initial, to) == Some(r))
    ensures fork == ForkFound(w, target)
  {
    hide Path, ChainSpec.LinksOk, Descends;
    fork, current := None, None;
    if !InEra(w, w.tree[target].height) {
      ForkNotFound(w, target);
      return true, w.machine.initial, None, None;
    }
    ghost var at;
    r, fork, at := FindSnapshot(w, target);
    if to == w.g {
      return false, r, fork, None;
    }
    var v, below := CollectReplay(w, w.machine.hashOf(r), to);
    StopsAtStart(w, target, r, at, to, v, below);
    if InEra(w, w.tree[to].height) {
      StepUpIsReplay(w, r, v, to, below);
    } else {
      assert StepUp(w, r, v[1..]) == Some(r);
    }
    ok, r, current := ReplayBlocks(w, r, v);
  }

  // ------------------------------------------- a replay target below the purchase era

  /** Two blocks on genesis with the purchase era starting at the second; the best block is the first. */
  const EARLY_TREE: Tree := map[
    100 := ChainSpec.GENESIS, 1 := ChainSpec.EmptyNode(1, 100, 1, 1), 2 := ChainSpec.EmptyNode(2, 1, 2, 2)]

  /** A registry that only remembers the last block it was stepped through. */
  function EarlyWorld(): World<Hash> {
    World(EARLY_TREE, 100, 1, map[100 := 1], map[0 := 100, 1 := 1], h => if h < 2 then 4 else 5,
          Machine(100, (_, h) => Some(h), r => r, _ => 0), map[])
  }

  lemma EarlyPaths()
    ensures WellFormed(EARLY_TREE, 100) && Path(EARLY_TREE, 100, 1) == [100, 1]
  {
    assert WellFormed(EARLY_TREE, 100);
    assert Path(EARLY_TREE, 100, 100) == [100];
    assert Path(EARLY_TREE, 100, 1) == Path(EARLY_TREE, 100, 100) + [1];
  }

  lemma EarlyWorldSound()
    ensures Sound(EarlyWorld()) && FullReplay(EarlyWorld(), 1) == Some(100)
  {
    EarlyPaths();
    hide WellFormed, Path;
    var w := EarlyWorld();
    assert ChainSpec.LinksOk(w.tree, 100, w.pnext, w.lookup, 1);
    assert forall a: int, b: int :: a <= b ==> w.fork(a) <= w.fork(b);
  }

  /** Asked to rewind to block 2 and replay to block 1, the registry is stepped through block 1, which no replay does. */
  method EarlyReplay() returns (ok: bool, r: Hash)
    ensures Sound(EarlyWorld()) && ok && r == 1 && FullReplay(EarlyWorld(), 1) == Some(100)
  {
    EarlyWorldSound();
    var w := EarlyWorld();
    hide Sound, FullReplay;
    var fork, current;
    ok, r, fork, current := RewindRegistry(w, 2, 1);
  }
}
