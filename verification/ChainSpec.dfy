/**
 What the chain-state machine must compute: the index a branch stands for, the block
 that becomes best, and the links that describe the active branch.
 */
module ChainSpec {
  import opened Basics
  import opened Ledger
  import opened BlockConnect
  import opened BlockTree
  import opened TxIds

  /** The index after connecting every block of the branch above genesis, in order. */
  ghost function Replay(tree: Tree, g: Hash, h: Hash): Option<Index>
    requires WellFormed(tree, g) && h in tree
    decreases tree[h].height
  {
    if h == g then Some(map[])
    else
      var i :- Replay(tree, g, tree[h].prev.value);
      Apply(i, tree[h].block)
  }

  /** Every block above genesis has passed the checks on its transactions. */
  ghost predicate AllChecked(tree: Tree, g: Hash, names: Naming)
    requires WellFormed(tree, g)
  {
    forall h :: h in tree && h != g ==> Checked(names, tree[h].block, tree[h].height)
  }

  /** Along a branch that can be replayed, every transaction's inputs stay spent, so no id comes twice. */
  lemma {:induction false} ReplaySettles(tree: Tree, g: Hash, names: Naming, h: Hash)
    requires WellFormed(tree, g) && AllChecked(tree, g, names) && h in tree && Replay(tree, g, h).Some?
    ensures Settled(Replay(tree, g, h).value, names, tree[h].height)
    ensures h != g ==>
              var below := Replay(tree, g, tree[h].prev.value);
              below.Some? && below.value.Keys !! Ids(tree[h].block.vtx)
    decreases tree[h].height
  {
    hide Apply, Checked, Settled;
    if h == g {
      assert Settled(map[], names, 0) by {
        SettledNone(names);
      }
    } else {
      var prev := tree[h].prev.value;
      ReplaySettles(tree, g, names, prev);
      BlockIdsAreNew(Replay(tree, g, prev).value, names, tree[h].block, tree[h].height);
    }
  }

  lemma SettledNone(names: Naming)
    ensures Settled(map[], names, 0)
  {
  }

  /** Disconnecting the top block of a replayed branch gives the branch below it. */
  lemma UndoTop(tree: Tree, g: Hash, names: Naming, h: Hash)
    requires WellFormed(tree, g) && AllChecked(tree, g, names) && h in tree && h != g && Replay(tree, g, h).Some?
    ensures Replay(tree, g, tree[h].prev.value).Some?
    ensures Undo(Replay(tree, g, h).value, tree[h].block) == Replay(tree, g, tree[h].prev.value)
  {
    hide Apply, Undo, AllChecked;
    ReplaySettles(tree, g, names, h);
    ConnectThenDisconnect(Replay(tree, g, tree[h].prev.value).value, tree[h].block);
  }

  lemma {:induction false} ReplayExtend(tree: Tree, g: Hash, h: Hash, x: Hash, node: Node)
    requires WellFormed(tree, g) && h in tree && x !in tree && WellFormed(tree[x := node], g)
    ensures Replay(tree[x := node], g, h) == Replay(tree, g, h)
    decreases tree[h].height
  {
    if h != g {
      ReplayExtend(tree, g, tree[h].prev.value, x, node);
    }
  }

  // ------------------------------------------------------------------- links

  /** `pnext` leads along `p`, and from nowhere else. */
  ghost predicate NextOk(p: seq<Hash>, pnext: map<Hash, Hash>) {
    && (forall i :: 0 <= i < |p| - 1 ==> p[i] in pnext && pnext[p[i]] == p[i + 1])
    && (forall x :: x in pnext ==> exists i :: 0 <= i < |p| - 1 && p[i] == x)
  }

  ghost predicate LookupOk(p: seq<Hash>, lookup: map<int, Hash>) {
    && (forall i :: i in lookup <==> 0 <= i < |p|)
    && (forall i :: 0 <= i < |p| ==> lookup[i] == p[i])
  }

  /** `pnext` and `mapBlockLookup` describe exactly the path from genesis to `h`. */
  ghost predicate LinksOk(tree: Tree, g: Hash, pnext: map<Hash, Hash>, lookup: map<int, Hash>, h: Hash)
    requires WellFormed(tree, g) && h in tree
  {
    NextOk(Path(tree, g, h), pnext) && LookupOk(Path(tree, g, h), lookup)
  }

  lemma NextShrink(p: seq<Hash>, h: Hash, pnext: map<Hash, Hash>)
    requires |p| > 0 && Distinct(p + [h]) && NextOk(p + [h], pnext)
    ensures NextOk(p, pnext - {p[|p| - 1]})
  {
    var q, next' := p + [h], pnext - {p[|p| - 1]};
    forall i | 0 <= i < |p| - 1 ensures p[i] in next' && next'[p[i]] == p[i + 1] {
      assert q[i] == p[i] && q[i + 1] == p[i + 1] && q[i] != q[|p| - 1];
    }
    forall x | x in next' ensures exists i :: 0 <= i < |p| - 1 && p[i] == x {
      var i :| 0 <= i < |q| - 1 && q[i] == x;
      assert p[i] == x && i != |p| - 1;
    }
  }

  lemma NextGrow(p: seq<Hash>, h: Hash, pnext: map<Hash, Hash>)
    requires |p| > 0 && Distinct(p + [h]) && NextOk(p, pnext)
    ensures NextOk(p + [h], pnext[p[|p| - 1] := h])
  {
    var q, next' := p + [h], pnext[p[|p| - 1] := h];
    forall i | 0 <= i < |q| - 1 ensures q[i] in next' && next'[q[i]] == q[i + 1] {
      assert i < |p| - 1 ==> p[i] == q[i] && q[i] != q[|p| - 1];
    }
    forall x | x in next' ensures exists i :: 0 <= i < |q| - 1 && q[i] == x {
      if x == p[|p| - 1] {
        assert q[|p| - 1] == x;
      } else {
        var i :| 0 <= i < |p| - 1 && p[i] == x;
        assert q[i] == x;
      }
    }
  }

  lemma PathDistinct(tree: Tree, g: Hash, h: Hash)
    requires WellFormed(tree, g) && h in tree
    ensures Distinct(Path(tree, g, h))
  {
  }

  lemma Unlink(tree: Tree, g: Hash, pnext: map<Hash, Hash>, lookup: map<int, Hash>, h: Hash)
    requires WellFormed(tree, g) && h in tree && h != g && LinksOk(tree, g, pnext, lookup, h)
    ensures LinksOk(tree, g, pnext - {tree[h].prev.value}, lookup - {tree[h].height}, tree[h].prev.value)
  {
    PathDistinct(tree, g, h);
    NextShrink(Path(tree, g, tree[h].prev.value), h, pnext);
  }

  lemma Link(tree: Tree, g: Hash, pnext: map<Hash, Hash>, lookup: map<int, Hash>, h: Hash)
    requires WellFormed(tree, g) && h in tree && h != g && LinksOk(tree, g, pnext, lookup, tree[h].prev.value)
    ensures LinksOk(tree, g, pnext[tree[h].prev.value := h], lookup[tree[h].height := h], h)
  {
    PathDistinct(tree, g, h);
    NextGrow(Path(tree, g, tree[h].prev.value), h, pnext);
  }

  lemma LinksExtend(tree: Tree, g: Hash, pnext: map<Hash, Hash>, lookup: map<int, Hash>, h: Hash, x: Hash, node: Node)
    requires WellFormed(tree, g) && h in tree && x !in tree && WellFormed(tree[x := node], g)
    requires LinksOk(tree, g, pnext, lookup, h)
    ensures LinksOk(tree[x := node], g, pnext, lookup, h)
  {
    PathExtend(tree, g, h, x, node);
  }

  /** `IsInMainChain` means ancestor-or-equal of the best block, and the height lookup holds exactly those. */
  lemma MainChainIsAncestry(tree: Tree, g: Hash, pnext: map<Hash, Hash>, lookup: map<int, Hash>, best: Hash, h: Hash)
    requires WellFormed(tree, g) && best in tree && LinksOk(tree, g, pnext, lookup, best)
    ensures h in pnext || h == best <==> Ancestor(tree, g, h, best)
    ensures h in tree ==>
              (tree[h].height in lookup && lookup[tree[h].height] == h <==> Ancestor(tree, g, h, best))
  {
    Self(tree, g, best);
    var p := Path(tree, g, best);
    if h in tree {
      AncestorIff(tree, g, h, best);
    }
    if h in p && h != best {
      var i :| 0 <= i < |p| && p[i] == h;
      assert i < |p| - 1;
    }
  }

  // ------------------------------------------------------- choosing the best

  /** Everything outside the tree that one best-chain change depends on. */
  datatype Context = Context(rules: Rules, src: Source, bestHeight: int)

  /** Block `h` passes `ConnectBlock` on top of the branch below it. */
  ghost predicate Connects(tree: Tree, g: Hash, ctx: Context, h: Hash)
    requires WellFormed(tree, g) && h in tree && h != g
  {
    var below := Replay(tree, g, tree[h].prev.value);
    below.Some? && Connect(ctx.rules, ctx.src, below.value, tree[h].block, ctx.bestHeight, 0).Some?
  }

  /** `x` lies on the branch to `to`, strictly above `from`. */
  ghost predicate Above(tree: Tree, g: Hash, from: Hash, to: Hash, x: Hash)
    requires WellFormed(tree, g) && from in tree && to in tree
  {
    x in tree && Ancestor(tree, g, from, x) && Ancestor(tree, g, x, to) && tree[x].height > tree[from].height
  }

  /** Every block above `from` up to `to` connects. */
  ghost predicate AllConnect(tree: Tree, g: Hash, ctx: Context, from: Hash, to: Hash)
    requires WellFormed(tree, g) && from in tree && to in tree
  {
    forall x :: Above(tree, g, from, to, x) ==> Connects(tree, g, ctx, x)
  }

  /** How far towards `to` the branch can be connected, starting above `from`. */
  ghost function Reach(tree: Tree, g: Hash, ctx: Context, from: Hash, to: Hash): Hash
    requires WellFormed(tree, g) && to in tree && Ancestor(tree, g, from, to)
    decreases tree[to].height
  {
    if to == from then from
    else
      AncestorStep(tree, g, from, to);
      var prev := tree[to].prev.value;
      var r := Reach(tree, g, ctx, from, prev);
      if r == prev && Connects(tree, g, ctx, to) then to else r
  }

  lemma {:induction false} ReachBetween(tree: Tree, g: Hash, ctx: Context, from: Hash, to: Hash)
    requires WellFormed(tree, g) && to in tree && from in tree && Ancestor(tree, g, from, to)
    ensures
      var r := Reach(tree, g, ctx, from, to);
      r in tree && Ancestor(tree, g, from, r) && Ancestor(tree, g, r, to)
    ensures Replay(tree, g, from).Some? ==> Replay(tree, g, Reach(tree, g, ctx, from, to)).Some?
    decreases tree[to].height
  {
    Self(tree, g, from);
    Self(tree, g, to);
    if to != from {
      AncestorStep(tree, g, from, to);
      var prev := tree[to].prev.value;
      ReachBetween(tree, g, ctx, from, prev);
      AncestorStep(tree, g, Reach(tree, g, ctx, from, prev), to);
      if Connects(tree, g, ctx, to) {
        ConnectApplies(ctx.rules, ctx.src, Replay(tree, g, prev).value, tree[to].block, ctx.bestHeight, 0);
      }
    }
  }

  lemma ReachWithin(tree: Tree, g: Hash, ctx: Context, from: Hash, to: Hash)
    requires WellFormed(tree, g) && to in tree && from in tree && Ancestor(tree, g, from, to)
    ensures
      var r := Reach(tree, g, ctx, from, to);
      r in tree && Ancestor(tree, g, from, r) && Ancestor(tree, g, r, to)
  {
    ReachBetween(tree, g, ctx, from, to);
  }

  /** Once a block does not connect, nothing above it does. */
  lemma {:induction false} ReachStuck(tree: Tree, g: Hash, ctx: Context, from: Hash, mid: Hash, to: Hash)
    requires WellFormed(tree, g) && to in tree && mid in tree && from in tree
    requires Ancestor(tree, g, from, mid) && Ancestor(tree, g, mid, to) && Ancestor(tree, g, from, to)
    requires Reach(tree, g, ctx, from, mid) != mid
    ensures Reach(tree, g, ctx, from, to) == Reach(tree, g, ctx, from, mid)
    decreases tree[to].height
  {
    if to != mid {
      AncestorStep(tree, g, mid, to);
      var prev := tree[to].prev.value;
      if to == from {
        AncestorIff(tree, g, from, mid);
        AncestorIff(tree, g, mid, to);
      } else {
        AncestorStep(tree, g, from, to);
        ReachStuck(tree, g, ctx, from, mid, prev);
        ReachBetween(tree, g, ctx, from, mid);
        if Reach(tree, g, ctx, from, prev) == prev {
          AncestorIff(tree, g, mid, prev);
          AncestorIff(tree, g, prev, mid);
        }
      }
    }
  }

  lemma AboveStep(tree: Tree, g: Hash, from: Hash, to: Hash, x: Hash)
    requires WellFormed(tree, g) && from in tree && to in tree && Ancestor(tree, g, from, to)
    ensures to == from ==> !Above(tree, g, from, to, x)
    ensures to != from ==>
              && to != g && Ancestor(tree, g, from, tree[to].prev.value)
              && (Above(tree, g, from, to, x) <==> x == to || Above(tree, g, from, tree[to].prev.value, x))
  {
    hide Path;
    AncestorIff(tree, g, from, to);
    Self(tree, g, to);
    if x in tree {
      AncestorIff(tree, g, x, to);
    }
    if to != from {
      AncestorStep(tree, g, from, to);
      AncestorStep(tree, g, x, to);
    }
  }

  /** The climb arrives exactly when every block on the way connects. */
  lemma {:induction false} ReachIff(tree: Tree, g: Hash, ctx: Context, from: Hash, to: Hash)
    requires WellFormed(tree, g) && from in tree && to in tree && Ancestor(tree, g, from, to)
    ensures Reach(tree, g, ctx, from, to) == to <==> AllConnect(tree, g, ctx, from, to)
    decreases tree[to].height
  {
    hide Path, Connects, Above;
    forall x ensures to == from ==> !Above(tree, g, from, to, x) {
      AboveStep(tree, g, from, to, x);
    }
    if to != from {
      AboveStep(tree, g, from, to, to);
      var prev := tree[to].prev.value;
      forall x ensures Above(tree, g, from, to, x) <==> x == to || Above(tree, g, from, prev, x) {
        AboveStep(tree, g, from, to, x);
      }
      ReachIff(tree, g, ctx, from, prev);
      ReachWithin(tree, g, ctx, from, prev);
      AncestorIff(tree, g, Reach(tree, g, ctx, from, prev), prev);
    }
  }

  lemma {:induction false} ReachPast(tree: Tree, g: Hash, ctx: Context, from: Hash, mid: Hash, to: Hash)
    requires WellFormed(tree, g) && to in tree && mid in tree && from in tree
    requires Ancestor(tree, g, from, mid) && Ancestor(tree, g, mid, to) && Ancestor(tree, g, from, to)
    requires Reach(tree, g, ctx, from, mid) == mid
    ensures Reach(tree, g, ctx, from, to) in tree && Ancestor(tree, g, mid, Reach(tree, g, ctx, from, to))
    decreases tree[to].height
  {
    hide Path, Connects;
    Self(tree, g, mid);
    if to != mid {
      AncestorIff(tree, g, from, mid);
      AncestorIff(tree, g, mid, to);
      AncestorStep(tree, g, mid, to);
      AncestorStep(tree, g, from, to);
      ReachPast(tree, g, ctx, from, mid, tree[to].prev.value);
    }
  }

  /** `r` lies between the two, and the blocks at or below it are exactly those with nothing refused up to them. */
  ghost predicate HighestConnecting(tree: Tree, g: Hash, ctx: Context, from: Hash, to: Hash, r: Hash)
    requires WellFormed(tree, g) && from in tree && to in tree
  {
    && r in tree && Ancestor(tree, g, from, r) && Ancestor(tree, g, r, to)
    && forall x :: x in tree && Ancestor(tree, g, from, x) && Ancestor(tree, g, x, to) ==>
         (Ancestor(tree, g, x, r) <==> AllConnect(tree, g, ctx, from, x))
  }

  lemma ReachPasses(tree: Tree, g: Hash, ctx: Context, from: Hash, to: Hash, x: Hash)
    requires WellFormed(tree, g) && from in tree && x in tree && to in tree
    requires Ancestor(tree, g, from, x) && Ancestor(tree, g, x, to) && Ancestor(tree, g, from, to)
    ensures
      var r := Reach(tree, g, ctx, from, to);
      r in tree && (Ancestor(tree, g, x, r) <==> AllConnect(tree, g, ctx, from, x))
  {
    hide Path, Connects, AllConnect, Reach;
    ReachIff(tree, g, ctx, from, x);
    ReachWithin(tree, g, ctx, from, x);
    if Reach(tree, g, ctx, from, x) == x {
      ReachPast(tree, g, ctx, from, x, to);
    } else {
      ReachStuck(tree, g, ctx, from, x, to);
      var r := Reach(tree, g, ctx, from, x);
      AncestorIff(tree, g, r, x);
      AncestorIff(tree, g, x, r);
    }
  }

  /** The climb ends on the highest block that connects. */
  lemma ReachHighest(tree: Tree, g: Hash, ctx: Context, from: Hash, to: Hash)
    requires WellFormed(tree, g) && from in tree && to in tree && Ancestor(tree, g, from, to)
    ensures HighestConnecting(tree, g, ctx, from, to, Reach(tree, g, ctx, from, to))
  {
    hide Path, Reach, AllConnect, Ancestor;
    ReachWithin(tree, g, ctx, from, to);
    forall x | x in tree && Ancestor(tree, g, from, x) && Ancestor(tree, g, x, to)
      ensures Ancestor(tree, g, x, Reach(tree, g, ctx, from, to)) <==> AllConnect(tree, g, ctx, from, x)
    {
      ReachPasses(tree, g, ctx, from, to, x);
    }
  }

  lemma AboveSplit(tree: Tree, g: Hash, from: Hash, mid: Hash, to: Hash, x: Hash)
    requires WellFormed(tree, g) && from in tree && mid in tree && to in tree
    requires Ancestor(tree, g, from, mid) && Ancestor(tree, g, mid, to)
    ensures Above(tree, g, from, to, x) <==> Above(tree, g, from, mid, x) || Above(tree, g, mid, to, x)
  {
    hide Path;
    AncestorIff(tree, g, from, mid);
    AncestorIff(tree, g, mid, to);
    if x in tree && Ancestor(tree, g, x, to) {
      AncestorIff(tree, g, x, to);
      AncestorIff(tree, g, x, mid);
      AncestorIff(tree, g, mid, x);
    }
    if x in tree && Ancestor(tree, g, x, mid) {
      AncestorTransitive(tree, g, x, mid, to);
    }
    if x in tree && Ancestor(tree, g, mid, x) {
      AncestorTransitive(tree, g, from, mid, x);
      AncestorIff(tree, g, mid, x);
    }
  }

  lemma AllConnectSplit(tree: Tree, g: Hash, ctx: Context, from: Hash, mid: Hash, to: Hash)
    requires WellFormed(tree, g) && from in tree && mid in tree && to in tree
    requires Ancestor(tree, g, from, mid) && Ancestor(tree, g, mid, to)
    ensures AllConnect(tree, g, ctx, from, to) <==> AllConnect(tree, g, ctx, from, mid) && AllConnect(tree, g, ctx, mid, to)
  {
    hide Above, Connects, Ancestor, WellFormed;
    forall x ensures Above(tree, g, from, to, x) <==> Above(tree, g, from, mid, x) || Above(tree, g, mid, to, x) {
      AboveSplit(tree, g, from, mid, to, x);
    }
  }

  /** The first block of the new branch, going down, whose parent does not beat the old best. */
  ghost function Intermediate(tree: Tree, g: Hash, h: Hash, trust: int): (m: Hash)
    requires WellFormed(tree, g) && h in tree
    ensures m in tree
    decreases tree[h].height
  {
    if h != g && tree[tree[h].prev.value].trust > trust then Intermediate(tree, g, tree[h].prev.value, trust) else h
  }

  /** Everything from there up to, but not including, the tip beats the old best; its parent does not. */
  lemma {:induction false} IntermediateTrust(tree: Tree, g: Hash, h: Hash, trust: int, x: Hash)
    requires WellFormed(tree, g) && h in tree && x in tree
    ensures Ancestor(tree, g, Intermediate(tree, g, h, trust), h)
    ensures
      var m := Intermediate(tree, g, h, trust);
      m != g ==> tree[tree[m].prev.value].trust <= trust
    ensures Ancestor(tree, g, Intermediate(tree, g, h, trust), x) && Ancestor(tree, g, x, h) && x != h ==>
              tree[x].trust > trust
    decreases tree[h].height
  {
    var m := Intermediate(tree, g, h, trust);
    Self(tree, g, h);
    if h == g || tree[tree[h].prev.value].trust <= trust {
      AncestorIff(tree, g, m, x);
      AncestorIff(tree, g, x, h);
    } else {
      var prev := tree[h].prev.value;
      IntermediateTrust(tree, g, prev, trust, x);
      AncestorStep(tree, g, m, h);
      AncestorStep(tree, g, x, h);
    }
  }

  /** The new block goes directly on top of the best one. */
  predicate Extends(tree: Tree, g: Hash, best: Hash, tip: Hash)
    requires tip in tree && (tip != g ==> tree[tip].prev.Some?)
  {
    tip != g && tree[tip].prev.value == best
  }

  /** Where the branch to be reorganized to leaves the active one. */
  ghost function Fork(tree: Tree, g: Hash, best: Hash, tip: Hash): (f: Hash)
    requires WellFormed(tree, g) && best in tree && tip in tree
    ensures f in tree
  {
    ForkOf(tree, g, best, Intermediate(tree, g, tip, tree[best].trust))
  }

  lemma ForkAncestors(tree: Tree, g: Hash, best: Hash, tip: Hash)
    requires WellFormed(tree, g) && best in tree && tip in tree
    ensures
      var mid := Intermediate(tree, g, tip, tree[best].trust);
      && IsFork(tree, g, best, mid, Fork(tree, g, best, tip)) && Ancestor(tree, g, mid, tip)
      && Ancestor(tree, g, Fork(tree, g, best, tip), mid)
  {
    IntermediateTrust(tree, g, tip, tree[best].trust, tip);
    ForkOfIsFork(tree, g, best, Intermediate(tree, g, tip, tree[best].trust));
  }

  /** `SetBestChain` succeeds: the block connects, or the branch up to the intermediate block does. */
  ghost predicate Accepts(tree: Tree, g: Hash, ctx: Context, best: Hash, tip: Hash)
    requires WellFormed(tree, g) && best in tree && tip in tree
  {
    if Extends(tree, g, best, tip) then Connects(tree, g, ctx, tip)
    else
      var mid := Intermediate(tree, g, tip, tree[best].trust);
      AllConnect(tree, g, ctx, Fork(tree, g, best, tip), mid)
  }

  /** A block on top of the best one is its own intermediate block, and the branches part at the best one. */
  lemma ExtendsFork(tree: Tree, g: Hash, best: Hash, tip: Hash)
    requires WellFormed(tree, g) && best in tree && tip in tree && Extends(tree, g, best, tip)
    ensures Intermediate(tree, g, tip, tree[best].trust) == tip && Fork(tree, g, best, tip) == best
  {
    assert ForkOf(tree, g, best, tip) == ForkOf(tree, g, best, best);
  }

  /** Extending or not, `SetBestChain` succeeds exactly when every block above the fork up to the intermediate one connects. */
  lemma AcceptsIff(tree: Tree, g: Hash, ctx: Context, best: Hash, tip: Hash)
    requires WellFormed(tree, g) && best in tree && tip in tree
    ensures Accepts(tree, g, ctx, best, tip) <==>
              AllConnect(tree, g, ctx, Fork(tree, g, best, tip), Intermediate(tree, g, tip, tree[best].trust))
  {
    hide Path, Connects, Above;
    if Extends(tree, g, best, tip) {
      ExtendsFork(tree, g, best, tip);
      Self(tree, g, best);
      AncestorStep(tree, g, best, tip);
      forall x ensures Above(tree, g, best, tip, x) <==> x == tip {
        AboveStep(tree, g, best, tip, x);
        AboveStep(tree, g, best, best, x);
      }
    }
  }

  /** The block `SetBestChain` ends on when asked for `tip`; `best` itself when it refuses. */
  ghost function NewBest(tree: Tree, g: Hash, ctx: Context, best: Hash, tip: Hash): Hash
    requires WellFormed(tree, g) && best in tree && tip in tree
  {
    if !Accepts(tree, g, ctx, best, tip) then best
    else if Extends(tree, g, best, tip) then tip
    else
      ForkAncestors(tree, g, best, tip);
      Reach(tree, g, ctx, Intermediate(tree, g, tip, tree[best].trust), tip)
  }

  /** The blocks of the active branch from the fork up to, but not including, the best block. */
  ghost function Left(tree: Tree, g: Hash, best: Hash, fork: Hash): set<Hash>
    requires WellFormed(tree, g) && best in tree && fork in tree
  {
    set h | h in tree && Ancestor(tree, g, fork, h) && Ancestor(tree, g, h, best) && h != best
  }

  /**
   The blocks whose `hashNext` is missing on disk: a refused reorganization adds those it disconnected
   from, one that goes through takes off those it leaves.
   */
  ghost function MissingAfter(tree: Tree, g: Hash, ctx: Context, best: Hash, tip: Hash, missing: set<Hash>): set<Hash>
    requires WellFormed(tree, g) && best in tree && tip in tree
  {
    if Extends(tree, g, best, tip) then missing
    else
      var left := Left(tree, g, best, Fork(tree, g, best, tip));
      if Accepts(tree, g, ctx, best, tip) then missing - left else missing + left
  }

  /** The state that decides everything else. */
  datatype Snapshot = Snapshot(tree: Tree, best: Hash, missing: set<Hash>)

  ghost predicate Safe(s: Snapshot, g: Hash, names: Naming) {
    && WellFormed(s.tree, g) && s.best in s.tree && AllChecked(s.tree, g, names)
    && Replay(s.tree, g, s.best).Some?
    && forall h :: h in s.missing ==> Ancestor(s.tree, g, h, s.best) && h != s.best
  }

  lemma {:induction false} ReplayBelow(tree: Tree, g: Hash, a: Hash, h: Hash)
    requires WellFormed(tree, g) && h in tree && Ancestor(tree, g, a, h) && Replay(tree, g, h).Some?
    ensures a in tree && Replay(tree, g, a).Some?
    decreases tree[h].height
  {
    if a != h {
      AncestorStep(tree, g, a, h);
      ReplayBelow(tree, g, a, tree[h].prev.value);
    }
  }

  /** The block chosen can be replayed, whatever trust it has. */
  lemma NewBestReplays(tree: Tree, g: Hash, ctx: Context, best: Hash, tip: Hash)
    requires WellFormed(tree, g) && best in tree && tip in tree && Replay(tree, g, best).Some?
    ensures
      var b := NewBest(tree, g, ctx, best, tip);
      b in tree && Replay(tree, g, b).Some?
  {
    if Accepts(tree, g, ctx, best, tip) {
      if Extends(tree, g, best, tip) {
        ConnectApplies(ctx.rules, ctx.src, Replay(tree, g, best).value, tree[tip].block, ctx.bestHeight, 0);
      } else {
        var mid, fork := Intermediate(tree, g, tip, tree[best].trust), Fork(tree, g, best, tip);
        ForkAncestors(tree, g, best, tip);
        ReplayBelow(tree, g, fork, best);
        ReachIff(tree, g, ctx, fork, mid);
        ReachBetween(tree, g, ctx, fork, mid);
        ReachBetween(tree, g, ctx, mid, tip);
      }
    }
  }

  /**
   Asked for a block off the active branch, a switch that goes through changes the best block, and one that
   is refused keeps it. When the tip has more trust, so has the block it ends on.
   */
  lemma NewBestMoves(tree: Tree, g: Hash, ctx: Context, best: Hash, tip: Hash)
    requires WellFormed(tree, g) && best in tree && tip in tree
    ensures !Ancestor(tree, g, tip, best) ==> (Accepts(tree, g, ctx, best, tip) <==> NewBest(tree, g, ctx, best, tip) != best)
    ensures
      var b := NewBest(tree, g, ctx, best, tip);
      tree[tip].trust > tree[best].trust ==> b == best || (b in tree && tree[b].trust > tree[best].trust)
  {
    hide Path, Accepts, Connects;
    Self(tree, g, best);
    if Accepts(tree, g, ctx, best, tip) && !Extends(tree, g, best, tip) {
      var mid := Intermediate(tree, g, tip, tree[best].trust);
      ForkAncestors(tree, g, best, tip);
      ReachWithin(tree, g, ctx, mid, tip);
      var b := NewBest(tree, g, ctx, best, tip);
      IntermediateTrust(tree, g, tip, tree[best].trust, b);
    }
  }

  /** A switch that goes through ends on the highest block above the intermediate one that connects. */
  lemma NewBestHighest(tree: Tree, g: Hash, ctx: Context, best: Hash, tip: Hash)
    requires WellFormed(tree, g) && best in tree && tip in tree && Accepts(tree, g, ctx, best, tip)
    ensures HighestConnecting(tree, g, ctx, Intermediate(tree, g, tip, tree[best].trust), tip,
                              NewBest(tree, g, ctx, best, tip))
  {
    hide Path, Accepts, Fork, Reach, HighestConnecting;
    ForkAncestors(tree, g, best, tip);
    if Extends(tree, g, best, tip) {
      ExtendsFork(tree, g, best, tip);
      assert Reach(tree, g, ctx, tip, tip) == tip by {
        AtStart(tree, g, ctx, tip);
      }
    }
    ReachHighest(tree, g, ctx, Intermediate(tree, g, tip, tree[best].trust), tip);
  }

  lemma AtStart(tree: Tree, g: Hash, ctx: Context, h: Hash)
    requires WellFormed(tree, g) && h in tree && Ancestor(tree, g, h, h)
    ensures Reach(tree, g, ctx, h, h) == h
  {
  }

  /** What is missing on disk lies below the best block, before and after. */
  lemma MissingBelow(tree: Tree, g: Hash, ctx: Context, best: Hash, tip: Hash, missing: set<Hash>, h: Hash)
    requires WellFormed(tree, g) && best in tree && tip in tree
    requires forall x :: x in missing ==> Ancestor(tree, g, x, best) && x != best
    requires h in MissingAfter(tree, g, ctx, best, tip, missing)
    ensures
      var b := NewBest(tree, g, ctx, best, tip);
      b in tree && Ancestor(tree, g, h, b) && h != b
  {
    hide Path, Accepts, Connects;
    if Extends(tree, g, best, tip) {
      if NewBest(tree, g, ctx, best, tip) == tip {
        AncestorStep(tree, g, h, tip);
        AncestorIff(tree, g, h, best) by {
          AncestorKnown(tree, g, h, best);
        }
      }
    } else if Accepts(tree, g, ctx, best, tip) {
      var mid, fork := Intermediate(tree, g, tip, tree[best].trust), Fork(tree, g, best, tip);
      ForkAncestors(tree, g, best, tip);
      ReachWithin(tree, g, ctx, mid, tip);
      BelowFork(tree, g, best, fork, h);
      var b := NewBest(tree, g, ctx, best, tip);
      AncestorTransitive(tree, g, h, fork, mid);
      AncestorTransitive(tree, g, h, mid, b);
      AncestorIff(tree, g, fork, mid);
      AncestorIff(tree, g, mid, b);
    }
  }

  lemma AncestorKnown(tree: Tree, g: Hash, a: Hash, h: Hash)
    requires WellFormed(tree, g) && h in tree && Ancestor(tree, g, a, h)
    ensures a in tree
  {
  }

  /** An ancestor of the best block that the switch does not leave lies strictly below the fork. */
  lemma BelowFork(tree: Tree, g: Hash, best: Hash, fork: Hash, h: Hash)
    requires WellFormed(tree, g) && best in tree && fork in tree && Ancestor(tree, g, fork, best)
    requires Ancestor(tree, g, h, best) && h != best && h !in Left(tree, g, best, fork)
    ensures h in tree && Ancestor(tree, g, h, fork) && tree[h].height < tree[fork].height
  {
    AncestorKnown(tree, g, h, best);
    AncestorIff(tree, g, h, best);
    AncestorIff(tree, g, fork, best);
    AncestorIff(tree, g, h, fork);
    AncestorIff(tree, g, fork, h);
    PathPrefix(tree, g, best, tree[h].height);
    PathPrefix(tree, g, best, tree[fork].height);
  }

  // -------------------------------------------------------------------- runs

  /** A block offered to `AddToBlockIndex`, with the verdicts in force at that moment. */
  datatype Arrival = Arrival(block: Block, blockTrust: int, rules: Rules, src: Source)

  ghost predicate Admissible(s: Snapshot, g: Hash, names: Naming, a: Arrival)
    requires WellFormed(s.tree, g)
  {
    && a.block.hash !in s.tree && a.block.prev in s.tree
    && Checked(names, a.block, s.tree[a.block.prev].height + 1)
  }

  function NodeFor(tree: Tree, a: Arrival): Node
    requires a.block.prev in tree
  {
    Node(Some(a.block.prev), tree[a.block.prev].height + 1, tree[a.block.prev].trust + a.blockTrust, a.block)
  }

  function Grown(tree: Tree, a: Arrival): Tree
    requires a.block.prev in tree
  {
    tree[a.block.hash := NodeFor(tree, a)]
  }

  /** Adding a block keeps the tree sound and changes nothing about the blocks that were there. */
  lemma GrowTree(s: Snapshot, g: Hash, names: Naming, a: Arrival)
    requires Safe(s, g, names) && Admissible(s, g, names, a)
    ensures Safe(s.(tree := Grown(s.tree, a)), g, names)
    ensures Replay(Grown(s.tree, a), g, s.best) == Replay(s.tree, g, s.best)
  {
    hide Checked;
    var x, node := a.block.hash, NodeFor(s.tree, a);
    assert WellFormed(Grown(s.tree, a), g);
    ReplayExtend(s.tree, g, s.best, x, node);
    PathExtend(s.tree, g, s.best, x, node);
  }

  /** `SetBestChain` as a function. */
  ghost function Switch(s: Snapshot, g: Hash, ctx: Context, tip: Hash): Snapshot
    requires WellFormed(s.tree, g) && s.best in s.tree && tip in s.tree
  {
    Snapshot(s.tree, NewBest(s.tree, g, ctx, s.best, tip), MissingAfter(s.tree, g, ctx, s.best, tip, s.missing))
  }

  lemma SwitchSafe(s: Snapshot, g: Hash, names: Naming, ctx: Context, tip: Hash)
    requires Safe(s, g, names) && tip in s.tree
    ensures Safe(Switch(s, g, ctx, tip), g, names)
  {
    hide NewBest, MissingAfter, Path, Ancestor;
    NewBestReplays(s.tree, g, ctx, s.best, tip);
    forall h | h in MissingAfter(s.tree, g, ctx, s.best, tip, s.missing)
      ensures Ancestor(s.tree, g, h, NewBest(s.tree, g, ctx, s.best, tip)) && h != NewBest(s.tree, g, ctx, s.best, tip)
    {
      MissingBelow(s.tree, g, ctx, s.best, tip, s.missing, h);
    }
  }

  /** A block is offered, or a checkpoint asks for a block that is not on the active branch. */
  datatype Event = Offer(arrival: Arrival) | Force(tip: Hash, rules: Rules, src: Source)

  /** `AddToBlockIndex` grows the tree and tries the new block when it has more trust; a checkpoint asks in any case. */
  ghost function After(s: Snapshot, g: Hash, names: Naming, e: Event): Snapshot
    requires Safe(s, g, names)
  {
    match e
    case Offer(a) =>
      if !Admissible(s, g, names, a) then s
      else
        GrowTree(s, g, names, a);
        var t := s.(tree := Grown(s.tree, a));
        if t.tree[a.block.hash].trust > t.tree[t.best].trust then
          Switch(t, g, Context(a.rules, a.src, s.tree[s.best].height), a.block.hash)
        else t
    case Force(tip, rules, src) =>
      if tip in s.tree && !Ancestor(s.tree, g, tip, s.best) then
        Switch(s, g, Context(rules, src, s.tree[s.best].height), tip)
      else s
  }

  /** One event keeps the best branch replayable; best trust rises when an offered block changes the best one. */
  lemma AfterSafe(s: Snapshot, g: Hash, names: Naming, e: Event)
    requires Safe(s, g, names)
    ensures
      var s' := After(s, g, names, e);
      && Safe(s', g, names)
      && (forall h :: h in s.tree ==> h in s'.tree && s'.tree[h] == s.tree[h])
      && (e.Offer? ==> s'.best == s.best || s'.tree[s'.best].trust > s.tree[s.best].trust)
  {
    hide NewBest, MissingAfter, Replay, Checked, AllChecked, Path;
    match e
    case Offer(a) =>
      if Admissible(s, g, names, a) {
        GrowTree(s, g, names, a);
        var t := s.(tree := Grown(s.tree, a));
        var ctx := Context(a.rules, a.src, s.tree[s.best].height);
        SwitchSafe(t, g, names, ctx, a.block.hash);
        NewBestMoves(t.tree, g, ctx, t.best, a.block.hash);
      }
    case Force(tip, rules, src) =>
      if tip in s.tree {
        SwitchSafe(s, g, names, Context(rules, src, s.tree[s.best].height), tip);
      }
  }

  ghost function Run(s: Snapshot, g: Hash, names: Naming, events: seq<Event>): (r: Snapshot)
    requires Safe(s, g, names)
    ensures Safe(r, g, names)
  {
    if events == [] then s
    else
      var r := Run(s, g, names, events[..|events| - 1]);
      AfterSafe(r, g, names, events[|events| - 1]);
      After(r, g, names, events[|events| - 1])
  }

  /**
   Over every run, forced switches included, the best branch can be replayed. In a run of offered blocks best
   trust never falls, and rises whenever the best block changes.
   */
  lemma {:induction false} RunRaisesTrust(s: Snapshot, g: Hash, names: Naming, events: seq<Event>)
    requires Safe(s, g, names)
    ensures
      var r := Run(s, g, names, events);
      && Replay(r.tree, g, r.best).Some?
      && (forall h :: h in s.tree ==> h in r.tree && r.tree[h] == s.tree[h])
      && ((forall i :: 0 <= i < |events| ==> events[i].Offer?) ==>
            r.best == s.best || r.tree[r.best].trust > s.tree[s.best].trust)
  {
    hide After, WellFormed, AllChecked;
    if events != [] {
      var front, e := events[..|events| - 1], events[|events| - 1];
      RunRaisesTrust(s, g, names, front);
      AfterSafe(Run(s, g, names, front), g, names, e);
      assert forall i :: 0 <= i < |front| ==> front[i] == events[i];
    }
  }

  // ------------------------------------------------ the links that survive a restart

  /** There is something to disconnect, and a block above the fork, up to the intermediate one, that does not connect. */
  ghost predicate Unlinks(s: Snapshot, g: Hash, ctx: Context, tip: Hash)
    requires WellFormed(s.tree, g) && s.best in s.tree && tip in s.tree
  {
    var fork, mid := Fork(s.tree, g, s.best, tip), Intermediate(s.tree, g, tip, s.tree[s.best].trust);
    fork != s.best && exists x :: Above(s.tree, g, fork, mid, x) && !Connects(s.tree, g, ctx, x)
  }

  lemma LeftEmpty(tree: Tree, g: Hash, best: Hash, fork: Hash)
    requires WellFormed(tree, g) && best in tree && fork in tree && Ancestor(tree, g, fork, best)
    ensures Left(tree, g, best, fork) == {} <==> fork == best
  {
    if fork == best {
      forall h | h in tree && Ancestor(tree, g, fork, h) && Ancestor(tree, g, h, best) ensures h == best {
        AncestorIff(tree, g, fork, h);
        AncestorIff(tree, g, h, best);
      }
    } else {
      Self(tree, g, fork);
      assert fork in Left(tree, g, best, fork);
    }
  }

  lemma Emptied(a: set<Hash>, b: set<Hash>)
    ensures a - b == {} <==> forall h :: h in a ==> h in b
    ensures a + b == {} <==> a == {} && b == {}
  {
    if a - b == {} {
      forall h | h in a ensures h in b {
        assert h !in a - b;
      }
    }
    if forall h :: h in a ==> h in b {
      assert forall h :: h !in a - b;
      assert a - b == {};
    }
    if a + b == {} {
      assert a <= a + b && b <= a + b;
    }
  }

  /**
   A switch from a disk that holds every link leaves one that does, unless there is something to disconnect and a block
   to connect in its place that does not. With none of those, it repairs exactly what lies at or above its fork.
   */
  lemma LinksKept(s: Snapshot, g: Hash, names: Naming, ctx: Context, tip: Hash)
    requires Safe(s, g, names) && tip in s.tree
    ensures s.missing == {} ==> (Switch(s, g, ctx, tip).missing == {} <==> !Unlinks(s, g, ctx, tip))
    ensures AllConnect(s.tree, g, ctx, Fork(s.tree, g, s.best, tip), Intermediate(s.tree, g, tip, s.tree[s.best].trust)) ==>
              (Switch(s, g, ctx, tip).missing == {} <==>
               forall h :: h in s.missing ==> h in s.tree && Ancestor(s.tree, g, Fork(s.tree, g, s.best, tip), h))
  {
    hide Replay, AllChecked, Accepts, Path, Left, NewBest, Fork, Ancestor, Above, Connects;
    var fork := Fork(s.tree, g, s.best, tip);
    var left := Left(s.tree, g, s.best, fork);
    ForkAncestors(s.tree, g, s.best, tip);
    AcceptsIff(s.tree, g, ctx, s.best, tip);
    LeftEmpty(s.tree, g, s.best, fork);
    Emptied(s.missing, left);
    if Extends(s.tree, g, s.best, tip) {
      ExtendsFork(s.tree, g, s.best, tip);
    }
    forall h | h in s.missing ensures h in s.tree && (h in left <==> Ancestor(s.tree, g, fork, h)) {
      InLeft(s.tree, g, s.best, fork, h);
    }
  }

  lemma InLeft(tree: Tree, g: Hash, best: Hash, fork: Hash, h: Hash)
    requires WellFormed(tree, g) && best in tree && fork in tree && Ancestor(tree, g, h, best) && h != best
    ensures h in tree && (h in Left(tree, g, best, fork) <==> Ancestor(tree, g, fork, h))
  {
    AncestorKnown(tree, g, h, best);
  }

  /** No event of the run is a switch refused after a disconnection. */
  ghost predicate NeverUnlinks(s: Snapshot, g: Hash, names: Naming, events: seq<Event>)
    requires Safe(s, g, names)
  {
    forall i :: 0 <= i < |events| ==> !UnlinksAt(s, g, names, events, i)
  }

  ghost predicate UnlinksAt(s: Snapshot, g: Hash, names: Naming, events: seq<Event>, i: int)
    requires Safe(s, g, names) && 0 <= i < |events|
  {
    EventUnlinks(Run(s, g, names, events[..i]), g, names, events[i])
  }

  ghost predicate EventUnlinks(r: Snapshot, g: Hash, names: Naming, e: Event)
    requires Safe(r, g, names)
  {
    match e
    case Offer(a) =>
      Admissible(r, g, names, a) && (
        GrowTree(r, g, names, a);
        var t := r.(tree := Grown(r.tree, a));
        && t.tree[a.block.hash].trust > t.tree[t.best].trust
        && Unlinks(t, g, Context(a.rules, a.src, r.tree[r.best].height), a.block.hash))
    case Force(tip, rules, src) =>
      && tip in r.tree && !Ancestor(r.tree, g, tip, r.best)
      && Unlinks(r, g, Context(rules, src, r.tree[r.best].height), tip)
  }

  lemma EventKeepsLinks(r: Snapshot, g: Hash, names: Naming, e: Event)
    requires Safe(r, g, names) && r.missing == {}
    ensures After(r, g, names, e).missing == {} <==> !EventUnlinks(r, g, names, e)
  {
    hide Switch, Unlinks, Replay, AllChecked, Checked, Path, Ancestor;
    match e
    case Offer(a) =>
      if Admissible(r, g, names, a) {
        GrowTree(r, g, names, a);
        var t := r.(tree := Grown(r.tree, a));
        LinksKept(t, g, names, Context(a.rules, a.src, r.tree[r.best].height), a.block.hash);
      }
    case Force(tip, rules, src) =>
      if tip in r.tree {
        LinksKept(r, g, names, Context(rules, src, r.tree[r.best].height), tip);
      }
  }

  /** Over a whole run the on-disk links stay complete as long as no switch is refused after a disconnection. */
  lemma {:induction false} RunKeepsLinks(s: Snapshot, g: Hash, names: Naming, events: seq<Event>)
    requires Safe(s, g, names) && s.missing == {} && NeverUnlinks(s, g, names, events)
    ensures Run(s, g, names, events).missing == {}
  {
    hide After, EventUnlinks, Safe;
    if events != [] {
      var n := |events| - 1;
      var front := events[..n];
      forall i | 0 <= i < n ensures !UnlinksAt(s, g, names, front, i) {
        assert !UnlinksAt(s, g, names, events, i);
        assert front[..i] == events[..i];
      }
      RunKeepsLinks(s, g, names, front);
      assert !UnlinksAt(s, g, names, events, n);
      EventKeepsLinks(Run(s, g, names, front), g, names, events[n]);
    }
  }

  // ------------------------------------------------------------ a refusal, step by step

  /** Rules that refuse every block. */
  function Refusing(): Rules {
    Lenient(0).(blockOk := (_, _) => false)
  }

  const GENESIS := Node(None, 0, 0, Block(100, 0, 0, 0, 80, [], 0, true))

  function EmptyNode(h: Hash, prev: Hash, height: nat, trust: int): Node {
    Node(Some(prev), height, trust, Block(h, prev, 0, 200, 80, [], height, true))
  }

  const SMALL_TREE: Tree := map[100 := GENESIS, 1 := EmptyNode(1, 100, 1, 1), 2 := EmptyNode(2, 100, 1, 2)]

  lemma SmallTree(names: Naming)
    ensures WellFormed(SMALL_TREE, 100) && Safe(Snapshot(SMALL_TREE, 1, {}), 100, names)
    ensures Path(SMALL_TREE, 100, 1) == [100, 1] && Path(SMALL_TREE, 100, 2) == [100, 2]
    ensures Path(SMALL_TREE, 100, 100) == [100]
  {
    var tree := SMALL_TREE;
    assert WellFormed(tree, 100);
    assert Path(tree, 100, 100) == [100];
    assert Path(tree, 100, 1) == Path(tree, 100, 100) + [1];
    assert Path(tree, 100, 2) == Path(tree, 100, 100) + [2];
    assert Replay(tree, 100, 100) == Some(map[]);
    assert Apply(map[], SMALL_TREE[1].block) == Some(map[]);
    assert Replay(tree, 100, 1) == Some(map[]);
  }

  lemma SmallFork(names: Naming)
    ensures
      WellFormed(SMALL_TREE, 100) && Intermediate(SMALL_TREE, 100, 2, 1) == 2 && Fork(SMALL_TREE, 100, 1, 2) == 100
    ensures Left(SMALL_TREE, 100, 1, 100) == {100}
  {
    SmallTree(names);
    hide Replay, Path, Safe;
    assert Intermediate(SMALL_TREE, 100, 2, 1) == 2;
    assert ForkOf(SMALL_TREE, 100, 1, 2) == ForkOf(SMALL_TREE, 100, 100, 2);
    assert ForkOf(SMALL_TREE, 100, 100, 2) == ForkOf(SMALL_TREE, 100, 100, 100);
  }

  /**
   Two blocks on genesis. Asked for the one with more trust, the node refuses it and has lost the link from genesis on
   disk; asked again, it refuses again and loses nothing more.
   */
  lemma RefusedSwitchUnlinks(names: Naming, src: Source)
    ensures Safe(Snapshot(SMALL_TREE, 1, {}), 100, names)
    ensures
      var s, ctx := Snapshot(SMALL_TREE, 1, {}), Context(Refusing(), src, 1);
      var once := Switch(s, 100, ctx, 2);
      once == Snapshot(SMALL_TREE, 1, {100}) && Switch(once, 100, ctx, 2) == once
  {
    SmallTree(names);
    SmallFork(names);
    var tree, ctx := SMALL_TREE, Context(Refusing(), src, 1);
    ForkAncestors(tree, 100, 1, 2);
    assert !Connects(tree, 100, ctx, 2);
    assert Above(tree, 100, 100, 2, 2);
    assert !Accepts(tree, 100, ctx, 1, 2);
    assert {} + {100} == {100};
  }
}
