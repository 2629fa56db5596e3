/**
 The chain state as the node keeps it: the in-memory links, the best block and the
 database with its pending batch, changed step by step by `Reorganize`,
 `SetBestChainInner`, `SetBestChain` and `AddToBlockIndex`.
 */
module ChainState {
  import opened Basics
  import opened Ledger
  import BlockConnect
  import opened BlockTree
  import opened ChainSpec
  import opened TxIds

  /** The loops that fill `vDisconnect`, `vConnect` and the queue of reconnects: walk `pprev` down to `bottom`. */
  method CollectBranch(tree: Tree, ghost g: Hash, top: Hash, bottom: Hash) returns (v: seq<Hash>)
    requires WellFormed(tree, g) && top in tree && bottom in tree && Ancestor(tree, g, bottom, top)
    ensures Descends(tree, g, v, top, bottom)
  {
    v := [];
    var h := top;
    while h != bottom
      invariant h in tree && Ancestor(tree, g, bottom, h)
      invariant Descends(tree, g, v, top, h)
      decreases tree[h].height
    {
      AncestorStep(tree, g, bottom, h) by {
        AncestorIff(tree, g, bottom, h);
      }
      v := v + [h];
      h := tree[h].prev.value;
    }
  }

  /** The same upwards: the child of `bottom` first, `top` last. */
  ghost predicate Ascends(tree: Tree, g: Hash, v: seq<Hash>, bottom: Hash, top: Hash)
    requires WellFormed(tree, g)
  {
    && (forall i :: 0 <= i < |v| ==> v[i] in tree && v[i] != g)
    && (forall i :: 0 < i < |v| ==> tree[v[i]].prev.value == v[i - 1])
    && (if v == [] then top == bottom else tree[v[0]].prev.value == bottom && v[|v| - 1] == top)
  }

  lemma ReverseAscends(tree: Tree, g: Hash, v: seq<Hash>, top: Hash, bottom: Hash)
    requires WellFormed(tree, g) && Descends(tree, g, v, top, bottom)
    ensures Ascends(tree, g, Reverse(v), bottom, top)
  {
    hide Reverse;
    var r := Reverse(v);
    forall i | 0 <= i < |v| ensures r[i] == v[|v| - 1 - i] {
      ReverseAt(v, i);
    }
    forall i | 0 < i < |r| ensures tree[r[i]].prev.value == r[i - 1] {
      assert r[i] == v[|v| - 1 - i] && r[i - 1] == v[|v| - i];
    }
  }

  /** Block `i` of a list, or what lies just outside it. */
  ghost function Below(v: seq<Hash>, i: int, bottom: Hash): Hash {
    if 0 < i <= |v| then v[i - 1] else bottom
  }

  lemma AscendsUpTo(tree: Tree, g: Hash, v: seq<Hash>, bottom: Hash, top: Hash, i: nat)
    requires WellFormed(tree, g) && bottom in tree && Ascends(tree, g, v, bottom, top) && i <= |v|
    ensures Below(v, i, bottom) in tree && Ancestor(tree, g, bottom, Below(v, i, bottom))
    ensures top in tree && Ancestor(tree, g, Below(v, i, bottom), top)
    ensures i < |v| ==> tree[v[i]].prev.value == Below(v, i, bottom)
  {
    AscendsFrom(tree, g, v, bottom, i);
    AscendsTo(tree, g, v, bottom, top, i);
  }

  lemma {:induction false} AscendsFrom(tree: Tree, g: Hash, v: seq<Hash>, bottom: Hash, i: nat)
    requires WellFormed(tree, g) && bottom in tree && i <= |v|
    requires forall k :: 0 <= k < |v| ==> v[k] in tree && v[k] != g && tree[v[k]].prev.value == Below(v, k, bottom)
    ensures Ancestor(tree, g, bottom, Below(v, i, bottom))
  {
    Self(tree, g, bottom);
    if i > 0 {
      AscendsFrom(tree, g, v, bottom, i - 1);
      AncestorStep(tree, g, bottom, v[i - 1]);
    }
  }

  lemma {:induction false} AscendsTo(tree: Tree, g: Hash, v: seq<Hash>, bottom: Hash, top: Hash, i: nat)
    requires WellFormed(tree, g) && bottom in tree && top in tree && i <= |v|
    requires forall k :: 0 <= k < |v| ==> v[k] in tree && v[k] != g && tree[v[k]].prev.value == Below(v, k, bottom)
    requires top == Below(v, |v|, bottom)
    ensures Ancestor(tree, g, Below(v, i, bottom), top)
    decreases |v| - i
  {
    if i == |v| {
      Self(tree, g, top);
    } else {
      AscendsTo(tree, g, v, bottom, top, i + 1);
      ParentIsAncestor(tree, g, v[i], top);
    }
  }

  lemma ConnectsReplay(tree: Tree, g: Hash, ctx: Context, h: Hash)
    requires WellFormed(tree, g) && h in tree && h != g && Replay(tree, g, tree[h].prev.value).Some?
    ensures
      var c := BlockConnect.Connect(ctx.rules, ctx.src, Replay(tree, g, tree[h].prev.value).value,
                                    tree[h].block, ctx.bestHeight, 0);
      && (c.Some? <==> Connects(tree, g, ctx, h))
      && (c.Some? ==> Replay(tree, g, h) == Some(c.value.index))
  {
    if Connects(tree, g, ctx, h) {
      BlockConnect.ConnectApplies(ctx.rules, ctx.src, Replay(tree, g, tree[h].prev.value).value, tree[h].block,
                                  ctx.bestHeight, 0);
    }
  }

  lemma ReachNext(tree: Tree, g: Hash, ctx: Context, from: Hash, h: Hash, to: Hash)
    requires WellFormed(tree, g) && from in tree && h in tree && h != g && to in tree && Ancestor(tree, g, from, to)
    requires Ancestor(tree, g, from, tree[h].prev.value) && Ancestor(tree, g, h, to)
    requires Reach(tree, g, ctx, from, tree[h].prev.value) == tree[h].prev.value
    requires Replay(tree, g, tree[h].prev.value).Some?
    ensures Ancestor(tree, g, from, h)
    ensures
      var c := BlockConnect.Connect(ctx.rules, ctx.src, Replay(tree, g, tree[h].prev.value).value,
                                    tree[h].block, ctx.bestHeight, 0);
      if c.Some? then Reach(tree, g, ctx, from, h) == h && Replay(tree, g, h) == Some(c.value.index)
      else Reach(tree, g, ctx, from, to) == tree[h].prev.value && tree[h].prev.value != to
  {
    var prev := tree[h].prev.value;
    AncestorStep(tree, g, from, h);
    AncestorIff(tree, g, from, prev);
    AncestorIff(tree, g, h, to);
    ConnectsReplay(tree, g, ctx, h);
    if !Connects(tree, g, ctx, h) {
      ReachStuck(tree, g, ctx, from, h, to);
    }
  }

  lemma LeftStep(tree: Tree, g: Hash, top: Hash, bottom: Hash)
    requires WellFormed(tree, g) && top in tree && bottom in tree && top != g
    requires Ancestor(tree, g, bottom, tree[top].prev.value)
    ensures Left(tree, g, top, bottom) == {tree[top].prev.value} + Left(tree, g, tree[top].prev.value, bottom)
  {
    var prev := tree[top].prev.value;
    Self(tree, g, prev);
    AncestorStep(tree, g, prev, top);
    forall h | h in tree ensures h in Left(tree, g, top, bottom) <==> h == prev || h in Left(tree, g, prev, bottom) {
      AncestorStep(tree, g, h, top);
      AncestorIff(tree, g, h, prev);
    }
  }

  lemma {:induction false} DescendsParents(tree: Tree, g: Hash, v: seq<Hash>, top: Hash, bottom: Hash)
    requires WellFormed(tree, g) && top in tree && bottom in tree && Descends(tree, g, v, top, bottom)
    ensures Parents(tree, v) == Left(tree, g, top, bottom)
    decreases |v|
  {
    hide Path;
    if v == [] {
      forall h | h in tree && Ancestor(tree, g, bottom, h) && Ancestor(tree, g, h, top) ensures h == top {
        AncestorIff(tree, g, bottom, h);
        AncestorIff(tree, g, h, top);
      }
    } else {
      var prev, rest := tree[top].prev.value, v[1..];
      assert Descends(tree, g, rest, prev, bottom);
      DescendsParents(tree, g, rest, prev, bottom);
      Bottomed(tree, g, rest, prev, bottom);
      LeftStep(tree, g, top, bottom);
      assert v == [top] + rest;
      assert Parents(tree, v) == {prev} + Parents(tree, rest);
    }
  }

  lemma {:induction false} Bottomed(tree: Tree, g: Hash, v: seq<Hash>, top: Hash, bottom: Hash)
    requires WellFormed(tree, g) && top in tree && bottom in tree && Descends(tree, g, v, top, bottom)
    ensures Ancestor(tree, g, bottom, top)
    decreases |v|
  {
    Self(tree, g, top);
    if v != [] {
      Bottomed(tree, g, v[1..], tree[top].prev.value, bottom);
      AncestorStep(tree, g, bottom, top);
    }
  }

  lemma LinkedFromParent(tree: Tree, g: Hash, pnext: map<Hash, Hash>, lookup: map<int, Hash>, h: Hash)
    requires WellFormed(tree, g) && h in tree && LinksOk(tree, g, pnext, lookup, h)
    ensures h != g ==> tree[h].prev.value in pnext && pnext[tree[h].prev.value] == h
  {
    if h != g {
      assert Path(tree, g, h)[tree[h].height - 1] == tree[h].prev.value;
    }
  }

  lemma NextOnPath(tree: Tree, g: Hash, pnext: map<Hash, Hash>, lookup: map<int, Hash>, best: Hash, k: nat)
    requires WellFormed(tree, g) && best in tree && LinksOk(tree, g, pnext, lookup, best) && k <= tree[best].height
    ensures Path(tree, g, best)[k] in pnext <==> k < tree[best].height
    ensures k < tree[best].height ==> pnext[Path(tree, g, best)[k]] == Path(tree, g, best)[k + 1]
  {
    PathDistinct(tree, g, best);
  }

  /** The queue of reconnects: blocks whose parent already beats the old best wait until after the switch. */
  method CollectQueue(tree: Tree, g: Hash, tip: Hash, trust: int) returns (mid: Hash, v: seq<Hash>)
    requires WellFormed(tree, g) && tip in tree
    ensures mid == Intermediate(tree, g, tip, trust) && Descends(tree, g, v, tip, mid)
  {
    v, mid := [], tip;
    while mid != g && tree[tree[mid].prev.value].trust > trust
      invariant mid in tree && Descends(tree, g, v, tip, mid)
      invariant Intermediate(tree, g, mid, trust) == Intermediate(tree, g, tip, trust)
      decreases tree[mid].height
    {
      v := v + [mid];
      mid := tree[mid].prev.value;
    }
  }

  ghost function Parents(tree: Tree, v: seq<Hash>): set<Hash>
    requires forall h :: h in v ==> h in tree && tree[h].prev.Some?
  {
    set h | h in v :: tree[h].prev.value
  }

  lemma NoParents(tree: Tree, v: seq<Hash>, m: map<Hash, Hash>)
    requires forall h :: h in v ==> h in tree && tree[h].prev.Some?
    ensures m - Parents(tree, v[..0]) == m && m + Nexts(tree, v[..0]) == m
  {
    assert Parents(tree, v[..0]) == {};
  }

  lemma ParentsStep(tree: Tree, v: seq<Hash>, i: nat)
    requires i < |v| && forall h :: h in v ==> h in tree && tree[h].prev.Some?
    ensures Parents(tree, v[..i + 1]) == Parents(tree, v[..i]) + {tree[v[i]].prev.value}
  {
    assert v[..i + 1] == v[..i] + [v[i]];
    var last := v[i];
    assert last in v;
    var prev := tree[last].prev.value;
    forall x | x in Parents(tree, v[..i]) + {prev} ensures x in Parents(tree, v[..i + 1]) {
      if x == prev {
        assert last in v[..i + 1];
      } else {
        var h :| h in v[..i] && tree[h].prev.value == x;
        assert h in v[..i + 1];
      }
    }
  }

  /** The links from the parents of the listed blocks to them. */
  ghost function Nexts(tree: Tree, v: seq<Hash>): map<Hash, Hash>
    requires forall h :: h in v ==> h in tree && tree[h].prev.Some?
  {
    if v == [] then map[]
    else
      var h := v[|v| - 1];
      assert h in v;
      Nexts(tree, v[..|v| - 1])[tree[h].prev.value := h]
  }

  lemma NextsStep(tree: Tree, v: seq<Hash>, i: nat)
    requires i < |v| && forall h :: h in v ==> h in tree && tree[h].prev.Some?
    ensures Nexts(tree, v[..i + 1]) == Nexts(tree, v[..i])[tree[v[i]].prev.value := v[i]]
  {
    assert v[..i + 1][..i] == v[..i];
  }

  lemma {:induction false} NextsKeys(tree: Tree, v: seq<Hash>)
    requires forall h :: h in v ==> h in tree && tree[h].prev.Some?
    ensures Nexts(tree, v).Keys == Parents(tree, v)
    decreases |v|
  {
    if v != [] {
      var n := |v| - 1;
      NextsKeys(tree, v[..n]);
      ParentsStep(tree, v, n);
      assert v[..n + 1] == v;
    }
  }

  lemma AddEntry(m: map<Hash, Hash>, n: map<Hash, Hash>, k: Hash, x: Hash)
    ensures (m + n)[k := x] == m + n[k := x]
  {
  }

  lemma CutMore(m: map<Hash, Hash>, a: set<Hash>, k: Hash)
    ensures m - a - {k} == m - (a + {k})
  {
  }

  // ------------------------------------------------ links in memory and on disk

  /** Every link on disk is one in memory. */
  ghost predicate Mirrors(disk: map<Hash, Hash>, next: map<Hash, Hash>) {
    forall h :: h in disk ==> h in next && next[h] == disk[h]
  }

  /** Leaving one branch for another changes memory and disk alike. */
  lemma MirrorSwitch(disk: map<Hash, Hash>, next: map<Hash, Hash>, left: set<Hash>, taken: map<Hash, Hash>)
    requires Mirrors(disk, next) && taken.Keys !! next.Keys - left
    ensures Mirrors((disk - left) + taken, (next - left) + taken)
    ensures ((next - left) + taken).Keys - ((disk - left) + taken).Keys == (next.Keys - disk.Keys) - left
  {
    forall h ensures h in ((next - left) + taken).Keys - ((disk - left) + taken).Keys <==>
                     h in (next.Keys - disk.Keys) - left {
    }
  }

  /** Clearing links on disk alone. */
  lemma MirrorCut(disk: map<Hash, Hash>, next: map<Hash, Hash>, left: set<Hash>)
    requires Mirrors(disk, next) && left <= next.Keys
    ensures Mirrors(disk - left, next)
    ensures next.Keys - (disk - left).Keys == (next.Keys - disk.Keys) + left
    ensures disk - left == disk <==> left !! disk.Keys
  {
    if disk - left == disk {
      forall h | h in left ensures h !in disk {
        assert h !in (disk - left).Keys;
      }
    }
    if left !! disk.Keys {
      assert disk - left == disk;
    }
  }

  lemma {:induction false} LinkedKeys(tree: Tree, g: Hash, pnext: map<Hash, Hash>, lookup: map<int, Hash>, best: Hash, h: Hash)
    requires WellFormed(tree, g) && best in tree && LinksOk(tree, g, pnext, lookup, best)
    ensures h in pnext <==> Ancestor(tree, g, h, best) && h != best
  {
    MainChainIsAncestry(tree, g, pnext, lookup, best, h);
    NextOnPath(tree, g, pnext, lookup, best, tree[best].height);
  }

  lemma LeftIsLinked(tree: Tree, g: Hash, pnext: map<Hash, Hash>, lookup: map<int, Hash>, best: Hash, fork: Hash)
    requires WellFormed(tree, g) && best in tree && fork in tree && LinksOk(tree, g, pnext, lookup, best)
    ensures Left(tree, g, best, fork) <= pnext.Keys
  {
    hide LinksOk, Path;
    forall h | h in Left(tree, g, best, fork) ensures h in pnext {
      LinkedKeys(tree, g, pnext, lookup, best, h);
    }
  }

  /** The new branch shares no link with what stays of the old one. */
  lemma BranchesApart(tree: Tree, g: Hash, pnext: map<Hash, Hash>, lookup: map<int, Hash>, best: Hash, mid: Hash, fork: Hash)
    requires WellFormed(tree, g) && best in tree && mid in tree && LinksOk(tree, g, pnext, lookup, best)
    requires IsFork(tree, g, best, mid, fork)
    ensures Left(tree, g, mid, fork) !! pnext.Keys - Left(tree, g, best, fork)
  {
    hide LinksOk, Path;
    forall h | h in Left(tree, g, mid, fork) && h in pnext ensures h in Left(tree, g, best, fork) {
      LinkedKeys(tree, g, pnext, lookup, best, h);
    }
  }

  lemma SameEntries(disk: map<Hash, Hash>, next: map<Hash, Hash>)
    requires Mirrors(disk, next) && next.Keys - disk.Keys == {}
    ensures disk == next
  {
    forall h | h in next ensures h in disk {
      assert h in disk || h in next.Keys - disk.Keys;
    }
    assert forall h :: h in disk <==> h in next;
    assert forall h :: h in disk ==> disk[h] == next[h];
  }

  /**
   After a restart the links are read back from disk. They describe the active branch exactly when no
   `hashNext` is missing there.
   */
  lemma RestartRestoresLinks(tree: Tree, g: Hash, pnext: map<Hash, Hash>, disk: map<Hash, Hash>, lookup: map<int, Hash>, best: Hash)
    requires WellFormed(tree, g) && best in tree && LinksOk(tree, g, pnext, lookup, best) && Mirrors(disk, pnext)
    ensures LinksOk(tree, g, disk, lookup, best) <==> pnext.Keys - disk.Keys == {}
    ensures pnext.Keys - disk.Keys == {} <==> disk == pnext
  {
    hide Path, LinksOk;
    if LinksOk(tree, g, disk, lookup, best) {
      forall h ensures h in pnext <==> h in disk {
        LinkedKeys(tree, g, pnext, lookup, best, h);
        LinkedKeys(tree, g, disk, lookup, best, h);
      }
    }
    if pnext.Keys - disk.Keys == {} {
      SameEntries(disk, pnext);
    }
  }

  /** What `Reorganize` needs to know of the list of blocks to connect. */
  lemma NewLinks(
    tree: Tree, g: Hash, pnext: map<Hash, Hash>, lookup: map<int, Hash>, best: Hash, mid: Hash, fork: Hash, v: seq<Hash>)
    requires WellFormed(tree, g) && best in tree && mid in tree && LinksOk(tree, g, pnext, lookup, best)
    requires IsFork(tree, g, best, mid, fork) && Descends(tree, g, v, mid, fork)
    ensures Ascends(tree, g, Reverse(v), fork, mid) && Ancestor(tree, g, fork, mid)
    ensures forall h :: h in Reverse(v) ==> h in tree && tree[h].prev.Some?
    ensures Nexts(tree, Reverse(v)).Keys !! pnext.Keys - Left(tree, g, best, fork)
  {
    hide LinksOk, Path, Left, Nexts, Parents, Reverse;
    ReverseAscends(tree, g, v, mid, fork);
    DescendsParents(tree, g, v, mid, fork);
    BranchesApart(tree, g, pnext, lookup, best, mid, fork);
    NextsKeys(tree, Reverse(v));
    ReverseParents(tree, v);
  }

  lemma ReverseParents(tree: Tree, v: seq<Hash>)
    requires forall h :: h in v ==> h in tree && tree[h].prev.Some?
    ensures forall h :: h in Reverse(v) <==> h in v
    ensures Parents(tree, Reverse(v)) == Parents(tree, v)
  {
    hide Reverse;
    var r := Reverse(v);
    forall h ensures h in r <==> h in v {
      forall i | 0 <= i < |v| ensures r[i] in v && v[i] in r {
        ReverseAt(v, i);
        ReverseAt(v, |v| - 1 - i);
      }
    }
  }

  lemma OnPath(tree: Tree, g: Hash, best: Hash, h: Hash)
    requires WellFormed(tree, g) && best in tree && Ancestor(tree, g, h, best)
    ensures h in tree && tree[h].height <= tree[best].height && Path(tree, g, best)[tree[h].height] == h
    ensures |Path(tree, g, best)| == tree[best].height + 1
    ensures Path(tree, g, best)[tree[h].height..tree[h].height + 1] == [h]
  {
    AncestorKnown(tree, g, h, best);
    AncestorIff(tree, g, h, best);
  }

  lemma SliceMore(p: seq<Hash>, a: nat, k: nat)
    requires a <= k + 1 < |p|
    ensures p[a..k + 1] + [p[k + 1]] == p[a..k + 2]
  {
  }

  /** A link set in memory and on disk at once. */
  lemma MirrorGrows(disk: map<Hash, Hash>, next: map<Hash, Hash>, prev: Hash, h: Hash)
    requires Mirrors(disk, next) && prev !in next
    ensures Mirrors(disk + map[prev := h], next[prev := h])
    ensures next[prev := h].Keys - (disk + map[prev := h]).Keys == next.Keys - disk.Keys
  {
    forall x ensures x in next[prev := h].Keys - (disk + map[prev := h]).Keys <==> x in next.Keys - disk.Keys {
    }
  }

  /** A block nothing builds on is off every other branch. */
  lemma {:induction false} NewBlockIsOff(tree: Tree, g: Hash, best: Hash, h: Hash)
    requires WellFormed(tree, g) && best in tree && h in tree && h != best
    requires forall x :: x in tree ==> tree[x].prev != Some(h)
    ensures !Ancestor(tree, g, h, best)
    decreases tree[best].height
  {
    if best != g {
      AncestorStep(tree, g, h, best);
      NewBlockIsOff(tree, g, tree[best].prev.value, h);
    }
  }

  class Chain {
    const genesis: Hash
    ghost const names: Naming
    var tree: Tree
    var best: Hash
    var pnext: map<Hash, Hash>
    var lookup: map<int, Hash>
    /** The transaction index on disk, and the pending batch that reads go through. */
    var index: Index
    var batch: Option<Index>
    /** `hashNext` of the block records on disk, and the batch's writes to it. */
    var diskNext: map<Hash, Hash>
    var batchNext: map<Hash, Hash>

    /** The links and the committed index stand for the branch ending in `tip`. */
    ghost predicate At(tip: Hash)
      reads this
    {
      && WellFormed(tree, genesis) && AllChecked(tree, genesis, names) && tip in tree
      && LinksOk(tree, genesis, pnext, lookup, tip)
      && Replay(tree, genesis, tip) == Some(index)
      && Mirrors(diskNext, pnext)
    }

    ghost predicate Valid()
      reads this
    {
      best in tree && At(best) && batch.None?
    }

    /** The blocks whose `hashNext` a restart would not find. */
    ghost function Missing(): set<Hash>
      reads this
    {
      pnext.Keys - diskNext.Keys
    }

    ghost function Snap(): Snapshot
      reads this
    {
      Snapshot(tree, best, Missing())
    }

    /** A node that has just stored the genesis block. */
    constructor (g: Block, trust: int, ghost naming: Naming)
      ensures Valid() && genesis == g.hash && names == naming && best == g.hash && index == map[] && Missing() == {}
      ensures tree == map[g.hash := Node(None, 0, trust, g)]
    {
      genesis := g.hash;
      names := naming;
      tree := map[g.hash := Node(None, 0, trust, g)];
      best := g.hash;
      pnext, lookup := map[], map[0 := g.hash];
      index, batch := map[], None;
      diskNext, batchNext := map[], map[];
    }

    /** `IsInMainChain`. */
    predicate InMainChain(h: Hash)
      reads this
    {
      h in pnext || h == best
    }

    method TxnBegin()
      requires batch.None?
      modifies this`batch, this`batchNext
      ensures batch == Some(index) && batchNext == map[]
    {
      batch, batchNext := Some(index), map[];
    }

    method TxnAbort()
      modifies this`batch, this`batchNext
      ensures batch.None? && batchNext == map[]
    {
      batch, batchNext := None, map[];
    }

    method TxnCommit()
      requires batch.Some?
      modifies this`batch, this`batchNext, this`index, this`diskNext
      ensures index == old(batch).value && batch.None?
      ensures diskNext == old(diskNext + batchNext)
    {
      index, diskNext := batch.value, diskNext + batchNext;
      batch, batchNext := None, map[];
    }

    /** Disconnect within the batch. The parent's `hashNext` is cleared on disk at once, outside the batch. */
    method DisconnectBlock(h: Hash) returns (ok: bool)
      requires batch.Some? && h in tree && tree[h].prev.Some?
      modifies this`batch, this`diskNext
      ensures ok <==> Undo(old(batch).value, tree[h].block).Some?
      ensures ok ==> batch == Undo(old(batch).value, tree[h].block) && diskNext == old(diskNext) - {tree[h].prev.value}
      ensures !ok ==> batch == old(batch) && diskNext == old(diskNext)
    {
      var r := Ledger.DisconnectBlock(batch.value, tree[h].block);
      ok := r.Some?;
      if ok {
        batch, diskNext := r, diskNext - {tree[h].prev.value};
      }
    }

    /** Connect within the batch; a refused block leaves the batch as it was. */
    method ConnectBlock(ctx: Context, h: Hash) returns (ok: bool)
      requires batch.Some? && h in tree && tree[h].prev.Some?
      modifies this`batch, this`batchNext
      ensures
        var c := BlockConnect.Connect(ctx.rules, ctx.src, old(batch).value, tree[h].block, ctx.bestHeight, 0);
        && (ok <==> c.Some?)
        && (ok ==> batch == Some(c.value.index) && batchNext == old(batchNext)[tree[h].prev.value := h])
        && (!ok ==> batch == old(batch) && batchNext == old(batchNext))
    {
      var r := BlockConnect.ConnectBlock(ctx.rules, ctx.src, batch.value, tree[h].block, ctx.bestHeight, 0);
      ok := r.Some?;
      if ok {
        batch, batchNext := Some(r.value.index), batchNext[tree[h].prev.value := h];
      }
    }

    /** Disconnect the shorter branch from the top down; on a replayed branch this cannot fail. */
    method DisconnectBranch(v: seq<Hash>, ghost top: Hash, ghost bottom: Hash)
      requires WellFormed(tree, genesis) && AllChecked(tree, genesis, names) && top in tree && bottom in tree
      requires Descends(tree, genesis, v, top, bottom)
      requires batch.Some? && Replay(tree, genesis, top) == batch
      modifies this`batch, this`diskNext
      ensures batch.Some? && batch == Replay(tree, genesis, bottom)
      ensures diskNext == old(diskNext) - Parents(tree, v)
    {
      hide Replay, Undo, AllChecked, Parents;
      var i := 0;
      ghost var cur := top;
      assert old(diskNext) - Parents(tree, v[..0]) == old(diskNext) by {
        NoParents(tree, v, old(diskNext));
      }
      while i < |v|
        invariant 0 <= i <= |v| && cur in tree
        invariant cur == if i < |v| then v[i] else bottom
        invariant batch.Some? && Replay(tree, genesis, cur) == batch
        invariant diskNext == old(diskNext) - Parents(tree, v[..i])
      {
        UndoTop(tree, genesis, names, v[i]);
        var done := DisconnectBlock(v[i]);
        assert done;
        ParentsStep(tree, v, i);
        CutMore(old(diskNext), Parents(tree, v[..i]), tree[v[i]].prev.value);
        cur := tree[v[i]].prev.value;
        i := i + 1;
      }
      assert v[..i] == v;
    }

    /** Connect the longer branch from the bottom up, within the batch. */
    method ConnectBranch(ctx: Context, v: seq<Hash>, ghost bottom: Hash, ghost top: Hash) returns (ok: bool)
      requires WellFormed(tree, genesis) && bottom in tree && top in tree && Ancestor(tree, genesis, bottom, top)
      requires Ascends(tree, genesis, v, bottom, top)
      requires batch.Some? && Replay(tree, genesis, bottom) == batch
      modifies this`batch, this`batchNext
      ensures ok <==> Reach(tree, genesis, ctx, bottom, top) == top
      ensures ok ==> batch.Some? && batch == Replay(tree, genesis, top) && batchNext == old(batchNext) + Nexts(tree, v)
    {
      AscendsUpTo(tree, genesis, v, bottom, top, 0);
      hide Nexts, Path, Replay, BlockConnect.Connect;
      var i := 0;
      NoParents(tree, v, batchNext);
      while i < |v|
        invariant 0 <= i <= |v| && Below(v, i, bottom) in tree
        invariant batchNext == old(batchNext) + Nexts(tree, v[..i])
        invariant Ancestor(tree, genesis, bottom, Below(v, i, bottom))
        invariant Reach(tree, genesis, ctx, bottom, Below(v, i, bottom)) == Below(v, i, bottom)
        invariant batch.Some? && Replay(tree, genesis, Below(v, i, bottom)) == batch
      {
        AscendsUpTo(tree, genesis, v, bottom, top, i);
        AscendsUpTo(tree, genesis, v, bottom, top, i + 1);
        ReachNext(tree, genesis, ctx, bottom, v[i], top);
        var done := ConnectBlock(ctx, v[i]);
        if !done {
          return false;
        }
        NextsStep(tree, v, i);
        AddEntry(old(batchNext), Nexts(tree, v[..i]), tree[v[i]].prev.value, v[i]);
        i := i + 1;
      }
      assert v[..i] == v;
      return true;
    }

    /** Clear the in-memory links of the branch that was left. */
    method UnlinkBranch(v: seq<Hash>, ghost top: Hash, ghost bottom: Hash)
      requires WellFormed(tree, genesis) && top in tree && bottom in tree
      requires Descends(tree, genesis, v, top, bottom)
      requires LinksOk(tree, genesis, pnext, lookup, top)
      modifies this`pnext, this`lookup
      ensures LinksOk(tree, genesis, pnext, lookup, bottom) && pnext == old(pnext) - Parents(tree, v)
    {
      hide Parents, LinksOk;
      var i := 0;
      NoParents(tree, v, pnext);
      while i < |v|
        invariant 0 <= i <= |v| && pnext == old(pnext) - Parents(tree, v[..i])
        invariant LinksOk(tree, genesis, pnext, lookup, if i < |v| then v[i] else bottom)
      {
        Unlink(tree, genesis, pnext, lookup, v[i]);
        ParentsStep(tree, v, i);
        CutMore(old(pnext), Parents(tree, v[..i]), tree[v[i]].prev.value);
        pnext, lookup := pnext - {tree[v[i]].prev.value}, lookup - {tree[v[i]].height};
        i := i + 1;
      }
      assert v[..i] == v;
    }

    /** Set the in-memory links of the branch that was taken. */
    method LinkBranch(v: seq<Hash>, ghost bottom: Hash, ghost top: Hash)
      requires WellFormed(tree, genesis) && bottom in tree && top in tree
      requires Ascends(tree, genesis, v, bottom, top)
      requires LinksOk(tree, genesis, pnext, lookup, bottom)
      modifies this`pnext, this`lookup
      ensures LinksOk(tree, genesis, pnext, lookup, top) && pnext == old(pnext) + Nexts(tree, v)
    {
      hide Nexts, LinksOk;
      var i := 0;
      NoParents(tree, v, pnext);
      while i < |v|
        invariant 0 <= i <= |v| && Below(v, i, bottom) in tree && pnext == old(pnext) + Nexts(tree, v[..i])
        invariant LinksOk(tree, genesis, pnext, lookup, Below(v, i, bottom))
      {
        Link(tree, genesis, pnext, lookup, v[i]);
        NextsStep(tree, v, i);
        AddEntry(old(pnext), Nexts(tree, v[..i]), tree[v[i]].prev.value, v[i]);
        pnext, lookup := pnext[tree[v[i]].prev.value := v[i]], lookup[tree[v[i]].height := v[i]];
        i := i + 1;
      }
      assert v[..i] == v;
    }

    /** The database side of a reorganization, within the batch. */
    method SwitchIndex(ctx: Context, disconnect: seq<Hash>, connect: seq<Hash>, ghost fork: Hash, ghost mid: Hash)
      returns (ok: bool)
      requires WellFormed(tree, genesis) && AllChecked(tree, genesis, names) && best in tree && fork in tree && mid in tree
      requires Descends(tree, genesis, disconnect, best, fork) && Ascends(tree, genesis, connect, fork, mid)
      requires Ancestor(tree, genesis, fork, mid)
      requires batch.Some? && Replay(tree, genesis, best) == batch && batchNext == map[]
      modifies this`batch, this`batchNext, this`diskNext
      ensures ok <==> AllConnect(tree, genesis, ctx, fork, mid)
      ensures ok ==> batch.Some? && batch == Replay(tree, genesis, mid) && batchNext == Nexts(tree, connect)
      ensures diskNext == old(diskNext) - Parents(tree, disconnect)
    {
      hide Replay, AllChecked, Reach, AllConnect, Path, Nexts, Parents;
      ReachIff(tree, genesis, ctx, fork, mid);
      DisconnectBranch(disconnect, best, fork);
      ok := ConnectBranch(ctx, connect, fork, mid);
      assert map[] + Nexts(tree, connect) == Nexts(tree, connect);
    }

    /** The memory side: clear the old links from the top down, then set the new ones from the bottom up. */
    method SwitchLinks(disconnect: seq<Hash>, connect: seq<Hash>, fork: Hash, ghost mid: Hash)
      requires WellFormed(tree, genesis) && best in tree && fork in tree && mid in tree
      requires Descends(tree, genesis, disconnect, best, fork) && Ascends(tree, genesis, connect, fork, mid)
      requires LinksOk(tree, genesis, pnext, lookup, best)
      modifies this`pnext, this`lookup
      ensures LinksOk(tree, genesis, pnext, lookup, mid)
      ensures pnext == (old(pnext) - Parents(tree, disconnect)) + Nexts(tree, connect)
    {
      hide LinksOk, Nexts, Parents;
      UnlinkBranch(disconnect, best, fork);
      LinkedFromParent(tree, genesis, pnext, lookup, fork);
      // the check that the fork block is itself properly connected cannot fail
      assert fork != genesis ==> pnext[tree[fork].prev.value] == fork;
      LinkBranch(connect, fork, mid);
    }

    /**
     Switch from the best branch to the one ending in `mid`. A refusal leaves the links and the committed
     index alone, but the `hashNext` fields cleared while disconnecting stay cleared: the disk is as it was
     exactly when none of them was set.
     */
    method Reorganize(ctx: Context, mid: Hash) returns (ok: bool)
      requires best in tree && At(best) && batch == Some(index) && batchNext == map[] && mid in tree
      modifies this`batch, this`batchNext, this`index, this`diskNext, this`pnext, this`lookup
      ensures IsFork(tree, genesis, best, mid, ForkOf(tree, genesis, best, mid))
      ensures ok <==> AllConnect(tree, genesis, ctx, ForkOf(tree, genesis, best, mid), mid)
      ensures ok ==> At(mid) && batch.None?
      ensures ok ==> Missing() == old(Missing()) - Left(tree, genesis, best, ForkOf(tree, genesis, best, mid))
      ensures !ok ==> At(best) && index == old(index) && pnext == old(pnext) && lookup == old(lookup)
      ensures !ok ==> Missing() == old(Missing()) + Left(tree, genesis, best, ForkOf(tree, genesis, best, mid))
      ensures !ok ==> (diskNext == old(diskNext) <==>
                       Left(tree, genesis, best, ForkOf(tree, genesis, best, mid)) !! old(diskNext).Keys)
    {
      hide Replay, AllChecked, LinksOk, AllConnect, Path, Left, Parents, Nexts, Descends, Ascends, Mirrors;
      var fork := FindFork(tree, genesis, best, mid);
      hide IsFork, ForkOf, Ancestor;
      var disconnect := CollectBranch(tree, genesis, best, fork);
      var connect := CollectBranch(tree, genesis, mid, fork);
      DescendsParents(tree, genesis, disconnect, best, fork);
      ghost var left := Left(tree, genesis, best, fork);
      LeftIsLinked(tree, genesis, pnext, lookup, best, fork);
      NewLinks(tree, genesis, pnext, lookup, best, mid, fork, connect);
      connect := Reverse(connect);
      ghost var disk, next := diskNext, pnext;
      ok := SwitchIndex(ctx, disconnect, connect, fork, mid);
      if ok {
        TxnCommit();
        SwitchLinks(disconnect, connect, fork, mid);
        MirrorSwitch(disk, next, left, Nexts(tree, connect));
      } else {
        MirrorCut(disk, next, left);
      }
    }

    /** Attach one block on top of the branch the links describe. */
    method SetBestChainInner(ctx: Context, h: Hash) returns (ok: bool)
      requires h in tree && h != genesis && WellFormed(tree, genesis)
      requires At(tree[h].prev.value) && batch == Some(index) && batchNext == map[]
      modifies this`batch, this`batchNext, this`index, this`diskNext, this`pnext, this`lookup
      ensures ok <==> Connects(tree, genesis, ctx, h)
      ensures ok ==> At(h) && batch.None?
      ensures !ok ==> At(tree[h].prev.value) && batch.None?
      ensures !ok ==> index == old(index) && pnext == old(pnext) && lookup == old(lookup) && diskNext == old(diskNext)
      ensures Missing() == old(Missing())
    {
      hide Replay, AllChecked, LinksOk, Connects, BlockConnect.Connect, Path, Mirrors;
      ghost var prev := tree[h].prev.value;
      ConnectsReplay(tree, genesis, ctx, h);
      ok := ConnectBlock(ctx, h);
      if !ok {
        TxnAbort();
        return;
      }
      ghost var disk, next := diskNext, pnext;
      TxnCommit();
      // the check that the parent is itself properly connected cannot fail
      LinkedFromParent(tree, genesis, pnext, lookup, prev);
      Link(tree, genesis, pnext, lookup, h);
      NextOnPath(tree, genesis, pnext, lookup, prev, tree[prev].height) by {
        PathEnd(tree, genesis, prev);
      }
      PathEnd(tree, genesis, prev);
      MirrorGrows(disk, next, prev, h);
      pnext, lookup := pnext[tree[h].prev.value := h], lookup[tree[h].height := h];
    }

    /**
     Between the two stages the registry catches up: from the block of its snapshot, follow `pnext` to the block the
     queue is connected on. It is found, and every block on the way replayed, exactly when the snapshot lies on that
     branch; otherwise the source gives up here.
     */
    method CatchUp(at: Hash, mid: Hash) returns (found: bool, replayed: seq<Hash>)
      requires WellFormed(tree, genesis) && mid in tree && at in tree && LinksOk(tree, genesis, pnext, lookup, mid)
      ensures found <==> Ancestor(tree, genesis, at, mid)
      ensures found ==> tree[at].height <= tree[mid].height &&
                        replayed == Path(tree, genesis, mid)[tree[at].height + 1..]
    {
      hide Path, LinksOk, WellFormed;
      ghost var p := Path(tree, genesis, mid);
      LinkedKeys(tree, genesis, pnext, lookup, mid, at);
      Self(tree, genesis, mid);
      PathEnd(tree, genesis, mid);
      ghost var on := Ancestor(tree, genesis, at, mid);
      if on {
        OnPath(tree, genesis, mid, at);
      }
      ghost var from := tree[at].height;
      ghost var k := from;
      var cur := at;
      replayed := [];
      while cur != mid
        invariant on ==> from <= k < |p| && cur == p[k] && replayed == p[from + 1..k + 1]
        invariant !on ==> cur == at
        decreases |p| - k
      {
        if on {
          NextOnPath(tree, genesis, pnext, lookup, mid, k);
        }
        if cur !in pnext {
          return false, replayed;
        }
        SliceMore(p, from + 1, k);
        cur, k := pnext[cur], k + 1;
        replayed := replayed + [cur];
      }
      found := true;
    }

    /** Connect the queued blocks from lowest to highest; the first refusal ends on its parent. */
    method Climb(ctx: Context, v: seq<Hash>, mid: Hash, ghost tip: Hash) returns (top: Hash)
      requires WellFormed(tree, genesis) && mid in tree && tip in tree && Ancestor(tree, genesis, mid, tip)
      requires Ascends(tree, genesis, v, mid, tip) && At(mid) && batch.None?
      modifies this`batch, this`batchNext, this`index, this`diskNext, this`pnext, this`lookup
      ensures top == Reach(tree, genesis, ctx, mid, tip) && At(top) && batch.None? && Missing() == old(Missing())
      ensures HighestConnecting(tree, genesis, ctx, mid, tip, top)
    {
      hide Replay, LinksOk, AllChecked, Path, Mirrors, HighestConnecting;
      ReachHighest(tree, genesis, ctx, mid, tip);
      Self(tree, genesis, mid);
      top := mid;
      var i := 0;
      while i < |v|
        invariant 0 <= i <= |v| && top == Below(v, i, mid)
        invariant At(top) && batch.None? && Missing() == old(Missing())
        invariant Ancestor(tree, genesis, mid, top) && Reach(tree, genesis, ctx, mid, top) == top
      {
        AscendsUpTo(tree, genesis, v, mid, tip, i);
        AscendsUpTo(tree, genesis, v, mid, tip, i + 1);
        ReachNext(tree, genesis, ctx, mid, v[i], tip);
        TxnBegin();
        var done := SetBestChainInner(ctx, v[i]);
        if !done {
          return;
        }
        top := v[i];
        i := i + 1;
      }
    }

    /** The reorganizing branch of `SetBestChain`, for any block of the tree; `top` is the block it ends on. */
    method SwitchBranch(ctx: Context, tip: Hash) returns (ok: bool, top: Hash)
      requires best in tree && At(best) && batch == Some(index) && batchNext == map[]
      requires tip in tree && !Extends(tree, genesis, best, tip)
      modifies this`batch, this`batchNext, this`index, this`diskNext, this`pnext, this`lookup
      ensures top == NewBest(tree, genesis, ctx, best, tip) && At(top) && batch.None?
      ensures ok <==> Accepts(tree, genesis, ctx, best, tip)
      ensures !ok ==> index == old(index) && pnext == old(pnext) && lookup == old(lookup)
      ensures Missing() == MissingAfter(tree, genesis, ctx, best, tip, old(Missing()))
    {
      hide Replay, AllChecked, LinksOk, Path, IsFork, WellFormed, Mirrors, Left, AllConnect;
      var mid, queue := CollectQueue(tree, genesis, tip, tree[best].trust);
      ForkAncestors(tree, genesis, best, tip);
      top := best;
      ok := Reorganize(ctx, mid);
      if !ok {
        TxnAbort();
        return;
      }
      ReverseAscends(tree, genesis, queue, tip, mid);
      hide Ancestor, Reach, Descends, Ascends;
      top := Climb(ctx, Reverse(queue), mid, tip);
    }

    /** Make `tip`, or the highest block towards it that connects, the best block; its trust is not looked at. */
    method SetBestChain(ctx: Context, tip: Hash) returns (ok: bool)
      requires Valid() && tip in tree
      modifies this`batch, this`batchNext, this`index, this`diskNext, this`pnext, this`lookup, this`best
      ensures Valid()
      ensures Snap() == Switch(old(Snap()), genesis, ctx, tip)
      ensures ok <==> Accepts(tree, genesis, ctx, old(best), tip)
      ensures !ok ==> index == old(index) && pnext == old(pnext) && lookup == old(lookup)
    {
      hide Replay, AllChecked, LinksOk, Path, Mirrors, Connects, Left, Fork, Intermediate, Reach, AllConnect;
      TxnBegin();
      var top := tip;
      if Extends(tree, genesis, best, tip) {
        ok := SetBestChainInner(ctx, tip);
      } else {
        ok, top := SwitchBranch(ctx, tip);
      }
      if ok {
        best := top;
      }
    }

    /** The links and the index describe a state that runs may start from. */
    lemma ValidSafe()
      requires Valid()
      ensures Safe(Snap(), genesis, names)
    {
      hide Replay, AllChecked, LinksOk, Path;
      forall h | h in Missing() ensures Ancestor(tree, genesis, h, best) && h != best {
        LinkedKeys(tree, genesis, pnext, lookup, best, h);
      }
    }

    /** Index a new block and, when it carries more trust than the best, switch to it. */
    method AddToBlockIndex(a: Arrival) returns (ok: bool)
      requires Valid() && a.block.prev in tree
      requires a.block.hash !in tree ==> Checked(names, a.block, tree[a.block.prev].height + 1)
      modifies this
      ensures Valid()
      ensures old(Safe(Snap(), genesis, names)) && Snap() == After(old(Snap()), genesis, names, Offer(a))
      ensures a.block.hash in old(tree) ==> !ok
      ensures best == old(best) ==> index == old(index) && pnext == old(pnext) && lookup == old(lookup)
    {
      ValidSafe();
      if a.block.hash in tree {
        return false;
      }
      hide Replay, AllChecked, LinksOk, Checked, NewBest, MissingAfter, Mirrors, Accepts, Path;
      ghost var s := Snap();
      GrowTree(s, genesis, names, a);
      var node := NodeFor(tree, a);
      LinksExtend(tree, genesis, pnext, lookup, best, a.block.hash, node);
      var ctx := Context(a.rules, a.src, tree[best].height);
      ghost var before := best;
      tree := tree[a.block.hash := node];
      ok := true;
      if node.trust > tree[best].trust {
        NewBlockIsOff(tree, genesis, best, a.block.hash);
        NewBestMoves(tree, genesis, ctx, best, a.block.hash);
        ok := SetBestChain(ctx, a.block.hash);
      }
    }

    /** A checkpoint asks for a block: switch to it when it is not on the active branch. */
    method ForceBest(rules: BlockConnect.Rules, src: BlockConnect.Source, tip: Hash) returns (ok: bool)
      requires Valid() && tip in tree
      modifies this`batch, this`batchNext, this`index, this`diskNext, this`pnext, this`lookup, this`best
      ensures Valid()
      ensures old(Safe(Snap(), genesis, names)) && Snap() == After(old(Snap()), genesis, names, Force(tip, rules, src))
      ensures ok <==> Ancestor(tree, genesis, tip, old(best)) || best != old(best)
      ensures best == old(best) ==> index == old(index) && pnext == old(pnext) && lookup == old(lookup)
    {
      hide Replay, AllChecked, LinksOk, NewBest, MissingAfter, Mirrors, Accepts, Path;
      ValidSafe();
      MainChainIsAncestry(tree, genesis, pnext, lookup, best, tip);
      ok := true;
      if !InMainChain(tip) {
        var ctx := Context(rules, src, tree[best].height);
        NewBestMoves(tree, genesis, ctx, best, tip);
        ok := SetBestChain(ctx, tip);
      }
    }

    /** Following `pnext` from any block of the active branch visits the rest of that branch and ends at the best block. */
    method WalkForward(start: Hash) returns (visited: seq<Hash>)
      requires Valid() && InMainChain(start)
      ensures start in tree && tree[start].height <= tree[best].height
      ensures visited == Path(tree, genesis, best)[tree[start].height..]
    {
      hide Path, LinksOk, Replay, AllChecked, Mirrors, WellFormed;
      ghost var p := Path(tree, genesis, best);
      MainChainIsAncestry(tree, genesis, pnext, lookup, best, start);
      OnPath(tree, genesis, best, start);
      visited := [start];
      var h := start;
      ghost var from := tree[start].height;
      ghost var k := from;
      while h in pnext
        invariant from <= k < |p| && h == p[k]
        invariant visited == p[from..k + 1]
        decreases |p| - k
      {
        NextOnPath(tree, genesis, pnext, lookup, best, k);
        SliceMore(p, from, k);
        h, k := pnext[h], k + 1;
        visited := visited + [h];
      }
      NextOnPath(tree, genesis, pnext, lookup, best, k);
    }
  }
}
