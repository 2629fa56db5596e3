/** The block tree: paths from genesis, ancestry, and the point where two branches part. */
module BlockTree {
  import opened Basics
  import opened Ledger

  /** `CBlockMemIndex` with the disk fields the chain code reads; blocks are named by hash. */
  datatype Node = Node(prev: Option<Hash>, height: nat, trust: int, block: Block)

  type Tree = map<Hash, Node>

  ghost predicate WellFormed(tree: Tree, g: Hash) {
    && g in tree && tree[g].prev.None? && tree[g].height == 0
    && forall h :: h in tree && h != g ==>
         && tree[h].prev.Some? && tree[h].prev.value in tree
         && tree[h].height == tree[tree[h].prev.value].height + 1
  }

  /** The ancestors of `h` and `h` itself, from genesis up: position is height. */
  ghost function Path(tree: Tree, g: Hash, h: Hash): (p: seq<Hash>)
    requires WellFormed(tree, g) && h in tree
    ensures |p| == tree[h].height + 1 && p[0] == g && p[|p| - 1] == h
    ensures forall i :: 0 <= i < |p| ==> p[i] in tree && tree[p[i]].height == i
    decreases tree[h].height
  {
    if h == g then [g] else Path(tree, g, tree[h].prev.value) + [h]
  }

  ghost predicate Ancestor(tree: Tree, g: Hash, a: Hash, h: Hash)
    requires WellFormed(tree, g) && h in tree
  {
    a in Path(tree, g, h)
  }

  /** A path is a prefix of the path of every descendant. */
  lemma {:induction false} PathPrefix(tree: Tree, g: Hash, h: Hash, i: nat)
    requires WellFormed(tree, g) && h in tree && i <= tree[h].height
    ensures Path(tree, g, h)[..i + 1] == Path(tree, g, Path(tree, g, h)[i])
    decreases tree[h].height
  {
    if i < tree[h].height {
      PathPrefix(tree, g, tree[h].prev.value, i);
    }
  }

  /** `h` is the block at height `n` of the branch ending in `end`. */
  ghost predicate StandsAt(tree: Tree, g: Hash, end: Hash, n: int, h: Hash)
    requires WellFormed(tree, g) && end in tree
  {
    0 <= n <= tree[end].height && h == Path(tree, g, end)[n]
  }

  /** Following `pprev` along a branch; the parent exists above genesis. */
  lemma StandsBelow(tree: Tree, g: Hash, end: Hash, n: int, h: Hash)
    requires WellFormed(tree, g) && end in tree && StandsAt(tree, g, end, n, h)
    ensures h in tree && tree[h].height == n
    ensures n > 0 ==> tree[h].prev.Some? && StandsAt(tree, g, end, n - 1, tree[h].prev.value)
  {
    if n > 0 {
      PathPrefix(tree, g, end, n);
      assert Path(tree, g, end)[..n + 1][n - 1] == Path(tree, g, h)[n - 1];
    }
  }

  lemma StandsOnTop(tree: Tree, g: Hash, end: Hash)
    requires WellFormed(tree, g) && end in tree
    ensures StandsAt(tree, g, end, tree[end].height, end)
  {
  }

  lemma AncestorIff(tree: Tree, g: Hash, a: Hash, h: Hash)
    requires WellFormed(tree, g) && h in tree && a in tree
    ensures Ancestor(tree, g, a, h) <==> tree[a].height <= tree[h].height && Path(tree, g, h)[tree[a].height] == a
    ensures Ancestor(tree, g, a, h) ==> Path(tree, g, h)[..tree[a].height + 1] == Path(tree, g, a)
    ensures Ancestor(tree, g, a, h) && a != h ==> tree[a].height < tree[h].height
  {
    if Ancestor(tree, g, a, h) {
      PathPrefix(tree, g, h, tree[a].height);
    }
  }

  lemma AncestorStep(tree: Tree, g: Hash, a: Hash, h: Hash)
    requires WellFormed(tree, g) && h in tree && h != g
    ensures Ancestor(tree, g, a, h) <==> a == h || Ancestor(tree, g, a, tree[h].prev.value)
  {
  }

  lemma ParentIsAncestor(tree: Tree, g: Hash, a: Hash, h: Hash)
    requires WellFormed(tree, g) && h in tree && a in tree && a != g && Ancestor(tree, g, a, h)
    ensures Ancestor(tree, g, tree[a].prev.value, h)
  {
    AncestorIff(tree, g, a, h);
    assert Path(tree, g, a)[tree[a].height - 1] == tree[a].prev.value;
  }

  lemma AncestorTransitive(tree: Tree, g: Hash, a: Hash, b: Hash, c: Hash)
    requires WellFormed(tree, g) && c in tree && b in tree && a in tree
    requires Ancestor(tree, g, a, b) && Ancestor(tree, g, b, c)
    ensures Ancestor(tree, g, a, c)
  {
    AncestorIff(tree, g, b, c);
  }

  /** New blocks leave the paths of the old ones alone. */
  lemma {:induction false} PathExtend(tree: Tree, g: Hash, h: Hash, x: Hash, node: Node)
    requires WellFormed(tree, g) && h in tree && x !in tree && WellFormed(tree[x := node], g)
    ensures Path(tree[x := node], g, h) == Path(tree, g, h)
    decreases tree[h].height
  {
    if h != g {
      PathExtend(tree, g, tree[h].prev.value, x, node);
    }
  }

  // ---------------------------------------------------------- the fork point

  /** The lowest common ancestor: common to both branches, and above every other common block. */
  ghost predicate IsFork(tree: Tree, g: Hash, a: Hash, b: Hash, f: Hash)
    requires WellFormed(tree, g) && a in tree && b in tree
  {
    && f in tree && Ancestor(tree, g, f, a) && Ancestor(tree, g, f, b)
    && forall x :: Ancestor(tree, g, x, a) && Ancestor(tree, g, x, b) ==> tree[x].height <= tree[f].height
  }

  ghost function ForkOf(tree: Tree, g: Hash, a: Hash, b: Hash): (f: Hash)
    requires WellFormed(tree, g) && a in tree && b in tree
    ensures f in tree
    decreases tree[a].height + tree[b].height
  {
    if a == b then a
    else if tree[a].height >= tree[b].height && a != g then ForkOf(tree, g, tree[a].prev.value, b)
    else ForkOf(tree, g, a, tree[b].prev.value)
  }

  lemma {:induction false} ForkOfIsFork(tree: Tree, g: Hash, a: Hash, b: Hash)
    requires WellFormed(tree, g) && a in tree && b in tree
    ensures IsFork(tree, g, a, b, ForkOf(tree, g, a, b))
    decreases tree[a].height + tree[b].height
  {
    if a != b {
      if tree[a].height >= tree[b].height && a != g {
        ForkOfIsFork(tree, g, tree[a].prev.value, b);
      } else {
        ForkOfIsFork(tree, g, a, tree[b].prev.value);
      }
    }
  }

  lemma ForkUnique(tree: Tree, g: Hash, a: Hash, b: Hash, f: Hash, f': Hash)
    requires WellFormed(tree, g) && a in tree && b in tree
    requires IsFork(tree, g, a, b, f) && IsFork(tree, g, a, b, f')
    ensures f == f'
  {
    AncestorIff(tree, g, f, a);
    AncestorIff(tree, g, f', a);
  }

  /** Below a common ancestor the two branches are the same. */
  lemma SharedBelow(tree: Tree, g: Hash, a: Hash, b: Hash, f: Hash, x: Hash)
    requires WellFormed(tree, g) && a in tree && b in tree && f in tree && x in tree
    requires Ancestor(tree, g, f, a) && Ancestor(tree, g, f, b)
    requires Ancestor(tree, g, x, a) && tree[x].height <= tree[f].height
    ensures Ancestor(tree, g, x, f) && Ancestor(tree, g, x, b)
  {
    hide Path;
    AncestorIff(tree, g, f, a);
    AncestorIff(tree, g, x, a);
    AncestorIff(tree, g, x, f);
    AncestorTransitive(tree, g, x, f, b);
  }

  /** Every common ancestor of `a` and `b` is one of `c` and `d`. */
  ghost predicate KeepsCommon(tree: Tree, g: Hash, a: Hash, b: Hash, c: Hash, d: Hash)
    requires WellFormed(tree, g) && a in tree && b in tree && c in tree && d in tree
  {
    forall x :: Ancestor(tree, g, x, a) && Ancestor(tree, g, x, b) ==> Ancestor(tree, g, x, c) && Ancestor(tree, g, x, d)
  }

  lemma StepDown(tree: Tree, g: Hash, a: Hash, b: Hash, c: Hash, d: Hash)
    requires WellFormed(tree, g) && a in tree && b in tree && c in tree && d in tree
    requires KeepsCommon(tree, g, a, b, c, d) && c != d && tree[c].height >= tree[d].height
    ensures c != g && KeepsCommon(tree, g, a, b, tree[c].prev.value, d)
  {
    forall x | Ancestor(tree, g, x, a) && Ancestor(tree, g, x, b) ensures Ancestor(tree, g, x, tree[c].prev.value) {
      if x == c {
        AncestorIff(tree, g, x, d);
      }
      AncestorStep(tree, g, x, c);
    }
  }

  lemma StepDownOther(tree: Tree, g: Hash, a: Hash, b: Hash, c: Hash, d: Hash)
    requires WellFormed(tree, g) && a in tree && b in tree && c in tree && d in tree
    requires KeepsCommon(tree, g, a, b, c, d) && tree[d].height > tree[c].height
    ensures d != g && KeepsCommon(tree, g, a, b, c, tree[d].prev.value)
  {
    forall x | Ancestor(tree, g, x, a) && Ancestor(tree, g, x, b) ensures Ancestor(tree, g, x, tree[d].prev.value) {
      AncestorIff(tree, g, x, c);
      AncestorStep(tree, g, x, d);
    }
  }

  lemma MeetIsFork(tree: Tree, g: Hash, a: Hash, b: Hash, f: Hash)
    requires WellFormed(tree, g) && a in tree && b in tree && f in tree
    requires Ancestor(tree, g, f, a) && Ancestor(tree, g, f, b) && KeepsCommon(tree, g, a, b, f, f)
    ensures IsFork(tree, g, a, b, f)
  {
    forall x | Ancestor(tree, g, x, a) && Ancestor(tree, g, x, b) ensures tree[x].height <= tree[f].height {
      AncestorIff(tree, g, x, f);
    }
  }

  lemma PathEnd(tree: Tree, g: Hash, h: Hash)
    requires WellFormed(tree, g) && h in tree
    ensures Path(tree, g, h)[tree[h].height] == h
  {
  }

  lemma Self(tree: Tree, g: Hash, h: Hash)
    requires WellFormed(tree, g) && h in tree
    ensures Ancestor(tree, g, h, h)
  {
    assert Path(tree, g, h)[tree[h].height] == h;
  }

  /** The walk down both branches of `Reorganize`; it never runs off genesis. */
  method FindFork(tree: Tree, ghost g: Hash, best: Hash, tip: Hash) returns (fork: Hash)
    requires WellFormed(tree, g) && best in tree && tip in tree
    ensures IsFork(tree, g, best, tip, fork) && fork == ForkOf(tree, g, best, tip)
  {
    hide Path;
    Self(tree, g, best);
    Self(tree, g, tip);
    fork := best;
    var longer := tip;
    assert KeepsCommon(tree, g, best, tip, fork, longer);
    hide Ancestor, KeepsCommon;
    while fork != longer
      invariant fork in tree && longer in tree
      invariant Ancestor(tree, g, fork, best) && Ancestor(tree, g, longer, tip)
      invariant KeepsCommon(tree, g, best, tip, fork, longer)
      decreases tree[fork].height, tree[longer].height
    {
      while tree[longer].height > tree[fork].height
        invariant longer in tree && Ancestor(tree, g, longer, tip)
        invariant KeepsCommon(tree, g, best, tip, fork, longer)
        decreases tree[longer].height
      {
        StepDownOther(tree, g, best, tip, fork, longer);
        ParentIsAncestor(tree, g, longer, tip);
        longer := tree[longer].prev.value;
      }
      if fork == longer {
        break;
      }
      StepDown(tree, g, best, tip, fork, longer);
      ParentIsAncestor(tree, g, fork, best);
      fork := tree[fork].prev.value;
    }
    MeetIsFork(tree, g, best, tip, fork);
    ForkOfIsFork(tree, g, best, tip);
    ForkUnique(tree, g, best, tip, fork, ForkOf(tree, g, best, tip));
  }

  /** `v` lists a branch downwards: `top` first, each followed by its parent, ending just above `bottom`. */
  ghost predicate Descends(tree: Tree, g: Hash, v: seq<Hash>, top: Hash, bottom: Hash)
    requires WellFormed(tree, g)
  {
    && (forall i :: 0 <= i < |v| ==> v[i] in tree && v[i] != g)
    && (forall i :: 0 <= i < |v| - 1 ==> tree[v[i]].prev.value == v[i + 1])
    && (if v == [] then top == bottom else v[0] == top && tree[v[|v| - 1]].prev.value == bottom)
  }

  /** An ancestor of the top that the list does not name is an ancestor of its bottom. */
  lemma {:induction false} NotPassed(tree: Tree, g: Hash, v: seq<Hash>, top: Hash, bottom: Hash, a: Hash)
    requires WellFormed(tree, g) && top in tree && bottom in tree && a in tree && Descends(tree, g, v, top, bottom)
    requires Ancestor(tree, g, a, top) && a !in v
    ensures Ancestor(tree, g, a, bottom)
    decreases |v|
  {
    if v != [] {
      AncestorStep(tree, g, a, top);
      NotPassed(tree, g, v[1..], tree[top].prev.value, bottom, a);
    }
  }
}
