/** What the block tree records of the blocks offered in a run: chain trust adds up, and the heaviest branch is tried. */
module ChainTrust {
  import opened Basics
  import opened Ledger
  import opened BlockTree
  import opened TxIds
  import opened ChainSpec

  /** The arrivals that entered the tree during a run, by the hash of their block. */
  ghost function Entered(s: Snapshot, g: Hash, names: Naming, events: seq<Event>): map<Hash, Arrival>
    requires Safe(s, g, names)
  {
    if events == [] then map[]
    else
      var front, e := events[..|events| - 1], events[|events| - 1];
      var before := Entered(s, g, names, front);
      if e.Offer? && Admissible(Run(s, g, names, front), g, names, e.arrival) then
        before[e.arrival.block.hash := e.arrival]
      else before
  }

  /** Trust of the genesis block and block trusts of the blocks above it on a path. */
  function Sum(start: int, entered: map<Hash, Arrival>, p: seq<Hash>): int {
    if |p| <= 1 then start
    else
      var h := p[|p| - 1];
      Sum(start, entered, p[..|p| - 1]) + if h in entered then entered[h].blockTrust else 0
  }

  /** Every block above genesis is one that was offered, filed under its hash, on its parent. */
  ghost predicate Filed(tree: Tree, g: Hash, entered: map<Hash, Arrival>) {
    && tree.Keys == entered.Keys + {g} && g !in entered
    && forall h :: h in entered ==>
         tree[h].block == entered[h].block && entered[h].block.hash == h && tree[h].prev == Some(entered[h].block.prev)
  }

  /** Chain trust is the sum of the block trusts along the path. */
  ghost predicate AddsUp(tree: Tree, g: Hash, entered: map<Hash, Arrival>)
    requires WellFormed(tree, g)
  {
    forall h :: h in tree ==> tree[h].trust == Sum(tree[g].trust, entered, Path(tree, g, h))
  }

  lemma {:induction false} SumKept(start: int, entered: map<Hash, Arrival>, x: Hash, a: Arrival, p: seq<Hash>)
    requires x !in p
    ensures Sum(start, entered[x := a], p) == Sum(start, entered, p)
    decreases |p|
  {
    if |p| > 1 {
      SumKept(start, entered, x, a, p[..|p| - 1]);
    }
  }

  lemma GrownFiled(tree: Tree, g: Hash, entered: map<Hash, Arrival>, a: Arrival)
    requires WellFormed(tree, g) && Filed(tree, g, entered) && a.block.hash !in tree && a.block.prev in tree
    ensures WellFormed(Grown(tree, a), g) && Filed(Grown(tree, a), g, entered[a.block.hash := a])
  {
  }

  lemma OldTrust(tree: Tree, g: Hash, entered: map<Hash, Arrival>, a: Arrival, h: Hash)
    requires WellFormed(tree, g) && AddsUp(tree, g, entered) && a.block.hash !in tree && a.block.prev in tree
    requires WellFormed(Grown(tree, a), g) && h in tree
    ensures
      var t := Grown(tree, a);
      t[h].trust == Sum(t[g].trust, entered[a.block.hash := a], Path(t, g, h))
  {
    hide Path, Sum, WellFormed;
    PathExtend(tree, g, h, a.block.hash, NodeFor(tree, a));
    PathInside(tree, g, h, a.block.hash);
    SumKept(tree[g].trust, entered, a.block.hash, a, Path(tree, g, h));
    assert g in tree by {
      GenesisKnown(tree, g);
    }
  }

  lemma GenesisKnown(tree: Tree, g: Hash)
    requires WellFormed(tree, g)
    ensures g in tree
  {
  }

  lemma NewTrust(tree: Tree, g: Hash, more: map<Hash, Arrival>, a: Arrival)
    requires WellFormed(tree, g) && a.block.hash in tree && a.block.hash != g
    requires tree[a.block.hash] == Node(Some(a.block.prev), tree[a.block.hash].height, tree[a.block.hash].trust, a.block)
    requires a.block.prev in tree && tree[a.block.hash].trust == tree[a.block.prev].trust + a.blockTrust
    requires tree[a.block.prev].trust == Sum(tree[g].trust, more, Path(tree, g, a.block.prev))
    requires a.block.hash in more && more[a.block.hash] == a
    ensures tree[a.block.hash].trust == Sum(tree[g].trust, more, Path(tree, g, a.block.hash))
  {
    var p := Path(tree, g, a.block.hash);
    assert p[..|p| - 1] == Path(tree, g, a.block.prev);
  }

  /** One block more. */
  lemma GrownAddsUp(tree: Tree, g: Hash, entered: map<Hash, Arrival>, a: Arrival)
    requires WellFormed(tree, g) && Filed(tree, g, entered) && AddsUp(tree, g, entered)
    requires a.block.hash !in tree && a.block.prev in tree
    ensures WellFormed(Grown(tree, a), g) && Filed(Grown(tree, a), g, entered[a.block.hash := a])
    ensures AddsUp(Grown(tree, a), g, entered[a.block.hash := a])
  {
    hide Path, Sum, Filed;
    GrownFiled(tree, g, entered, a);
    var x, t, more := a.block.hash, Grown(tree, a), entered[a.block.hash := a];
    forall h | h in t ensures t[h].trust == Sum(t[g].trust, more, Path(t, g, h)) {
      if h != x {
        OldTrust(tree, g, entered, a, h);
      } else {
        OldTrust(tree, g, entered, a, a.block.prev);
        NewTrust(t, g, more, a);
      }
    }
  }

  lemma PathInside(tree: Tree, g: Hash, h: Hash, x: Hash)
    requires WellFormed(tree, g) && h in tree && x !in tree
    ensures x !in Path(tree, g, h)
  {
  }

  lemma AfterTree(s: Snapshot, g: Hash, names: Naming, e: Event)
    requires Safe(s, g, names)
    ensures After(s, g, names, e).tree ==
              if e.Offer? && Admissible(s, g, names, e.arrival) then Grown(s.tree, e.arrival) else s.tree
  {
    hide NewBest, MissingAfter, Safe, Checked, Ancestor, Grown;
  }

  /**
   In every state of a run from genesis, the tree holds exactly the admissible blocks offered, each on its parent, and the
   chain trust of a block is the sum of the block trusts offered along its path.
   */
  lemma {:induction false} RunAddsUp(s: Snapshot, g: Hash, names: Naming, events: seq<Event>)
    requires Safe(s, g, names) && s.tree.Keys == {g}
    ensures
      var r, entered := Run(s, g, names, events), Entered(s, g, names, events);
      && Filed(r.tree, g, entered) && AddsUp(r.tree, g, entered) && r.tree[g] == s.tree[g]
  {
    hide After, Filed, AddsUp, Admissible, Grown, Replay, AllChecked;
    if events == [] {
      GenesisAddsUp(s.tree, g);
    } else {
      var front, e := events[..|events| - 1], events[|events| - 1];
      RunAddsUp(s, g, names, front);
      var r := Run(s, g, names, front);
      AfterTree(r, g, names, e);
      if e.Offer? && Admissible(r, g, names, e.arrival) {
        AdmissibleParts(r, g, names, e.arrival);
        GrownAddsUp(r.tree, g, Entered(s, g, names, front), e.arrival);
      }
    }
  }

  lemma AdmissibleParts(s: Snapshot, g: Hash, names: Naming, a: Arrival)
    requires WellFormed(s.tree, g) && Admissible(s, g, names, a)
    ensures a.block.hash !in s.tree && a.block.prev in s.tree && Grown(s.tree, a)[g] == s.tree[g]
  {
  }

  lemma GenesisAddsUp(tree: Tree, g: Hash)
    requires WellFormed(tree, g) && tree.Keys == {g}
    ensures Filed(tree, g, map[]) && AddsUp(tree, g, map[])
  {
  }

  /**
   When an offered block changes the best one: its branch then has more trust than the best block, and every block above
   the fork up to the intermediate one connects.
   */
  lemma OfferMovesIff(s: Snapshot, g: Hash, names: Naming, a: Arrival)
    requires Safe(s, g, names) && Admissible(s, g, names, a)
    ensures WellFormed(Grown(s.tree, a), g)
    ensures
      var tree, h, best := Grown(s.tree, a), a.block.hash, s.best;
      var ctx := Context(a.rules, a.src, s.tree[best].height);
      var s' := After(s, g, names, Offer(a));
      && s'.tree == tree
      && (s'.best != best <==>
          && s.tree[a.block.prev].trust + a.blockTrust > s.tree[best].trust
          && AllConnect(tree, g, ctx, Fork(tree, g, best, h), Intermediate(tree, g, h, s.tree[best].trust)))
  {
    hide Replay, AllChecked, Checked, Path, NewBest, MissingAfter, AllConnect, Fork, Intermediate;
    GrowTree(s, g, names, a);
    var tree, h, best := Grown(s.tree, a), a.block.hash, s.best;
    var ctx := Context(a.rules, a.src, s.tree[best].height);
    NewIsOff(s.tree, g, best, a);
    NewBestMoves(tree, g, ctx, best, h);
    AcceptsIff(tree, g, ctx, best, h);
  }

  lemma NewIsOff(tree: Tree, g: Hash, best: Hash, a: Arrival)
    requires WellFormed(tree, g) && best in tree && a.block.hash !in tree && a.block.prev in tree
    requires WellFormed(Grown(tree, a), g)
    ensures !Ancestor(Grown(tree, a), g, a.block.hash, best)
  {
    PathExtend(tree, g, best, a.block.hash, NodeFor(tree, a));
    PathInside(tree, g, best, a.block.hash);
  }

  /** A block on the best one becomes the best block exactly when it adds trust and connects. */
  lemma OfferOnBest(s: Snapshot, g: Hash, names: Naming, a: Arrival)
    requires Safe(s, g, names) && Admissible(s, g, names, a) && a.block.prev == s.best
    ensures WellFormed(Grown(s.tree, a), g)
    ensures
      var ctx := Context(a.rules, a.src, s.tree[s.best].height);
      After(s, g, names, Offer(a)).best ==
        if a.blockTrust > 0 && Connects(Grown(s.tree, a), g, ctx, a.block.hash) then a.block.hash else s.best
  {
    hide Replay, AllChecked, Checked, Path, MissingAfter, Connects;
    GrowTree(s, g, names, a);
  }
}
