/** `CBlockLocator`: a short list of block hashes with growing gaps, and finding the fork with it. */
module Locator {
  import opened Basics
  import opened BlockTree
  import ChainSpec

  /** One entry: the height, and whether it was reached through `mapBlockLookup`. */
  datatype Mark = Mark(height: int, jumped: bool)

  /** The heights listed, walking down from `h` when `count` entries are already there. */
  function Marks(h: int, step: nat, count: nat, jumped: bool): (r: seq<Mark>)
    requires step > 0
    ensures |r| > 0
    decreases h
  {
    if h - step < 1 then [Mark(h, jumped)]
    else [Mark(h, jumped)] + Marks(h - step, Grow(step, count), count + 1, jumped || step >= 21)
  }

  /** The gap after one more entry: doubled once there are more than ten. */
  function Grow(step: nat, count: nat): (s: nat)
    ensures step <= s <= 2 * step
  {
    if count + 1 > 10 then 2 * step else step
  }

  lemma {:induction false} MarksRange(h: int, step: nat, count: nat, jumped: bool, i: nat)
    requires step > 0 && h >= 1 && i < |Marks(h, step, count, jumped)|
    ensures 1 <= Marks(h, step, count, jumped)[i].height <= h
    decreases h
  {
    MarksStep(h, step, count, jumped);
    if i > 0 {
      MarksRange(h - step, Grow(step, count), count + 1, jumped || step >= 21, i - 1);
    }
  }

  /** The block an entry stands for: on the walker's own branch, or on the main chain after a jump. */
  ghost function BlockAt(own: seq<Hash>, main: seq<Hash>, m: Mark): Option<Hash> {
    if m.jumped then if 0 <= m.height < |main| then Some(main[m.height]) else None
    else if 0 <= m.height < |own| then Some(own[m.height]) else None
  }

  /** The locator of a block: `None` where the source throws for a height the lookup does not hold. */
  ghost predicate Locates(own: seq<Hash>, main: seq<Hash>, g: Hash, r: Option<seq<Hash>>)
    requires |own| > 0
  {
    var t := |own| - 1;
    if t == 0 then r == Some([g])
    else
      var ms := Marks(t, 1, 0, false);
      if r.None? then exists i :: 0 <= i < |ms| && BlockAt(own, main, ms[i]).None?
      else
        && |r.value| == |ms| + 1 && r.value[|ms|] == g
        && forall i :: 0 <= i < |ms| ==> BlockAt(own, main, ms[i]) == Some(r.value[i])
  }

  /** Follow `pprev` from the block at `height` of the branch ending in `end`. */
  method StepBack(tree: Tree, ghost g: Hash, ghost end: Hash, ghost height: nat, h: Hash, step: nat) returns (r: Hash)
    requires WellFormed(tree, g) && end in tree && height <= tree[end].height && step <= height
    requires h == Path(tree, g, end)[height]
    ensures r == Path(tree, g, end)[height - step]
  {
    r := h;
    assert StandsAt(tree, g, end, height, h);
    StandsBelow(tree, g, end, height, h);
    var i := 0;
    while i < step
      invariant 0 <= i <= step && r in tree && StandsAt(tree, g, end, height - i, r)
    {
      hide StandsAt, WellFormed;
      StandsBelow(tree, g, end, height - i, r);
      StandsBelow(tree, g, end, height - i - 1, tree[r].prev.value);
      r := tree[r].prev.value;
      i := i + 1;
    }
  }

  /** Half-way: `have` is listed, and the walk stands at `height`. */
  ghost predicate Walking(own: seq<Hash>, main: seq<Hash>, have: seq<Hash>, height: int, step: nat, jumped: bool) {
    && |own| > 1 && height >= 1 && step > 0
    && var ms := Marks(|own| - 1, 1, 0, false);
       && |have| <= |ms| && ms[|have|..] == Marks(height, step, |have|, jumped)
       && forall i :: 0 <= i < |have| ==> BlockAt(own, main, ms[i]) == Some(have[i])
  }

  lemma WalkOn(own: seq<Hash>, main: seq<Hash>, g: Hash, have: seq<Hash>, height: int, step: nat, jumped: bool, h: Hash)
    requires Walking(own, main, have, height, step, jumped) && BlockAt(own, main, Mark(height, jumped)) == Some(h)
    ensures height - step < 1 ==> Locates(own, main, g, Some(have + [h] + [g]))
    ensures height - step >= 1 ==>
              && Walking(own, main, have + [h], height - step, Grow(step, |have|), jumped || step >= 21)
              && (BlockAt(own, main, Mark(height - step, jumped || step >= 21)).None? ==> Locates(own, main, g, None))
  {
    var ms := Marks(|own| - 1, 1, 0, false);
    var rest := Marks(height, step, |have|, jumped);
    MarksStep(height, step, |have|, jumped);
    assert ms[|have|] == rest[0];
    assert ms[|have| + 1..] == rest[1..];
    if height - step >= 1 {
      MarksStep(height - step, Grow(step, |have|), |have| + 1, jumped || step >= 21);
      assert ms[|have| + 1] == rest[1..][0];
    }
  }

  /** `CBlockLocator::Set`. Small steps follow `pprev`, large ones go through `mapBlockLookup`. */
  method Set(tree: Tree, g: Hash, pnext: map<Hash, Hash>, lookup: map<int, Hash>, ghost best: Hash, tip: Hash)
    returns (r: Option<seq<Hash>>)
    requires WellFormed(tree, g) && tip in tree && best in tree && ChainSpec.LinksOk(tree, g, pnext, lookup, best)
    ensures Locates(Path(tree, g, tip), Path(tree, g, best), g, r)
  {
    if tree[tip].prev.None? {
      return Some([g]);
    }
    ghost var own, main := Path(tree, g, tip), Path(tree, g, best);
    var have: seq<Hash> := [];
    var h, height: int, step := tip, tree[tip].height, 1;
    ghost var jumped := false;
    assert Walking(own, main, have, height, step, jumped);
    assert BlockAt(own, main, Mark(height, jumped)) == Some(h);
    hide Walking, Marks, Locates, ChainSpec.LinksOk, Path, WellFormed, BlockAt;
    while true
      invariant 1 <= height && 0 < step && Walking(own, main, have, height, step, jumped)
      invariant BlockAt(own, main, Mark(height, jumped)) == Some(h)
      decreases height
    {
      WalkOn(own, main, g, have, height, step, jumped, h);
      have := have + [h];
      if height - step < 1 {
        break;
      }
      var next := Move(tree, g, pnext, lookup, best, tip, h, height, step, jumped);
      if next.None? {
        return None;
      }
      h, height, jumped := next.value, height - step, jumped || step >= 21;
      if |have| > 10 {
        step := step * 2;
      }
    }
    return Some(have + [g]);
  }

  /** One move down: follow `pprev` for small steps, look the height up for large ones. */
  method Move(tree: Tree, ghost g: Hash, ghost pnext: map<Hash, Hash>, lookup: map<int, Hash>, ghost best: Hash,
              ghost tip: Hash, h: Hash, height: int, step: nat, ghost jumped: bool) returns (r: Option<Hash>)
    requires WellFormed(tree, g) && tip in tree && best in tree && ChainSpec.LinksOk(tree, g, pnext, lookup, best)
    requires height - step >= 1 && BlockAt(Path(tree, g, tip), Path(tree, g, best), Mark(height, jumped)) == Some(h)
    ensures r == BlockAt(Path(tree, g, tip), Path(tree, g, best), Mark(height - step, jumped || step >= 21))
  {
    hide Path;
    if step < 21 {
      var back := StepBack(tree, g, if jumped then best else tip, height, h, step);
      return Some(back);
    }
    LookupAt(tree, g, pnext, lookup, best, height - step);
    if height - step !in lookup {
      return None;
    }
    return Some(lookup[height - step]);
  }

  lemma MarksStep(h: int, step: nat, count: nat, jumped: bool)
    requires h >= 1 && step > 0
    ensures
      var r := Marks(h, step, count, jumped);
      && r[0] == Mark(h, jumped)
      && (h - step < 1 ==> |r| == 1)
      && (h - step >= 1 ==>
            r[1..] == Marks(h - step, Grow(step, count), count + 1, jumped || step >= 21))
  {
  }

  lemma LookupAt(tree: Tree, g: Hash, pnext: map<Hash, Hash>, lookup: map<int, Hash>, best: Hash, i: int)
    requires WellFormed(tree, g) && best in tree && ChainSpec.LinksOk(tree, g, pnext, lookup, best)
    ensures i in lookup <==> 0 <= i < |Path(tree, g, best)|
    ensures i in lookup ==> lookup[i] == Path(tree, g, best)[i]
  {
  }

  /** On the main chain the jumps land where following `pprev` would: the locator lists the block's own ancestors. */
  lemma JumpsFollowParents(own: seq<Hash>, main: seq<Hash>, g: Hash, r: Option<seq<Hash>>)
    requires own != [] && own <= main && Locates(own, main, g, r)
    ensures r.Some?
    ensures |own| > 1 ==>
              var ms := Marks(|own| - 1, 1, 0, false);
              |r.value| == |ms| + 1 && forall i :: 0 <= i < |ms| ==> 1 <= ms[i].height < |own| && r.value[i] == own[ms[i].height]
  {
    if |own| > 1 {
      var ms := Marks(|own| - 1, 1, 0, false);
      forall i | 0 <= i < |ms| ensures 1 <= ms[i].height < |own| && BlockAt(own, main, ms[i]) == Some(own[ms[i].height]) {
        MarksRange(|own| - 1, 1, 0, false, i);
      }
    }
  }

  // ------------------------------------------------------------ where the jumps begin

  /** Where the walk stands: height, next step, entries listed, and whether it has jumped. */
  datatype Walk = Walk(h: int, step: nat, count: nat, jumped: bool)

  function Advance(w: Walk): Walk {
    Walk(w.h - w.step, Grow(w.step, w.count), w.count + 1, w.jumped || w.step >= 21)
  }

  function WalkAt(t: int, i: nat): Walk {
    if i == 0 then Walk(t, 1, 0, false) else Advance(WalkAt(t, i - 1))
  }

  lemma {:induction false} WalkFalls(t: int, i: nat, j: nat)
    requires i <= j
    ensures WalkAt(t, j).step >= 1 && WalkAt(t, j).h <= WalkAt(t, i).h
    ensures WalkAt(t, i).jumped ==> WalkAt(t, j).jumped
    decreases j
  {
    if j > 0 {
      WalkFalls(t, if i < j then i else j - 1, j - 1);
    }
  }

  /** Eleven single steps, then steps of 2, 4, 8, 16 and 32: the last of these is the first jump. */
  lemma FirstJump(t: int)
    ensures WalkAt(t, 15) == Walk(t - 41, 32, 15, false) && WalkAt(t, 16) == Walk(t - 73, 64, 16, true)
  {
    assert WalkAt(t, 1) == Walk(t - 1, 1, 1, false);
    assert WalkAt(t, 3) == Walk(t - 3, 1, 3, false);
    assert WalkAt(t, 4) == Walk(t - 4, 1, 4, false);
    assert WalkAt(t, 6) == Walk(t - 6, 1, 6, false);
    assert WalkAt(t, 8) == Walk(t - 8, 1, 8, false);
    assert WalkAt(t, 10) == Walk(t - 10, 1, 10, false);
    assert WalkAt(t, 12) == Walk(t - 13, 4, 12, false);
    assert WalkAt(t, 14) == Walk(t - 25, 16, 14, false);
  }

  lemma {:induction false} MarksFollow(t: int, i: nat)
    requires t >= 1
    ensures
      var ms, w := Marks(t, 1, 0, false), WalkAt(t, i);
      && (w.h >= 1 <==> i < |ms|)
      && (w.h >= 1 ==> w.step >= 1 && ms[i..] == Marks(w.h, w.step, w.count, w.jumped) && ms[i] == Mark(w.h, w.jumped))
  {
    hide Marks;
    var ms, w := Marks(t, 1, 0, false), WalkAt(t, i);
    WalkFalls(t, 0, i);
    if i == 0 {
      MarksStep(t, 1, 0, false);
      assert ms[0..] == ms;
    } else {
      MarksFollow(t, i - 1);
      var v := WalkAt(t, i - 1);
      if v.h >= 1 {
        MarksStep(v.h, v.step, v.count, v.jumped);
        assert ms[i - 1..][1..] == ms[i..];
        if w.h >= 1 {
          MarksStep(w.h, w.step, w.count, w.jumped);
        }
      } else {
        WalkFalls(t, i - 1, i);
      }
    }
  }

  /** An entry is reached by a jump exactly when it lies 73 or more below the start. */
  lemma JumpedIff(t: int, i: nat)
    requires t >= 1 && i < |Marks(t, 1, 0, false)|
    ensures
      var m := Marks(t, 1, 0, false)[i];
      && 1 <= m.height <= t && (m.jumped <==> m.height <= t - 73) && (m.jumped || m.height >= t - 41)
  {
    hide Marks;
    MarksFollow(t, i);
    FirstJump(t);
    WalkFalls(t, 0, i);
    if i <= 15 {
      WalkFalls(t, i, 15);
    } else {
      WalkFalls(t, 16, i);
    }
  }

  /** The two branches agree up to `f` and nowhere above. */
  predicate Agree(a: seq<Hash>, b: seq<Hash>, f: nat) {
    && f < |a| && f < |b|
    && (forall i :: 0 <= i <= f ==> a[i] == b[i])
    && (forall i :: f < i < |a| && i < |b| ==> a[i] != b[i])
  }

  /**
   A locator built at height `t` of any branch exists and lists that branch's own blocks exactly when the walk never
   jumps, or its first jump, 73 below the start, lands at or below the point where the branch leaves the main chain.
   */
  lemma OwnBranchIff(own: seq<Hash>, main: seq<Hash>, g: Hash, f: nat, r: Option<seq<Hash>>)
    requires |own| > 1 && Agree(own, main, f) && Locates(own, main, g, r)
    ensures
      var t, ms := |own| - 1, Marks(|own| - 1, 1, 0, false);
      && (forall i :: 0 <= i < |ms| ==> 1 <= ms[i].height < |own|)
      && ((r.Some? && |r.value| == |ms| + 1 && forall i :: 0 <= i < |ms| ==> r.value[i] == own[ms[i].height]) <==>
          t <= 73 || t - 73 <= f)
  {
    hide Marks;
    var t, ms := |own| - 1, Marks(|own| - 1, 1, 0, false);
    forall i | 0 <= i < |ms|
      ensures 1 <= ms[i].height <= t && (ms[i].jumped <==> ms[i].height <= t - 73)
      ensures t <= 73 || t - 73 <= f ==> BlockAt(own, main, ms[i]) == Some(own[ms[i].height])
    {
      JumpedIff(t, i);
    }
    if t > 73 && t - 73 > f {
      FirstJump(t);
      MarksFollow(t, 16);
      assert BlockAt(own, main, ms[16]) != Some(own[t - 73]);
    }
  }

  /** Two branches that part at genesis: the first jump from height 75 lands on the main chain's block 2. */
  lemma JumpLeavesBranch(r: Option<seq<Hash>>)
    requires Locates(seq(76, i => i), seq(76, i => -i), 0, r)
    ensures Agree(seq(76, i => i), seq(76, i => -i), 0)
    ensures r.Some? && |r.value| > 16 && r.value[16] == -2
  {
    hide Marks, WalkAt;
    var own, main: seq<Hash> := seq(76, i => i), seq(76, i => -i);
    var ms := Marks(75, 1, 0, false);
    FirstJump(75);
    MarksFollow(75, 16);
    forall i | 0 <= i < |ms| ensures BlockAt(own, main, ms[i]).Some? {
      JumpedIff(75, i);
    }
    assert BlockAt(own, main, ms[16]) == Some(r.value[16]);
  }

  // ---------------------------------------------------------- finding the fork

  /** The answer to a locator: the first listed block on the answering node's main chain, else genesis. */
  ghost predicate Answers(main: seq<Hash>, g: Hash, have: seq<Hash>, r: Hash) {
    || (r == g && forall i :: 0 <= i < |have| ==> have[i] !in main)
    || (exists i :: 0 <= i < |have| && r == have[i] && have[i] in main && forall j :: 0 <= j < i ==> have[j] !in main)
  }

  method GetBlockIndex(have: seq<Hash>, tree: Tree, g: Hash, pnext: map<Hash, Hash>, ghost lookup: map<int, Hash>, best: Hash)
    returns (r: Hash)
    requires WellFormed(tree, g) && best in tree && ChainSpec.LinksOk(tree, g, pnext, lookup, best)
    ensures Answers(Path(tree, g, best), g, have, r)
  {
    ghost var main := Path(tree, g, best);
    hide ChainSpec.LinksOk, Path;
    var i := 0;
    while i < |have|
      invariant 0 <= i <= |have| && forall j :: 0 <= j < i ==> have[j] !in main
    {
      ChainSpec.MainChainIsAncestry(tree, g, pnext, lookup, best, have[i]);
      if have[i] in tree && (have[i] in pnext || have[i] == best) {
        return have[i];
      }
      i := i + 1;
    }
    return g;
  }

  /** The first height at or below `f` that the walk lists, or genesis. */
  function Landing(h: int, step: nat, count: nat, f: int): int
    requires step > 0
    decreases h
  {
    if h <= f then h
    else if h - step < 1 then 0
    else Landing(h - step, Grow(step, count), count + 1, f)
  }

  /** The gaps never outgrow the distance already walked. */
  lemma {:induction false} GapBound(t: int, h: int, step: nat, count: nat, f: int)
    requires 0 < step <= t - h + 1 && 0 <= f <= t && f < h <= t
    ensures 0 <= Landing(h, step, count, f) <= f
    ensures f - Landing(h, step, count, f) <= t - f
    decreases h
  {
    if h - step > f && h - step >= 1 {
      GapBound(t, h - step, Grow(step, count), count + 1, f);
    }
  }

  lemma {:induction false} LandingListed(h: int, step: nat, count: nat, jumped: bool, f: int) returns (k: nat)
    requires step > 0 && h >= 1
    ensures
      var ms := Marks(h, step, count, jumped);
      && k <= |ms| && (forall i :: 0 <= i < k ==> ms[i].height > f) && (k < |ms| ==> ms[k].height <= f)
      && Landing(h, step, count, f) == if k < |ms| then ms[k].height else 0
    decreases h
  {
    var ms := Marks(h, step, count, jumped);
    MarksStep(h, step, count, jumped);
    if h <= f {
      k := 0;
    } else if h - step < 1 {
      k := 1;
    } else {
      hide Marks;
      k := LandingListed(h - step, Grow(step, count), count + 1, jumped || step >= 21, f);
      forall i | 0 <= i < k + 1 ensures ms[i].height > f {
        if i > 0 {
          assert ms[i] == ms[1..][i - 1];
        }
      }
      k := k + 1;
    }
  }

  /**
   Two chains agree exactly up to height `f`. The block found is common to both and lies at most
   as far below `f` as the tip `t` lies above it.
   */
  lemma FindsNearbyFork(own: seq<Hash>, main: seq<Hash>, other: seq<Hash>, g: Hash, have: seq<Hash>, f: nat, r: Hash)
    returns (k: nat)
    requires own != [] && own <= main && Locates(own, main, g, Some(have)) && own[0] == g
    requires f < |own| && f < |other|
    requires forall i :: 0 <= i <= f ==> own[i] == other[i]
    requires forall i :: f < i < |own| ==> own[i] !in other
    requires Answers(other, g, have, r)
    ensures k <= f && r == own[k] == other[k] && f - k <= |own| - 1 - f
  {
    var t := |own| - 1;
    if t == 0 {
      assert other[0] in other;
      return 0;
    }
    var ms := Marks(t, 1, 0, false);
    JumpsFollowParents(own, main, g, Some(have));
    var c := LandingListed(t, 1, 0, false, f);
    if f < t {
      GapBound(t, t, 1, 0, f);
    }
    hide Marks, Landing;
    k := Landing(t, 1, 0, f);
    assert forall i :: 0 <= i < c ==> have[i] == own[ms[i].height];
    assert other[k] in other;
    assert have[c] == own[k];
  }

  /**
   The same for a locator built on any branch. Its entries down to 41 below the start are the branch's own; those
   from 73 below on are the main chain's. While the branch and the other chain part no more than 41 below the start the
   bound stays as it was. Beyond that, the answer is a block of the main chain, as near to where the main chain and the
   other one part as the same bound allows, but not above the first jump.
   */
  lemma FindsForkOffBranch(
    own: seq<Hash>, main: seq<Hash>, other: seq<Hash>, g: Hash, have: seq<Hash>, f: nat, e: nat, r: Hash) returns (k: nat)
    requires |own| > 1 && Locates(own, main, g, Some(have)) && main != [] && own[0] == g == main[0]
    requires Agree(own, other, f) && (forall i :: f < i < |own| ==> own[i] !in other)
    requires Agree(main, other, e) && (forall i :: e < i < |main| ==> main[i] !in other)
    requires Answers(other, g, have, r)
    ensures
      var t := |own| - 1;
      if f >= t - 41 then k <= f && r == own[k] == other[k] && f - k <= t - f
      else
        var near := if e < t - 73 then e else t - 73;
        k <= e && r == main[k] == other[k] && (near < 0 ==> k == 0) && (near >= 0 ==> k <= near && near - k <= t - near)
  {
    hide Marks;
    var t := |own| - 1;
    if f >= t - 41 {
      k := NearOwn(own, main, other, g, have, f, r);
    } else {
      k := NearMain(own, main, other, g, have, f, e, r);
    }
  }

  lemma NearOwn(own: seq<Hash>, main: seq<Hash>, other: seq<Hash>, g: Hash, have: seq<Hash>, f: nat, r: Hash)
    returns (k: nat)
    requires |own| > 1 && Locates(own, main, g, Some(have)) && own[0] == g
    requires Agree(own, other, f) && (forall i :: f < i < |own| ==> own[i] !in other) && f >= |own| - 42
    requires Answers(other, g, have, r)
    ensures k <= f && r == own[k] == other[k] && f - k <= |own| - 1 - f
  {
    var t := |own| - 1;
    var ms := Marks(t, 1, 0, false);
    var c := LandingListed(t, 1, 0, false, f);
    if f < t {
      GapBound(t, t, 1, 0, f);
    }
    hide Marks, Landing;
    k := Landing(t, 1, 0, f);
    assert c <= 15 || c == |ms| by {
      FirstJump(t);
      MarksFollow(t, 15);
      assert c > 15 && 15 < |ms| ==> ms[15].height > f;
    }
    forall i | 0 <= i < |ms| && (i <= 15 || t <= 73) ensures 1 <= ms[i].height <= t && have[i] == own[ms[i].height] {
      FirstJump(t);
      MarksFollow(t, i);
      JumpedIff(t, i);
      if i <= 15 {
        WalkFalls(t, i, 15);
      }
    }
    if c == |ms| && c > 15 {
      FirstJump(t);
      MarksFollow(t, 15);
      assert false;
    }
    forall i | 0 <= i < c ensures have[i] !in other {
      JumpedIff(t, i);
    }
    assert other[k] in other;
    assert have[c] == own[k];
  }

  lemma NearMain(own: seq<Hash>, main: seq<Hash>, other: seq<Hash>, g: Hash, have: seq<Hash>, f: nat, e: nat, r: Hash)
    returns (k: nat)
    requires |own| > 1 && Locates(own, main, g, Some(have)) && main != [] && own[0] == g == main[0]
    requires Agree(own, other, f) && (forall i :: f < i < |own| ==> own[i] !in other) && f < |own| - 42
    requires Agree(main, other, e) && (forall i :: e < i < |main| ==> main[i] !in other)
    requires Answers(other, g, have, r)
    ensures
      var t := |own| - 1;
      var near := if e < t - 73 then e else t - 73;
      k <= e && r == main[k] == other[k] && (near < 0 ==> k == 0) && (near >= 0 ==> k <= near && near - k <= t - near)
  {
    var t := |own| - 1;
    var ms := Marks(t, 1, 0, false);
    var near := if e < t - 73 then e else t - 73;
    var c := LandingListed(t, 1, 0, false, near);
    if near >= 0 {
      GapBound(t, t, 1, 0, near);
    }
    hide Marks, Landing;
    forall i | 0 <= i < |ms| ensures i < c ==> have[i] !in other {
      JumpedIff(t, i);
      assert BlockAt(own, main, ms[i]) == Some(have[i]);
    }
    if c < |ms| {
      JumpedIff(t, c);
      assert BlockAt(own, main, ms[c]) == Some(have[c]);
      k := ms[c].height;
    } else {
      k := 0;
    }
    assert other[k] in other;
    assert have[c] == main[k];
  }

  lemma {:induction false} DoublingIsShort(h: int, step: nat, count: nat, jumped: bool)
    requires h >= 1 && step > 0 && count >= 10
    ensures step * (Pow2(|Marks(h, step, count, jumped)| - 1) - 1) <= h - 1
    decreases h
  {
    if h - step >= 1 {
      var rest := Marks(h - step, 2 * step, count + 1, jumped || step >= 21);
      DoublingIsShort(h - step, 2 * step, count + 1, jumped || step >= 21);
      var x := Pow2(|rest| - 1);
      assert Pow2(|rest|) == 2 * x;
      assert step * (2 * x - 1) == 2 * step * (x - 1) + step;
    }
  }

  lemma {:induction false} LinearPart(h: int, count: nat)
    requires h >= 1 && count <= 10 && |Marks(h, 1, count, false)| > 10 - count
    ensures h > 10 - count
    ensures |Marks(h, 1, count, false)| == 10 - count + |Marks(h - (10 - count), 1, 10, false)|
    decreases 10 - count
  {
    if count < 10 {
      LinearPart(h - 1, count + 1);
    }
  }

  /** Beyond its first ten entries the locator is logarithmic in the height. */
  lemma LogarithmicLength(t: nat)
    requires t >= 1 && |Marks(t, 1, 0, false)| > 10
    ensures Pow2(|Marks(t, 1, 0, false)| - 11) <= t - 10
  {
    LinearPart(t, 0);
    DoublingIsShort(t - 10, 1, 10, false);
  }
}
