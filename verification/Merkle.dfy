/** The Merkle tree of a block: a flat array of levels, branches, and what they prove. */
module Merkle {
  import opened Basics

  type PairHash = (Hash, Hash) -> Hash

  ghost predicate Injective(hash: PairHash) {
    forall a, b, c, d :: hash(a, b) == hash(c, d) ==> a == c && b == d
  }

  lemma Unpair(hash: PairHash, a: Hash, b: Hash, c: Hash, d: Hash)
    requires Injective(hash) && hash(a, b) == hash(c, d)
    ensures a == c && b == d
  {
  }

  /** `n >> 1`. */
  function Half(n: int): (h: int)
    ensures n >= 0 ==> 0 <= h <= n
  {
    n / 2
  }

  predicate Odd(n: int) {
    n % 2 == 1
  }

  /** Number of nodes above a level of `n` nodes. */
  function Above(n: nat): (m: nat)
    ensures n > 1 ==> 0 < m < n
    ensures n <= 1 ==> m == n
  {
    Half(n + 1)
  }

  lemma HalfBelow(i: nat, n: nat)
    requires i < n
    ensures Half(i) < Above(n)
  {
  }

  /** The level above `row`; an odd last node is paired with itself. */
  function Parents(hash: PairHash, row: seq<Hash>): (r: seq<Hash>)
    ensures |r| == Above(|row|)
  {
    seq(Above(|row|), k requires 0 <= k < Above(|row|) => hash(row[2 * k], row[Min(2 * k + 1, |row| - 1)]))
  }

  function Root(hash: PairHash, row: seq<Hash>): Hash
    decreases |row|
  {
    if |row| == 0 then 0 else if |row| == 1 then row[0] else Root(hash, Parents(hash, row))
  }

  /** `vMerkleTree`: the leaves, then every level above, one after the other. */
  function Flat(hash: PairHash, row: seq<Hash>): (t: seq<Hash>)
    ensures row <= t
    decreases |row|
  {
    if |row| <= 1 then row else row + Flat(hash, Parents(hash, row))
  }

  function Depth(n: nat): nat {
    if n <= 1 then 0 else 1 + Depth(Above(n))
  }

  /** `nIndex ^ 1`. */
  function Sibling(i: nat): nat {
    if Odd(i) then i - 1 else i + 1
  }

  function Branch(hash: PairHash, row: seq<Hash>, i: nat): (b: seq<Hash>)
    requires i < |row|
    ensures |b| == Depth(|row|)
    decreases |row|
  {
    if |row| <= 1 then []
    else
      HalfBelow(i, |row|);
      [Sib(row, i)] + Branch(hash, Parents(hash, row), Half(i))
  }

  function Sib(row: seq<Hash>, i: nat): Hash
    requires i < |row|
  {
    row[Min(Sibling(i), |row| - 1)]
  }

  /** What the parent of entry `i` hashes. */
  lemma ParentAt(hash: PairHash, row: seq<Hash>, i: nat)
    requires i < |row|
    ensures Half(i) < |Parents(hash, row)|
    ensures Parents(hash, row)[Half(i)] == if Odd(i) then hash(Sib(row, i), row[i]) else hash(row[i], Sib(row, i))
  {
    var k := i / 2;
    assert Parents(hash, row)[k] == hash(row[2 * k], row[Min(2 * k + 1, |row| - 1)]);
  }

  /** Hash a leaf upwards along a branch. */
  function Climb(hash: PairHash, leaf: Hash, branch: seq<Hash>, i: int): Hash
    decreases |branch|
  {
    if branch == [] then leaf
    else
      var up := if Odd(i) then hash(branch[0], leaf) else hash(leaf, branch[0]);
      Climb(hash, up, branch[1..], Half(i))
  }

  // -------------------------------------------------------- the source's loops

  lemma RowAt(tree: seq<Hash>, j: nat, done: seq<Hash>, i: int)
    requires 0 <= i < |tree| - j
    ensures (tree + done)[j + i] == tree[j..][i]
  {
  }

  lemma OneMore(tree: seq<Hash>, up: seq<Hash>, k: nat)
    requires k < |up|
    ensures tree + up[..k] + [up[k]] == tree + up[..k + 1]
  {
  }

  method PushLevel(hash: PairHash, tree: seq<Hash>, j: nat, size: nat) returns (t: seq<Hash>)
    requires j + size == |tree|
    ensures t == tree + Parents(hash, tree[j..])
  {
    ghost var row := tree[j..];
    ghost var up := Parents(hash, row);
    t := tree;
    var i := 0;
    hide Parents;
    while i < size
      invariant 0 <= i <= size + 1 && i % 2 == 0
      invariant i / 2 <= |up| && t == tree + up[..i / 2]
    {
      var i2 := Min(i + 1, size - 1);
      ghost var k := i / 2;
      RowAt(tree, j, up[..k], i);
      RowAt(tree, j, up[..k], i2);
      ParentAt(hash, row, i);
      OneMore(tree, up, k);
      t := t + [hash(t[j + i], t[j + i2])];
      i := i + 2;
    }
    assert up[..i / 2] == up;
  }

  lemma FlatEnd(hash: PairHash, tree: seq<Hash>, j: nat)
    requires j <= |tree| <= j + 1
    ensures tree[..j] + Flat(hash, tree[j..]) == tree
    ensures Root(hash, tree[j..]) == if j == |tree| then 0 else tree[j]
  {
  }

  method BuildMerkleTree(hash: PairHash, leaves: seq<Hash>) returns (tree: seq<Hash>, root: Hash)
    ensures tree == Flat(hash, leaves) && root == Root(hash, leaves)
  {
    hide Parents, Half, Above, Odd;
    tree := leaves;
    var j, size := 0, |leaves|;
    ghost var row := leaves;
    assert tree[..0] == [];
    while size > 1
      invariant 0 <= j <= |tree| && row == tree[j..] && |row| == size
      invariant Flat(hash, leaves) == tree[..j] + Flat(hash, row)
      invariant Root(hash, leaves) == Root(hash, row) && (leaves == [] <==> row == [])
      decreases size
    {
      ghost var before := tree;
      tree := PushLevel(hash, tree, j, size);
      FlatStep(hash, before, j, tree);
      row := Parents(hash, row);
      j, size := j + size, Above(size);
    }
    FlatEnd(hash, tree, j);
    root := if tree == [] then 0 else tree[|tree| - 1];
  }

  lemma FlatStep(hash: PairHash, before: seq<Hash>, j: nat, after: seq<Hash>)
    requires j + 1 < |before| && after == before + Parents(hash, before[j..])
    ensures after[|before|..] == Parents(hash, before[j..])
    ensures before[..j] + Flat(hash, before[j..]) == after[..|before|] + Flat(hash, after[|before|..])
  {
    hide Parents, Half, Above, Odd;
    var low, row := before[..j], before[j..];
    var up := Parents(hash, row);
    assert after[..|before|] == low + row && after[|before|..] == up;
    assert low + (row + Flat(hash, up)) == (low + row) + Flat(hash, up);
  }

  lemma LevelDown(hash: PairHash, tree: seq<Hash>, j: nat, row: seq<Hash>)
    requires j <= |tree| && |row| > 1 && tree[j..] == Flat(hash, row)
    ensures j + |row| <= |tree| && tree[j + |row|..] == Flat(hash, Parents(hash, row))
    ensures forall k :: 0 <= k < |row| ==> tree[j + k] == row[k]
  {
    hide Parents;
    assert tree[j..][|row|..] == tree[j + |row|..];
    assert forall k :: 0 <= k < |row| ==> tree[j + k] == tree[j..][k];
  }

  method GetMerkleBranch(ghost hash: PairHash, tree: seq<Hash>, ghost leaves: seq<Hash>, count: nat, index: nat)
    returns (branch: seq<Hash>)
    requires count == |leaves| && tree == Flat(hash, leaves) && index < count
    ensures branch == Branch(hash, leaves, index)
  {
    hide Parents, Root, Half, Above, Odd, Flat;
    branch := [];
    var j, size, i := 0, count, index;
    ghost var row := leaves;
    while size > 1
      invariant 0 <= j <= |tree| && |row| == size && 0 <= i < size && tree[j..] == Flat(hash, row)
      invariant Branch(hash, leaves, index) == branch + Branch(hash, row, i)
      decreases size
    {
      var k := Min(Sibling(i), size - 1);
      LevelDown(hash, tree, j, row);
      branch := branch + [tree[j + k]];
      row := Parents(hash, row);
      HalfBelow(i, size);
      i := Half(i);
      j := j + size;
      size := Above(size);
    }
  }

  /** The index -1 stands for "no index" and checks to the null hash. */
  method CheckMerkleBranch(hash: PairHash, leaf: Hash, branch: seq<Hash>, index: int) returns (r: Hash)
    ensures r == if index == -1 then 0 else Climb(hash, leaf, branch, index)
  {
    if index == -1 {
      return 0;
    }
    r := leaf;
    var i, n := 0, index;
    while i < |branch|
      invariant 0 <= i <= |branch|
      invariant Climb(hash, r, branch[i..], n) == Climb(hash, leaf, branch, index)
    {
      assert branch[i..][1..] == branch[i + 1..];
      r := if Odd(n) then hash(branch[i], r) else hash(r, branch[i]);
      n := Half(n);
      i := i + 1;
    }
  }

  // ------------------------------------------------------- what a branch proves

  /** The branch taken at an index leads its leaf to the root. */
  lemma {:induction false} BranchReachesRoot(hash: PairHash, row: seq<Hash>, i: nat)
    requires i < |row|
    ensures Climb(hash, row[i], Branch(hash, row, i), i) == Root(hash, row)
    decreases |row|
  {
    if |row| > 1 {
      hide Parents, Half, Above, Odd;
      var up, b := Parents(hash, row), Branch(hash, row, i);
      ParentAt(hash, row, i);
      BranchReachesRoot(hash, up, Half(i));
      assert b == [Sib(row, i)] + Branch(hash, up, Half(i));
      assert b[1..] == Branch(hash, up, Half(i));
    }
  }

  lemma RootUp(hash: PairHash, row: seq<Hash>)
    requires |row| > 1
    ensures Root(hash, row) == Root(hash, Parents(hash, row)) && Depth(|row|) == 1 + Depth(|Parents(hash, row)|)
    ensures 0 < |Parents(hash, row)| < |row|
  {
    hide Parents;
  }

  /** One step up from entry `i`. */
  function Up(hash: PairHash, leaf: Hash, other: Hash, i: int): Hash {
    if Odd(i) then hash(other, leaf) else hash(leaf, other)
  }

  lemma ClimbUp(hash: PairHash, leaf: Hash, branch: seq<Hash>, i: int)
    requires branch != []
    ensures Climb(hash, leaf, branch, i) == Climb(hash, Up(hash, leaf, branch[0], i), branch[1..], Half(i))
  {
  }

  lemma BranchUp(hash: PairHash, row: seq<Hash>, i: nat)
    requires i < |row| && |row| > 1
    ensures Half(i) < |Parents(hash, row)|
    ensures Branch(hash, row, i) == [Sib(row, i)] + Branch(hash, Parents(hash, row), Half(i))
    ensures Parents(hash, row)[Half(i)] == Up(hash, row[i], Sib(row, i), i)
  {
    hide Parents;
    ParentAt(hash, row, i);
  }

  lemma UpInjective(hash: PairHash, a: Hash, b: Hash, c: Hash, d: Hash, i: int)
    requires Injective(hash) && Up(hash, a, b, i) == Up(hash, c, d, i)
    ensures a == c && b == d
  {
    hide Injective;
    if Odd(i) {
      Unpair(hash, b, a, d, c);
    } else {
      Unpair(hash, a, b, c, d);
    }
  }

  lemma ClimbNothing(hash: PairHash, leaf: Hash, row: seq<Hash>)
    requires |row| == 1
    ensures Depth(|row|) == 0 && Climb(hash, leaf, [], 0) == leaf && Root(hash, row) == row[0] && Branch(hash, row, 0) == []
  {
  }

  /** Conversely, a branch of the right length that leads to the root is the true one, and so is its leaf. */
  lemma {:induction false} BranchProvesLeaf(hash: PairHash, row: seq<Hash>, i: nat, leaf: Hash, branch: seq<Hash>)
    requires Injective(hash) && i < |row| && |branch| == Depth(|row|)
    requires Climb(hash, leaf, branch, i) == Root(hash, row)
    ensures leaf == row[i] && branch == Branch(hash, row, i)
    decreases |row|
  {
    hide Parents, Half, Above, Odd, Injective, Root, Climb, Branch, Depth, Up, Sib;
    if |row| > 1 {
      RootUp(hash, row);
      ClimbUp(hash, leaf, branch, i);
      BranchUp(hash, row, i);
      BranchProvesLeaf(hash, Parents(hash, row), Half(i), Up(hash, leaf, branch[0], i), branch[1..]);
      UpInjective(hash, leaf, branch[0], row[i], Sib(row, i), i);
      assert branch == [branch[0]] + branch[1..];
    } else {
      ClimbNothing(hash, leaf, row);
    }
  }

  // -------------------------------------------------------- what a root proves

  lemma ParentsDistinct(hash: PairHash, row: seq<Hash>)
    requires Injective(hash) && Distinct(row)
    ensures Distinct(Parents(hash, row))
  {
    var up := Parents(hash, row);
    forall i, j | 0 <= i < j < |up| ensures up[i] != up[j] {
      ParentAt(hash, row, 2 * i);
      ParentAt(hash, row, 2 * j);
    }
  }

  lemma ParentsInjective(hash: PairHash, a: seq<Hash>, b: seq<Hash>)
    requires Injective(hash) && Distinct(a) && Distinct(b)
    requires Parents(hash, a) == Parents(hash, b)
    ensures a == b
  {
    hide Parents;
    if a != [] {
      var last := |Parents(hash, a)| - 1;
      ParentAt(hash, a, 2 * last);
      ParentAt(hash, b, 2 * last);
      assert |a| == 2 * last + 2 ==> a[2 * last] != a[2 * last + 1];
      assert |b| == 2 * last + 2 ==> b[2 * last] != b[2 * last + 1];
    }
    assert |a| == |b|;
    forall i | 0 <= i < |a| ensures a[i] == b[i] {
      ParentAt(hash, a, i);
      ParentAt(hash, b, i);
    }
  }

  /** Lists without duplicates whose trees are equally deep have the same root only if they are the same list. */
  lemma {:induction false} RootDeterminesList(hash: PairHash, a: seq<Hash>, b: seq<Hash>)
    requires Injective(hash) && Distinct(a) && Distinct(b)
    requires a != [] && b != [] && Depth(|a|) == Depth(|b|)
    ensures Root(hash, a) == Root(hash, b) <==> a == b
    decreases |a|
  {
    if |a| > 1 && Root(hash, a) == Root(hash, b) {
      ParentsDistinct(hash, a);
      ParentsDistinct(hash, b);
      RootDeterminesList(hash, Parents(hash, a), Parents(hash, b));
      ParentsInjective(hash, a, b);
    }
  }

  /** Without the duplicate check the root does not tell an odd list from one with its last entry repeated. */
  lemma RepeatedLastCollides(hash: PairHash, row: seq<Hash>)
    requires |row| > 1 && Odd(|row|)
    ensures Root(hash, row + [row[|row| - 1]]) == Root(hash, row)
  {
    hide Parents;
    var long := row + [row[|row| - 1]];
    var p, q := Parents(hash, row), Parents(hash, long);
    forall k | 0 <= k < |p| ensures p[k] == q[k] {
      ParentAt(hash, row, 2 * k);
      ParentAt(hash, long, 2 * k);
    }
    assert p == q;
  }

  /** Level `k` of the tree. */
  function Level(hash: PairHash, row: seq<Hash>, k: nat): (r: seq<Hash>)
    requires k <= Depth(|row|)
    decreases k
  {
    if k == 0 then row else Level(hash, Parents(hash, row), k - 1)
  }

  /** Without equal depth the root does not tell a list from any level of its own tree. */
  lemma {:induction false} LevelsCollide(hash: PairHash, row: seq<Hash>, k: nat)
    requires k <= Depth(|row|)
    ensures Root(hash, Level(hash, row, k)) == Root(hash, row) && Depth(|Level(hash, row, k)|) == Depth(|row|) - k
    ensures row != [] ==> Level(hash, row, k) != []
    decreases k
  {
    hide Root, Parents, Above;
    if k > 0 {
      RootUp(hash, row);
      LevelsCollide(hash, Parents(hash, row), k - 1);
    }
  }

  lemma {:induction false} LevelDistinct(hash: PairHash, row: seq<Hash>, k: nat)
    requires k <= Depth(|row|) && Injective(hash) && Distinct(row)
    ensures Distinct(Level(hash, row, k))
    decreases k
  {
    hide Parents, Above, Injective, Distinct;
    if k > 0 {
      ParentsDistinct(hash, row);
      LevelDistinct(hash, Parents(hash, row), k - 1);
    }
  }

  /** `x` is the hash of a pair. */
  ghost predicate IsPair(hash: PairHash, x: Hash) {
    exists a, b :: hash(a, b) == x
  }

  lemma {:induction false} LevelsArePairs(hash: PairHash, row: seq<Hash>, k: nat, i: nat)
    requires 0 < k <= Depth(|row|) && i < |Level(hash, row, k)|
    ensures IsPair(hash, Level(hash, row, k)[i])
    decreases k
  {
    if k > 1 {
      LevelsArePairs(hash, Parents(hash, row), k - 1, i);
    } else {
      var up := Parents(hash, row);
      assert Level(hash, row, 1) == Level(hash, up, 0) == up;
      var a, b := row[2 * i], row[Min(2 * i + 1, |row| - 1)];
      assert up[i] == hash(a, b);
    }
  }

  /** The lists of equal root and no duplicates are exactly the levels of one tree: the shallower is a level of the deeper. */
  lemma EqualRootsAreLevels(hash: PairHash, a: seq<Hash>, b: seq<Hash>)
    requires Injective(hash) && Distinct(a) && Distinct(b) && a != [] && b != [] && Depth(|a|) <= Depth(|b|)
    ensures Root(hash, a) == Root(hash, b) <==> a == Level(hash, b, Depth(|b|) - Depth(|a|))
  {
    hide Root, Depth, Level;
    var k := Depth(|b|) - Depth(|a|);
    LevelsCollide(hash, b, k);
    LevelDistinct(hash, b, k);
    RootDeterminesList(hash, a, Level(hash, b, k));
  }

  /** When no transaction hash is itself the hash of a pair, depth need not be known: the root pins the list down. */
  lemma RootDeterminesLeaves(hash: PairHash, a: seq<Hash>, b: seq<Hash>)
    requires Injective(hash) && Distinct(a) && Distinct(b) && a != [] && b != []
    requires forall x :: x in a || x in b ==> !IsPair(hash, x)
    ensures Root(hash, a) == Root(hash, b) <==> a == b
  {
    hide Root, Depth, Level, IsPair;
    var short, long := a, b;
    if Depth(|a|) > Depth(|b|) {
      short, long := b, a;
    }
    EqualRootsAreLevels(hash, short, long);
    var k := Depth(|long|) - Depth(|short|);
    if k == 0 {
      assert Level(hash, long, 0) == long by {
        LevelZero(hash, long);
      }
    } else {
      assert short[0] in short && long[0] in long;
      LevelsCollide(hash, long, k);
      LevelsArePairs(hash, long, k, 0);
      assert short != Level(hash, long, k);
    }
  }

  lemma LevelZero(hash: PairHash, row: seq<Hash>)
    ensures Level(hash, row, 0) == row
  {
  }

  // ------------------------------------------------ the root as a balanced tree

  /** The top of a tree of `k` levels over the leaves: left half, then right half; a missing half repeats the other. */
  function Crown(hash: PairHash, row: seq<Hash>, k: nat): Hash
    requires 0 < |row| <= Pow2(k)
  {
    if k == 0 then row[0]
    else
      var n := Pow2(k - 1);
      if |row| <= n then hash(Crown(hash, row, k - 1), Crown(hash, row, k - 1))
      else hash(Crown(hash, row[..n], k - 1), Crown(hash, row[n..], k - 1))
  }

  lemma ParentsAt(hash: PairHash, row: seq<Hash>, k: nat)
    requires 2 * k < |row|
    ensures k < |Parents(hash, row)| && 2 * |Parents(hash, row)| <= |row| + 1
    ensures Parents(hash, row)[k] == hash(row[2 * k], row[if 2 * k + 1 < |row| then 2 * k + 1 else 2 * k])
  {
  }

  lemma JoinLeft(hash: PairHash, l: seq<Hash>, r: seq<Hash>, k: nat)
    requires 2 * k + 1 < |l|
    ensures k < |Parents(hash, l + r)| && k < |Parents(hash, l)| && Parents(hash, l + r)[k] == Parents(hash, l)[k]
  {
    hide Parents;
    ParentsAt(hash, l, k);
    ParentsAt(hash, l + r, k);
    assert (l + r)[2 * k] == l[2 * k] && (l + r)[2 * k + 1] == l[2 * k + 1];
  }

  lemma JoinRight(hash: PairHash, l: seq<Hash>, r: seq<Hash>, h: nat, k: nat)
    requires |l| == 2 * h && 2 * k < |r|
    ensures h + k < |Parents(hash, l + r)| && k < |Parents(hash, r)| && Parents(hash, l + r)[h + k] == Parents(hash, r)[k]
  {
    hide Parents;
    ParentsAt(hash, r, k);
    ParentsAt(hash, l + r, h + k);
    assert (l + r)[2 * (h + k)] == r[2 * k];
    if 2 * k + 1 < |r| {
      assert (l + r)[2 * (h + k) + 1] == r[2 * k + 1];
    }
  }

  lemma JoinSizes(hash: PairHash, l: seq<Hash>, r: seq<Hash>, h: nat)
    requires |l| == 2 * h && r != []
    ensures |Parents(hash, l + r)| == h + |Parents(hash, r)| && |Parents(hash, l)| == h
    ensures 2 * |Parents(hash, r)| <= |r| + 1
  {
    hide Parents;
  }

  lemma ParentsJoin(hash: PairHash, l: seq<Hash>, r: seq<Hash>, h: nat)
    requires |l| == 2 * h && r != []
    ensures Parents(hash, l + r) == Parents(hash, l) + Parents(hash, r) && |Parents(hash, l)| == h
  {
    hide Parents, Above, Half, Min;
    var row, left, right := Parents(hash, l + r), Parents(hash, l), Parents(hash, r);
    JoinSizes(hash, l, r, h);
    forall k | 0 <= k < |row| ensures row[k] == (left + right)[k] {
      if k < h {
        JoinLeft(hash, l, r, k);
      } else {
        JoinRight(hash, l, r, h, k - h);
      }
    }
  }

  lemma CrownLow(hash: PairHash, row: seq<Hash>, k: nat)
    requires k > 0 && 0 < |row| <= Pow2(k - 1) <= Pow2(k)
    ensures Crown(hash, row, k) == hash(Crown(hash, row, k - 1), Crown(hash, row, k - 1))
  {
  }

  lemma CrownHigh(hash: PairHash, l: seq<Hash>, r: seq<Hash>, k: nat)
    requires k > 0 && |l| == Pow2(k - 1) && 0 < |r| <= Pow2(k - 1) && |l + r| <= Pow2(k)
    ensures Crown(hash, l + r, k) == hash(Crown(hash, l, k - 1), Crown(hash, r, k - 1))
  {
    assert (l + r)[..|l|] == l && (l + r)[|l|..] == r;
  }

  lemma CrownPair(hash: PairHash, row: seq<Hash>)
    requires 0 < |row| <= 2
    ensures Pow2(0) == 1 && Pow2(1) == 2 && |Parents(hash, row)| == 1
    ensures Crown(hash, row, 1) == Crown(hash, Parents(hash, row), 0)
  {
    assert Pow2(0) == 1;
    assert Parents(hash, row)[0] == hash(row[0], row[Min(1, |row| - 1)]);
  }

  lemma PowOne()
    ensures Pow2(0) == 1
  {
  }

  lemma PowDouble(k: nat)
    requires k > 0
    ensures Pow2(k) == 2 * Pow2(k - 1)
  {
  }

  /** A level is half as long, rounded up. */
  ghost predicate Halves(a: nat, b: nat) {
    0 < b && a <= 2 * b <= a + 1
  }

  lemma ParentsHalve(hash: PairHash, row: seq<Hash>)
    requires row != []
    ensures Halves(|row|, |Parents(hash, row)|)
  {
  }

  lemma CrownStepLow(hash: PairHash, row: seq<Hash>, up: seq<Hash>, k: nat, n: nat)
    requires k > 1 && Halves(|row|, |up|) && 0 < |row| <= 2 * n && Pow2(k - 2) == n
    requires Pow2(k - 1) == 2 * n && Pow2(k) == 4 * n && Crown(hash, row, k - 1) == Crown(hash, up, k - 2)
    ensures Crown(hash, row, k) == Crown(hash, up, k - 1)
  {
    hide Crown, Pow2;
    CrownLow(hash, row, k);
    CrownLow(hash, up, k - 1);
  }

  lemma CrownStepHigh(hash: PairHash, l: seq<Hash>, r: seq<Hash>, a: seq<Hash>, b: seq<Hash>, k: nat, n: nat)
    requires k > 1 && |l| == 2 * n && |a| == n && 0 < |r| <= 2 * n && Halves(|r|, |b|)
    requires Pow2(k - 2) == n && Pow2(k - 1) == 2 * n && Pow2(k) == 4 * n
    requires Crown(hash, l, k - 1) == Crown(hash, a, k - 2) && Crown(hash, r, k - 1) == Crown(hash, b, k - 2)
    ensures Crown(hash, l + r, k) == Crown(hash, a + b, k - 1)
  {
    hide Crown, Pow2;
    CrownHigh(hash, l, r, k);
    CrownHigh(hash, a, b, k - 1);
  }

  /** One level up, the tree is the same with one level less. */
  lemma {:induction false} CrownStep(hash: PairHash, row: seq<Hash>, k: nat)
    requires 0 < |row| <= Pow2(k) && k > 0
    ensures 0 < |Parents(hash, row)| <= Pow2(k - 1) && Crown(hash, row, k) == Crown(hash, Parents(hash, row), k - 1)
    decreases k
  {
    hide Parents, Crown, Pow2, Above, Min;
    PowDouble(k);
    ParentsHalve(hash, row);
    if k == 1 {
      PowOne();
      CrownPair(hash, row);
    } else {
      PowDouble(k - 1);
      var n := Pow2(k - 2);
      if |row| <= 2 * n {
        CrownStep(hash, row, k - 1);
        CrownStepLow(hash, row, Parents(hash, row), k, n);
      } else {
        var l, r := row[..2 * n], row[2 * n..];
        assert l + r == row;
        ParentsHalve(hash, r);
        CrownStep(hash, l, k - 1);
        CrownStep(hash, r, k - 1);
        ParentsJoin(hash, l, r, n);
        CrownStepHigh(hash, l, r, Parents(hash, l), Parents(hash, r), k, n);
      }
    }
  }

  lemma {:induction false} DepthHolds(n: nat)
    ensures n <= Pow2(Depth(n))
  {
    if n > 1 {
      DepthHolds(Above(n));
    }
  }

  /** The Merkle root is the top of the balanced tree over the leaves, left before right. */
  lemma {:induction false} RootIsCrown(hash: PairHash, row: seq<Hash>)
    requires row != []
    ensures |row| <= Pow2(Depth(|row|)) && Root(hash, row) == Crown(hash, row, Depth(|row|))
    decreases |row|
  {
    hide Parents, Crown, Above;
    DepthHolds(|row|);
    if |row| == 1 {
      CrownLeaf(hash, row);
    } else {
      RootIsCrown(hash, Parents(hash, row));
      CrownStep(hash, row, Depth(|row|));
    }
  }

  lemma CrownLeaf(hash: PairHash, row: seq<Hash>)
    requires |row| == 1
    ensures Depth(1) == 0 && Pow2(0) == 1 && Crown(hash, row, 0) == row[0]
  {
  }
}
