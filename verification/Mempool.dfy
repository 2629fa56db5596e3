/** The memory pool: transactions by id, and for every outpoint they spend, who spends it. */
module Mempool {
  import opened Basics
  import opened Ledger

  /** `CInPoint`: a pooled transaction and the position of the input. */
  datatype InPoint = InPoint(tx: Hash, n: nat)

  type Txs = map<Hash, Tx>
  type Spenders = map<OutPoint, InPoint>

  predicate Spends(tx: Tx, o: OutPoint) {
    exists i :: 0 <= i < |tx.vin| && tx.vin[i] == o
  }

  /** `next` maps exactly the inputs of pooled transactions, each to its one spender. */
  ghost predicate Consistent(txs: Txs, next: Spenders) {
    && (forall h :: h in txs ==> txs[h].id == h && Distinct(txs[h].vin))
    && Recorded(txs, next) && Spending(txs, next)
  }

  /** Every input of a pooled transaction is in the map. */
  ghost predicate Recorded(txs: Txs, next: Spenders) {
    forall h, i :: h in txs && 0 <= i < |txs[h].vin| ==>
      txs[h].vin[i] in next && next[txs[h].vin[i]] == InPoint(h, i)
  }

  /** Every entry of the map is such an input. */
  ghost predicate Spending(txs: Txs, next: Spenders) {
    forall o :: o in next ==>
      && next[o].tx in txs && next[o].n < |txs[next[o].tx].vin| && txs[next[o].tx].vin[next[o].n] == o
  }

  /** Transaction ids are hashes over the inputs, so no chain of spending leads back to its start. */
  ghost predicate Acyclic(txs: Txs, rank: Hash -> nat) {
    forall h, i :: h in txs && 0 <= i < |txs[h].vin| ==> rank(txs[h].vin[i].hash) < rank(h)
  }

  /** `b` spends an output of `a`. */
  predicate Child(txs: Txs, a: Hash, b: Hash) {
    && a in txs && b in txs
    && exists i :: 0 <= i < |txs[b].vin| && txs[b].vin[i].hash == a && txs[b].vin[i].n < |txs[a].vout|
  }

  ghost predicate IsPath(txs: Txs, p: seq<Hash>) {
    && |p| > 0 && p[0] in txs
    && forall i :: 0 <= i < |p| - 1 ==> Child(txs, p[i], p[i + 1])
  }

  /** `b` is `a` itself or depends on it through pooled transactions. */
  ghost predicate Descendant(txs: Txs, a: Hash, b: Hash) {
    exists p :: IsPath(txs, p) && p[0] == a && p[|p| - 1] == b
  }

  /** No two pooled transactions spend the same outpoint. */
  lemma NoConflicts(txs: Txs, next: Spenders, a: Hash, b: Hash, o: OutPoint)
    requires Consistent(txs, next) && a in txs && b in txs && Spends(txs[a], o) && Spends(txs[b], o)
    ensures a == b
  {
  }

  lemma SpenderKnown(txs: Txs, next: Spenders, c: Hash, o: OutPoint)
    requires Consistent(txs, next) && c in txs && Spends(txs[c], o)
    ensures o in next && next[o].tx == c
  {
  }

  ghost predicate SubPool(txs: Txs, all: Txs) {
    forall h :: h in txs ==> h in all && txs[h] == all[h]
  }

  lemma {:induction false} DescendantMonotone(txs: Txs, all: Txs, a: Hash, b: Hash)
    requires SubPool(txs, all) && Descendant(txs, a, b)
    ensures Descendant(all, a, b)
  {
    var p :| IsPath(txs, p) && p[0] == a && p[|p| - 1] == b;
    assert IsPath(all, p);
  }

  lemma DescendantStep(txs: Txs, a: Hash, b: Hash, c: Hash)
    requires Child(txs, a, b) && Descendant(txs, b, c)
    ensures Descendant(txs, a, c)
  {
    var p :| IsPath(txs, p) && p[0] == b && p[|p| - 1] == c;
    var q := [a] + p;
    assert IsPath(txs, q) && q[0] == a && q[|q| - 1] == c;
  }

  lemma DescendantSelf(txs: Txs, a: Hash)
    requires a in txs
    ensures Descendant(txs, a, a)
  {
    assert IsPath(txs, [a]) && [a][0] == a && [a][|[a]| - 1] == a;
  }

  /** A set that holds the start and the children of its members holds every descendant. */
  lemma {:induction false} ClosedHolds(txs: Txs, s: set<Hash>, p: seq<Hash>)
    requires IsPath(txs, p) && p[0] in s
    requires forall x, y :: x in s && Child(txs, x, y) ==> y in s
    ensures p[|p| - 1] in s
    decreases |p|
  {
    if |p| > 1 {
      assert Child(txs, p[0], p[1]);
      assert IsPath(txs, p[1..]) by {
        forall i | 0 <= i < |p[1..]| - 1 ensures Child(txs, p[1..][i], p[1..][i + 1]) {
          assert Child(txs, p[i + 1], p[i + 2]);
        }
      }
      ClosedHolds(txs, s, p[1..]);
    }
  }

  // -------------------------------------------------- removing with dependents

  /** What has been taken out of `all` so far: descendants of `root` only, and never a parent without its children. */
  ghost predicate Removing(all: Txs, txs: Txs, root: Hash) {
    && SubPool(txs, all)
    && (forall h :: h in all && h !in txs ==> Descendant(all, root, h))
    && Detached(all, txs)
  }

  /** No transaction left in the pool spends an output of one that was taken out. */
  ghost predicate Detached(all: Txs, txs: Txs) {
    forall x, y :: x in all && x !in txs && Child(all, x, y) ==> y !in txs
  }

  lemma {:induction false} RankRises(txs: Txs, rank: Hash -> nat, p: seq<Hash>)
    requires Acyclic(txs, rank) && IsPath(txs, p)
    ensures rank(p[0]) <= rank(p[|p| - 1]) && p[|p| - 1] in txs
    decreases |p|
  {
    if |p| > 1 {
      var q := p[..|p| - 1];
      assert Child(txs, p[|p| - 2], p[|p| - 1]);
      RankRises(txs, rank, q);
    }
  }

  lemma DescendantRank(txs: Txs, rank: Hash -> nat, a: Hash, b: Hash)
    requires Acyclic(txs, rank) && Descendant(txs, a, b)
    ensures rank(a) <= rank(b) && b in txs
  {
    var p :| IsPath(txs, p) && p[0] == a && p[|p| - 1] == b;
    RankRises(txs, rank, p);
  }

  /** Exactly the descendants of `child` went from `mid` to `txs`. */
  ghost predicate Pruned(mid: Txs, txs: Txs, child: Hash) {
    SubPool(txs, mid) && forall h :: h in mid ==> (h in txs <==> !Descendant(mid, child, h))
  }

  lemma PrunedDetached(mid: Txs, txs: Txs, child: Hash)
    requires Pruned(mid, txs, child)
    ensures Detached(mid, txs)
  {
    forall x, y | x in mid && x !in txs && Child(mid, x, y) ensures y !in txs {
      var p :| IsPath(mid, p) && p[0] == child && p[|p| - 1] == x;
      var q := p + [y];
      assert IsPath(mid, q) && q[0] == child && q[|q| - 1] == y;
    }
  }

  lemma DetachedTransitive(all: Txs, mid: Txs, txs: Txs)
    requires SubPool(mid, all) && SubPool(txs, mid) && Detached(all, mid) && Detached(mid, txs)
    ensures Detached(all, txs)
  {
    forall x, y | x in all && x !in txs && Child(all, x, y) ensures y !in txs {
      if x in mid && y in mid {
        assert Child(mid, x, y);
      }
    }
  }

  lemma RemovingStep(all: Txs, mid: Txs, txs: Txs, root: Hash, child: Hash)
    requires Removing(all, mid, root) && root in mid && Child(mid, root, child) && Pruned(mid, txs, child)
    ensures Removing(all, txs, root)
  {
    PrunedDetached(mid, txs, child);
    DetachedTransitive(all, mid, txs);
    forall h | h in all && h !in txs ensures Descendant(all, root, h) {
      if h in mid {
        DescendantMonotone(mid, all, child, h);
        DescendantStep(all, root, child, h);
      }
    }
  }

  /** With every child of the root gone, taking the root itself out completes the removal. */
  lemma RemovingDone(all: Txs, txs: Txs, root: Hash)
    requires Removing(all, txs, root) && root in txs
    requires forall y :: Child(all, root, y) ==> y !in txs
    ensures Pruned(all, txs - {root}, root)
  {
    var gone := all.Keys - (txs - {root}).Keys;
    DescendantSelf(all, root);
    assert forall x, y :: x in gone && Child(all, x, y) ==> y in gone;
    forall h | h in all && Descendant(all, root, h) ensures h in gone {
      var p :| IsPath(all, p) && p[0] == root && p[|p| - 1] == h;
      ClosedHolds(all, gone, p);
    }
  }

  /** Pooled transactions that can still be below `r` in a chain of spending. */
  ghost function Room(txs: Txs, rank: Hash -> nat, r: nat): set<Hash> {
    set h | h in txs && rank(h) >= r
  }

  lemma RoomShrinks(all: Txs, txs: Txs, rank: Hash -> nat, a: Hash, b: Hash)
    requires SubPool(txs, all) && a in all && rank(a) < rank(b)
    ensures Room(txs, rank, rank(b)) < Room(all, rank, rank(a))
  {
    var big, small := Room(all, rank, rank(a)), Room(txs, rank, rank(b));
    assert forall h :: h in small ==> h in big;
    assert a in big && a !in small;
  }

  lemma RemovingStarts(txs: Txs, root: Hash)
    ensures Removing(txs, txs, root)
  {
  }

  /** The recorded spender of an output is a pooled child, later in the order of spending. */
  lemma SpenderIsChild(all: Txs, txs: Txs, next: Spenders, rank: Hash -> nat, root: Hash, o: OutPoint)
    requires Acyclic(all, rank) && Removing(all, txs, root) && Consistent(txs, next)
    requires root in all && root in txs && o in next && o.hash == root && o.n < |all[root].vout|
    ensures
      var c := next[o].tx;
      && c in txs && txs[c].id == c && Child(txs, root, c) && rank(root) < rank(c) && Acyclic(txs, rank)
      && Room(txs, rank, rank(c)) < Room(all, rank, rank(root))
  {
    RoomShrinks(all, txs, rank, root, next[o].tx);
  }

  lemma ChildrenGone(all: Txs, txs: Txs, next: Spenders, root: Hash)
    requires Consistent(txs, next) && Removing(all, txs, root) && root in all
    requires forall k :: 0 <= k < |all[root].vout| ==> OutPoint(root, k) !in next
    ensures forall y :: Child(all, root, y) ==> y !in txs
  {
    forall y | Child(all, root, y) ensures y !in txs {
      var i :| 0 <= i < |all[y].vin| && all[y].vin[i].hash == root && all[y].vin[i].n < |all[root].vout|;
      assert all[y].vin[i] == OutPoint(root, all[y].vin[i].n);
    }
  }

  lemma StaysPooled(mid: Txs, txs: Txs, rank: Hash -> nat, root: Hash, child: Hash)
    requires Acyclic(mid, rank) && Pruned(mid, txs, child) && root in mid && rank(root) < rank(child)
    ensures root in txs
  {
    if Descendant(mid, child, root) {
      DescendantRank(mid, rank, child, root);
    }
  }

  lemma SpenderGone(mid: Txs, midNext: Spenders, txs: Txs, next: Spenders, child: Hash, o: OutPoint)
    requires Consistent(mid, midNext) && Consistent(txs, next) && Pruned(mid, txs, child)
    requires o in midNext && midNext[o].tx == child
    ensures o !in next
  {
    DescendantSelf(mid, child);
    if o in next {
      NoConflicts(mid, midNext, next[o].tx, child, o);
    }
  }

  // ---------------------------------------------------------------- conflicts

  /** Another pooled transaction that spends input `k` of `tx`. */
  predicate Rival(txs: Txs, tx: Tx, k: int, c: Hash) {
    0 <= k < |tx.vin| && c in txs && txs[c] != tx && Spends(txs[c], tx.vin[k])
  }

  /** `h` is a rival for one of the first `n` inputs, or depends on one. */
  ghost predicate Displaced(txs: Txs, tx: Tx, n: int, h: Hash) {
    exists k, c :: 0 <= k < n && Rival(txs, tx, k, c) && Descendant(txs, c, h)
  }

  lemma DisplacedNone(all: Txs, tx: Tx)
    ensures forall h :: !Displaced(all, tx, 0, h)
    ensures Detached(all, all)
  {
  }

  lemma DescendantTransitive(txs: Txs, a: Hash, b: Hash, c: Hash)
    requires Descendant(txs, a, b) && Descendant(txs, b, c)
    ensures Descendant(txs, a, c)
  {
    var p :| IsPath(txs, p) && p[0] == a && p[|p| - 1] == b;
    var q :| IsPath(txs, q) && q[0] == b && q[|q| - 1] == c;
    var r := p + q[1..];
    assert IsPath(txs, r) && r[0] == a && r[|r| - 1] == c;
  }

  lemma DisplacedClosed(txs: Txs, tx: Tx, n: int, c: Hash, h: Hash)
    requires Displaced(txs, tx, n, c) && Descendant(txs, c, h)
    ensures Displaced(txs, tx, n, h)
  {
    var k, r :| 0 <= k < n && Rival(txs, tx, k, r) && Descendant(txs, r, c);
    DescendantTransitive(txs, r, c, h);
  }

  /** In a detached part of the pool the dependencies are those of the whole. */
  lemma {:induction false} DetachedPath(all: Txs, txs: Txs, p: seq<Hash>)
    requires SubPool(txs, all) && Detached(all, txs) && IsPath(all, p) && p[|p| - 1] in txs
    ensures IsPath(txs, p)
    decreases |p|
  {
    if |p| > 1 {
      var q := p[..|p| - 1];
      assert Child(all, p[|p| - 2], p[|p| - 1]);
      assert p[|p| - 2] in txs;
      DetachedPath(all, txs, q);
      forall i | 0 <= i < |p| - 1 ensures Child(txs, p[i], p[i + 1]) {
        if i < |p| - 2 {
          assert Child(txs, q[i], q[i + 1]);
        }
      }
    }
  }

  lemma DetachedDescendant(all: Txs, txs: Txs, a: Hash, h: Hash)
    requires SubPool(txs, all) && Detached(all, txs) && h in txs
    ensures Descendant(all, a, h) <==> Descendant(txs, a, h)
  {
    if Descendant(all, a, h) {
      var p :| IsPath(all, p) && p[0] == a && p[|p| - 1] == h;
      DetachedPath(all, txs, p);
    }
    if Descendant(txs, a, h) {
      DescendantMonotone(txs, all, a, h);
    }
  }

  lemma SpenderPooled(all: Txs, txs: Txs, next: Spenders, rank: Hash -> nat, o: OutPoint)
    requires Consistent(txs, next) && o in next && SubPool(txs, all) && Acyclic(all, rank)
    ensures next[o].tx in txs && txs[next[o].tx].id == next[o].tx && Spends(txs[next[o].tx], o)
    ensures Acyclic(txs, rank)
  {
  }

  lemma NoNewRival(all: Txs, allNext: Spenders, mid: Txs, midNext: Spenders, tx: Tx, i: nat)
    requires Consistent(all, allNext) && Consistent(mid, midNext) && SubPool(mid, all) && i < |tx.vin|
    requires forall h :: h in all ==> (h in mid <==> !Displaced(all, tx, i, h))
    requires tx.vin[i] in midNext ==> midNext[tx.vin[i]].tx in mid && mid[midNext[tx.vin[i]].tx] == tx
    ensures forall h :: h in all ==> (h in mid <==> !Displaced(all, tx, i + 1, h))
  {
    hide Consistent, Descendant, Spends;
    forall h | h in all && Displaced(all, tx, i + 1, h) ensures Displaced(all, tx, i, h) {
      var k, c :| 0 <= k < i + 1 && Rival(all, tx, k, c) && Descendant(all, c, h);
      if k == i {
        if c in mid {
          SpenderKnown(mid, midNext, c, tx.vin[i]);
        }
        DisplacedClosed(all, tx, i, c, h);
      }
    }
  }

  lemma DisplacedNext(all: Txs, allNext: Spenders, tx: Tx, i: nat, c: Hash, h: Hash)
    requires Consistent(all, allNext) && Rival(all, tx, i, c)
    ensures Displaced(all, tx, i + 1, h) <==> Displaced(all, tx, i, h) || Descendant(all, c, h)
  {
    hide Consistent, Descendant;
    if Displaced(all, tx, i + 1, h) {
      var k, r :| 0 <= k < i + 1 && Rival(all, tx, k, r) && Descendant(all, r, h);
      if k == i {
        SpenderKnown(all, allNext, c, tx.vin[i]);
        SpenderKnown(all, allNext, r, tx.vin[i]);
      }
    }
  }

  lemma NewRival(all: Txs, allNext: Spenders, mid: Txs, txs: Txs, tx: Tx, i: nat, c: Hash)
    requires Consistent(all, allNext) && SubPool(mid, all) && Detached(all, mid) && i < |tx.vin|
    requires forall h :: h in all ==> (h in mid <==> !Displaced(all, tx, i, h))
    requires c in mid && mid[c] != tx && Spends(mid[c], tx.vin[i]) && Pruned(mid, txs, c)
    ensures SubPool(txs, all) && Detached(all, txs)
    ensures forall h :: h in all ==> (h in txs <==> !Displaced(all, tx, i + 1, h))
  {
    hide Consistent, Descendant, Detached, Displaced, Child;
    PrunedDetached(mid, txs, c);
    DetachedTransitive(all, mid, txs);
    forall h | h in all ensures h in txs <==> !Displaced(all, tx, i + 1, h) {
      DisplacedNext(all, allNext, tx, i, c, h);
      if h in mid {
        DetachedDescendant(all, mid, c, h);
      }
    }
  }

  lemma NoRivalLeft(all: Txs, txs: Txs, tx: Tx)
    requires SubPool(txs, all) && forall h :: h in all ==> (h in txs <==> !Displaced(all, tx, |tx.vin|, h))
    ensures forall h, o :: h in txs && Spends(txs[h], o) && Spends(tx, o) ==> txs[h] == tx
  {
    forall h, o | h in txs && Spends(txs[h], o) && Spends(tx, o) ensures txs[h] == tx {
      var k :| 0 <= k < |tx.vin| && tx.vin[k] == o;
      if txs[h] != tx {
        DescendantSelf(all, h);
        assert Rival(all, tx, k, h);
      }
    }
  }

  // ------------------------------------------------ one transaction in, one out

  /** The first `n` inputs of a transaction. */
  ghost function Inputs(tx: Tx, n: nat): set<OutPoint>
    requires n <= |tx.vin|
  {
    set o | o in tx.vin[..n]
  }

  lemma InputsStep(next: Spenders, tx: Tx, n: nat)
    requires n <= |tx.vin|
    ensures next - Inputs(tx, 0) == next
    ensures n < |tx.vin| ==> next - Inputs(tx, n) - {tx.vin[n]} == next - Inputs(tx, n + 1)
  {
    assert Inputs(tx, 0) == {};
    if n < |tx.vin| {
      assert tx.vin[..n + 1] == tx.vin[..n] + [tx.vin[n]];
    }
  }

  /** The entries for the first `n` inputs. */
  ghost function WithInputs(next: Spenders, tx: Tx, n: nat): Spenders
    requires n <= |tx.vin|
  {
    if n == 0 then next else WithInputs(next, tx, n - 1)[tx.vin[n - 1] := InPoint(tx.id, n - 1)]
  }

  lemma {:induction false} NewEntry(next: Spenders, tx: Tx, n: nat, k: nat)
    requires k < n <= |tx.vin| && Distinct(tx.vin)
    ensures tx.vin[k] in WithInputs(next, tx, n) && WithInputs(next, tx, n)[tx.vin[k]] == InPoint(tx.id, k)
  {
    if k < n - 1 {
      NewEntry(next, tx, n - 1, k);
    }
  }

  lemma {:induction false} OldEntry(next: Spenders, tx: Tx, n: nat, o: OutPoint)
    requires n <= |tx.vin| && o !in tx.vin
    ensures o in WithInputs(next, tx, n) <==> o in next
    ensures o in next ==> WithInputs(next, tx, n)[o] == next[o]
  {
    if n > 0 {
      OldEntry(next, tx, n - 1, o);
    }
  }

  lemma AddedInput(txs: Txs, next: Spenders, tx: Tx, h: Hash, i: nat)
    requires Consistent(txs, next) && tx.id !in txs && Distinct(tx.vin) && h in txs[tx.id := tx]
    requires (forall i :: 0 <= i < |tx.vin| ==> tx.vin[i] !in next) && i < |txs[tx.id := tx][h].vin|
    ensures
      var o, r := txs[tx.id := tx][h].vin[i], WithInputs(next, tx, |tx.vin|);
      o in r && r[o] == InPoint(h, i)
  {
    hide WithInputs, Distinct;
    if h == tx.id {
      NewEntry(next, tx, |tx.vin|, i);
    } else {
      assert txs[h].vin[i] in next;
      OldEntry(next, tx, |tx.vin|, txs[h].vin[i]);
    }
  }

  lemma AddedSpender(txs: Txs, next: Spenders, tx: Tx, o: OutPoint)
    requires Consistent(txs, next) && tx.id !in txs && Distinct(tx.vin) && o in WithInputs(next, tx, |tx.vin|)
    ensures
      var all, s := txs[tx.id := tx], WithInputs(next, tx, |tx.vin|)[o];
      s.tx in all && s.n < |all[s.tx].vin| && all[s.tx].vin[s.n] == o
  {
    hide WithInputs, Distinct;
    if o in tx.vin {
      var k :| 0 <= k < |tx.vin| && tx.vin[k] == o;
      NewEntry(next, tx, |tx.vin|, k);
    } else {
      OldEntry(next, tx, |tx.vin|, o);
    }
  }

  lemma AddConsistent(txs: Txs, next: Spenders, tx: Tx)
    requires Consistent(txs, next) && tx.id !in txs && Distinct(tx.vin)
    requires forall i :: 0 <= i < |tx.vin| ==> tx.vin[i] !in next
    ensures Consistent(txs[tx.id := tx], WithInputs(next, tx, |tx.vin|))
  {
    hide WithInputs, Distinct, Recorded, Spending;
    AddRecorded(txs, next, tx);
    AddSpending(txs, next, tx);
  }

  lemma AddRecorded(txs: Txs, next: Spenders, tx: Tx)
    requires Consistent(txs, next) && tx.id !in txs && Distinct(tx.vin)
    requires forall i :: 0 <= i < |tx.vin| ==> tx.vin[i] !in next
    ensures Recorded(txs[tx.id := tx], WithInputs(next, tx, |tx.vin|))
  {
    hide Consistent, WithInputs, Distinct;
    var all, r := txs[tx.id := tx], WithInputs(next, tx, |tx.vin|);
    forall h, i | h in all && 0 <= i < |all[h].vin| ensures all[h].vin[i] in r && r[all[h].vin[i]] == InPoint(h, i) {
      AddedInput(txs, next, tx, h, i);
    }
  }

  lemma AddSpending(txs: Txs, next: Spenders, tx: Tx)
    requires Consistent(txs, next) && tx.id !in txs && Distinct(tx.vin)
    ensures Spending(txs[tx.id := tx], WithInputs(next, tx, |tx.vin|))
  {
    hide Consistent, WithInputs, Distinct;
    var all, r := txs[tx.id := tx], WithInputs(next, tx, |tx.vin|);
    forall o | o in r ensures r[o].tx in all && r[o].n < |all[r[o].tx].vin| && all[r[o].tx].vin[r[o].n] == o {
      AddedSpender(txs, next, tx, o);
    }
  }

  lemma EraseConsistent(txs: Txs, next: Spenders, tx: Tx)
    requires Consistent(txs, next) && tx.id in txs && txs[tx.id] == tx
    ensures Consistent(txs - {tx.id}, next - Inputs(tx, |tx.vin|))
  {
    var gone := Inputs(tx, |tx.vin|);
    assert tx.vin[..|tx.vin|] == tx.vin;
    forall h, i | h in txs && h != tx.id && 0 <= i < |txs[h].vin| ensures txs[h].vin[i] !in gone {
      var o := txs[h].vin[i];
      assert next[o] == InPoint(h, i);
      forall k | 0 <= k < |tx.vin| ensures tx.vin[k] != o {
        assert next[tx.vin[k]] == InPoint(tx.id, k);
      }
    }
    forall o | o in next && next[o].tx == tx.id ensures o in gone {
      assert tx.vin[next[o].n] == o;
    }
  }

  class Pool {
    var txs: Txs
    var next: Spenders

    ghost predicate Valid()
      reads this
    {
      Consistent(txs, next)
    }

    constructor ()
      ensures Valid() && txs == map[] && next == map[]
    {
      txs, next := map[], map[];
    }

    /** Add without checking; `Accept` has established what is required here. */
    method AddUnchecked(tx: Tx)
      requires Valid() && tx.id !in txs && Distinct(tx.vin)
      requires forall i :: 0 <= i < |tx.vin| ==> tx.vin[i] !in next
      modifies this
      ensures Valid() && txs == old(txs)[tx.id := tx]
    {
      hide Consistent, Distinct;
      txs := txs[tx.id := tx];
      var i := 0;
      while i < |tx.vin|
        invariant 0 <= i <= |tx.vin| && txs == old(txs)[tx.id := tx]
        invariant next == WithInputs(old(next), tx, i)
      {
        next := next[tx.vin[i] := InPoint(tx.id, i)];
        i := i + 1;
      }
      AddConsistent(old(txs), old(next), tx);
    }

    /** `accept`: `otherwiseOk` stands for the checks that do not concern the pool. */
    method Accept(tx: Tx, otherwiseOk: Tx -> bool) returns (ok: bool)
      requires Valid()
      modifies this
      ensures Valid()
      ensures ok <==> && Distinct(tx.vin) && !tx.IsCoinBase() && !tx.IsCoinStake() && otherwiseOk(tx)
                      && tx.id !in old(txs) && (forall h, o :: h in old(txs) && Spends(tx, o) ==> !Spends(old(txs)[h], o))
      ensures ok ==> txs == old(txs)[tx.id := tx]
      ensures !ok ==> txs == old(txs) && next == old(next)
    {
      if !Distinct(tx.vin) || tx.IsCoinBase() || tx.IsCoinStake() || tx.id in txs {
        return false;
      }
      var i := 0;
      while i < |tx.vin|
        invariant 0 <= i <= |tx.vin|
        invariant forall k :: 0 <= k < i ==> tx.vin[k] !in next
      {
        if tx.vin[i] in next {
          ghost var h := next[tx.vin[i]].tx;
          assert Spends(tx, tx.vin[i]) && Spends(txs[h], tx.vin[i]);
          return false;
        }
        i := i + 1;
      }
      assert forall h, o :: h in txs && Spends(tx, o) ==> !Spends(txs[h], o);
      if !otherwiseOk(tx) {
        return false;
      }
      AddUnchecked(tx);
      return true;
    }

    /** Take one transaction and the entries for its inputs out. */
    method Erase(tx: Tx)
      requires Valid() && tx.id in txs && txs[tx.id] == tx
      modifies this
      ensures Valid() && txs == old(txs) - {tx.id}
      ensures forall o :: o in next ==> o in old(next)
    {
      hide Consistent, Inputs;
      var i := 0;
      InputsStep(next, tx, 0);
      while i < |tx.vin|
        invariant 0 <= i <= |tx.vin| && txs == old(txs)
        invariant next == old(next) - Inputs(tx, i)
      {
        InputsStep(old(next), tx, i);
        next := next - {tx.vin[i]};
        i := i + 1;
      }
      txs := txs - {tx.id};
      EraseConsistent(old(txs), old(next), tx);
    }

    /** The recursive part of `remove`: for each output, remove the transaction that spends it. */
    method RemoveDependents(tx: Tx, ghost rank: Hash -> nat)
      requires Valid() && Acyclic(txs, rank) && tx.id in txs && txs[tx.id] == tx
      modifies this
      ensures Valid() && tx.id in txs && Removing(old(txs), txs, tx.id)
      ensures forall y :: Child(old(txs), tx.id, y) ==> y !in txs
      ensures forall o :: o in next ==> o in old(next)
      decreases Room(txs, rank, rank(tx.id)), 0
    {
      hide Consistent, Removing, Pruned, Acyclic, Child;
      RemovingStarts(txs, tx.id);
      var i := 0;
      while i < |tx.vout|
        invariant 0 <= i <= |tx.vout| && Valid() && tx.id in txs && Removing(old(txs), txs, tx.id)
        invariant forall k :: 0 <= k < i ==> OutPoint(tx.id, k) !in next
        invariant forall o :: o in next ==> o in old(next)
      {
        var o := OutPoint(tx.id, i);
        if o in next {
          ghost var mid, midNext := txs, next;
          SpenderIsChild(old(txs), mid, midNext, rank, tx.id, o);
          var child := txs[next[o].tx];
          Remove(child, true, rank);
          RemovingStep(old(txs), mid, txs, tx.id, child.id);
          StaysPooled(mid, txs, rank, tx.id, child.id);
          SpenderGone(mid, midNext, txs, next, child.id, o);
        }
        i := i + 1;
      }
      ChildrenGone(old(txs), txs, next, tx.id);
    }

    /** `remove`: alone, or with everything in the pool that depends on it. */
    method Remove(tx: Tx, recursive: bool, ghost rank: Hash -> nat)
      requires Valid() && Acyclic(txs, rank) && (tx.id in txs ==> txs[tx.id] == tx)
      modifies this
      ensures Valid() && forall o :: o in next ==> o in old(next)
      ensures tx.id !in old(txs) ==> txs == old(txs) && next == old(next)
      ensures tx.id in old(txs) && !recursive ==> txs == old(txs) - {tx.id}
      ensures tx.id in old(txs) && recursive ==> Pruned(old(txs), txs, tx.id)
      decreases Room(txs, rank, rank(tx.id)), 1
    {
      if tx.id !in txs {
        return;
      }
      if recursive {
        RemoveDependents(tx, rank);
      }
      ghost var mid := txs;
      Erase(tx);
      if recursive {
        RemovingDone(old(txs), mid, tx.id);
      }
    }

    /** `removeConflicts`: whoever else spends an input of `tx` goes, with its dependents. */
    method RemoveConflicts(tx: Tx, ghost rank: Hash -> nat)
      requires Valid() && Acyclic(txs, rank)
      modifies this
      ensures Valid() && SubPool(txs, old(txs))
      ensures forall h, o :: h in txs && Spends(txs[h], o) && Spends(tx, o) ==> txs[h] == tx
      ensures forall h :: h in old(txs) ==> (h in txs <==> !Displaced(old(txs), tx, |tx.vin|, h))
    {
      hide Consistent, Acyclic, Displaced, Descendant, Detached, Pruned;
      ghost var all, allNext := txs, next;
      DisplacedNone(all, tx);
      var i := 0;
      while i < |tx.vin|
        invariant 0 <= i <= |tx.vin| && Valid() && SubPool(txs, all) && Detached(all, txs)
        invariant forall h :: h in all ==> (h in txs <==> !Displaced(all, tx, i, h))
      {
        ghost var mid, midNext := txs, next;
        if tx.vin[i] in next {
          SpenderPooled(all, txs, next, rank, tx.vin[i]);
          var conflict := txs[next[tx.vin[i]].tx];
          if conflict != tx {
            Remove(conflict, true, rank);
            NewRival(all, allNext, mid, txs, tx, i, conflict.id);
          } else {
            NoNewRival(all, allNext, mid, midNext, tx, i);
          }
        } else {
          NoNewRival(all, allNext, mid, midNext, tx, i);
        }
        i := i + 1;
      }
      NoRivalLeft(all, txs, tx);
    }
  }
}
