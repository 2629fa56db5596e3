/**
 Why a branch never takes an id twice, although BIP 30 would let a fully spent one be taken again:
 a second transaction of the same id would have to spend the same inputs.
 */
module TxIds {
  import opened Basics
  import opened Ledger

  /** Ids name transactions without collisions, and a coinbase carries the height of its block. */
  datatype Naming = Naming(content: Hash -> Tx, height: Tx -> int)

  /** What the transaction and block checks have established of a block at `height`. */
  ghost predicate Checked(names: Naming, b: Block, height: int) {
    forall i :: 0 <= i < |b.vtx| ==>
      && names.content(b.vtx[i].id) == b.vtx[i] && |b.vtx[i].vin| > 0
      && (b.vtx[i].IsCoinBase() ==> names.height(b.vtx[i]) == height)
  }

  predicate Spent(view: Index, o: OutPoint) {
    o.hash in view && o.n < |view[o.hash].spent| && !view[o.hash].spent[o.n].NullPos?
  }

  /** Coinbases are of blocks up to `height`; everything else has all its inputs marked as spent. */
  ghost predicate SettledAt(view: Index, names: Naming, height: int, x: Hash) {
    var tx := names.content(x);
    if tx.IsCoinBase() then names.height(tx) <= height
    else forall o :: o in tx.vin ==> Spent(view, o)
  }

  ghost predicate Settled(view: Index, names: Naming, height: int) {
    forall x :: x in view ==> SettledAt(view, names, height, x)
  }

  /** A transaction whose id is in a settled index cannot be connected again. */
  lemma NotAgain(view: Index, names: Naming, height: int, tx: Tx, p: TxPos)
    requires Settled(view, names, height) && names.content(tx.id) == tx && |tx.vin| > 0 && p != NullPos
    requires !tx.IsCoinBase() && SpendAll(view, tx.vin, p).Some?
    ensures tx.id !in view
  {
    if tx.id in view {
      assert SettledAt(view, names, height, tx.id);
      assert tx.vin[0] in tx.vin;
      SpendableInput(view, tx.vin, p, tx.vin[0]);
      assert false;
    }
  }

  lemma SpentStays(view: Index, vin: seq<OutPoint>, p: TxPos, o: OutPoint)
    requires SpendAll(view, vin, p).Some? && p != NullPos && o.hash in view
    ensures Spent(view, o) || o in vin ==> Spent(SpendAll(view, vin, p).value, o)
  {
    SpendAllAt(view, vin, p, o.hash);
    if o in vin {
      SpendableInput(view, vin, p, o);
      assert OutPoint(o.hash, o.n) == o;
    }
  }

  /** Connecting a transaction with a new id keeps the index settled. */
  lemma ConnectSettles(view: Index, names: Naming, height: int, tx: Tx, p: TxPos)
    requires Settled(view, names, height) && names.content(tx.id) == tx && p != NullPos && tx.id !in view
    requires ConnectTx(view, tx, p).Some? && (tx.IsCoinBase() ==> names.height(tx) <= height)
    ensures Settled(ConnectTx(view, tx, p).value, names, height)
  {
    hide SpendAll;
    var v := ConnectTx(view, tx, p).value;
    if !tx.IsCoinBase() {
      SpendAllKeys(view, tx.vin, p);
    }
    forall x | x in v ensures SettledAt(v, names, height, x) {
      var earlier := names.content(x);
      if !earlier.IsCoinBase() {
        forall o | o in earlier.vin ensures Spent(v, o) {
          assert x != tx.id ==> SettledAt(view, names, height, x);
          if !tx.IsCoinBase() {
            SpentStays(view, tx.vin, p, o);
          }
        }
      } else {
        assert x != tx.id ==> SettledAt(view, names, height, x);
      }
    }
  }

  lemma {:induction false} BlockSettles(db: Index, names: Naming, b: Block, height: int, n: nat)
    requires n <= |b.vtx| && IdsAdmissible(db, b.vtx) && ConnectTxs(db, b, n).Some?
    requires Settled(db, names, height - 1) && Checked(names, b, height)
    ensures Settled(ConnectTxs(db, b, n).value, names, height) && db.Keys !! Ids(b.vtx[..n])
  {
    hide ConnectTx, SettledAt;
    if n == 0 {
      forall x | x in db ensures SettledAt(db, names, height, x) {
        Later(db, names, height, x);
      }
    } else {
      BlockSettles(db, names, b, height, n - 1);
      var v, tx, p := ConnectTxs(db, b, n - 1).value, b.vtx[n - 1], PosOf(b, n - 1);
      ConnectTxsKeys(db, b, n - 1);
      IdNotBefore(b.vtx, n);
      IdsStep(b.vtx, n);
      NewId(db, v, names, height, tx, p);
      ConnectSettles(v, names, height, tx, p);
    }
  }

  lemma Later(db: Index, names: Naming, height: int, x: Hash)
    requires SettledAt(db, names, height - 1, x)
    ensures SettledAt(db, names, height, x)
  {
  }

  lemma NewId(db: Index, view: Index, names: Naming, height: int, tx: Tx, p: TxPos)
    requires Settled(db, names, height - 1) && Settled(view, names, height) && db.Keys <= view.Keys
    requires names.content(tx.id) == tx && |tx.vin| > 0 && (tx.IsCoinBase() ==> names.height(tx) == height)
    requires p != NullPos && ConnectTx(view, tx, p).Some?
    ensures tx.id !in db
  {
    if tx.IsCoinBase() {
      assert tx.id in db ==> SettledAt(db, names, height - 1, tx.id);
    } else {
      NotAgain(view, names, height, tx, p);
    }
  }

  /** A block on a settled index brings new ids only, and leaves a settled index. */
  lemma BlockIdsAreNew(db: Index, names: Naming, b: Block, height: int)
    requires Apply(db, b).Some? && Settled(db, names, height - 1) && Checked(names, b, height)
    ensures db.Keys !! Ids(b.vtx) && Settled(Apply(db, b).value, names, height)
  {
    assert b.vtx[..|b.vtx|] == b.vtx;
    BlockSettles(db, names, b, height, |b.vtx|);
  }
}
