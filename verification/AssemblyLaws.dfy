/** What the miner's loop takes, said without the loop, and that `ConnectBlock` accepts what it assembled. */
module AssemblyLaws {
  import opened Basics
  import opened Ledger
  import opened BlockConnect
  import opened MoneySupply
  import opened BlockRules
  import opened BlockAssembly

  /**
   A transaction is taken at its turn exactly when the block stays below its limits with it, the miner deems it worthy, and
   it may stand after those already taken: every input free and signed, and the balance right.
   */
  lemma TakenIff(m: Miner, db: Index, src: Source, txs: seq<Tx>, tx: Tx)
    requires ConnectList(db, txs).Some? && !tx.IsCoinStake()
    ensures
      var view, size := ConnectList(db, txs).value, 1000 + SizeOf(txs);
      TakenAfter(m, db, src, txs, tx) <==>
        && size + tx.size < m.maxSize && m.worthy(tx, size)
        && 100 + SigOpsOf(m, txs) + tx.sigOps + m.p2shSigOps(tx) < 20000
        && InputsFree(m.rules, src, view, tx) && Balanced(m.rules, m.fork, tx, Brought(src, view, tx.vin))
  {
    hide Lookup, InRange, SpendAll, Spendable, InputsFree, InputsOk, SignaturesOk, ValueOut, ValueIn, Brought, Claim,
      ClaimShapeOk, FetchedOf, SigOpsOf, SizeOf, ConnectList;
    var view := ConnectList(db, txs).value;
    if Fetchable(view, src, tx.vin) {
      InputsFreeIff(m.rules, src, view, tx, IN_POOL);
      AllFetched(src, view, tx.vin);
      BroughtIs(src, view, FetchedOf(view, src, tx.vin), tx.vin);
    } else {
      NotFree(m.rules, src, view, tx);
    }
  }

  /** What is selected is final, neither coinbase nor coinstake, and was worthy at the size the block then had. */
  lemma SelectedAre(m: Miner, db: Index, src: Source, txs: seq<Tx>, seen: set<Hash>, i: nat)
    requires Selection(m, src, txs) && Justified(m, db, src, txs, seen) && i < |txs|
    ensures m.isFinal(txs[i]) && !txs[i].IsCoinBase() && !txs[i].IsCoinStake() && m.worthy(txs[i], 1000 + SizeOf(txs[..i]))
  {
    hide ConnectList, SizeOf, Fetchable, ConnectInputsOk, QposOk;
    assert txs[i] in txs;
    assert TakenAfter(m, db, src, txs[..i], txs[i]);
  }

  /** A final transaction that spends only outputs on chain and passes the feework check has its turn. */
  lemma HasItsTurn(m: Miner, db: Index, src: Source, s: Sched, txs: seq<Tx>, seen: set<Hash>, h: Hash)
    requires SchedOk(m, db, src.pool, s, src.pool.Keys, Ids(txs), seen) && s.queue == [] && h in src.pool
    requires m.isFinal(src.pool[h]) && !src.pool[h].IsCoinBase() && !src.pool[h].IsCoinStake() && m.feeworkOk(src.pool[h])
    requires forall o :: o in src.pool[h].vin ==> o.hash in db
    ensures h in seen
  {
    hide SchedOk;
    assert Waits(db, src.pool[h]) == {};
    if h !in seen {
      DrainedIsComplete(m, db, src.pool, s, Ids(txs), seen, h);
    }
  }

  // ------------------------------------------------ from the miner's index to the block's

  /** Verdicts on an input look at the transaction it spends, not at where that is stored, and the counts agree. */
  ghost predicate Blind(m: Miner) {
    && (forall tx, o, p: Prev, q: Prev :: p.tx == q.tx ==> m.rules.inputOk(tx, o, p) == m.rules.inputOk(tx, o, q))
    && (forall tx, inputs :: m.rules.p2shSigOps(tx, inputs) == m.p2shSigOps(tx))
  }

  /** The same earlier transaction is found under both indexes. */
  lemma SamePrev(db: Index, src: Source, src': Source, b: Block, i: nat, h: Hash)
    requires PoolSound(db, src) && Written(src, src', b) && i <= |b.vtx| && FromPool(src, b.vtx)
    requires ConnectList(db, b.vtx[..i]).Some? && ConnectTxs(db, b, i).Some?
    requires Lookup(ConnectList(db, b.vtx[..i]).value, src, true, h).Some?
    ensures
      var p, q := Lookup(ConnectList(db, b.vtx[..i]).value, src, true, h), Lookup(ConnectTxs(db, b, i).value, src', true, h);
      q.Some? && q.value.tx == p.value.tx
  {
    hide ConnectList, ConnectTxs, PosOf;
    var front, v, w := b.vtx[..i], ConnectList(db, b.vtx[..i]).value, ConnectTxs(db, b, i).value;
    assert FromPool(src, front);
    ListKeys(db, front);
    ConnectTxsKeys(db, b, i);
    RecordAfter(db, b, i, h);
    if h in db {
      OldRecord(db, src, front, h);
      assert h !in src.pool;
      forall k | 0 <= k < i ensures b.vtx[k].id != h {
        assert b.vtx[k] in b.vtx;
      }
    } else {
      NewRecord(db, src, front, h);
      var k :| 0 <= k < i && b.vtx[k].id == h && w[h].pos == PosOf(b, k);
      assert b.vtx[k] in b.vtx;
    }
  }

  lemma {:induction false} SameBrought(db: Index, src: Source, src': Source, b: Block, i: nat, vin: seq<OutPoint>)
    requires PoolSound(db, src) && Written(src, src', b) && i <= |b.vtx| && FromPool(src, b.vtx)
    requires ConnectList(db, b.vtx[..i]).Some? && ConnectTxs(db, b, i).Some?
    requires forall o :: o in vin ==> Lookup(ConnectList(db, b.vtx[..i]).value, src, true, o.hash).Some?
    ensures Brought(src', ConnectTxs(db, b, i).value, vin) == Brought(src, ConnectList(db, b.vtx[..i]).value, vin)
    decreases |vin|
  {
    hide ConnectList, ConnectTxs, Lookup, PoolSound, Written;
    if vin != [] {
      SameBrought(db, src, src', b, i, vin[..|vin| - 1]);
      assert vin[|vin| - 1] in vin;
      SamePrev(db, src, src', b, i, vin[|vin| - 1].hash);
    }
  }

  /** A transaction that may stand in the miner's list may stand in the block. */
  lemma StandsInBlock(m: Miner, db: Index, src: Source, src': Source, b: Block, i: nat)
    requires PoolSound(db, src) && Written(src, src', b) && i < |b.vtx| && FromPool(src, b.vtx) && Blind(m)
    requires ConnectList(db, b.vtx[..i]).Some? && ConnectTxs(db, b, i).Some? && !b.vtx[i].IsCoinBase()
    requires SpendAll(ConnectTxs(db, b, i).value, b.vtx[i].vin, PosOf(b, i)).Some?
    requires Fetchable(ConnectTxs(db, b, i).value, src', b.vtx[i].vin)
    requires
      var view := ConnectList(db, b.vtx[..i]).value;
      && InputsFree(m.rules, src, view, b.vtx[i])
      && Balanced(m.rules, m.fork, b.vtx[i], Brought(src, view, b.vtx[i].vin))
    ensures TxOk(m.rules, src', m.fork, db, b, i)
  {
    hide ConnectList, ConnectTxs, Lookup, PoolSound, Written, SpendAll, PosOf, Balanced, Brought, Spendable, InRange;
    var v, w, tx := ConnectList(db, b.vtx[..i]).value, ConnectTxs(db, b, i).value, b.vtx[i];
    RealPos(b, i);
    SpendAllIff(w, tx.vin, PosOf(b, i));
    forall o | o in tx.vin
      ensures
        var prev := Lookup(w, src', true, o.hash);
        prev.Some? && m.rules.inputOk(tx, o, prev.value) && m.rules.signatureOk(tx, o, prev.value.tx)
    {
      SamePrev(db, src, src', b, i, o.hash);
    }
    SameBrought(db, src, src', b, i, tx.vin);
  }

  lemma {:induction false} SameSigOps(m: Miner, db: Index, src': Source, b: Block, n: nat)
    requires Blind(m) && n <= |b.vtx|
    ensures TotalSigOps(m.rules, src', db, b, n) <= SigOpsOf(m, b.vtx[..n])
  {
    hide ConnectTxs;
    if n > 0 {
      SameSigOps(m, db, src', b, n - 1);
      assert b.vtx[..n][..n - 1] == b.vtx[..n - 1];
    }
  }

  /** The selection alone, as the block of a qPoS miner. */
  lemma SelectionAssembled(m: Miner, db: Index, src: Source, b: Block)
    requires PoolSound(db, src) && Selection(m, src, b.vtx) && ConnectList(db, b.vtx).Some?
    ensures Assembled(db, src, b, 0) && Taken(b.vtx[..0]) == {} && b.vtx[0..] == b.vtx
  {
    hide PoolSound, ConnectTx;
    assert b.vtx[0..] == b.vtx && b.vtx[..0] == [];
    assert ConnectList(db, []) == Some(db);
  }

  /** Every transaction of the block may stand where it stands. */
  lemma AllStand(m: Miner, db: Index, src: Source, src': Source, b: Block, seen: set<Hash>, i: nat)
    requires PoolSound(db, src) && Selection(m, src, b.vtx) && ConnectList(db, b.vtx).Some? && Written(src, src', b)
    requires Justified(m, db, src, b.vtx, seen) && Blind(m) && i < |b.vtx|
    ensures TxOk(m.rules, src', m.fork, db, b, i)
  {
    hide ConnectList, ConnectTxs, PoolSound, Written, SpendAll, PosOf, Balanced, Brought, InputsFree, Taken, Assembled,
      Fetchable, TakenAfter, TxOk, Blind, SigOpsOf, SizeOf;
    SelectionAssembled(m, db, src, b);
    AssembledBlockConnects(db, src, src', b, 0, i);
    ListPrefix(db, b.vtx, i);
    var tx := b.vtx[i];
    assert tx in b.vtx && Eligible(m, tx);
    TakenIff(m, db, src, b.vtx[..i], tx);
    StandsInBlock(m, db, src, src', b, i);
  }

  /**
   `ConnectBlock` accepts the block a qPoS miner assembles from its selection, under the rules it selected by. The premises are
   that the block itself is in order, that verdicts look at transactions only, and that its transactions are written to disk.
   */
  lemma AssembledAccepted(m: Miner, db: Index, src: Source, src': Source, b: Block, d: Draft, seen: set<Hash>,
                          bestHeight: int, supply: int)
    requires PoolSound(db, src) && DraftOk(m, db, d) && Selection(m, src, d.txs) && Justified(m, db, src, d.txs, seen)
    requires b.vtx == d.txs && b.qpos && Written(src, src', b) && Blind(m)
    requires m.rules.fork(b.height) >= FORK_QPOS && m.fork == m.rules.fork(bestHeight + 1) && m.rules.blockOk(b, bestHeight)
    ensures Connect(m.rules, src', db, b, bestHeight, supply).Some?
  {
    hide ConnectList, TxOk, Written, Justified, Connect, TotalSigOps, SigOpsOf, SizeOf, Blind;
    forall i | 0 <= i < |b.vtx| ensures TxOk(m.rules, src', m.fork, db, b, i) {
      AllStand(m, db, src, src', b, seen, i);
    }
    assert b.vtx[..|b.vtx|] == b.vtx;
    SameSigOps(m, db, src', b, |b.vtx|);
    assert SigOpsOf(m, b.vtx) <= 20000 by {
      FewOps(m, db, d);
    }
    assert FreshIds(db, b) by {
      PoolIsFresh(m, db, src, b);
    }
    assert RightShape(b, m.rules.fork(b.height)) by {
      PlainShape(m, src, b, m.rules.fork(b.height));
    }
    ConnectIff(m.rules, src', db, b, bestHeight, supply);
  }

  lemma FewOps(m: Miner, db: Index, d: Draft)
    requires DraftOk(m, db, d)
    ensures SigOpsOf(m, d.txs) <= 20000
  {
    hide ConnectList;
  }

  lemma PoolIsFresh(m: Miner, db: Index, src: Source, b: Block)
    requires PoolSound(db, src) && Selection(m, src, b.vtx)
    ensures FreshIds(db, b)
  {
    forall i | 0 <= i < |b.vtx| ensures b.vtx[i].id !in db {
      assert b.vtx[i] in b.vtx;
    }
  }

  lemma PlainShape(m: Miner, src: Source, b: Block, fork: int)
    requires Selection(m, src, b.vtx) && b.qpos && fork >= FORK_QPOS
    ensures RightShape(b, fork)
  {
    forall i | 0 <= i < |b.vtx| ensures !b.vtx[i].IsCoinBase() && !b.vtx[i].IsCoinStake() {
      assert b.vtx[i] in b.vtx;
    }
  }
}
