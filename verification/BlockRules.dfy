/** Which blocks `ConnectBlock` accepts, said of the block as a whole, and what the totals it keeps come to. */
module BlockRules {
  import opened Basics
  import opened Ledger
  import opened BlockConnect
  import opened MoneySupply

  // --------------------------------------------------------------- spending

  /** A list of outpoints can be spent exactly when it names none twice and each is there unspent. */
  lemma {:induction false} SpendAllIff(view: Index, vin: seq<OutPoint>, p: TxPos)
    requires p != NullPos
    ensures SpendAll(view, vin, p).Some? <==> Distinct(vin) && forall o :: o in vin ==> Spendable(view, o)
    decreases |vin|
  {
    if SpendAll(view, vin, p).Some? {
      SpendAllDistinct(view, vin, p);
      forall o | o in vin ensures Spendable(view, o) {
        SpendableInput(view, vin, p, o);
      }
    }
    if vin != [] && Distinct(vin) && forall o :: o in vin ==> Spendable(view, o) {
      var front, o := vin[..|vin| - 1], vin[|vin| - 1];
      SpendAllIff(view, front, p);
      SpendAllKeys(view, front, p);
      assert o in vin && Spendable(view, o);
      SpendAllAt(view, front, p, o.hash);
      assert o !in front;
      assert OutPoint(o.hash, o.n) == o;
    }
  }

  // ---------------------------------------------------------------- fetching

  /** What is stored under a position or in the pool is the transaction the index or the pool names. */
  ghost predicate Honest(view: Index, src: Source) {
    && (forall h :: h in view && view[h].pos != IN_POOL && view[h].pos in src.disk ==> src.disk[view[h].pos].id == h)
    && (forall h :: h in src.pool ==> src.pool[h].id == h)
  }

  /**
   Fetching finds the transaction named and the record in force. For blocks and the miner nothing outside the index is
   found; for the pool, a pooled parent counts as unspent. It fails only when there is nothing to find.
   */
  lemma LookupFinds(view: Index, src: Source, strict: bool, h: Hash)
    requires Honest(view, src)
    ensures
      var r := Lookup(view, src, strict, h);
      && (r.Some? ==> r.value.tx.id == h)
      && (h in view ==> (r.Some? <==> if view[h].pos == IN_POOL then h in src.pool else view[h].pos in src.disk))
      && (h in view && r.Some? ==> r.value.index == view[h])
      && (h !in view ==> (r.Some? <==> !strict && h in src.pool))
      && (h !in view && r.Some? ==>
            && |r.value.index.spent| == |r.value.tx.vout|
            && forall k :: 0 <= k < |r.value.index.spent| ==> r.value.index.spent[k] == NullPos)
  {
  }

  // --------------------------------------------------- one transaction of a block

  /** Every input is unspent, named once, mature and signed. */
  ghost predicate InputsFree(rules: Rules, src: Source, view: Index, tx: Tx) {
    && Fetchable(view, src, tx.vin) && Distinct(tx.vin)
    && forall o :: o in tx.vin ==>
         var prev := Lookup(view, src, true, o.hash).value;
         Spendable(view, o) && rules.inputOk(tx, o, prev) && rules.signatureOk(tx, o, prev.tx)
  }

  /** What the inputs of a transaction bring. */
  ghost function Brought(src: Source, view: Index, vin: seq<OutPoint>): int {
    if vin == [] then 0
    else Brought(src, view, vin[..|vin| - 1]) + ValueAt(view, src, vin[|vin| - 1])
  }

  /** A coinstake may gain its reward; anything else must bring, with its claim, what it pays out and registers for. */
  ghost predicate Balanced(rules: Rules, fork: int, tx: Tx, brought: int) {
    var paid := ValueOut(tx.vout);
    if tx.IsCoinStake() then rules.rewardOk(tx, paid - brought)
    else
      && ClaimShapeOk(tx) && rules.claimOk(tx) && rules.purchaseOk(tx, fork)
      && brought + Claim(tx) >= paid + tx.purchases
      && rules.feeOk(tx, brought + Claim(tx) - paid - tx.purchases)
  }

  /** Transaction `i` may stand where it stands, on the index left by those before it. */
  ghost predicate TxOk(rules: Rules, src: Source, fork: int, db: Index, b: Block, i: int)
    requires 0 <= i < |b.vtx|
  {
    var view, tx := ConnectTxs(db, b, i), b.vtx[i];
    view.Some? && (tx.IsCoinBase() || (
      InputsFree(rules, src, view.value, tx) && Balanced(rules, fork, tx, Brought(src, view.value, tx.vin))))
  }

  /** Signature operations of a transaction: its own, and those of the script hashes its inputs pay to. */
  ghost function SigOpsAt(rules: Rules, src: Source, db: Index, b: Block, i: int): nat
    requires 0 <= i < |b.vtx|
  {
    var view, tx := ConnectTxs(db, b, i), b.vtx[i];
    tx.sigOps + (
      if tx.IsCoinBase() || view.None? || !Fetchable(view.value, src, tx.vin) then 0
      else rules.p2shSigOps(tx, FetchedOf(view.value, src, tx.vin)))
  }

  ghost function TotalSigOps(rules: Rules, src: Source, db: Index, b: Block, n: nat): nat
    requires n <= |b.vtx|
  {
    if n == 0 then 0 else TotalSigOps(rules, src, db, b, n - 1) + SigOpsAt(rules, src, db, b, n - 1)
  }

  lemma FetchedAt(src: Source, view: Index, vin: seq<OutPoint>, o: OutPoint)
    requires Fetchable(view, src, vin) && o in vin
    ensures
      var inputs := FetchedOf(view, src, vin);
      o.hash in inputs && Lookup(view, src, true, o.hash) == Some(inputs[o.hash]) && InRange(inputs[o.hash], o.n)
  {
  }

  lemma {:induction false} BroughtIs(src: Source, view: Index, inputs: map<Hash, Prev>, vin: seq<OutPoint>)
    requires forall i :: 0 <= i < |vin| ==> vin[i].hash in inputs && InRange(inputs[vin[i].hash], vin[i].n)
                                            && Lookup(view, src, true, vin[i].hash) == Some(inputs[vin[i].hash])
    ensures ValueIn(inputs, vin) == Brought(src, view, vin)
    decreases |vin|
  {
    if vin != [] {
      BroughtIs(src, view, inputs, vin[..|vin| - 1]);
      var o := vin[|vin| - 1];
      assert InRange(inputs[o.hash], o.n);
    }
  }

  lemma AllFetched(src: Source, view: Index, vin: seq<OutPoint>)
    requires Fetchable(view, src, vin)
    ensures
      var inputs := FetchedOf(view, src, vin);
      forall i :: 0 <= i < |vin| ==> vin[i].hash in inputs && InRange(inputs[vin[i].hash], vin[i].n)
                                     && Lookup(view, src, true, vin[i].hash) == Some(inputs[vin[i].hash])
  {
    forall i | 0 <= i < |vin|
      ensures vin[i].hash in FetchedOf(view, src, vin) && InRange(FetchedOf(view, src, vin)[vin[i].hash], vin[i].n)
              && Lookup(view, src, true, vin[i].hash) == Some(FetchedOf(view, src, vin)[vin[i].hash])
    {
      FetchedAt(src, view, vin, vin[i]);
    }
  }

  lemma InputsFreeIff(rules: Rules, src: Source, view: Index, tx: Tx, p: TxPos)
    requires p != NullPos && Fetchable(view, src, tx.vin)
    ensures
      var inputs := FetchedOf(view, src, tx.vin);
      InputsFree(rules, src, view, tx) <==>
        InputsOk(rules, inputs, tx, tx.vin) && SignaturesOk(rules, inputs, tx, tx.vin) && SpendAll(view, tx.vin, p).Some?
  {
    hide Lookup, InRange, SpendAll, Spendable;
    var inputs := FetchedOf(view, src, tx.vin);
    AllFetched(src, view, tx.vin);
    SpendAllIff(view, tx.vin, p);
    hide FetchedOf;
    if InputsFree(rules, src, view, tx) {
      forall i | 0 <= i < |tx.vin|
        ensures rules.inputOk(tx, tx.vin[i], inputs[tx.vin[i].hash])
                && rules.signatureOk(tx, tx.vin[i], inputs[tx.vin[i].hash].tx)
      {
        assert tx.vin[i] in tx.vin;
      }
    }
  }

  /** The turn of the loop, against what is said of the transaction alone. */
  lemma TurnIff(rules: Rules, src: Source, fork: int, t: Tally, tx: Tx, p: TxPos)
    requires p != NullPos && !tx.IsCoinBase()
    ensures
      var ok := InputsFree(rules, src, t.view, tx) && Balanced(rules, fork, tx, Brought(src, t.view, tx.vin));
      var r := TallySpend(rules, src, fork, t, tx, p);
      && (r.Some? ==> Fetchable(t.view, src, tx.vin))
      && (r.Some? <==> ok && t.sigOps + rules.p2shSigOps(tx, FetchedOf(t.view, src, tx.vin)) <= 20000)
      && (r.Some? ==> r.value.sigOps == t.sigOps + rules.p2shSigOps(tx, FetchedOf(t.view, src, tx.vin)))
  {
    hide Lookup, InRange, SpendAll, Spendable, InputsFree, InputsOk, SignaturesOk, ValueOut, ValueIn, Brought, Claim,
      ClaimShapeOk, FetchedOf;
    if Fetchable(t.view, src, tx.vin) {
      var inputs := FetchedOf(t.view, src, tx.vin);
      InputsFreeIff(rules, src, t.view, tx, p);
      AllFetched(src, t.view, tx.vin);
      BroughtIs(src, t.view, inputs, tx.vin);
    } else {
      NotFree(rules, src, t.view, tx);
    }
  }

  lemma NotFree(rules: Rules, src: Source, view: Index, tx: Tx)
    requires !Fetchable(view, src, tx.vin)
    ensures !InputsFree(rules, src, view, tx)
  {
  }

  // ------------------------------------------------------------- the whole block

  /** The loop gets past `n` transactions exactly when each may stand there and all their operations fit the limit. */
  lemma {:induction false} TallyIff(rules: Rules, src: Source, fork: int, db: Index, b: Block, n: nat)
    requires n <= |b.vtx|
    ensures TallyTxs(rules, src, fork, db, b, n).Some? <==>
              (forall i :: 0 <= i < n ==> TxOk(rules, src, fork, db, b, i)) && TotalSigOps(rules, src, db, b, n) <= 20000
    ensures TallyTxs(rules, src, fork, db, b, n).Some? ==>
              TallyTxs(rules, src, fork, db, b, n).value.sigOps == TotalSigOps(rules, src, db, b, n)
  {
    hide TallyTx, TxOk, SigOpsAt, ConnectTxs, PosOf;
    if n > 0 {
      TallyIff(rules, src, fork, db, b, n - 1);
      if TallyTxs(rules, src, fork, db, b, n - 1).Some? {
        TallyView(rules, src, fork, db, b, n - 1);
        StepIff(rules, src, fork, db, b, n - 1, TallyTxs(rules, src, fork, db, b, n - 1).value);
      }
    }
  }

  lemma StepIff(rules: Rules, src: Source, fork: int, db: Index, b: Block, i: nat, t: Tally)
    requires i < |b.vtx| && ConnectTxs(db, b, i) == Some(t.view) && t.sigOps <= 20000
    ensures
      var r, ops := TallyTx(rules, src, fork, t, b.vtx[i], PosOf(b, i)), SigOpsAt(rules, src, db, b, i);
      && (r.Some? <==> TxOk(rules, src, fork, db, b, i) && t.sigOps + ops <= 20000)
      && (r.Some? ==> r.value.sigOps == t.sigOps + ops)
  {
    hide TallySpend, InputsFree, Balanced, Brought, Fetchable, FetchedOf, ConnectTxs, ValueOut, PosOf;
    RealPos(b, i);
    var tx := b.vtx[i];
    if !tx.IsCoinBase() {
      TurnIff(rules, src, fork, t.(sigOps := t.sigOps + tx.sigOps), tx, PosOf(b, i));
      if !Fetchable(t.view, src, tx.vin) {
        NotFree(rules, src, t.view, tx);
      }
    }
  }

  ghost predicate AllOk(rules: Rules, src: Source, fork: int, db: Index, b: Block) {
    forall i :: 0 <= i < |b.vtx| ==> TxOk(rules, src, fork, db, b, i)
  }

  /** Before fork 8 the first transaction, and no other, is a coinbase; from then on there is neither coinbase nor coinstake. */
  ghost predicate RightShape(b: Block, fork: int) {
    if fork >= 8 then b.qpos && forall i :: 0 <= i < |b.vtx| ==> !b.vtx[i].IsCoinBase() && !b.vtx[i].IsCoinStake()
    else |b.vtx| > 0 && forall i :: 0 <= i < |b.vtx| ==> (b.vtx[i].IsCoinBase() <==> i == 0)
  }

  /** No id twice, and none taken that still has an unspent output. */
  ghost predicate FreshIds(db: Index, b: Block) {
    && (forall i, j :: 0 <= i < |b.vtx| && 0 <= j < |b.vtx| && b.vtx[i].id == b.vtx[j].id ==> i == j)
    && (forall i, o :: 0 <= i < |b.vtx| && Spendable(db, o) ==> b.vtx[i].id != o.hash)
  }

  /**
   `ConnectBlock` accepts a block exactly when the outside checks pass, its shape and ids are right, each transaction may
   stand where it stands, and all signature operations together, script hashes included, are at most 20000.
   */
  lemma ConnectIff(rules: Rules, src: Source, db: Index, b: Block, bestHeight: int, prevSupply: int)
    ensures Connect(rules, src, db, b, bestHeight, prevSupply).Some? <==>
              && rules.blockOk(b, bestHeight) && RightShape(b, rules.fork(b.height)) && FreshIds(db, b)
              && AllOk(rules, src, rules.fork(bestHeight + 1), db, b)
              && TotalSigOps(rules, src, db, b, |b.vtx|) <= 20000
  {
    hide TallyTxs, TxOk, TotalSigOps, Overwritable;
    TallyIff(rules, src, rules.fork(bestHeight + 1), db, b, |b.vtx|);
    ShapeIff(b, rules.fork(b.height));
    IdsIff(db, b);
  }

  lemma ShapeIff(b: Block, fork: int)
    ensures ShapeOk(b, fork) <==> RightShape(b, fork)
  {
    if RightShape(b, fork) && fork >= 8 {
      assert NoBaseOrStake(b);
    }
    if NoBaseOrStake(b) {
      assert forall i :: 0 <= i < |b.vtx| ==> b.vtx[i] in b.vtx;
    }
  }

  lemma IdsIff(db: Index, b: Block)
    ensures IdsAdmissible(db, b.vtx) <==> FreshIds(db, b)
  {
    forall i | 0 <= i < |b.vtx|
      ensures Overwritable(db, b.vtx[i].id) <==> forall o :: Spendable(db, o) ==> b.vtx[i].id != o.hash
    {
      var id := b.vtx[i].id;
      if id in db && !Overwritable(db, id) {
        var k :| 0 <= k < |db[id].spent| && db[id].spent[k].NullPos?;
        assert Spendable(db, OutPoint(id, k));
      }
    }
  }

  // ----------------------------------------------------------- mint and supply

  /** Coins a transaction makes: all of a coinbase, what a coinstake gains. */
  ghost function Made(src: Source, db: Index, b: Block, i: int): int
    requires 0 <= i < |b.vtx|
  {
    var view, tx := ConnectTxs(db, b, i), b.vtx[i];
    if tx.IsCoinBase() then ValueOut(tx.vout)
    else if tx.IsCoinStake() && view.Some? then ValueOut(tx.vout) - Brought(src, view.value, tx.vin)
    else 0
  }

  /** What an ordinary transaction leaves as a fee. */
  ghost function Fee(src: Source, db: Index, b: Block, i: int): int
    requires 0 <= i < |b.vtx|
  {
    var view, tx := ConnectTxs(db, b, i), b.vtx[i];
    if Counts(tx) && view.Some? then Brought(src, view.value, tx.vin) + Claim(tx) - ValueOut(tx.vout) - tx.purchases else 0
  }

  ghost function TotalMade(src: Source, db: Index, b: Block, n: nat): int
    requires n <= |b.vtx|
  {
    if n == 0 then 0 else TotalMade(src, db, b, n - 1) + Made(src, db, b, n - 1)
  }

  ghost function TotalFee(src: Source, db: Index, b: Block, n: nat): int
    requires n <= |b.vtx|
  {
    if n == 0 then 0 else TotalFee(src, db, b, n - 1) + Fee(src, db, b, n - 1)
  }

  lemma StepTotals(rules: Rules, src: Source, fork: int, t: Tally, tx: Tx, p: TxPos)
    requires TallyTx(rules, src, fork, t, tx, p).Some?
    ensures
      var t' := TallyTx(rules, src, fork, t, tx, p).value;
      var paid, brought := ValueOut(tx.vout), Brought(src, t.view, tx.vin);
      var fee := brought + Claim(tx) - paid - tx.purchases;
      if tx.IsCoinBase() then t'.valueOut == t.valueOut + paid && t'.valueIn == t.valueIn && t'.fees == t.fees
      else if tx.IsCoinStake() then
        t'.valueOut == t.valueOut + paid && t'.valueIn == t.valueIn + brought && t'.fees == t.fees
      else t'.valueOut == t.valueOut + paid && t'.valueIn == t.valueIn + brought + Claim(tx) && t'.fees == t.fees + fee
  {
    hide Lookup, SpendAll, InputsOk, SignaturesOk, BalanceOk, ValueOut, Brought, QposOk, FetchedOf, ValueIn;
    if !tx.IsCoinBase() {
      assert Fetchable(t.view, src, tx.vin);
      AllFetched(src, t.view, tx.vin);
      BroughtIs(src, t.view, FetchedOf(t.view, src, tx.vin), tx.vin);
    }
  }

  /** The running totals are the sums over the transactions. */
  lemma {:induction false} TotalsAre(rules: Rules, src: Source, fork: int, db: Index, b: Block, n: nat)
    requires n <= |b.vtx| && TallyTxs(rules, src, fork, db, b, n).Some?
    ensures
      var t := TallyTxs(rules, src, fork, db, b, n).value;
      && t.fees == TotalFee(src, db, b, n)
      && t.valueOut - t.valueIn == TotalMade(src, db, b, n) - t.fees - TotalPurchases(b.vtx[..n])
  {
    hide TallyTx, ConnectTxs, ValueOut, Brought, Claim;
    if n > 0 {
      TotalsAre(rules, src, fork, db, b, n - 1);
      TallyView(rules, src, fork, db, b, n - 1);
      StepTotals(rules, src, fork, TallyTxs(rules, src, fork, db, b, n - 1).value, b.vtx[n - 1], PosOf(b, n - 1));
      assert b.vtx[..n][..n - 1] == b.vtx[..n - 1];
    }
  }

  /** Proof of work: not of the qPoS kind, and with no coinstake in second place. */
  ghost predicate Mined(b: Block) {
    !b.qpos && (|b.vtx| > 1 ==> !b.vtx[1].IsCoinStake())
  }

  /**
   The mint recorded for a block is what its coinbase and coinstake make and what its claims pay, less, for proof of work
   only, the fees, which are part of the coinbase. The supply changes by all that is made and claimed, less fees and
   purchases, and less the purchases once more before fork 7.
   */
  lemma MintIs(rules: Rules, src: Source, db: Index, b: Block, bestHeight: int, prevSupply: int)
    requires Connect(rules, src, db, b, bestHeight, prevSupply).Some?
    ensures
      var c, n := Connect(rules, src, db, b, bestHeight, prevSupply).value, |b.vtx|;
      var made, fees := TotalMade(src, db, b, n), TotalFee(src, db, b, n);
      var claims, purchases := TotalClaims(b.vtx), TotalPurchases(b.vtx);
      && c.mint == made + claims - (if Mined(b) then fees else 0)
      && c.supply == prevSupply + made + claims - fees - purchases * (if rules.fork(bestHeight + 1) >= 7 then 1 else 2)
  {
    hide TallyTxs, TotalMade, TotalFee, TotalClaims, TotalPurchases;
    var fork := rules.fork(bestHeight + 1);
    TotalsAre(rules, src, fork, db, b, |b.vtx|);
    TallySums(rules, src, fork, db, b, |b.vtx|);
    assert b.vtx[..|b.vtx|] == b.vtx;
  }

  /** The claims of all outputs of a transaction. */
  function ClaimsIn(vout: seq<TxOut>): int {
    if vout == [] then 0
    else
      var o := vout[|vout| - 1];
      ClaimsIn(vout[..|vout| - 1]) + if o.claim.Some? then o.claim.value else 0
  }

  lemma {:induction false} NoClaims(vout: seq<TxOut>)
    requires forall i :: 0 <= i < |vout| ==> vout[i].claim.None?
    ensures ClaimsIn(vout) == 0
  {
    if vout != [] {
      NoClaims(vout[..|vout| - 1]);
    }
  }

  /** No claim goes uncounted: in a block that connects, what an ordinary transaction claims is all its outputs claim. */
  lemma ClaimIsAll(rules: Rules, src: Source, fork: int, db: Index, b: Block, i: int)
    requires 0 <= i < |b.vtx| && TxOk(rules, src, fork, db, b, i) && Counts(b.vtx[i])
    ensures Claim(b.vtx[i]) == ClaimsIn(b.vtx[i].vout)
  {
    hide ConnectTxs, InputsFree, Brought, ValueOut;
    var tx := b.vtx[i];
    assert ClaimShapeOk(tx);
    if forall k :: 0 <= k < |tx.vout| ==> tx.vout[k].claim.None? {
      NoClaims(tx.vout);
    } else {
      assert tx.vout[..0] == [];
      assert ClaimsIn(tx.vout) == ClaimsIn([]) + tx.vout[0].claim.value;
    }
  }
}
