/** The money supply recorded by `ConnectBlock` against the total value of unspent outputs. */
module MoneySupply {
  import opened Basics
  import opened Ledger
  import opened BlockConnect
  import opened Sums

  ghost function Utxos(view: Index): set<OutPoint> {
    set h, k | h in view && 0 <= k < |view[h].spent| && view[h].spent[k].NullPos? :: OutPoint(h, k)
  }

  /** Every record leads to its transaction on disk and has one mark for each output. */
  ghost predicate Stored(view: Index, src: Source) {
    forall h :: h in view ==>
      Lookup(view, src, true, h).Some? && |Lookup(view, src, true, h).value.tx.vout| == |view[h].spent|
  }

  function ValueAt(view: Index, src: Source, o: OutPoint): int {
    var prev := Lookup(view, src, true, o.hash);
    if prev.Some? && o.n < |prev.value.tx.vout| then prev.value.tx.vout[o.n].value else 0
  }

  ghost function Unspent(view: Index, src: Source): int {
    SumOver(Utxos(view), o => ValueAt(view, src, o))
  }

  /** The block's transactions can be read back at the positions the index will name. */
  ghost predicate OnDisk(src: Source, b: Block) {
    forall i :: 0 <= i < |b.vtx| ==>
      PosOf(b, i) != IN_POOL && PosOf(b, i) in src.disk && src.disk[PosOf(b, i)] == b.vtx[i]
  }

  lemma MarkUtxos(v: Index, o: OutPoint, p: TxPos)
    requires Spendable(v, o) && p != NullPos
    ensures Utxos(Mark(v, o, p)) == Utxos(v) - {o} && o in Utxos(v)
  {
    var m := Mark(v, o, p);
    forall x | x in Utxos(v) - {o} ensures x in Utxos(m) {
      assert m[x.hash].spent[x.n] == v[x.hash].spent[x.n];
    }
  }

  lemma MarkKeepsValues(v: Index, src: Source, o: OutPoint, p: TxPos)
    requires Stored(v, src) && Spendable(v, o)
    ensures Stored(Mark(v, o, p), src)
    ensures forall x: OutPoint :: ValueAt(Mark(v, o, p), src, x) == ValueAt(v, src, x)
  {
    var m := Mark(v, o, p);
    assert forall h :: h in m ==> m[h].pos == v[h].pos && |m[h].spent| == |v[h].spent|;
  }

  lemma SpendOne(v: Index, src: Source, o: OutPoint, p: TxPos)
    requires Stored(v, src) && Spendable(v, o) && p != NullPos
    ensures Stored(Mark(v, o, p), src)
    ensures forall x: OutPoint :: ValueAt(Mark(v, o, p), src, x) == ValueAt(v, src, x)
    ensures Unspent(Mark(v, o, p), src) == Unspent(v, src) - ValueAt(v, src, o)
  {
    hide Stored, Utxos, ValueAt;
    MarkUtxos(v, o, p);
    MarkKeepsValues(v, src, o, p);
    var m := Mark(v, o, p);
    var f, g := (x: OutPoint) => ValueAt(v, src, x), (x: OutPoint) => ValueAt(m, src, x);
    SumRemove(Utxos(v), f, o);
    SumCongruent(Utxos(m), f, g);
  }

  lemma {:induction false} SpendMany(view: Index, src: Source, inputs: map<Hash, Prev>, vin: seq<OutPoint>, p: TxPos)
    requires Stored(view, src) && p != NullPos && SpendAll(view, vin, p).Some?
    requires forall i :: 0 <= i < |vin| ==> vin[i].hash in inputs && InRange(inputs[vin[i].hash], vin[i].n)
                                            && Lookup(view, src, true, vin[i].hash) == Some(inputs[vin[i].hash])
    ensures Stored(SpendAll(view, vin, p).value, src)
    ensures forall x: OutPoint :: ValueAt(SpendAll(view, vin, p).value, src, x) == ValueAt(view, src, x)
    ensures Unspent(SpendAll(view, vin, p).value, src) == Unspent(view, src) - ValueIn(inputs, vin)
  {
    if vin != [] {
      var front, o := vin[..|vin| - 1], vin[|vin| - 1];
      SpendMany(view, src, inputs, front, p);
      SpendOne(SpendAll(view, front, p).value, src, o, p);
      assert InRange(inputs[o.hash], o.n);
      assert ValueAt(view, src, o) == inputs[o.hash].tx.vout[o.n].value;
    }
  }

  ghost function NewOutputs(id: Hash, n: nat): set<OutPoint> {
    set k | 0 <= k < n :: OutPoint(id, k)
  }

  lemma {:induction false} SumOutputs(id: Hash, vout: seq<TxOut>, n: nat, f: OutPoint -> int)
    requires n <= |vout| && forall k :: 0 <= k < n ==> f(OutPoint(id, k)) == vout[k].value
    ensures SumOver(NewOutputs(id, n), f) == ValueOut(vout[..n])
  {
    if n > 0 {
      var o := OutPoint(id, n - 1);
      assert o in NewOutputs(id, n);
      SumRemove(NewOutputs(id, n), f, o);
      assert NewOutputs(id, n) - {o} == NewOutputs(id, n - 1);
      SumOutputs(id, vout, n - 1, f);
      assert vout[..n][..n - 1] == vout[..n - 1];
    } else {
      assert NewOutputs(id, n) == {};
    }
  }

  lemma AddUtxos(v: Index, tx: Tx, p: TxPos)
    requires Overwritable(v, tx.id)
    ensures Utxos(v[tx.id := FreshRecord(p, |tx.vout|)]) == Utxos(v) + NewOutputs(tx.id, |tx.vout|)
    ensures Utxos(v) !! NewOutputs(tx.id, |tx.vout|)
  {
    var w := v[tx.id := FreshRecord(p, |tx.vout|)];
    forall x | x in Utxos(v) + NewOutputs(tx.id, |tx.vout|) ensures x in Utxos(w) {
      assert w[x.hash].spent[x.n].NullPos?;
    }
  }

  lemma AddKeepsValues(v: Index, src: Source, tx: Tx, p: TxPos)
    requires Stored(v, src) && Overwritable(v, tx.id)
    requires p != IN_POOL && p in src.disk && src.disk[p] == tx
    ensures
      var w := v[tx.id := FreshRecord(p, |tx.vout|)];
      && Stored(w, src)
      && (forall x :: x in Utxos(v) ==> ValueAt(w, src, x) == ValueAt(v, src, x))
      && (forall k :: 0 <= k < |tx.vout| ==> ValueAt(w, src, OutPoint(tx.id, k)) == tx.vout[k].value)
  {
  }

  lemma AddRecord(v: Index, src: Source, tx: Tx, p: TxPos)
    requires Stored(v, src) && Overwritable(v, tx.id)
    requires p != IN_POOL && p in src.disk && src.disk[p] == tx
    ensures
      var w := v[tx.id := FreshRecord(p, |tx.vout|)];
      Stored(w, src) && Unspent(w, src) == Unspent(v, src) + ValueOut(tx.vout)
  {
    hide Stored, Utxos, ValueAt;
    var w := v[tx.id := FreshRecord(p, |tx.vout|)];
    var new' := NewOutputs(tx.id, |tx.vout|);
    AddUtxos(v, tx, p);
    AddKeepsValues(v, src, tx, p);
    var f, g := (x: OutPoint) => ValueAt(v, src, x), (x: OutPoint) => ValueAt(w, src, x);
    SumDisjoint(Utxos(v), new', g);
    SumCongruent(Utxos(v), f, g);
    assert tx.vout[..|tx.vout|] == tx.vout;
    SumOutputs(tx.id, tx.vout, |tx.vout|, g);
  }

  /** An id that a block may still take has no unspent output in any later view of that block. */
  lemma {:induction false} StaysOverwritable(db: Index, b: Block, n: nat, id: Hash)
    requires n <= |b.vtx| && ConnectTxs(db, b, n).Some?
    requires Overwritable(db, id) && forall i :: 0 <= i < n ==> b.vtx[i].id != id
    ensures Overwritable(ConnectTxs(db, b, n).value, id)
  {
    if n > 0 {
      StaysOverwritable(db, b, n - 1, id);
      var v, tx, p := ConnectTxs(db, b, n - 1).value, b.vtx[n - 1], PosOf(b, n - 1);
      if !tx.IsCoinBase() {
        SpendAllKeys(v, tx.vin, p);
        if id in v {
          SpendAllAt(v, tx.vin, p, id);
        }
      }
    }
  }

  lemma TallyStep(rules: Rules, src: Source, fork: int, t: Tally, tx: Tx, p: TxPos)
    requires Stored(t.view, src) && Overwritable(t.view, tx.id) && TallyTx(rules, src, fork, t, tx, p).Some?
    requires p != NullPos && p != IN_POOL && p in src.disk && src.disk[p] == tx
    ensures
      var t' := TallyTx(rules, src, fork, t, tx, p).value;
      && Stored(t'.view, src)
      && Unspent(t'.view, src) - (t'.valueOut - (t'.valueIn - t'.claims))
         == Unspent(t.view, src) - (t.valueOut - (t.valueIn - t.claims))
  {
    var v := t.view;
    if !tx.IsCoinBase() {
      var inputs := FetchedOf(t.view, src, tx.vin);
      SpendMany(t.view, src, inputs, tx.vin, p);
      v := SpendAll(t.view, tx.vin, p).value;
      SpendAllKeys(t.view, tx.vin, p);
      if tx.id in t.view {
        SpendAllAt(t.view, tx.vin, p, tx.id);
      }
    }
    AddRecord(v, src, tx, p);
  }

  lemma {:induction false} TallyTracksUnspent(rules: Rules, src: Source, fork: int, db: Index, b: Block, n: nat)
    requires n <= |b.vtx| && TallyTxs(rules, src, fork, db, b, n).Some?
    requires Stored(db, src) && OnDisk(src, b) && IdsAdmissible(db, b.vtx)
    ensures
      var t := TallyTxs(rules, src, fork, db, b, n).value;
      Stored(t.view, src) && t.valueOut - (t.valueIn - t.claims) == Unspent(t.view, src) - Unspent(db, src)
  {
    hide TallyTx, Stored, Unspent;
    if n > 0 {
      TallyTracksUnspent(rules, src, fork, db, b, n - 1);
      TallyView(rules, src, fork, db, b, n - 1);
      StaysOverwritable(db, b, n - 1, b.vtx[n - 1].id);
      TallyStep(rules, src, fork, TallyTxs(rules, src, fork, db, b, n - 1).value, b.vtx[n - 1], PosOf(b, n - 1));
    }
  }

  /** Claims and purchases count for transactions that are neither coinbase nor coinstake. */
  predicate Counts(tx: Tx) {
    !tx.IsCoinBase() && !tx.IsCoinStake()
  }

  function TotalClaims(txs: seq<Tx>): int {
    if txs == [] then 0
    else
      var tx := txs[|txs| - 1];
      TotalClaims(txs[..|txs| - 1]) + if Counts(tx) then Claim(tx) else 0
  }

  function TotalPurchases(txs: seq<Tx>): int {
    if txs == [] then 0
    else
      var tx := txs[|txs| - 1];
      TotalPurchases(txs[..|txs| - 1]) + if Counts(tx) then tx.purchases else 0
  }

  lemma {:induction false} TallySums(rules: Rules, src: Source, fork: int, db: Index, b: Block, n: nat)
    requires n <= |b.vtx| && TallyTxs(rules, src, fork, db, b, n).Some?
    ensures
      var t := TallyTxs(rules, src, fork, db, b, n).value;
      t.claims == TotalClaims(b.vtx[..n]) && t.purchases == TotalPurchases(b.vtx[..n])
  {
    hide ConnectInputsOk, Fetchable, FetchedOf, ValueOut, SpendAll, QposOk, Claim;
    if n > 0 {
      TallySums(rules, src, fork, db, b, n - 1);
      assert b.vtx[..n][..n - 1] == b.vtx[..n - 1];
    }
  }

  /**
   One block: the recorded supply moves with the unspent total, less the purchases before fork PURCHASE3. So it
   moves exactly with it if and only if the fork is reached or the block's purchases come to nothing.
   */
  lemma SupplyTracksUnspent(rules: Rules, src: Source, db: Index, b: Block, bestHeight: int, prevSupply: int)
    requires Connect(rules, src, db, b, bestHeight, prevSupply).Some?
    requires Stored(db, src) && OnDisk(src, b)
    ensures
      var c := Connect(rules, src, db, b, bestHeight, prevSupply).value;
      var late, change := rules.fork(bestHeight + 1) >= FORK_PURCHASE3, Unspent(c.index, src) - Unspent(db, src);
      && Stored(c.index, src)
      && c.supply - prevSupply == change - (if late then 0 else TotalPurchases(b.vtx))
      && (c.supply - prevSupply == change <==> late || TotalPurchases(b.vtx) == 0)
  {
    hide TallyTxs, Stored, Unspent, TotalPurchases;
    TallyTracksUnspent(rules, src, rules.fork(bestHeight + 1), db, b, |b.vtx|);
    TallySums(rules, src, rules.fork(bestHeight + 1), db, b, |b.vtx|);
    assert b.vtx[..|b.vtx|] == b.vtx;
  }

  const COIN := Tx(1, [], [TxOut(10, false, None)], 0, 100, 0)
  const REWARD := Tx(2, [OutPoint(0, 0xffff_ffff)], [TxOut(5, false, None)], 0, 100, 0)
  const BUYER := Tx(3, [OutPoint(1, 0)], [TxOut(3, false, None)], 4, 100, 0)
  const SHORT_BLOCK := Block(9, 8, 0, 200, 80, [REWARD, BUYER], 1, false)
  const SHORT_DISK := Source(map[Pos(0, 0, 0) := COIN, Pos(0, 200, 280) := REWARD, Pos(0, 200, 380) := BUYER], map[])
  const SHORT_INDEX: Index := map[1 := TxIndex(Pos(0, 0, 0), [NullPos])]

  lemma ShortPositions()
    ensures PosOf(SHORT_BLOCK, 0) == Pos(0, 200, 280) && PosOf(SHORT_BLOCK, 1) == Pos(0, 200, 380)
  {
    var txs := SHORT_BLOCK.vtx;
    assert txs[..0] == [] && txs[..1] == [REWARD];
    assert SizeOf([REWARD]) == SizeOf([REWARD][..0]) + 100;
  }

  lemma ShortReward()
    ensures
      var p, db := PosOf(SHORT_BLOCK, 0), SHORT_INDEX;
      TallyTx(Lenient(6), SHORT_DISK, 6, NoTotals(db), REWARD, p)
        == Some(NoTotals(db).(valueOut := 5, view := db[2 := FreshRecord(p, 1)]))
  {
    hide PosOf;
    assert REWARD.IsCoinBase() && REWARD.vout[..0] == [];
    assert ValueOut(REWARD.vout) == ValueOut([]) + 5;
  }

  lemma ShortBuyer(t: Tally, p: TxPos)
    requires t == NoTotals(SHORT_INDEX).(valueOut := 5, view := SHORT_INDEX[2 := FreshRecord(PosOf(SHORT_BLOCK, 0), 1)])
    ensures
      var t' := TallyTx(Lenient(6), SHORT_DISK, 6, t, BUYER, p);
      t'.Some? && t'.value.valueIn == 10 && t'.value.valueOut == 8 && t'.value.purchases == 4 && t'.value.claims == 0
  {
    hide PosOf;
    var inputs := FetchedOf(t.view, SHORT_DISK, BUYER.vin);
    assert BUYER.vin[0] in BUYER.vin && inputs[1] == Prev(SHORT_INDEX[1], COIN);
    assert BUYER.vin[..0] == [] && BUYER.vout[..0] == [];
    assert ValueOut(BUYER.vout) == ValueOut([]) + 3;
    assert SpendAll(t.view, BUYER.vin[..0], p) == Some(t.view);
    assert SpendAll(t.view, BUYER.vin, p).Some?;
    assert ValueIn(inputs, BUYER.vin) == ValueIn(inputs, []) + 10;
    assert TallySpend(Lenient(6), SHORT_DISK, 6, t, BUYER, p).Some?;
  }

  lemma ShortTally()
    ensures
      var t := TallyTxs(Lenient(6), SHORT_DISK, 6, SHORT_INDEX, SHORT_BLOCK, 2);
      t.Some? && t.value.valueIn == 10 && t.value.valueOut == 8 && t.value.purchases == 4 && t.value.claims == 0
  {
    hide TallyTx, PosOf;
    var rules, src, db, b := Lenient(6), SHORT_DISK, SHORT_INDEX, SHORT_BLOCK;
    ShortReward();
    var t := TallyTx(rules, src, 6, NoTotals(db), REWARD, PosOf(b, 0)).value;
    assert TallyTxs(rules, src, 6, db, b, 0) == Some(NoTotals(db));
    assert TallyTxs(rules, src, 6, db, b, 1) == Some(t);
    ShortBuyer(t, PosOf(b, 1));
  }

  /** A block of fork 6 that registers for 4: the supply falls 4 more than the unspent total does. */
  lemma PurchaseTakenTwice(prevSupply: int)
    ensures
      var c := Connect(Lenient(6), SHORT_DISK, SHORT_INDEX, SHORT_BLOCK, 0, prevSupply);
      && c.Some? && c.value.supply == prevSupply - 6
      && Unspent(c.value.index, SHORT_DISK) - Unspent(SHORT_INDEX, SHORT_DISK) == -2
  {
    hide TallyTxs, Unspent, TotalPurchases;
    ShortTally();
    ShortPositions();
    assert IdsAdmissible(SHORT_INDEX, SHORT_BLOCK.vtx);
    SupplyTracksUnspent(Lenient(6), SHORT_DISK, SHORT_INDEX, SHORT_BLOCK, 0, prevSupply);
    TallySums(Lenient(6), SHORT_DISK, 6, SHORT_INDEX, SHORT_BLOCK, 2);
    assert SHORT_BLOCK.vtx[..2] == SHORT_BLOCK.vtx;
  }

  /** A block connected in a run, with the best height at the time. */
  datatype Step = Step(b: Block, bestHeight: int)

  /** Index and supply after connecting the blocks one on top of the other. */
  function ConnectRun(rules: Rules, src: Source, start: Connected, steps: seq<Step>): Option<Connected> {
    if steps == [] then Some(start)
    else
      var c :- ConnectRun(rules, src, start, steps[..|steps| - 1]);
      var s := steps[|steps| - 1];
      Connect(rules, src, c.index, s.b, s.bestHeight, c.supply)
  }

  /** Conservation over a whole run of blocks connected at fork PURCHASE3 or later. */
  lemma {:induction false} SupplyConserved(rules: Rules, src: Source, start: Connected, steps: seq<Step>)
    requires ConnectRun(rules, src, start, steps).Some? && Stored(start.index, src)
    requires forall i :: 0 <= i < |steps| ==>
               OnDisk(src, steps[i].b) && rules.fork(steps[i].bestHeight + 1) >= FORK_PURCHASE3
    ensures
      var c := ConnectRun(rules, src, start, steps).value;
      Stored(c.index, src) && c.supply - start.supply == Unspent(c.index, src) - Unspent(start.index, src)
  {
    hide Connect, Stored, Unspent, OnDisk, TotalPurchases;
    if steps != [] {
      var front, s := steps[..|steps| - 1], steps[|steps| - 1];
      SupplyConserved(rules, src, start, front);
      var c := ConnectRun(rules, src, start, front).value;
      SupplyTracksUnspent(rules, src, c.index, s.b, s.bestHeight, c.supply);
    }
  }

  // ---------------------------------------------------------- qPoS accounting

  /** What transaction `i` of the block brings, with its claim, beyond what it pays out and registers for. */
  ghost function FeeAt(src: Source, db: Index, b: Block, i: nat): int
    requires i < |b.vtx| && ConnectTxs(db, b, i).Some? && Fetchable(ConnectTxs(db, b, i).value, src, b.vtx[i].vin)
  {
    var tx := b.vtx[i];
    InputValue(FetchedOf(ConnectTxs(db, b, i).value, src, tx.vin), tx.vin) + Claim(tx) - ValueOut(tx.vout) - tx.purchases
  }

  ghost function InputValue(inputs: map<Hash, Prev>, vin: seq<OutPoint>): int {
    if forall i :: 0 <= i < |vin| ==> vin[i].hash in inputs && InRange(inputs[vin[i].hash], vin[i].n) then
      ValueIn(inputs, vin)
    else 0
  }

  ghost predicate AllFetchable(src: Source, db: Index, b: Block, n: nat)
    requires n <= |b.vtx|
  {
    forall i :: 0 <= i < n ==> FetchableAt(src, db, b, i)
  }

  ghost predicate FetchableAt(src: Source, db: Index, b: Block, i: int)
    requires 0 <= i < |b.vtx|
  {
    ConnectTxs(db, b, i).Some? && Fetchable(ConnectTxs(db, b, i).value, src, b.vtx[i].vin)
  }

  ghost function TotalFees(src: Source, db: Index, b: Block, n: nat): int
    requires n <= |b.vtx| && AllFetchable(src, db, b, n)
  {
    if n == 0 then 0
    else
      assert FetchableAt(src, db, b, n - 1);
      TotalFees(src, db, b, n - 1) + FeeAt(src, db, b, n - 1)
  }

  /** One transaction of a qPoS block: its inputs can be fetched, its fee is not negative, and the totals grow by it. */
  lemma QposStep(rules: Rules, src: Source, fork: int, t: Tally, tx: Tx, p: TxPos)
    requires TallyTx(rules, src, fork, t, tx, p).Some? && !tx.IsCoinBase() && !tx.IsCoinStake()
    ensures Fetchable(t.view, src, tx.vin)
    ensures
      var t' := TallyTx(rules, src, fork, t, tx, p).value;
      var brought := InputValue(FetchedOf(t.view, src, tx.vin), tx.vin) + Claim(tx);
      var fee := brought - ValueOut(tx.vout) - tx.purchases;
      && t'.fees == t.fees + fee && fee >= 0 && t'.claims == t.claims + Claim(tx)
      && t'.purchases == t.purchases + tx.purchases && t'.valueIn == t.valueIn + brought
      && t'.valueOut == t.valueOut + ValueOut(tx.vout)
  {
    hide ValueOut, SpendAll, ValueIn, Lookup, SignaturesOk;
    assert Fetchable(t.view, src, tx.vin);
    var inputs := FetchedOf(t.view, src, tx.vin);
    assert InputsOk(rules, inputs, tx, tx.vin);
  }

  lemma TotalsStep(src: Source, db: Index, b: Block, n: nat)
    requires 0 < n <= |b.vtx| && AllFetchable(src, db, b, n - 1) && FetchableAt(src, db, b, n - 1) && Counts(b.vtx[n - 1])
    ensures AllFetchable(src, db, b, n)
    ensures TotalFees(src, db, b, n) == TotalFees(src, db, b, n - 1) + FeeAt(src, db, b, n - 1)
    ensures TotalClaims(b.vtx[..n]) == TotalClaims(b.vtx[..n - 1]) + Claim(b.vtx[n - 1])
    ensures TotalPurchases(b.vtx[..n]) == TotalPurchases(b.vtx[..n - 1]) + b.vtx[n - 1].purchases
  {
    hide FetchableAt, FeeAt, ConnectTxs, Claim;
    assert Counts(b.vtx[n - 1]);
    assert b.vtx[..n][..n - 1] == b.vtx[..n - 1];
  }

  /** The totals after `n` transactions are the sums over them. */
  ghost predicate Summed(src: Source, db: Index, b: Block, n: nat, t: Tally)
    requires n <= |b.vtx| && AllFetchable(src, db, b, n)
  {
    && t.claims == TotalClaims(b.vtx[..n]) && t.purchases == TotalPurchases(b.vtx[..n])
    && t.fees == TotalFees(src, db, b, n) == t.valueIn - t.valueOut - t.purchases && t.fees >= 0
  }

  /** The fee of transaction `i` can be computed and is not negative. */
  ghost predicate FeePaid(src: Source, db: Index, b: Block, i: int)
    requires 0 <= i < |b.vtx|
  {
    FetchableAt(src, db, b, i) && FeeAt(src, db, b, i) >= 0
  }

  lemma SummedStep(rules: Rules, src: Source, fork: int, db: Index, b: Block, n: nat, t: Tally, t': Tally)
    requires 0 < n <= |b.vtx| && NoBaseOrStake(b)
    requires TallyTxs(rules, src, fork, db, b, n - 1) == Some(t) && TallyTxs(rules, src, fork, db, b, n) == Some(t')
    requires AllFetchable(src, db, b, n - 1) && Summed(src, db, b, n - 1, t)
    ensures AllFetchable(src, db, b, n) && Summed(src, db, b, n, t')
    ensures FeePaid(src, db, b, n - 1)
  {
    hide TallyTx, Fetchable, FetchedOf, InputValue, ValueOut, TotalFees, TotalClaims, TotalPurchases, AllFetchable,
      ConnectTxs, Claim;
    TallyView(rules, src, fork, db, b, n - 1);
    var tx := b.vtx[n - 1];
    assert tx in b.vtx;
    QposStep(rules, src, fork, t, tx, PosOf(b, n - 1));
    TotalsStep(src, db, b, n);
  }

  /** In a qPoS block the totals are the sums over its transactions, and no fee is negative. */
  lemma {:induction false} QposTotals(rules: Rules, src: Source, fork: int, db: Index, b: Block, n: nat)
    requires n <= |b.vtx| && TallyTxs(rules, src, fork, db, b, n).Some? && NoBaseOrStake(b)
    ensures AllFetchable(src, db, b, n)
    ensures Summed(src, db, b, n, TallyTxs(rules, src, fork, db, b, n).value)
    ensures forall i :: 0 <= i < n ==> FeePaid(src, db, b, i)
  {
    hide TallyTx, FeePaid, NoBaseOrStake;
    if n > 0 {
      QposTotals(rules, src, fork, db, b, n - 1);
      hide Summed, AllFetchable;
      SummedStep(rules, src, fork, db, b, n, TallyTxs(rules, src, fork, db, b, n - 1).value,
                 TallyTxs(rules, src, fork, db, b, n).value);
    }
  }

  /** A qPoS block mints exactly the claims it pays; the supply changes by claims minus fees minus purchases. */
  lemma QposMint(rules: Rules, src: Source, db: Index, b: Block, bestHeight: int, prevSupply: int)
    requires Connect(rules, src, db, b, bestHeight, prevSupply).Some?
    requires rules.fork(b.height) >= FORK_QPOS && rules.fork(bestHeight + 1) >= FORK_PURCHASE3
    ensures AllFetchable(src, db, b, |b.vtx|)
    ensures
      var c := Connect(rules, src, db, b, bestHeight, prevSupply).value;
      var fees := TotalFees(src, db, b, |b.vtx|);
      && c.mint == TotalClaims(b.vtx) && fees >= 0
      && c.supply - prevSupply == TotalClaims(b.vtx) - fees - TotalPurchases(b.vtx)
  {
    hide TallyTxs, TotalFees, TotalClaims, TotalPurchases, AllFetchable, FeeAt, FetchableAt;
    QposTotals(rules, src, rules.fork(bestHeight + 1), db, b, |b.vtx|);
    assert b.vtx[..|b.vtx|] == b.vtx;
  }
}
