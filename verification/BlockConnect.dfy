/**
 `FetchInputs`, `ConnectInputs` and `ConnectBlock`: the checks that decide whether a
 block may join the chain, the queued index changes, and the money-supply accounting.
 */
module BlockConnect {
  import opened Basics
  import opened Ledger

  const FORK_PURCHASE3 := 7
  const FORK_QPOS := 8
  const MAX_BLOCK_SIGOPS := 20000

  /** Verdicts of code outside the model: signatures, maturity, registry rules, fees. */
  datatype Rules = Rules(
    fork: int -> int,
    blockOk: (Block, int) -> bool,
    claimOk: Tx -> bool,
    purchaseOk: (Tx, int) -> bool,
    inputOk: (Tx, OutPoint, Prev) -> bool,
    signatureOk: (Tx, OutPoint, Tx) -> bool,
    rewardOk: (Tx, int) -> bool,
    feeOk: (Tx, int) -> bool,
    p2shSigOps: (Tx, map<Hash, Prev>) -> nat)

  /** Rules that let everything pass, at a given fork. */
  function Lenient(fork: int): Rules {
    Rules(_ => fork, (_, _) => true, _ => true, (_, _) => true, (_, _, _) => true, (_, _, _) => true, (_, _) => true,
          (_, _) => true, (_, _) => 0)
  }

  /** Where earlier transactions are read from: the block files, or the memory pool. */
  datatype Source = Source(disk: map<TxPos, Tx>, pool: map<Hash, Tx>)

  datatype Prev = Prev(index: TxIndex, tx: Tx)

  const IN_POOL := Pos(1, 1, 1)

  // ------------------------------------------------------------- FetchInputs

  function Lookup(view: Index, src: Source, strict: bool, h: Hash): Option<Prev> {
    if h in view then
      if view[h].pos == IN_POOL then
        if h in src.pool then Some(Prev(view[h], src.pool[h])) else None
      else if view[h].pos in src.disk then Some(Prev(view[h], src.disk[view[h].pos]))
      else None
    else if strict || h !in src.pool then None
    else Some(Prev(FreshRecord(NullPos, |src.pool[h].vout|), src.pool[h]))
  }

  /** The records in force: queued changes count only for blocks and the miner. */
  function View(db: Index, queued: Index, strict: bool): Index {
    if strict then db + queued else db
  }

  predicate InRange(prev: Prev, n: nat) {
    n < |prev.tx.vout| && n < |prev.index.spent|
  }

  datatype Fetch = Fetched(inputs: map<Hash, Prev>) | Missing | OutOfRange

  /** What fetching must answer for a transaction that is not a coinbase. */
  ghost predicate FetchSpec(view: Index, src: Source, strict: bool, vin: seq<OutPoint>, r: Fetch) {
    && (r.Missing? <==> exists o :: o in vin && Lookup(view, src, strict, o.hash).None?)
    && (r.Fetched? ==> r.inputs.Keys == set o | o in vin :: o.hash)
    && (r.Fetched? ==> forall o :: o in vin ==>
                         && Lookup(view, src, strict, o.hash) == Some(r.inputs[o.hash])
                         && InRange(r.inputs[o.hash], o.n))
    && (r.OutOfRange? ==> exists o :: o in vin && Lookup(view, src, strict, o.hash).Some?
                            && !InRange(Lookup(view, src, strict, o.hash).value, o.n))
  }

  /** One previous transaction: the queued record first, then the database, then the pool. */
  method ReadPrev(db: Index, queued: Index, src: Source, strict: bool, h: Hash) returns (r: Option<Prev>)
    ensures r == Lookup(View(db, queued, strict), src, strict, h)
  {
    var record, found := FreshRecord(NullPos, 0), true;
    if strict && h in queued {
      record := queued[h];
    } else if h in db {
      record := db[h];
    } else {
      found := false;
    }
    if !found && strict {
      return None;
    }
    if !found || record.pos == IN_POOL {
      if h !in src.pool {
        return None;
      }
      if !found {
        record := FreshRecord(NullPos, |src.pool[h].vout|);
      }
      return Some(Prev(record, src.pool[h]));
    }
    if record.pos !in src.disk {
      return None;
    }
    return Some(Prev(record, src.disk[record.pos]));
  }

  /** The previous transactions of the first `n` inputs have been read. */
  ghost predicate Gathered(view: Index, src: Source, strict: bool, vin: seq<OutPoint>, n: nat, inputs: map<Hash, Prev>)
    requires n <= |vin|
  {
    && (forall h :: h in inputs <==> exists i :: 0 <= i < n && vin[i].hash == h)
    && (forall h :: h in inputs ==> Lookup(view, src, strict, h) == Some(inputs[h]))
  }

  lemma GatherNone(view: Index, src: Source, strict: bool, vin: seq<OutPoint>)
    ensures Gathered(view, src, strict, vin, 0, map[])
  {
  }

  lemma GatherStep(view: Index, src: Source, strict: bool, vin: seq<OutPoint>, n: nat, inputs: map<Hash, Prev>)
    requires n < |vin| && Gathered(view, src, strict, vin, n, inputs)
    ensures vin[n].hash in inputs ==> Gathered(view, src, strict, vin, n + 1, inputs)
    ensures
      var prev := Lookup(view, src, strict, vin[n].hash);
      if prev.None? then FetchSpec(view, src, strict, vin, Missing)
      else vin[n].hash !in inputs ==> Gathered(view, src, strict, vin, n + 1, inputs[vin[n].hash := prev.value])
  {
  }

  lemma GatherDone(view: Index, src: Source, strict: bool, vin: seq<OutPoint>, inputs: map<Hash, Prev>)
    requires Gathered(view, src, strict, vin, |vin|, inputs)
    ensures forall i :: 0 <= i < |vin| ==> vin[i].hash in inputs
    ensures if forall i :: 0 <= i < |vin| ==> InRange(inputs[vin[i].hash], vin[i].n)
            then FetchSpec(view, src, strict, vin, Fetched(inputs))
            else FetchSpec(view, src, strict, vin, OutOfRange)
  {
    assert forall o :: o in vin ==> o.hash in inputs;
    var hashes := set o | o in vin :: o.hash;
    forall h | h in inputs ensures h in hashes {
      var i :| 0 <= i < |vin| && vin[i].hash == h;
      assert vin[i] in vin;
    }
    assert inputs.Keys == hashes;
  }

  /** `strict` is the source's `fBlock || fMiner`. */
  method FetchInputs(db: Index, queued: Index, src: Source, strict: bool, tx: Tx) returns (r: Fetch)
    ensures tx.IsCoinBase() ==> r == Fetched(map[])
    ensures !tx.IsCoinBase() ==> FetchSpec(View(db, queued, strict), src, strict, tx.vin, r)
  {
    if tx.IsCoinBase() {
      return Fetched(map[]);
    }
    hide Lookup, View, Gathered, FetchSpec;
    ghost var view := View(db, queued, strict);
    var inputs: map<Hash, Prev> := map[];
    var i := 0;
    GatherNone(view, src, strict, tx.vin);
    while i < |tx.vin|
      invariant 0 <= i <= |tx.vin| && Gathered(view, src, strict, tx.vin, i, inputs)
    {
      var h := tx.vin[i].hash;
      GatherStep(view, src, strict, tx.vin, i, inputs);
      if h !in inputs {
        var prev := ReadPrev(db, queued, src, strict, h);
        if prev.None? {
          return Missing;
        }
        inputs := inputs[h := prev.value];
      }
      i := i + 1;
    }
    GatherDone(view, src, strict, tx.vin, inputs);
    var inRange := AllInRange(inputs, tx.vin);
    return if inRange then Fetched(inputs) else OutOfRange;
  }

  /** Every outpoint names an output its transaction has. */
  method AllInRange(inputs: map<Hash, Prev>, vin: seq<OutPoint>) returns (r: bool)
    requires forall i :: 0 <= i < |vin| ==> vin[i].hash in inputs
    ensures r <==> forall i :: 0 <= i < |vin| ==> InRange(inputs[vin[i].hash], vin[i].n)
  {
    for i := 0 to |vin|
      invariant forall k :: 0 <= k < i ==> InRange(inputs[vin[k].hash], vin[k].n)
    {
      if !InRange(inputs[vin[i].hash], vin[i].n) {
        return false;
      }
    }
    return true;
  }

  // ----------------------------------------------------------- ConnectInputs

  function ValueOut(vout: seq<TxOut>): int {
    if vout == [] then 0 else ValueOut(vout[..|vout| - 1]) + vout[|vout| - 1].value
  }

  /** Value of the fetched inputs. */
  function ValueIn(inputs: map<Hash, Prev>, vin: seq<OutPoint>): int
    requires forall i :: 0 <= i < |vin| ==> vin[i].hash in inputs && InRange(inputs[vin[i].hash], vin[i].n)
  {
    if vin == [] then 0
    else
      var o := vin[|vin| - 1];
      assert InRange(inputs[o.hash], o.n);
      ValueIn(inputs, vin[..|vin| - 1]) + inputs[o.hash].tx.vout[o.n].value
  }

  predicate InputsOk(rules: Rules, inputs: map<Hash, Prev>, tx: Tx, vin: seq<OutPoint>) {
    forall i :: 0 <= i < |vin| ==>
      && vin[i].hash in inputs && InRange(inputs[vin[i].hash], vin[i].n)
      && rules.inputOk(tx, vin[i], inputs[vin[i].hash])
  }

  predicate SignaturesOk(rules: Rules, inputs: map<Hash, Prev>, tx: Tx, vin: seq<OutPoint>) {
    forall i :: 0 <= i < |vin| ==> vin[i].hash in inputs && rules.signatureOk(tx, vin[i], inputs[vin[i].hash].tx)
  }

  /** A coinstake is bounded by its reward; any other transaction must not spend more than it brings. */
  predicate BalanceOk(rules: Rules, tx: Tx, valueIn: int, claim: int) {
    if tx.IsCoinStake() then rules.rewardOk(tx, ValueOut(tx.vout) - valueIn)
    else
      var fee := valueIn + claim - (ValueOut(tx.vout) + tx.purchases);
      fee >= 0 && rules.feeOk(tx, fee)
  }

  predicate ConnectInputsOk(rules: Rules, view: Index, inputs: map<Hash, Prev>, tx: Tx, p: TxPos, claim: int) {
    && InputsOk(rules, inputs, tx, tx.vin) && SignaturesOk(rules, inputs, tx, tx.vin)
    && SpendAll(view, tx.vin, p).Some?
    && BalanceOk(rules, tx, ValueIn(inputs, tx.vin), claim)
  }

  lemma SpendAllPrefix(view: Index, vin: seq<OutPoint>, p: TxPos, i: nat)
    requires i <= |vin| && SpendAll(view, vin, p).Some?
    ensures SpendAll(view, vin[..i], p).Some?
    decreases |vin|
  {
    if i < |vin| {
      SpendAllPrefix(view, vin[..|vin| - 1], p, i);
      assert vin[..|vin| - 1][..i] == vin[..i];
    } else {
      assert vin[..i] == vin;
    }
  }

  /** The inexpensive checks of `ConnectInputs`. */
  method CheckInputs(rules: Rules, inputs: map<Hash, Prev>, tx: Tx) returns (ok: bool, valueIn: int)
    requires forall i :: 0 <= i < |tx.vin| ==> tx.vin[i].hash in inputs
    ensures ok <==> InputsOk(rules, inputs, tx, tx.vin)
    ensures ok ==> valueIn == ValueIn(inputs, tx.vin)
  {
    valueIn := 0;
    var i := 0;
    while i < |tx.vin|
      invariant 0 <= i <= |tx.vin|
      invariant InputsOk(rules, inputs, tx, tx.vin[..i])
      invariant valueIn == ValueIn(inputs, tx.vin[..i])
    {
      var o := tx.vin[i];
      if !InRange(inputs[o.hash], o.n) || !rules.inputOk(tx, o, inputs[o.hash]) {
        return false, 0;
      }
      assert tx.vin[..i + 1] == tx.vin[..i] + [o] && tx.vin[..i + 1][..i] == tx.vin[..i];
      valueIn := valueIn + inputs[o.hash].tx.vout[o.n].value;
      i := i + 1;
    }
    assert tx.vin[..i] == tx.vin;
    ok := true;
  }

  /** The fetched copies agree with the records in force. */
  ghost predicate Synced(fetched: map<Hash, Prev>, inputs: map<Hash, Prev>, view: Index) {
    && fetched.Keys == inputs.Keys
    && forall h :: h in inputs ==>
         h in view && fetched[h] == Prev(view[h], inputs[h].tx) && |view[h].spent| == |inputs[h].index.spent|
  }

  lemma SyncedStep(fetched: map<Hash, Prev>, inputs: map<Hash, Prev>, db: Index, queued: Index, o: OutPoint, p: TxPos)
    requires Synced(fetched, inputs, db + queued) && o.hash in inputs && o.n < |inputs[o.hash].index.spent|
    ensures
      var record := fetched[o.hash].index;
      var record' := record.(spent := record.spent[o.n := p]);
      && db + queued[o.hash := record'] == Mark(db + queued, o, p)
      && Synced(fetched[o.hash := Prev(record', fetched[o.hash].tx)], inputs, db + queued[o.hash := record'])
  {
  }

  lemma SyncedAt(fetched: map<Hash, Prev>, inputs: map<Hash, Prev>, view: Index, o: OutPoint)
    requires Synced(fetched, inputs, view) && o.hash in inputs && o.n < |inputs[o.hash].index.spent|
    ensures o.hash in view && o.hash in fetched && fetched[o.hash] == Prev(view[o.hash], inputs[o.hash].tx)
    ensures o.n < |view[o.hash].spent|
  {
  }

  lemma SignaturesStep(rules: Rules, inputs: map<Hash, Prev>, tx: Tx, vin: seq<OutPoint>, i: nat)
    requires i < |vin| && vin[i].hash in inputs && SignaturesOk(rules, inputs, tx, vin[..i])
    ensures SignaturesOk(rules, inputs, tx, vin[..i + 1]) <==> rules.signatureOk(tx, vin[i], inputs[vin[i].hash].tx)
    ensures SignaturesOk(rules, inputs, tx, vin) ==> SignaturesOk(rules, inputs, tx, vin[..i + 1])
  {
    assert vin[..i + 1] == vin[..i] + [vin[i]];
  }

  lemma SpendStep(view: Index, vin: seq<OutPoint>, p: TxPos, i: nat)
    requires i < |vin| && SpendAll(view, vin[..i], p).Some?
    ensures
      var v := SpendAll(view, vin[..i], p).value;
      if Spendable(v, vin[i]) then SpendAll(view, vin[..i + 1], p) == Some(Mark(v, vin[i], p))
      else SpendAll(view, vin, p).None?
  {
    assert vin[..i + 1][..i] == vin[..i];
    if SpendAll(view, vin, p).Some? {
      SpendAllPrefix(view, vin, p, i + 1);
    }
  }

  /** Half-way through the spending loop. */
  ghost predicate Marking(rules: Rules, inputs: map<Hash, Prev>, tx: Tx, p: TxPos, view: Index, i: nat,
                          fetched: map<Hash, Prev>, now: Index)
  {
    && i <= |tx.vin| && SignaturesOk(rules, inputs, tx, tx.vin[..i])
    && SpendAll(view, tx.vin[..i], p) == Some(now) && Synced(fetched, inputs, now)
  }

  lemma MarkingStart(rules: Rules, inputs: map<Hash, Prev>, tx: Tx, p: TxPos, view: Index)
    requires forall h :: h in inputs ==> h in view && inputs[h].index == view[h]
    ensures Marking(rules, inputs, tx, p, view, 0, inputs, view)
  {
    assert tx.vin[..0] == [];
  }

  lemma MarkingStep(rules: Rules, inputs: map<Hash, Prev>, tx: Tx, p: TxPos, view: Index, i: nat,
                    fetched: map<Hash, Prev>, db: Index, queued: Index)
    requires Marking(rules, inputs, tx, p, view, i, fetched, db + queued) && i < |tx.vin|
    requires tx.vin[i].hash in inputs && tx.vin[i].n < |inputs[tx.vin[i].hash].index.spent|
    ensures
      var o := tx.vin[i];
      && o.hash in fetched && o.n < |fetched[o.hash].index.spent|
      && var record := fetched[o.hash].index;
         var record' := record.(spent := record.spent[o.n := p]);
         if record.spent[o.n].NullPos? && rules.signatureOk(tx, o, fetched[o.hash].tx) then
           Marking(rules, inputs, tx, p, view, i + 1, fetched[o.hash := Prev(record', fetched[o.hash].tx)],
                   db + queued[o.hash := record'])
         else !(SignaturesOk(rules, inputs, tx, tx.vin) && SpendAll(view, tx.vin, p).Some?)
  {
    hide SpendAll, Synced, SignaturesOk, Mark;
    var o := tx.vin[i];
    SyncedAt(fetched, inputs, db + queued, o);
    SpendStep(view, tx.vin, p, i);
    SignaturesStep(rules, inputs, tx, tx.vin, i);
    SyncedStep(fetched, inputs, db, queued, o, p);
  }

  lemma MarkingEnd(rules: Rules, inputs: map<Hash, Prev>, tx: Tx, p: TxPos, view: Index, fetched: map<Hash, Prev>, now: Index)
    requires Marking(rules, inputs, tx, p, view, |tx.vin|, fetched, now)
    ensures SignaturesOk(rules, inputs, tx, tx.vin) && SpendAll(view, tx.vin, p) == Some(now)
  {
    hide SpendAll, Synced, SignaturesOk;
    assert tx.vin[..|tx.vin|] == tx.vin;
  }

  /** The spending loop of `ConnectInputs`: marks are kept in `fetched` and written to the queue. */
  method MarkInputs(rules: Rules, inputs: map<Hash, Prev>, queued: Index, tx: Tx, p: TxPos, ghost db: Index)
    returns (ok: bool, queued': Index)
    requires forall i :: 0 <= i < |tx.vin| ==> tx.vin[i].hash in inputs
                                               && tx.vin[i].n < |inputs[tx.vin[i].hash].index.spent|
    requires forall h :: h in inputs ==> h in db + queued && inputs[h].index == (db + queued)[h]
    ensures ok <==> SignaturesOk(rules, inputs, tx, tx.vin) && SpendAll(db + queued, tx.vin, p).Some?
    ensures ok ==> db + queued' == SpendAll(db + queued, tx.vin, p).value
  {
    hide SpendAll, SignaturesOk, Marking;
    queued' := queued;
    var fetched := inputs;
    ghost var view := db + queued;
    var i := 0;
    MarkingStart(rules, inputs, tx, p, view);
    while i < |tx.vin|
      invariant 0 <= i <= |tx.vin| && Marking(rules, inputs, tx, p, view, i, fetched, db + queued')
    {
      var o := tx.vin[i];
      MarkingStep(rules, inputs, tx, p, view, i, fetched, db, queued');
      var record := fetched[o.hash].index;
      if !record.spent[o.n].NullPos? || !rules.signatureOk(tx, o, fetched[o.hash].tx) {
        return false, queued;
      }
      record := record.(spent := record.spent[o.n := p]);
      fetched := fetched[o.hash := Prev(record, fetched[o.hash].tx)];
      queued' := queued'[o.hash := record];
      i := i + 1;
    }
    MarkingEnd(rules, inputs, tx, p, view, fetched, db + queued');
    ok := true;
  }

  method ConnectInputs(rules: Rules, inputs: map<Hash, Prev>, queued: Index, tx: Tx, p: TxPos, claim: int,
                       ghost db: Index) returns (ok: bool, queued': Index)
    requires forall i :: 0 <= i < |tx.vin| ==> tx.vin[i].hash in inputs
    requires forall h :: h in inputs ==> h in db + queued && inputs[h].index == (db + queued)[h]
    ensures tx.IsCoinBase() ==> ok && queued' == queued
    ensures !tx.IsCoinBase() ==> (ok <==> ConnectInputsOk(rules, db + queued, inputs, tx, p, claim))
    ensures !tx.IsCoinBase() && ok ==> db + queued' == SpendAll(db + queued, tx.vin, p).value
  {
    if tx.IsCoinBase() {
      return true, queued;
    }
    var valueIn;
    ok, valueIn := CheckInputs(rules, inputs, tx);
    if !ok {
      return false, queued;
    }
    ok, queued' := MarkInputs(rules, inputs, queued, tx, p, db);
    if !ok || !BalanceOk(rules, tx, valueIn, claim) {
      return false, queued;
    }
  }

  // ------------------------------------------------------------ ConnectBlock

  /** `CheckClaim`: a claim output must be the only output of a one-input transaction. */
  predicate ClaimShapeOk(tx: Tx) {
    (exists i :: 0 <= i < |tx.vout| && tx.vout[i].claim.Some?) ==> |tx.vin| == 1 && |tx.vout| == 1
  }

  function Claim(tx: Tx): int {
    if |tx.vin| == 1 && |tx.vout| == 1 && tx.vout[0].claim.Some? then tx.vout[0].claim.value else 0
  }

  predicate NoBaseOrStake(b: Block) {
    forall tx :: tx in b.vtx ==> !tx.IsCoinBase() && !tx.IsCoinStake()
  }

  /** The part of `CheckBlock` that fixes which transactions may create coins. */
  predicate ShapeOk(b: Block, fork: int) {
    if fork >= FORK_QPOS then b.qpos && NoBaseOrStake(b)
    else |b.vtx| > 0 && b.vtx[0].IsCoinBase() && forall i :: 1 <= i < |b.vtx| ==> !b.vtx[i].IsCoinBase()
  }

  predicate IsProofOfWork(b: Block) {
    !b.qpos && !(|b.vtx| > 1 && b.vtx[1].IsCoinStake())
  }

  /** Running totals of `ConnectBlock`; `view` is the index with the queued changes on top. */
  datatype Tally = Tally(
    view: Index, valueIn: int, valueOut: int, purchases: int, claims: int, fees: int, sigOps: nat)

  function NoTotals(db: Index): Tally {
    Tally(db, 0, 0, 0, 0, 0, 0)
  }

  function FetchedOf(view: Index, src: Source, vin: seq<OutPoint>): map<Hash, Prev>
    requires forall o :: o in vin ==> Lookup(view, src, true, o.hash).Some?
  {
    map h | h in (set o | o in vin :: o.hash) :: Lookup(view, src, true, h).value
  }

  predicate Fetchable(view: Index, src: Source, vin: seq<OutPoint>) {
    forall o :: o in vin ==> Lookup(view, src, true, o.hash).Some? && InRange(Lookup(view, src, true, o.hash).value, o.n)
  }

  predicate QposOk(rules: Rules, fork: int, tx: Tx) {
    tx.IsCoinStake() || (ClaimShapeOk(tx) && rules.claimOk(tx) && rules.purchaseOk(tx, fork))
  }

  /** The claim that counts towards the balance: a coinstake's is not looked at. */
  function BlockClaim(tx: Tx): int {
    if tx.IsCoinStake() then 0 else Claim(tx)
  }

  function AddTotals(t: Tally, view: Index, tx: Tx, valueIn: int): Tally {
    var stake := tx.IsCoinStake();
    Tally(view, t.valueIn + valueIn, t.valueOut + ValueOut(tx.vout),
          t.purchases + (if stake then 0 else tx.purchases),
          t.claims + BlockClaim(tx),
          t.fees + (if stake then 0 else valueIn - (ValueOut(tx.vout) + tx.purchases)), t.sigOps)
  }

  /** A transaction that is not a coinbase: fetch, check, spend, and add to the totals. */
  function TallySpend(rules: Rules, src: Source, fork: int, t: Tally, tx: Tx, p: TxPos): Option<Tally> {
    if !Fetchable(t.view, src, tx.vin) || !QposOk(rules, fork, tx) then None
    else
      var inputs := FetchedOf(t.view, src, tx.vin);
      var sigOps := t.sigOps + rules.p2shSigOps(tx, inputs);
      if sigOps > MAX_BLOCK_SIGOPS || !ConnectInputsOk(rules, t.view, inputs, tx, p, BlockClaim(tx)) then None
      else Some(AddTotals(t.(sigOps := sigOps), SpendAll(t.view, tx.vin, p).value, tx, ValueIn(inputs, tx.vin) + Claim(tx)))
  }

  /** The legacy count of signature operations is added before anything is fetched. */
  function TallyTx(rules: Rules, src: Source, fork: int, t: Tally, tx: Tx, p: TxPos): Option<Tally> {
    var u := t.(sigOps := t.sigOps + tx.sigOps);
    if u.sigOps > MAX_BLOCK_SIGOPS then None
    else
      var s :- if tx.IsCoinBase() then Some(u.(valueOut := u.valueOut + ValueOut(tx.vout)))
               else TallySpend(rules, src, fork, u, tx, p);
      Some(s.(view := s.view[tx.id := FreshRecord(p, |tx.vout|)]))
  }

  function TallyTxs(rules: Rules, src: Source, fork: int, db: Index, b: Block, n: nat): Option<Tally>
    requires n <= |b.vtx|
  {
    if n == 0 then Some(NoTotals(db))
    else
      var t :- TallyTxs(rules, src, fork, db, b, n - 1);
      TallyTx(rules, src, fork, t, b.vtx[n - 1], PosOf(b, n - 1))
  }

  datatype Connected = Connected(index: Index, mint: int, supply: int)

  function Mint(b: Block, t: Tally): int {
    t.valueOut + t.purchases + (if IsProofOfWork(b) then 0 else t.fees) - (t.valueIn - t.claims)
  }

  function Supply(prevSupply: int, fork: int, t: Tally): int {
    prevSupply + t.valueOut - ((if fork >= FORK_PURCHASE3 then 0 else t.purchases) + t.valueIn - t.claims)
  }

  /** `ConnectBlock`: the fork comes from the best height, not from the block. */
  function Connect(rules: Rules, src: Source, db: Index, b: Block, bestHeight: int, prevSupply: int): Option<Connected> {
    var fork := rules.fork(bestHeight + 1);
    if !rules.blockOk(b, bestHeight) || !ShapeOk(b, rules.fork(b.height)) || !IdsAdmissible(db, b.vtx) then None
    else
      var t :- TallyTxs(rules, src, fork, db, b, |b.vtx|);
      Some(Connected(t.view, Mint(b, t), Supply(prevSupply, fork, t)))
  }

  lemma TallyPrefix(rules: Rules, src: Source, fork: int, db: Index, b: Block, i: nat, n: nat)
    requires i <= n <= |b.vtx| && TallyTxs(rules, src, fork, db, b, n).Some?
    ensures TallyTxs(rules, src, fork, db, b, i).Some?
  {
  }

  lemma TallyNext(rules: Rules, src: Source, fork: int, db: Index, b: Block, i: nat, t: Tally)
    requires i < |b.vtx| && TallyTxs(rules, src, fork, db, b, i) == Some(t)
    ensures TallyTxs(rules, src, fork, db, b, i + 1) == TallyTx(rules, src, fork, t, b.vtx[i], PosOf(b, i))
    ensures TallyTx(rules, src, fork, t, b.vtx[i], PosOf(b, i)).None? ==>
              TallyTxs(rules, src, fork, db, b, |b.vtx|).None?
  {
    if TallyTxs(rules, src, fork, db, b, |b.vtx|).Some? {
      TallyPrefix(rules, src, fork, db, b, i + 1, |b.vtx|);
    }
  }

  lemma FetchedAgrees(view: Index, src: Source, vin: seq<OutPoint>, r: Fetch)
    requires FetchSpec(view, src, true, vin, r)
    ensures r.Fetched? <==> Fetchable(view, src, vin)
    ensures r.Fetched? ==> r.inputs == FetchedOf(view, src, vin)
    ensures r.Fetched? ==> forall h :: h in r.inputs ==> h in view && r.inputs[h].index == view[h]
    ensures r.Fetched? ==> forall i :: 0 <= i < |vin| ==> vin[i].hash in r.inputs
  {
    if r.Fetched? {
      forall h | h in r.inputs ensures Lookup(view, src, true, h) == Some(r.inputs[h]) {
        var o :| o in vin && o.hash == h;
      }
    }
  }

  /** Fetch and spend for one transaction that is not a coinbase. */
  method SpendTransaction(rules: Rules, src: Source, fork: int, db: Index, queued: Index, t: Tally, tx: Tx, p: TxPos)
    returns (ok: bool, queued': Index, t': Tally)
    requires t.view == db + queued && !tx.IsCoinBase()
    ensures ok <==> TallySpend(rules, src, fork, t, tx, p).Some?
    ensures ok ==> t' == TallySpend(rules, src, fork, t, tx, p).value && t'.view == db + queued'
  {
    hide Lookup, ValueIn, SpendAll, QposOk, Fetchable, FetchedOf, FetchSpec, Claim, SignaturesOk, BalanceOk, ValueOut;
    queued', t' := queued, t;
    var fetch := FetchInputs(db, queued, src, true, tx);
    FetchedAgrees(db + queued, src, tx.vin, fetch);
    if !fetch.Fetched? {
      return false, queued, t;
    }
    var sigOps := t.sigOps + rules.p2shSigOps(tx, fetch.inputs);
    if sigOps > MAX_BLOCK_SIGOPS || !QposOk(rules, fork, tx) {
      return false, queued, t;
    }
    ok, queued' := ConnectInputs(rules, fetch.inputs, queued, tx, p, BlockClaim(tx), db);
    if ok {
      t' := AddTotals(t.(sigOps := sigOps), db + queued', tx, ValueIn(fetch.inputs, tx.vin) + Claim(tx));
    }
  }

  /** One turn of the `ConnectBlock` loop, on the queue of index changes. */
  method ConnectTransaction(rules: Rules, src: Source, fork: int, db: Index, queued: Index, t: Tally, tx: Tx, p: TxPos)
    returns (ok: bool, queued': Index, t': Tally)
    requires t.view == db + queued
    ensures ok <==> TallyTx(rules, src, fork, t, tx, p).Some?
    ensures ok ==> t' == TallyTx(rules, src, fork, t, tx, p).value && t'.view == db + queued'
  {
    hide TallySpend, ValueOut;
    var u := t.(sigOps := t.sigOps + tx.sigOps);
    if u.sigOps > MAX_BLOCK_SIGOPS {
      return false, queued, t;
    }
    queued', t' := queued, u;
    if tx.IsCoinBase() {
      ok, t' := true, u.(valueOut := u.valueOut + ValueOut(tx.vout));
    } else {
      ok, queued', t' := SpendTransaction(rules, src, fork, db, queued, u, tx, p);
    }
    if ok {
      var record := FreshRecord(p, |tx.vout|);
      assert db + queued'[tx.id := record] == (db + queued')[tx.id := record];
      queued' := queued'[tx.id := record];
      t' := t'.(view := db + queued');
    }
  }

  /** The loop over the transactions of a block. */
  method ConnectTransactions(rules: Rules, src: Source, fork: int, db: Index, b: Block)
    returns (r: Option<Tally>)
    ensures (forall i :: 0 <= i < |b.vtx| ==> Overwritable(db, b.vtx[i].id)) ==>
              r == TallyTxs(rules, src, fork, db, b, |b.vtx|)
    ensures r.Some? ==> forall i :: 0 <= i < |b.vtx| ==> Overwritable(db, b.vtx[i].id)
  {
    hide TallyTx, Overwritable;
    var queued: Index := map[];
    var t := NoTotals(db);
    assert db + queued == db;
    var i := 0;
    while i < |b.vtx|
      invariant 0 <= i <= |b.vtx|
      invariant forall k :: 0 <= k < i ==> Overwritable(db, b.vtx[k].id)
      invariant t.view == db + queued && TallyTxs(rules, src, fork, db, b, i) == Some(t)
    {
      if !Overwritable(db, b.vtx[i].id) {
        return None;
      }
      TallyNext(rules, src, fork, db, b, i, t);
      var ok;
      ok, queued, t := ConnectTransaction(rules, src, fork, db, queued, t, b.vtx[i], PosOf(b, i));
      if !ok {
        return None;
      }
      i := i + 1;
    }
    return Some(t);
  }

  method ConnectBlock(rules: Rules, src: Source, db: Index, b: Block, bestHeight: int, prevSupply: int)
    returns (r: Option<Connected>)
    ensures r == Connect(rules, src, db, b, bestHeight, prevSupply)
  {
    if !rules.blockOk(b, bestHeight) || !ShapeOk(b, rules.fork(b.height)) {
      return None;
    }
    if exists i, j :: 0 <= i < j < |b.vtx| && b.vtx[i].id == b.vtx[j].id {
      return None;
    }
    var fork := rules.fork(bestHeight + 1);
    var t := ConnectTransactions(rules, src, fork, db, b);
    if t.None? {
      return None;
    }
    return Some(Connected(t.value.view, Mint(b, t.value), Supply(prevSupply, fork, t.value)));
  }

  // ------------------------------------- the index after a block, and totals

  lemma {:induction false} TallyView(rules: Rules, src: Source, fork: int, db: Index, b: Block, n: nat)
    requires n <= |b.vtx| && TallyTxs(rules, src, fork, db, b, n).Some?
    ensures ConnectTxs(db, b, n) == Some(TallyTxs(rules, src, fork, db, b, n).value.view)
  {
    hide TallyTx, ConnectTx, PosOf;
    if n > 0 {
      TallyView(rules, src, fork, db, b, n - 1);
      TallyTxView(rules, src, fork, TallyTxs(rules, src, fork, db, b, n - 1).value, b.vtx[n - 1], PosOf(b, n - 1));
    }
  }

  lemma TallyTxView(rules: Rules, src: Source, fork: int, t: Tally, tx: Tx, p: TxPos)
    requires TallyTx(rules, src, fork, t, tx, p).Some?
    ensures ConnectTx(t.view, tx, p) == Some(TallyTx(rules, src, fork, t, tx, p).value.view)
  {
    hide SpendAll, ValueOut, ValueIn, Fetchable, FetchedOf, QposOk, InputsOk, SignaturesOk, BalanceOk, Claim, FreshRecord;
  }

  /** Whatever the rules and the fork were, a connected block changes the index by `Apply` alone. */
  lemma ConnectApplies(rules: Rules, src: Source, db: Index, b: Block, bestHeight: int, prevSupply: int)
    requires Connect(rules, src, db, b, bestHeight, prevSupply).Some?
    ensures Apply(db, b) == Some(Connect(rules, src, db, b, bestHeight, prevSupply).value.index)
  {
    TallyView(rules, src, rules.fork(bestHeight + 1), db, b, |b.vtx|);
  }
}
